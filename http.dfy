/** What the core sends over HTTP, kept as plain values: the URL and the
    headers of a GET request. Sending it is left to the outside world. */
module Http {

  /** An octet of a response body or of a file's contents. */
  newtype Byte = x: int | 0 <= x < 256

  datatype Request = Get(url: string, headers: seq<(string, string)>)
}
