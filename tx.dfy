/** The playlist client (`TXPlayList`): the request it sends for a
    playlist and how it reads the songs out of the JSON reply. */
module Tx {
  import opened Wrappers
  import opened Json
  import opened Http
  import Text

  /** Rust's `i64`, the type of a playlist id. */
  newtype Int64 = x: int | -0x8000_0000_0000_0000 <= x < 0x8000_0000_0000_0000

  /** A track of the playlist: its display name and its provider track id. */
  datatype Song = Song(name: string, id: string)

  /** A fetched playlist: the id it was requested by and its songs in reply order. */
  datatype PlayList = PlayList(id: Int64, songList: seq<Song>)

  /** Why building a playlist fails. In the source the last three are
      `unwrap` calls that panic; here they are returned. */
  datatype Error =
    | Transport               // building the client, sending, reading the body or parsing it as JSON
    | SongListNotArray        // `cdlist[0].songlist` is not an array
    | NameNotString(index: nat)   // entry `index` has no string `name`
    | MidNotString(index: nat)    // entry `index` has a string `name` but no string `mid`

  /** `Song::new` */
  function NewSong(name: string, id: string): (s: Song)
    ensures s.name == name && s.id == id
  {
    Song(name, id)
  }

  const RefererPrefix := "https://y.qq.com/n/yqq/playsquare/"
  const RefererSuffix := ".html"
  const ApiUrlPrefix := "https://c.y.qq.com/qzone/fcg-bin/fcg_ucc_getcdinfo_byids_cp.fcg?type=1&json=1&utf8=1&onlysong=0&new_format=1&disstid="
  const ApiUrlSuffix := "&loginUin=0&hostUin=0&format=json&inCharset=utf8&outCharset=utf-8&notice=0&platform=yqq.json&needNewCode=0"

  /** `get_referer`: the playlist's page on the provider's site. */
  function Referer(id: Int64): string {
    RefererPrefix + Text.Decimal(id as int) + RefererSuffix
  }

  /** `get_origin` */
  function Origin(): string {
    "https://y.qq.com"
  }

  /** `get_api_url`: the playlist-detail endpoint, the id as `disstid`. */
  function ApiUrl(id: Int64): string {
    ApiUrlPrefix + Text.Decimal(id as int) + ApiUrlSuffix
  }

  /** The playlist id that a Referer value names, read back from it. */
  function RefererPlaylist(referer: string): Option<int> {
    match Text.StripAffixes(referer, RefererPrefix, RefererSuffix)
    case None => None
    case Some(middle) => Text.ParseInt(middle)
  }

  /** The playlist id that a playlist-detail URL asks for, read back from it. */
  function ApiUrlPlaylist(url: string): Option<int> {
    match Text.StripAffixes(url, ApiUrlPrefix, ApiUrlSuffix)
    case None => None
    case Some(middle) => Text.ParseInt(middle)
  }

  /** The Referer names exactly the requested playlist. */
  lemma RefererRoundTrip(id: Int64)
    ensures RefererPlaylist(Referer(id)) == Some(id as int)
  {
    Text.StripAffixesInverse(RefererPrefix, Text.Decimal(id as int), RefererSuffix);
    Text.DecimalRoundTrip(id as int);
  }

  /** The detail URL asks for exactly the requested playlist, so distinct
      ids give distinct URLs. */
  lemma ApiUrlRoundTrip(id: Int64)
    ensures ApiUrlPlaylist(ApiUrl(id)) == Some(id as int)
  {
    Text.StripAffixesInverse(ApiUrlPrefix, Text.Decimal(id as int), ApiUrlSuffix);
    Text.DecimalRoundTrip(id as int);
  }

  lemma ApiUrlInjective(a: Int64, b: Int64)
    ensures ApiUrl(a) == ApiUrl(b) ==> a == b
  {
    ApiUrlRoundTrip(a);
    ApiUrlRoundTrip(b);
  }

  /** The request `TXPlayList::new` sends for playlist `id`. */
  function PlayListRequest(id: Int64): (r: Request)
    ensures ApiUrlPlaylist(r.url) == Some(id as int)
    ensures r.headers == [("Referer", Referer(id)), ("Origin", Origin())]
    ensures RefererPlaylist(r.headers[0].1) == Some(id as int)
  {
    ApiUrlRoundTrip(id);
    RefererRoundTrip(id);
    Get(ApiUrl(id), [("Referer", Referer(id)), ("Origin", Origin())])
  }

  /** `json["cdlist"][0]["songlist"].as_array()` */
  function SongEntries(json: Json): Option<seq<Json>> {
    json.Key("cdlist").Index(0).Key("songlist").AsArray()
  }

  /** An entry the loop turns into a song: it has a string `name` and a string `mid`. */
  predicate WellFormed(entry: Json) {
    entry.Key("name").Str? && entry.Key("mid").Str?
  }

  /** The song of the entry at position `index`: its name is read first,
      then its `mid`; either missing or not a string fails. */
  function EntrySong(entry: Json, index: nat): (r: Result<Song, Error>)
    ensures r.Ok? <==> WellFormed(entry)
    ensures r.Ok? ==> r.value.name == entry.fields["name"].s && r.value.id == entry.fields["mid"].s
    ensures r.Err? ==> r.error == if entry.Key("name").Str? then MidNotString(index) else NameNotString(index)
  {
    match entry.Key("name").AsStr()
    case None => Err(NameNotString(index))
    case Some(name) =>
      match entry.Key("mid").AsStr()
      case None => Err(MidNotString(index))
      case Some(mid) => Ok(NewSong(name, mid))
  }

  /** The songs of `entries` in order, or the error of the first entry
      that fails. */
  function ExtractSongs(entries: seq<Json>): Result<seq<Song>, Error>
    decreases |entries|
  {
    if |entries| == 0 then Ok([])
    else
      match ExtractSongs(entries[..|entries| - 1])
      case Err(e) => Err(e)
      case Ok(songs) =>
        match EntrySong(entries[|entries| - 1], |entries| - 1)
        case Err(e) => Err(e)
        case Ok(song) => Ok(songs + [song])
  }

  /** What `TXPlayList::new(id)` returns for the parsed reply `response`
      (`None` when no JSON reply was obtained). */
  function Extract(id: Int64, response: Option<Json>): Result<PlayList, Error> {
    match response
    case None => Err(Transport)
    case Some(json) =>
      match SongEntries(json)
      case None => Err(SongListNotArray)
      case Some(entries) =>
        match ExtractSongs(entries)
        case Err(e) => Err(e)
        case Ok(songs) => Ok(PlayList(id, songs))
  }

  /** Once a prefix of the entries fails, every longer prefix fails the same way. */
  lemma {:induction false} ExtractSongsFailureSticks(entries: seq<Json>, i: nat, j: nat)
    requires i <= j <= |entries|
    requires ExtractSongs(entries[..i]).Err?
    ensures ExtractSongs(entries[..j]) == ExtractSongs(entries[..i])
    decreases j - i
  {
    if i < j {
      assert entries[..i + 1][..i] == entries[..i];
      ExtractSongsFailureSticks(entries, i + 1, j);
    }
  }

  /** `TXPlayList::new`: the songs are collected by a loop that pushes one
      song per entry and stops at the first entry that fails. */
  method NewPlayList(id: Int64, response: Option<Json>) returns (r: Result<PlayList, Error>)
    ensures r == Extract(id, response)
  {
    if response.None? {
      return Err(Transport);
    }
    var entries := SongEntries(response.value);
    if entries.None? {
      return Err(SongListNotArray);
    }
    var cdList := entries.value;
    var songList: seq<Song> := [];
    var i := 0;
    while i < |cdList|
      invariant 0 <= i <= |cdList|
      invariant ExtractSongs(cdList[..i]) == Ok(songList)
    {
      assert cdList[..i + 1][..i] == cdList[..i];
      var name := cdList[i].Key("name").AsStr();
      if name.None? {
        ExtractSongsFailureSticks(cdList, i + 1, |cdList|);
        assert cdList[..|cdList|] == cdList;
        return Err(NameNotString(i));
      }
      var mid := cdList[i].Key("mid").AsStr();
      if mid.None? {
        ExtractSongsFailureSticks(cdList, i + 1, |cdList|);
        assert cdList[..|cdList|] == cdList;
        return Err(MidNotString(i));
      }
      songList := songList + [NewSong(name.value, mid.value)];
      i := i + 1;
    }
    assert cdList[..|cdList|] == cdList;
    return Ok(PlayList(id, songList));
  }

  /** The entries convert exactly when every one of them has a string
      `name` and a string `mid`; then there is one song per entry, in
      entry order, named by `name` and identified by `mid`. */
  lemma {:induction false} ExtractSongsOk(entries: seq<Json>)
    ensures ExtractSongs(entries).Ok? <==> forall i :: 0 <= i < |entries| ==> WellFormed(entries[i])
    ensures ExtractSongs(entries).Ok? ==>
      var songs := ExtractSongs(entries).value;
      && |songs| == |entries|
      && forall i :: 0 <= i < |entries| ==>
           songs[i] == Song(entries[i].fields["name"].s, entries[i].fields["mid"].s)
    decreases |entries|
  {
    if |entries| > 0 {
      var n := |entries| - 1;
      var front := entries[..n];
      ExtractSongsOk(front);
      assert forall i :: 0 <= i < n ==> front[i] == entries[i];
    }
  }

  /** A failure names the first entry that is not well formed, and says
      which of its two fields was wrong. */
  lemma {:induction false} ExtractSongsErr(entries: seq<Json>)
    ensures ExtractSongs(entries).Err? ==>
      match ExtractSongs(entries).error
      case NameNotString(k) =>
        k < |entries| && (forall i :: 0 <= i < k ==> WellFormed(entries[i])) && !entries[k].Key("name").Str?
      case MidNotString(k) =>
        k < |entries| && (forall i :: 0 <= i < k ==> WellFormed(entries[i]))
        && entries[k].Key("name").Str? && !entries[k].Key("mid").Str?
      case _ => false
    decreases |entries|
  {
    if |entries| > 0 {
      var n := |entries| - 1;
      var front := entries[..n];
      ExtractSongsErr(front);
      ExtractSongsOk(front);
      assert forall i :: 0 <= i < n ==> front[i] == entries[i];
    }
  }

  /** On success the playlist carries the requested id and one song per
      entry of `cdlist[0].songlist`, in order, taken from `name` and
      `mid`; it succeeds exactly when that path is an array whose every
      entry has both strings. An empty song list gives an empty playlist. */
  lemma ExtractOk(id: Int64, json: Json)
    ensures Extract(id, Some(json)).Ok? <==>
      json.Key("cdlist").Index(0).Key("songlist").Arr?
      && forall i :: 0 <= i < |json.Key("cdlist").Index(0).Key("songlist").items| ==>
           WellFormed(json.Key("cdlist").Index(0).Key("songlist").items[i])
    ensures Extract(id, Some(json)).Ok? ==>
      var entries := json.Key("cdlist").Index(0).Key("songlist").items;
      var p := Extract(id, Some(json)).value;
      && p.id == id
      && |p.songList| == |entries|
      && forall i :: 0 <= i < |entries| ==>
           p.songList[i] == Song(entries[i].fields["name"].s, entries[i].fields["mid"].s)
    ensures json.Key("cdlist").Index(0).Key("songlist") == Arr([]) ==>
      Extract(id, Some(json)) == Ok(PlayList(id, []))
  {
    if SongEntries(json).Some? {
      ExtractSongsOk(SongEntries(json).value);
    }
  }

  /** The shape failures: no `cdlist`, a `cdlist` that is not an array or
      is empty, or a first element whose `songlist` is not an array, all
      fail as `SongListNotArray`, because each missing step reads as `Null`. */
  lemma ExtractShapeFailure(id: Int64, json: Json)
    ensures !json.Key("cdlist").Arr? ==> Extract(id, Some(json)) == Err(SongListNotArray)
    ensures json.Key("cdlist") == Arr([]) ==> Extract(id, Some(json)) == Err(SongListNotArray)
    ensures (Extract(id, Some(json)) == Err(SongListNotArray)) <==> !json.Key("cdlist").Index(0).Key("songlist").Arr?
  {
    if SongEntries(json).Some? {
      ExtractSongsErr(SongEntries(json).value);
    }
  }

  /** If any entry lacks a string `name` or `mid`, no playlist at all is
      returned: there is no partial list. */
  lemma ExtractAllOrNothing(id: Int64, json: Json, k: nat)
    requires SongEntries(json).Some? && k < |SongEntries(json).value|
    requires !WellFormed(SongEntries(json).value[k])
    ensures Extract(id, Some(json)).Err?
    ensures Extract(id, Some(json)).error.NameNotString? || Extract(id, Some(json)).error.MidNotString?
    ensures Extract(id, Some(json)).error.index <= k
  {
    ExtractSongsOk(SongEntries(json).value);
    ExtractSongsErr(SongEntries(json).value);
  }
}
