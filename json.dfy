/** A JSON value with the lookup rules of serde_json's `Value`:
    indexing by a key or by a position never fails and yields `Null`
    when the key is missing, the index is out of range or the value has
    the wrong shape; `as_array` and `as_str` are partial. */
module Json {
  import opened Wrappers

  datatype Json =
    | Null
    | Bool(b: bool)
    | Num(n: int)
    | Str(s: string)
    | Arr(items: seq<Json>)
    | Obj(fields: map<string, Json>)
  {
    /** `value[key]` */
    function Key(key: string): (r: Json)
      ensures this.Obj? && key in this.fields ==> r == this.fields[key]
      ensures !(this.Obj? && key in this.fields) ==> r == Null
    {
      if Obj? && key in fields then fields[key] else Null
    }

    /** `value[i]` */
    function Index(i: nat): (r: Json)
      ensures this.Arr? && i < |this.items| ==> r == this.items[i]
      ensures !(this.Arr? && i < |this.items|) ==> r == Null
    {
      if Arr? && i < |items| then items[i] else Null
    }

    /** `value.as_array()` */
    function AsArray(): (r: Option<seq<Json>>)
      ensures r.Some? <==> this.Arr?
      ensures r.Some? ==> r.value == this.items
    {
      if Arr? then Some(items) else None
    }

    /** `value.as_str()` */
    function AsStr(): (r: Option<string>)
      ensures r.Some? <==> this.Str?
      ensures r.Some? ==> r.value == this.s
    {
      if Str? then Some(s) else None
    }
  }
}
