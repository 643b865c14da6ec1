/** Parsed JSON values, as returned by `json.load` and by the survey API. */
module Json {
  import opened Wrappers

  /**
   * A JSON object keeps its fields in document (iteration) order. Repeated keys are not
   * merged: the model reads the fields as listed.
   */
  datatype Json =
    | Null
    | Bool(b: bool)
    | Num(n: real)
    | Str(s: string)
    | Arr(items: seq<Json>)
    | Obj(fields: seq<(string, Json)>)

  predicate HasKey(fields: seq<(string, Json)>, key: string) {
    exists i :: 0 <= i < |fields| && fields[i].0 == key
  }

  /** `obj.get(key)`: the value of the first field named `key`. */
  function Lookup(fields: seq<(string, Json)>, key: string): (r: Option<Json>)
    ensures r.Some? <==> HasKey(fields, key)
    ensures r.Some? ==> exists i :: 0 <= i < |fields| && fields[i] == (key, r.value)
  {
    if |fields| == 0 then None
    else if fields[0].0 == key then Some(fields[0].1)
    else
      var r := Lookup(fields[1..], key);
      assert HasKey(fields, key) ==> HasKey(fields[1..], key) by {
        if HasKey(fields, key) {
          var i :| 0 <= i < |fields| && fields[i].0 == key;
          assert i > 0 && fields[1..][i - 1].0 == key;
        }
      }
      assert r.Some? ==> exists i :: 0 <= i < |fields| && fields[i] == (key, r.value) by {
        if r.Some? {
          var i :| 0 <= i < |fields[1..]| && fields[1..][i] == (key, r.value);
          assert fields[i + 1] == (key, r.value);
        }
      }
      r
  }
}
