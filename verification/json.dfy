/**
  A decoded JSON document, as `encoding/json` hands it to Go code that
  decodes into `interface{}`: objects become string-keyed maps, arrays
  become slices, strings stay strings and numbers become float64 (here
  restricted to integer values).
 */
module Json {
  import opened Wrappers

  datatype JVal =
    | JNull
    | JBool(b: bool)
    | JNum(n: int)
    | JStr(s: string)
    | JArr(items: seq<JVal>)
    | JObj(fields: Fields)

  /** The members of an object in document order; a later member with the
      same key overrides an earlier one, as `encoding/json` does when it
      fills a Go map. */
  type Fields = seq<(string, JVal)>

  /** `m[key]` with its `ok` flag: the value of the last member named `key`. */
  function Lookup(fields: Fields, key: string): (r: Option<JVal>)
    ensures r.None? <==> forall i :: 0 <= i < |fields| ==> fields[i].0 != key
    ensures r.Some? ==>
      exists i :: 0 <= i < |fields| && fields[i] == (key, r.value) &&
        forall j :: i < j < |fields| ==> fields[j].0 != key
    decreases |fields|
  {
    if |fields| == 0 then None
    else if fields[|fields| - 1].0 == key then Some(fields[|fields| - 1].1)
    else
      var r := Lookup(fields[..|fields| - 1], key);
      assert forall i :: 0 <= i < |fields| - 1 ==> fields[..|fields| - 1][i] == fields[i];
      r
  }

  /** True when the object has a member named `key` (Go's `_, ok := m[key]`). */
  predicate Has(fields: Fields, key: string)
  {
    Lookup(fields, key).Some?
  }

  /** Members appended after others override them; otherwise the earlier
      members still answer. */
  lemma {:induction false} LookupAppend(a: Fields, b: Fields, key: string)
    ensures Lookup(a + b, key) == if Lookup(b, key).Some? then Lookup(b, key) else Lookup(a, key)
    decreases |b|
  {
    if |b| == 0 {
      assert a + b == a;
    } else {
      var ab := a + b;
      assert ab[|ab| - 1] == b[|b| - 1];
      assert ab[..|ab| - 1] == a + b[..|b| - 1];
      LookupAppend(a, b[..|b| - 1], key);
    }
  }
}
