// JSON values as the model layer serialises them, `deepEqual`, and the deep
// clones `cloneMap` / `cloneArray` of js/common.js.
module Json {
  import opened Wrappers

  /** A JSON value. An object keeps its members in insertion order, as `JSON.stringify` writes them. */
  datatype Json =
    | JNull
    | JBool(b: bool)
    | JNum(n: int)
    | JStr(s: string)
    | JArr(elems: seq<Json>)
    | JObj(members: seq<Member>)

  datatype Member = Member(key: string, value: Json)

  /** The value stored under `key` in an object's members (the first one, if repeated). */
  function Lookup(ms: seq<Member>, key: string): Option<Json>
  {
    if |ms| == 0 then None
    else if ms[0].key == key then Some(ms[0].value)
    else Lookup(ms[1..], key)
  }

  /** The lookup finds the first member with the key, and nothing when none has it. */
  lemma {:induction false} LookupFirst(ms: seq<Member>, key: string, i: nat)
    requires i <= |ms|
    requires forall j | 0 <= j < i :: ms[j].key != key
    ensures i < |ms| && ms[i].key == key ==> Lookup(ms, key) == Some(ms[i].value)
    ensures i == |ms| ==> Lookup(ms, key) == None
  {
    if i > 0 {
      LookupFirst(ms[1..], key, i - 1);
    }
  }

  /** The member `key` of `j`, when `j` is an object holding it. */
  function Field(j: Json, key: string): Option<Json>
  {
    if j.JObj? then Lookup(j.members, key) else None
  }

  /**
   * `deepEqual(a, b)`: the references are equal or the two `JSON.stringify`
   * texts are. On a JSON tree whose members keep their order, equal texts are
   * equal trees, so the comparison is structural equality.
   */
  predicate DeepEqual(a: Json, b: Json)
  {
    a == b
  }

  /** `cloneMap`: copy an object member by member, cloning nested arrays and objects. */
  method CloneMap(ms: seq<Member>) returns (r: seq<Member>)
    ensures r == ms
    ensures DeepEqual(JObj(r), JObj(ms))
    decreases ms, 1
  {
    r := ms;
    var i := 0;
    while i < |r|
      invariant 0 <= i <= |r|
      invariant r == ms
    {
      var v := r[i].value;
      if v.JArr? {
        var c := CloneArray(v.elems);
        r := r[i := Member(r[i].key, JArr(c))];
      } else if v.JObj? {
        var c := CloneMap(v.members);
        r := r[i := Member(r[i].key, JObj(c))];
      }
      i := i + 1;
    }
  }

  /** `cloneArray`: copy an array element by element, cloning nested arrays and objects. */
  method CloneArray(es: seq<Json>) returns (r: seq<Json>)
    ensures r == es
    ensures DeepEqual(JArr(r), JArr(es))
    decreases es, 1
  {
    r := es;
    var i := 0;
    while i < |r|
      invariant 0 <= i <= |r|
      invariant r == es
    {
      var v := r[i];
      if v.JArr? {
        var c := CloneArray(v.elems);
        r := r[i := JArr(c)];
      } else if v.JObj? {
        var c := CloneMap(v.members);
        r := r[i := JObj(c)];
      }
      i := i + 1;
    }
  }
}
