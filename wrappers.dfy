// Optional values. JavaScript's `undefined`, `null` and `Infinity` bounds are
// all written as `None` in this model.
module Wrappers {
  datatype Option<T> = None | Some(value: T)
  {
    predicate IsSome() { Some? }

    function GetOr(default: T): (r: T)
      ensures Some? ==> r == value
      ensures None? ==> r == default
    {
      match this
      case Some(v) => v
      case None => default
    }
  }

  /** An element of a non-empty set, for specifications. */
  ghost function Pick<T>(s: set<T>): (x: T)
    requires s != {}
    ensures x in s
  {
    HasElement(s);
    var x :| x in s; x
  }

  /** An element of a non-empty set, for code that removes the elements one at a time. */
  method Choose<T>(s: set<T>) returns (x: T)
    requires s != {}
    ensures x in s
  {
    HasElement(s);
    x :| x in s;
  }

  lemma HasElement<T>(s: set<T>)
    requires s != {}
    ensures exists x :: x in s
  {
    if !exists x :: x in s { assert false; }
  }

  /** Membership in a sequence split before its last element. */
  lemma InLast<T>(s: seq<T>, x: T)
    requires |s| > 0
    ensures x in s <==> x in s[..|s| - 1] || x == s[|s| - 1]
  {
    assert s == s[..|s| - 1] + [s[|s| - 1]];
  }

  /** Membership in a sequence extended by one element or by nothing. */
  lemma InSnoc<T>(a: seq<T>, y: T, keep: bool, x: T)
    ensures x in a + (if keep then [y] else []) <==> x in a || (keep && x == y)
  {
  }
}
