// The JavaScript string operations the model layer relies on:
// `String.prototype.split` with a non-empty separator, `Array.prototype.join`,
// `trim`, `includes` and `toLowerCase`.
module Text {

  /** `sub` occurs in `s` starting at index `i`. */
  predicate OccursAt(s: string, sub: string, i: nat)
  {
    i + |sub| <= |s| && s[i..i + |sub|] == sub
  }

  /** JavaScript `s.includes(sub)`. */
  predicate Includes(s: string, sub: string)
  {
    exists i: nat | i <= |s| :: OccursAt(s, sub, i)
  }

  /** JavaScript `s.indexOf(sep, k)`: the first occurrence at or after `k`, or -1. */
  function IndexFrom(s: string, sep: string, k: nat): (r: int)
    requires |sep| > 0
    ensures r == -1 || (k <= r && OccursAt(s, sep, r))
    ensures r == -1 ==> forall j: nat :: k <= j ==> !OccursAt(s, sep, j)
    ensures r != -1 ==> forall j: nat :: k <= j < r ==> !OccursAt(s, sep, j)
    decreases |s| - k
  {
    if k + |sep| > |s| then -1
    else if s[k..k + |sep|] == sep then k
    else IndexFrom(s, sep, k + 1)
  }

  /** The first occurrence is unique: any occurrence with none before it is the one found. */
  lemma IndexFromIs(s: string, sep: string, k: nat, r: nat)
    requires |sep| > 0 && k <= r && OccursAt(s, sep, r)
    requires forall j: nat :: k <= j < r ==> !OccursAt(s, sep, j)
    ensures IndexFrom(s, sep, k) == r
  {
  }

  /** JavaScript `s.split(sep)` for a non-empty separator. */
  function Split(s: string, sep: string): (r: seq<string>)
    requires |sep| > 0
    ensures |r| >= 1
    decreases |s|
  {
    var i := IndexFrom(s, sep, 0);
    if i < 0 then [s] else [s[..i]] + Split(s[i + |sep|..], sep)
  }

  /** JavaScript `ps.join(sep)`. */
  function Join(ps: seq<string>, sep: string): string
  {
    if |ps| == 0 then ""
    else if |ps| == 1 then ps[0]
    else ps[0] + sep + Join(ps[1..], sep)
  }

  /** Joining the pieces of a split gives back the original string. */
  lemma {:induction false} JoinSplit(s: string, sep: string)
    requires |sep| > 0
    ensures Join(Split(s, sep), sep) == s
    decreases |s|
  {
    var i := IndexFrom(s, sep, 0);
    if i >= 0 {
      var rest := s[i + |sep|..];
      var t := Split(rest, sep);
      assert Split(s, sep) == [s[..i]] + t;
      JoinSplit(rest, sep);
      assert ([s[..i]] + t)[1..] == t;
      assert Join([s[..i]] + t, sep) == s[..i] + sep + Join(t, sep);
      assert s[i..i + |sep|] == sep;
      assert s == s[..i] + s[i..i + |sep|] + rest;
    }
  }

  /** No piece of a split contains the separator. */
  lemma {:induction false} SplitPiecesFree(s: string, sep: string)
    requires |sep| > 0
    ensures forall p | p in Split(s, sep) :: !Includes(p, sep)
    decreases |s|
  {
    var i := IndexFrom(s, sep, 0);
    if i < 0 {
      forall j: nat | OccursAt(s, sep, j) ensures false { }
    } else {
      var head := s[..i];
      forall j: nat | OccursAt(head, sep, j) ensures false {
        assert s[j..j + |sep|] == head[j..j + |sep|];
        assert OccursAt(s, sep, j);
      }
      SplitPiecesFree(s[i + |sep|..], sep);
    }
  }

  /** A string without the separator splits into itself. */
  lemma SplitAbsent(s: string, sep: string)
    requires |sep| > 0 && !Includes(s, sep)
    ensures Split(s, sep) == [s]
  {
    assert IndexFrom(s, sep, 0) == -1;
  }

  lemma OccursAtChar(s: string, c: char, j: nat)
    ensures OccursAt(s, [c], j) <==> j < |s| && s[j] == c
  {
    if j < |s| { assert s[j..j + 1] == [s[j]]; }
  }

  /** Splitting on one character distributes over a joint made of that character. */
  lemma {:induction false} SplitConcat(x: string, c: char, y: string)
    ensures Split(x + [c] + y, [c]) == Split(x, [c]) + Split(y, [c])
    decreases |x|
  {
    var s := x + [c] + y;
    var i := IndexFrom(x, [c], 0);
    if i < 0 {
      forall j: nat | j < |x| ensures !OccursAt(s, [c], j) {
        OccursAtChar(x, c, j);
        OccursAtChar(s, c, j);
      }
      OccursAtChar(s, c, |x|);
      IndexFromIs(s, [c], 0, |x|);
      assert s[|x| + 1..] == y;
      assert s[..|x|] == x;
    } else {
      forall j: nat | j < i ensures !OccursAt(s, [c], j) {
        OccursAtChar(x, c, j);
        OccursAtChar(s, c, j);
      }
      OccursAtChar(x, c, i);
      OccursAtChar(s, c, i);
      IndexFromIs(s, [c], 0, i);
      assert s[i + 1..] == x[i + 1..] + [c] + y;
      assert s[..i] == x[..i];
      SplitConcat(x[i + 1..], c, y);
    }
  }

  /** A prefix free of the separator only lengthens the first piece. */
  lemma SplitPrefix(a: string, c: char, y: string)
    requires forall j | 0 <= j < |a| :: a[j] != c
    ensures var r := Split(a + y, [c]); var t := Split(y, [c]);
      |r| == |t| && r[0] == a + t[0] && r[1..] == t[1..]
  {
    var i := IndexFrom(y, [c], 0);
    var s := a + y;
    if i < 0 {
      forall j: nat | j < |s| ensures !OccursAt(s, [c], j) {
        OccursAtChar(s, c, j);
        if j >= |a| { OccursAtChar(y, c, j - |a|); }
      }
      assert IndexFrom(s, [c], 0) == -1;
    } else {
      forall j: nat | j < |a| + i ensures !OccursAt(s, [c], j) {
        OccursAtChar(s, c, j);
        if j >= |a| { OccursAtChar(y, c, j - |a|); }
      }
      OccursAtChar(y, c, i);
      OccursAtChar(s, c, |a| + i);
      IndexFromIs(s, [c], 0, |a| + i);
      assert s[|a| + i + 1..] == y[i + 1..];
      assert s[..|a| + i] == a + y[..i];
    }
  }

  /** For a one-character separator, splitting undoes joining. */
  lemma {:induction false} SplitJoin(ps: seq<string>, c: char)
    requires |ps| >= 1
    requires forall k, j | 0 <= k < |ps| && 0 <= j < |ps[k]| :: ps[k][j] != c
    ensures Split(Join(ps, [c]), [c]) == ps
    decreases |ps|
  {
    var p := ps[0];
    forall j: nat | OccursAt(p, [c], j) ensures false { OccursAtChar(p, c, j); }
    SplitAbsent(p, [c]);
    if |ps| > 1 {
      var rest := Join(ps[1..], [c]);
      assert Join(ps, [c]) == p + [c] + rest;
      SplitJoin(ps[1..], c);
      SplitConcat(p, c, rest);
      assert ps == [p] + ps[1..];
    }
  }

  // ---------------------------------------------------------------------------
  // Whitespace and trimming

  /** The characters JavaScript's `trim` removes (white space and line terminators). */
  predicate IsSpace(c: char)
  {
    c == ' ' || c == '\t' || c == '\n' || c == '\r' || c == '\U{000B}' || c == '\U{000C}'
    || c == '\U{00A0}' || c == '\U{1680}' || ('\U{2000}' <= c <= '\U{200A}')
    || c == '\U{2028}' || c == '\U{2029}' || c == '\U{202F}' || c == '\U{205F}'
    || c == '\U{3000}' || c == '\U{FEFF}'
  }

  predicate AllSpace(s: string)
  {
    forall j | 0 <= j < |s| :: IsSpace(s[j])
  }

  /** Neither end of `s` is white space. */
  predicate Trimmed(s: string)
  {
    |s| == 0 || (!IsSpace(s[0]) && !IsSpace(s[|s| - 1]))
  }

  /** The index of the first non-space at or after `i`, or `|s|`. */
  function SpaceEnd(s: string, i: nat): (r: nat)
    requires i <= |s|
    ensures i <= r <= |s| && (r < |s| ==> !IsSpace(s[r]))
    ensures forall j | i <= j < r :: IsSpace(s[j])
    decreases |s| - i
  {
    if i < |s| && IsSpace(s[i]) then SpaceEnd(s, i + 1) else i
  }

  /** The index just past the last non-space of `s[lo..i]`, or `lo`. */
  function SpaceStart(s: string, lo: nat, i: nat): (r: nat)
    requires lo <= i <= |s|
    ensures lo <= r <= i && (r > lo ==> !IsSpace(s[r - 1]))
    ensures forall j | r <= j < i :: IsSpace(s[j])
  {
    if i > lo && IsSpace(s[i - 1]) then SpaceStart(s, lo, i - 1) else i
  }

  /** JavaScript `String.prototype.trim`: `s` without its leading and trailing white space. */
  function Trim(s: string): (r: string)
    ensures Trimmed(r)
    ensures exists a, b | 0 <= a <= b <= |s| :: r == s[a..b] && AllSpace(s[..a]) && AllSpace(s[b..])
  {
    var a := SpaceEnd(s, 0);
    var b := SpaceStart(s, a, |s|);
    assert a < |s| ==> b > a;
    assert AllSpace(s[..a]) by {
      forall j | 0 <= j < a ensures IsSpace(s[..a][j]) { assert s[..a][j] == s[j]; }
    }
    assert AllSpace(s[b..]) by {
      forall j | 0 <= j < |s| - b ensures IsSpace(s[b..][j]) { assert s[b..][j] == s[b + j]; }
    }
    s[a..b]
  }

  /** The trimmed core is unique: any split into space, a middle with non-space ends, and space is the one `Trim` finds. */
  lemma TrimIs(s: string, a: nat, b: nat)
    requires a <= b <= |s|
    requires forall j | 0 <= j < a :: IsSpace(s[j])
    requires forall j | b <= j < |s| :: IsSpace(s[j])
    requires a < b ==> !IsSpace(s[a]) && !IsSpace(s[b - 1])
    ensures Trim(s) == s[a..b]
  {
    if a < b {
      assert SpaceEnd(s, 0) == a;
    }
  }

  lemma TrimTrimmed(s: string)
    requires Trimmed(s)
    ensures Trim(s) == s
  {
    assert s[0..|s|] == s;
    TrimIs(s, 0, |s|);
  }

  lemma TrimLeadingSpace(c: char, x: string)
    requires IsSpace(c)
    ensures Trim([c] + x) == Trim(x)
  {
    var a := SpaceEnd(x, 0);
    var b := SpaceStart(x, a, |x|);
    var y := [c] + x;
    forall j | 0 <= j < |y| ensures y[j] == if j == 0 then c else x[j - 1] { }
    assert y[a + 1..b + 1] == x[a..b];
    TrimIs(y, a + 1, b + 1);
  }

  // ---------------------------------------------------------------------------
  // Case mapping

  /** JavaScript `toLowerCase` on one character, for ASCII and Latin-1 letters. */
  function LowerChar(c: char): (r: char)
    ensures ('A' <= c <= 'Z') ==> r as int == c as int + 32
    ensures !('A' <= c <= 'Z') && !('\U{00C0}' <= c <= '\U{00DE}' && c != '\U{00D7}') ==> r == c
  {
    if 'A' <= c <= 'Z' then (c as int + 32) as char
    else if '\U{00C0}' <= c <= '\U{00DE}' && c != '\U{00D7}' then (c as int + 32) as char
    else c
  }

  function ToLower(s: string): (r: string)
    ensures |r| == |s|
    ensures forall j | 0 <= j < |s| :: r[j] == LowerChar(s[j])
  {
    if |s| == 0 then "" else [LowerChar(s[0])] + ToLower(s[1..])
  }

  /** Lower-casing is idempotent. */
  lemma ToLowerIdempotent(s: string)
    ensures ToLower(ToLower(s)) == ToLower(s)
  {
  }

  /** The pieces that are not the empty string, in order (JavaScript `filter(str => str.length > 0)`). */
  function NonEmpty(ps: seq<string>): (r: seq<string>)
    ensures forall p | p in r :: p != "" && p in ps
    ensures forall p | p in ps && p != "" :: p in r
  {
    if |ps| == 0 then []
    else if ps[0] == "" then NonEmpty(ps[1..])
    else [ps[0]] + NonEmpty(ps[1..])
  }

  /** JavaScript `ps.map(str => str.trim())`. */
  function TrimAll(ps: seq<string>): (r: seq<string>)
    ensures |r| == |ps|
    ensures forall j | 0 <= j < |ps| :: r[j] == Trim(ps[j])
  {
    if |ps| == 0 then [] else [Trim(ps[0])] + TrimAll(ps[1..])
  }

  /** JavaScript `ps.flatMap(str => str.split(sep))`. */
  function SplitAll(ps: seq<string>, sep: string): (r: seq<string>)
    requires |sep| > 0
    ensures |r| >= |ps|
  {
    if |ps| == 0 then [] else Split(ps[0], sep) + SplitAll(ps[1..], sep)
  }

  lemma {:induction false} SplitAllAppend(a: seq<string>, b: seq<string>, sep: string)
    requires |sep| > 0
    ensures SplitAll(a + b, sep) == SplitAll(a, sep) + SplitAll(b, sep)
  {
    if |a| == 0 {
      assert a + b == b;
    } else {
      assert (a + b)[0] == a[0];
      assert (a + b)[1..] == a[1..] + b;
      SplitAllAppend(a[1..], b, sep);
      assert SplitAll(a + b, sep) == Split(a[0], sep) + SplitAll(a[1..] + b, sep);
    }
  }

  // ---------------------------------------------------------------------------
  // Separators that no piece contains

  /** No piece of `ps` contains `x`. */
  predicate Free(ps: seq<string>, x: string)
  {
    forall p | p in ps :: !Includes(p, x)
  }

  /** A slice of a string without `x` has no `x` either. */
  lemma IncludesSlice(s: string, a: nat, b: nat, x: string)
    requires a <= b <= |s| && Includes(s[a..b], x)
    ensures Includes(s, x)
  {
    var i: nat :| i <= |s[a..b]| && OccursAt(s[a..b], x, i);
    assert i + |x| <= b - a;
    forall k | 0 <= k < |x| ensures s[a + i..a + i + |x|][k] == x[k] {
      assert s[a..b][i..i + |x|][k] == x[k];
    }
    assert OccursAt(s, x, a + i);
  }

  /** The pieces of a split are slices of the string, so they miss whatever it misses. */
  lemma {:induction false} SplitKeepsFree(s: string, sep: string, x: string)
    requires |sep| > 0 && !Includes(s, x)
    ensures Free(Split(s, sep), x)
    decreases |s|
  {
    var i := IndexFrom(s, sep, 0);
    if i >= 0 {
      if Includes(s[..i], x) { IncludesSlice(s, 0, i, x); }
      var rest := s[i + |sep|..];
      assert rest == s[i + |sep|..|s|];
      if Includes(rest, x) { IncludesSlice(s, i + |sep|, |s|, x); }
      SplitKeepsFree(rest, sep, x);
    }
  }

  lemma {:induction false} SplitAllKeepsFree(ps: seq<string>, sep: string, x: string)
    requires |sep| > 0 && Free(ps, x)
    ensures Free(SplitAll(ps, sep), x)
  {
    if |ps| > 0 {
      assert ps[0] in ps;
      SplitKeepsFree(ps[0], sep, x);
      SplitAllKeepsFree(ps[1..], sep, x);
    }
  }

  /** After splitting every piece on `sep`, none contains `sep`. */
  lemma {:induction false} SplitAllFree(ps: seq<string>, sep: string)
    requires |sep| > 0
    ensures Free(SplitAll(ps, sep), sep)
  {
    if |ps| > 0 {
      SplitPiecesFree(ps[0], sep);
      SplitAllFree(ps[1..], sep);
    }
  }

  /** Trimming cuts a slice, so a trimmed piece misses whatever the piece misses. */
  lemma TrimAllKeepsFree(ps: seq<string>, x: string)
    requires Free(ps, x)
    ensures Free(TrimAll(ps), x)
  {
    forall p | p in TrimAll(ps) ensures !Includes(p, x) {
      var j :| 0 <= j < |ps| && TrimAll(ps)[j] == p;
      var s := ps[j];
      assert s in ps;
      var a, b :| 0 <= a <= b <= |s| && p == s[a..b] && AllSpace(s[..a]) && AllSpace(s[b..]);
      if Includes(p, x) { IncludesSlice(s, a, b, x); }
    }
  }

  /** A string lacking one character of `x` does not contain `x`. */
  lemma MissingChar(s: string, x: string, k: nat)
    requires k < |x| && forall j | 0 <= j < |s| :: s[j] != x[k]
    ensures !Includes(s, x)
  {
    forall i: nat | i <= |s| ensures !OccursAt(s, x, i) {
      if i + |x| <= |s| {
        assert s[i..i + |x|][k] == s[i + k];
      }
    }
  }

  lemma TrimTrailingSpace(x: string, c: char)
    requires IsSpace(c)
    ensures Trim(x + [c]) == Trim(x)
  {
    var a := SpaceEnd(x, 0);
    var b := SpaceStart(x, a, |x|);
    var y := x + [c];
    forall j | 0 <= j < |y| ensures y[j] == if j == |x| then c else x[j] { }
    assert y[a..b] == x[a..b];
    TrimIs(y, a, b);
  }

  /** Dropping empty pieces distributes over concatenation. */
  lemma {:induction false} NonEmptyAppend(a: seq<string>, b: seq<string>)
    ensures NonEmpty(a + b) == NonEmpty(a) + NonEmpty(b)
  {
    if |a| == 0 {
      assert a + b == b;
    } else {
      assert (a + b)[0] == a[0];
      assert (a + b)[1..] == a[1..] + b;
      NonEmptyAppend(a[1..], b);
    }
  }

  /** A list without empty pieces is kept whole. */
  lemma {:induction false} NonEmptyKeeps(ps: seq<string>)
    requires forall p | p in ps :: p != ""
    ensures NonEmpty(ps) == ps
  {
    if |ps| > 0 {
      assert ps[0] in ps;
      assert forall p | p in ps[1..] :: p in ps;
      NonEmptyKeeps(ps[1..]);
    }
  }

  /** Pieces without the separator split into themselves. */
  lemma {:induction false} SplitAllNone(ps: seq<string>, sep: string)
    requires |sep| > 0 && Free(ps, sep)
    ensures SplitAll(ps, sep) == ps
  {
    if |ps| > 0 {
      assert ps[0] in ps;
      SplitAbsent(ps[0], sep);
      assert forall p | p in ps[1..] :: p in ps;
      SplitAllNone(ps[1..], sep);
      assert ps == [ps[0]] + ps[1..];
    }
  }
}
