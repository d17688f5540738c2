// The syntax of the search box: `googlify` in js/MenuManager.js turns the
// text the user typed into the list of phrases an item must contain, and
// `setFilterForm` in js/Management/Controller.js writes such a list back as
// text. Phrases with a space are written between double quotes.
module Searches {
  import opened Text

  /**
   * The pieces `googlify` collects from `rest`, the chunks not yet visited:
   * while a quote is open, a chunk that is not the last one is taken whole and
   * closes the quote; any other chunk is split at each space and opens one.
   */
  function Components(rest: seq<string>, open: bool): seq<string>
  {
    if |rest| == 0 then []
    else if open && |rest| > 1 then [rest[0]] + Components(rest[1..], false)
    else Split(rest[0], " ") + Components(rest[1..], true)
  }

  /** The text cut at each double quote, each chunk trimmed. */
  function Chunks(s: string): (r: seq<string>)
    ensures |r| >= 1
  {
    TrimAll(Split(s, "\""))
  }

  /** Every piece `Components` gives is a chunk or a piece of one. */
  lemma {:induction false} ComponentsKeepFree(rest: seq<string>, open: bool, x: string)
    requires Free(rest, x)
    ensures Free(Components(rest, open), x)
  {
    if |rest| > 0 {
      assert rest[0] in rest;
      assert forall p | p in rest[1..] :: p in rest;
      if open && |rest| > 1 {
        ComponentsKeepFree(rest[1..], false, x);
      } else {
        SplitKeepsFree(rest[0], " ", x);
        ComponentsKeepFree(rest[1..], true, x);
      }
    }
  }

  /** The phrases `googlify(s)` returns: none is empty and none holds a double quote. */
  function SearchPhrases(s: string): (r: seq<string>)
    ensures forall p | p in r :: p != "" && !Includes(p, "\"")
  {
    SplitPiecesFree(s, "\"");
    TrimAllKeepsFree(Split(s, "\""), "\"");
    ComponentsKeepFree(Chunks(s), false, "\"");
    NonEmpty(Components(Chunks(s), false))
  }

  /** A chunk taken whole, closing the quote. */
  lemma ComponentsTake(chunks: seq<string>, i: nat)
    requires i < |chunks| - 1
    ensures Components(chunks[i..], true) == [chunks[i]] + Components(chunks[i + 1..], false)
  {
    assert chunks[i..][0] == chunks[i] && chunks[i..][1..] == chunks[i + 1..];
  }

  /** A chunk split at its spaces, opening a quote. */
  lemma ComponentsSplit(chunks: seq<string>, i: nat, open: bool)
    requires i < |chunks| && !(open && i < |chunks| - 1)
    ensures Components(chunks[i..], open) == Split(chunks[i], " ") + Components(chunks[i + 1..], true)
  {
    assert chunks[i..][0] == chunks[i] && chunks[i..][1..] == chunks[i + 1..];
  }

  lemma AppendAssoc<T>(a: seq<T>, b: seq<T>, c: seq<T>)
    ensures a + (b + c) == (a + b) + c
  {
  }

  /** `googlify(s)`: the loop over the chunks, then the empty pieces dropped. */
  method Googlify(s: string) returns (r: seq<string>)
    ensures r == SearchPhrases(s)
  {
    var chunks := Chunks(s);
    var components: seq<string> := [];
    var open := false;
    var i := 0;
    assert chunks[0..] == chunks;
    while i < |chunks|
      invariant 0 <= i <= |chunks|
      invariant components + Components(chunks[i..], open) == Components(chunks, false)
    {
      ghost var later := Components(chunks[i + 1..], !(open && i < |chunks| - 1));
      var piece: seq<string>;
      if open && i < |chunks| - 1 {
        ComponentsTake(chunks, i);
        piece := [chunks[i]];
        open := false;
      } else {
        ComponentsSplit(chunks, i, open);
        piece := Split(chunks[i], " ");
        open := true;
      }
      AppendAssoc(components, piece, later);
      components := components + piece;
      i := i + 1;
    }
    assert chunks[i..] == [] && Components([], open) == [];
    assert components == Components(chunks, false);
    r := NonEmpty(components);
    assert r == SearchPhrases(s);
  }

  // ---------------------------------------------------------------------------
  // Writing phrases back as text

  /** A phrase with a space is wrapped in double quotes. */
  function Quote(p: string): string
  {
    if Includes(p, " ") then "\"" + p + "\"" else p
  }

  function QuoteAll(ps: seq<string>): (r: seq<string>)
    ensures |r| == |ps|
    ensures forall j | 0 <= j < |ps| :: r[j] == Quote(ps[j])
  {
    if |ps| == 0 then [] else [Quote(ps[0])] + QuoteAll(ps[1..])
  }

  /** The text `setFilterForm` puts in the search box for a list of phrases. */
  function SearchText(ps: seq<string>): string
  {
    Join(QuoteAll(ps), " ")
  }

  /** A phrase the search box can carry: not empty, trimmed, without a double quote. */
  predicate Phrase(p: string)
  {
    p != "" && Trimmed(p) && forall j | 0 <= j < |p| :: p[j] != '"'
  }

  // ---------------------------------------------------------------------------
  // Helpers for the round trip

  lemma SpaceIncludes(p: string)
    ensures Includes(p, " ") <==> exists j | 0 <= j < |p| :: p[j] == ' '
  {
    if Includes(p, " ") {
      var i: nat :| i <= |p| && OccursAt(p, " ", i);
      OccursAtChar(p, ' ', i);
    }
    if exists j | 0 <= j < |p| :: p[j] == ' ' {
      var j :| 0 <= j < |p| && p[j] == ' ';
      OccursAtChar(p, ' ', j);
      assert OccursAt(p, " ", j);
    }
  }

  /** The number of leading phrases without a space. */
  function LeadingWords(ps: seq<string>): (k: nat)
    ensures k <= |ps|
    ensures forall j | 0 <= j < k :: !Includes(ps[j], " ")
    ensures k < |ps| ==> Includes(ps[k], " ")
  {
    if |ps| == 0 || Includes(ps[0], " ") then 0 else 1 + LeadingWords(ps[1..])
  }

  lemma {:induction false} JoinAppend(a: seq<string>, b: seq<string>, sep: string)
    requires |a| > 0 && |b| > 0
    ensures Join(a + b, sep) == Join(a, sep) + sep + Join(b, sep)
  {
    assert (a + b)[0] == a[0];
    if |a| > 1 {
      assert (a + b)[1..] == a[1..] + b;
      JoinAppend(a[1..], b, sep);
    } else {
      assert (a + b)[1..] == b;
    }
  }

  /** Joining around one middle piece. */
  lemma {:induction false} JoinAround(a: seq<string>, m: string, b: seq<string>, sep: string)
    ensures Join(a + [m] + b, sep)
      == (if |a| > 0 then Join(a, sep) + sep else "") + m + (if |b| > 0 then sep + Join(b, sep) else "")
  {
    var mb := [m] + b;
    assert a + [m] + b == a + mb;
    assert Join([m], sep) == m;
    var jmb := if |b| > 0 then m + sep + Join(b, sep) else m;
    if |b| > 0 {
      JoinAppend([m], b, sep);
    } else {
      assert mb == [m];
    }
    assert Join(mb, sep) == jmb;
    if |a| > 0 {
      JoinAppend(a, mb, sep);
    } else {
      assert a + mb == mb;
    }
  }

  /** A character in neither the pieces nor the separator is not in the joined text. */
  lemma {:induction false} JoinAvoids(ps: seq<string>, sep: string, c: char)
    requires forall k, j | 0 <= k < |ps| && 0 <= j < |ps[k]| :: ps[k][j] != c
    requires forall j | 0 <= j < |sep| :: sep[j] != c
    ensures forall j | 0 <= j < |Join(ps, sep)| :: Join(ps, sep)[j] != c
  {
    if |ps| > 1 {
      JoinAvoids(ps[1..], sep, c);
      var t := Join(ps[1..], sep);
      assert Join(ps, sep) == ps[0] + sep + t;
      forall j | 0 <= j < |Join(ps, sep)| ensures Join(ps, sep)[j] != c {
        if j >= |ps[0]| + |sep| { assert Join(ps, sep)[j] == t[j - |ps[0]| - |sep|]; }
        else if j >= |ps[0]| { assert Join(ps, sep)[j] == sep[j - |ps[0]|]; }
      }
    }
  }

  /** Non-empty trimmed pieces join into a non-empty trimmed text. */
  lemma {:induction false} JoinTrimmed(ps: seq<string>)
    requires |ps| > 0 && forall p | p in ps :: p != "" && Trimmed(p)
    ensures Join(ps, " ") != "" && Trimmed(Join(ps, " "))
  {
    assert ps[0] in ps;
    if |ps| > 1 {
      assert forall p | p in ps[1..] :: p in ps;
      JoinTrimmed(ps[1..]);
      var t := Join(ps[1..], " ");
      assert Join(ps, " ") == ps[0] + " " + t;
      assert Join(ps, " ")[|Join(ps, " ")| - 1] == t[|t| - 1];
    }
  }

  /** Leading words come back from their joined text. */
  lemma {:induction false} WordsBack(w: seq<string>)
    requires forall p | p in w :: Phrase(p) && !Includes(p, " ")
    ensures var x := Join(w, " ");
      Trimmed(x) && (forall j | 0 <= j < |x| :: x[j] != '"') && NonEmpty(Split(x, " ")) == w
  {
    var x := Join(w, " ");
    forall k, j | 0 <= k < |w| && 0 <= j < |w[k]| ensures w[k][j] != '"' && w[k][j] != ' ' {
      assert w[k] in w;
      SpaceIncludes(w[k]);
    }
    JoinAvoids(w, " ", '"');
    if |w| > 0 {
      JoinTrimmed(w);
      SplitJoin(w, ' ');
      NonEmptyKeeps(w);
    } else {
      SplitAbsent("", " ");
    }
  }

  /** The text of the leading words, a quoted phrase and the rest. */
  lemma {:induction false} TextAround(w: seq<string>, q: string, rest: seq<string>)
    requires forall p | p in w :: !Includes(p, " ")
    requires Includes(q, " ")
    ensures SearchText(w + [q] + rest)
      == (if |w| > 0 then Join(w, " ") + " " else "") + ['"'] + (q + ['"'] + (if |rest| > 0 then " " + SearchText(rest) else ""))
  {
    assert QuoteAll(w) == w by {
      forall j | 0 <= j < |w| ensures Quote(w[j]) == w[j] { assert w[j] in w; }
    }
    var qq := "\"" + q + "\"";
    assert QuoteAll(w + [q] + rest) == w + [qq] + QuoteAll(rest);
    JoinAround(w, qq, QuoteAll(rest), " ");
  }

  /** Cutting at the two quotes around a phrase. */
  lemma {:induction false} SplitAround(pre: string, q: string, post: string)
    requires forall j | 0 <= j < |pre| :: pre[j] != '"'
    requires forall j | 0 <= j < |q| :: q[j] != '"'
    ensures Split(pre + ['"'] + (q + ['"'] + post), "\"") == [pre, q] + Split(post, "\"")
  {
    SplitConcat(pre, '"', q + ['"'] + post);
    SplitConcat(q, '"', post);
    MissingChar(pre, "\"", 0);
    SplitAbsent(pre, "\"");
    MissingChar(q, "\"", 0);
    SplitAbsent(q, "\"");
  }

  /** A space in front of a text does not change its chunks. */
  lemma {:induction false} ChunksLeadingSpace(y: string)
    ensures Chunks(" " + y) == Chunks(y)
  {
    var sp := Split(" " + y, "\"");
    var t := Split(y, "\"");
    SplitPrefix(" ", '"', y);
    TrimLeadingSpace(' ', t[0]);
    forall j | 0 <= j < |t| ensures TrimAll(sp)[j] == TrimAll(t)[j] {
      if j > 0 { assert sp[j] == sp[1..][j - 1]; }
    }
  }

  lemma {:induction false} TrimAllCons(pre: string, q: string, sp: seq<string>)
    ensures TrimAll([pre, q] + sp) == [Trim(pre), Trim(q)] + TrimAll(sp)
  {
    var l := [pre, q] + sp;
    forall j | 0 <= j < |l| ensures TrimAll(l)[j] == ([Trim(pre), Trim(q)] + TrimAll(sp))[j] {
      if j >= 2 { assert l[j] == sp[j - 2]; }
    }
  }

  lemma {:induction false} ChunksOf(text: string, pre: string, q: string, post: string, x: string, cy: seq<string>)
    requires Split(text, "\"") == [pre, q] + Split(post, "\"")
    requires Trim(pre) == x && Trim(q) == q && TrimAll(Split(post, "\"")) == cy
    ensures Chunks(text) == [x, q] + cy
  {
    TrimAllCons(pre, q, Split(post, "\""));
  }

  /** The chunks of a text in which a phrase with a space follows the leading words. */
  lemma {:induction false} ChunksAround(w: seq<string>, q: string, rest: seq<string>)
    requires forall p | p in w :: Phrase(p) && !Includes(p, " ")
    requires Phrase(q) && Includes(q, " ")
    ensures Chunks(SearchText(w + [q] + rest)) == [Join(w, " "), q] + Chunks(SearchText(rest))
  {
    var x := Join(w, " ");
    var y := SearchText(rest);
    WordsBack(w);
    var pre := if |w| > 0 then x + " " else "";
    var post := if |rest| > 0 then " " + y else "";
    TextAround(w, q, rest);
    SplitAround(pre, q, post);
    TrimTrimmed(q);
    if |w| > 0 {
      TrimTrailingSpace(x, ' ');
      TrimTrimmed(x);
    }
    if |rest| > 0 { ChunksLeadingSpace(y); }
    ChunksOf(SearchText(w + [q] + rest), pre, q, post, x, Chunks(y));
  }

  /** A trimmed text without a double quote is one chunk. */
  lemma {:induction false} SingleChunk(x: string)
    requires Trimmed(x) && forall j | 0 <= j < |x| :: x[j] != '"'
    ensures Chunks(x) == [x]
  {
    MissingChar(x, "\"", 0);
    SplitAbsent(x, "\"");
    TrimTrimmed(x);
  }

  /** A text of words alone reads back as those words. */
  lemma {:induction false} WordsRoundTrip(w: seq<string>)
    requires forall p | p in w :: Phrase(p) && !Includes(p, " ")
    ensures SearchPhrases(SearchText(w)) == w
  {
    var x := Join(w, " ");
    WordsBack(w);
    assert QuoteAll(w) == w by {
      forall j | 0 <= j < |w| ensures Quote(w[j]) == w[j] { assert w[j] in w; }
    }
    assert SearchText(w) == x;
    SingleChunk(x);
    OneChunkPhrases(x);
  }

  lemma {:induction false} OneChunkPhrases(x: string)
    requires Chunks(x) == [x]
    ensures SearchPhrases(x) == NonEmpty(Split(x, " "))
  {
    assert [x][1..] == [];
    assert Components([x], false) == Split(x, " ") + Components([], true);
    assert Components([], true) == [];
    assert Split(x, " ") + [] == Split(x, " ");
    assert SearchPhrases(x) == NonEmpty(Components(Chunks(x), false));
  }

  /** The pieces of a word chunk followed by a quoted phrase and more chunks. */
  lemma {:induction false} ComponentsAround(x: string, q: string, c: seq<string>)
    requires |c| >= 1 && q != ""
    ensures NonEmpty(Components([x, q] + c, false)) == NonEmpty(Split(x, " ")) + [q] + NonEmpty(Components(c, false))
  {
    assert ([x, q] + c)[1..] == [q] + c;
    assert ([q] + c)[1..] == c;
    assert Components([x, q] + c, false) == Split(x, " ") + ([q] + Components(c, false));
    NonEmptyAppend(Split(x, " "), [q] + Components(c, false));
    NonEmptyAppend([q], Components(c, false));
  }

  /**
   * Reading back the text written for a list of phrases gives the list back,
   * for phrases that are not empty, trimmed and free of double quotes.
   */
  lemma {:induction false} SearchTextRoundTrip(ps: seq<string>)
    requires forall p | p in ps :: Phrase(p)
    ensures SearchPhrases(SearchText(ps)) == ps
    decreases |ps|
  {
    var k := LeadingWords(ps);
    var w := ps[..k];
    assert forall p | p in w :: Phrase(p) && !Includes(p, " ") by {
      forall p | p in w ensures Phrase(p) && !Includes(p, " ") {
        var j :| 0 <= j < k && w[j] == p;
        assert ps[j] in ps;
      }
    }
    if k == |ps| {
      assert w == ps;
      WordsRoundTrip(ps);
    } else {
      var q := ps[k];
      var rest := ps[k + 1..];
      assert ps == w + [q] + rest;
      assert q in ps;
      ChunksAround(w, q, rest);
      WordsBack(w);
      ComponentsAround(Join(w, " "), q, Chunks(SearchText(rest)));
      assert forall p | p in rest :: p in ps;
      SearchTextRoundTrip(rest);
    }
  }

  lemma ExampleQuoted()
    ensures QuoteAll(["Rött vin", "Kryddigt", "Mustigt"]) == ["\"Rött vin\"", "Kryddigt", "Mustigt"]
  {
    var ps := ["Rött vin", "Kryddigt", "Mustigt"];
    assert OccursAt(ps[0], " ", 4);
    MissingChar(ps[1], " ", 0);
    MissingChar(ps[2], " ", 0);
    var qs := ["\"Rött vin\"", "Kryddigt", "Mustigt"];
    forall j | 0 <= j < 3 ensures QuoteAll(ps)[j] == qs[j] { }
  }

  lemma ExampleJoined()
    ensures Join(["\"Rött vin\"", "Kryddigt", "Mustigt"], " ") == "\"Rött vin\" Kryddigt Mustigt"
  {
    var qs := ["\"Rött vin\"", "Kryddigt", "Mustigt"];
    assert qs[1..] == ["Kryddigt", "Mustigt"];
    assert qs[1..][1..] == ["Mustigt"];
  }

  /** The example in `googlify`'s comment. */
  lemma GooglifyExample()
    ensures SearchPhrases("\"Rött vin\" Kryddigt Mustigt") == ["Rött vin", "Kryddigt", "Mustigt"]
  {
    var ps := ["Rött vin", "Kryddigt", "Mustigt"];
    ExampleQuoted();
    ExampleJoined();
    assert SearchText(ps) == "\"Rött vin\" Kryddigt Mustigt";
    assert forall p | p in ps :: Phrase(p);
    SearchTextRoundTrip(ps);
  }
}
