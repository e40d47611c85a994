// What the reader counts as triple quotes, and which added lines it therefore takes to stand
// inside a string.
module TripleQuotes {
  import opened Common
  import opened DiffReader
  import opened DiffRendering

  // ---------------------------------------------------------------- counting

  lemma {:induction false} NoneCounted(text: string, c: char)
    requires c !in text
    ensures CountTriples(text, c) == 0
  {
    if |text| >= 3 {
      NoneCounted(text[1..], c);
    }
  }

  // n times the character.
  function Run(n: nat, c: char): string {
    seq(n, i => c)
  }

  // A run of n of the character holds n / 3 triples.
  lemma {:induction false} RunCounted(n: nat, c: char)
    ensures CountTriples(Run(n, c), c) == n / 3
  {
    if n >= 3 {
      RunCounted(n - 3, c);
      assert Run(n, c)[3..] == Run(n - 3, c);
    }
  }

  // No triple lies across a place where the character stands on one side at most.
  ghost predicate Parts(x: string, y: string, c: char) {
    x == "" || y == "" || x[|x| - 1] != c || y[0] != c
  }

  lemma {:induction false} SplitCounted(x: string, y: string, c: char)
    requires Parts(x, y, c)
    ensures CountTriples(x + y, c) == CountTriples(x, c) + CountTriples(y, c)
    decreases |x|
  {
    if x == "" {
      assert x + y == y;
    } else if y == "" {
      assert x + y == x;
    } else if |x| >= 3 && x[0] == x[1] == x[2] == c {
      SplitCounted(x[3..], y, c);
      assert (x + y)[3..] == x[3..] + y;
    } else {
      SplitCounted(x[1..], y, c);
      assert (x + y)[1..] == x[1..] + y;
      assert |x| < 3 ==> (x + y)[|x| - 1] == x[|x| - 1] && (x + y)[|x|] == y[0];
    }
  }

  // A maximal run of n > 0 quotes of one kind adds n / 3 to what the text around it holds.
  lemma RunBetween(x: string, n: nat, c: char, y: string)
    requires n > 0 && (c == '"' || c == '\'')
    requires x == "" || x[|x| - 1] != c
    requires y == "" || y[0] != c
    ensures Quotes(x + Run(n, c) + y) == Quotes(x) + n / 3 + Quotes(y)
  {
    var other := if c == '"' then '\'' else '"';
    var run := Run(n, c);
    RunCounted(n, c);
    NoneCounted(run, other);
    SplitCounted(x, run, c);
    SplitCounted(x + run, y, c);
    SplitCounted(x, run, other);
    SplitCounted(x + run, y, other);
  }

  ghost predicate Calm(text: string) {
    '"' !in text && '\'' !in text
  }

  lemma CalmHasNone(text: string)
    requires Calm(text)
    ensures Quotes(text) == 0
  {
    NoneCounted(text, '"');
    NoneCounted(text, '\'');
  }

  // Behind a calm text, the first three quotes of one kind count once.
  lemma TripleCounted(a: string, q: string, b: string)
    requires Calm(a) && (q == "\"\"\"" || q == "'''")
    ensures Quotes(a + q + b) == 1 + Quotes(b)
  {
    CalmHasNone(a);
    NoneCounted(a, '"');
    NoneCounted(a, '\'');
    assert a + q + b == a + (q + b);
    FirstTriple(q, b, q[0]);
    SplitCounted(a, q + b, '"');
    SplitCounted(a, q + b, '\'');
  }

  lemma FirstTriple(q: string, b: string, c: char)
    requires q == [c, c, c] && (c == '"' || c == '\'')
    ensures Quotes(q + b) == 1 + Quotes(b)
  {
    var other := if c == '"' then '\'' else '"';
    assert (q + b)[3..] == b;
    NoneCounted(q, other);
    SplitCounted(q, b, other);
  }

  // ---------------------------------------------------------------- the lines of a hunk

  // Three quotes of one kind, and no other quote.
  ghost predicate OneTriple(text: string) {
    exists i :: 0 <= i <= |text| - 3 && TripleAt(text, i)
  }

  ghost predicate TripleAt(text: string, i: nat)
    requires i + 3 <= |text|
  {
    && (text[i..i + 3] == "\"\"\"" || text[i..i + 3] == "'''")
    && Calm(text[..i]) && Calm(text[i + 3..])
  }

  lemma OneTripleFlips(text: string)
    requires OneTriple(text)
    ensures Quotes(text) == 1
  {
    var i :| 0 <= i <= |text| - 3 && TripleAt(text, i);
    assert text == text[..i] + text[i..i + 3] + text[i + 3..];
    TripleCounted(text[..i], text[i..i + 3], text[i + 3..]);
    CalmHasNone(text[i + 3..]);
  }

  // A line of the post-image.
  predicate Shown(e: Edit) {
    e.Kept? || e.Added?
  }

  ghost predicate CalmBody(body: seq<Edit>) {
    forall e :: e in body && Shown(e) ==> Calm(e.text)
  }

  lemma {:induction false} CalmBodyHasNone(body: seq<Edit>)
    requires CalmBody(body)
    ensures QuotesIn(body) == 0
  {
    if body != [] {
      var front, last := body[..|body| - 1], body[|body| - 1];
      assert last in body;
      CalmBodyHasNone(front);
      if Shown(last) {
        CalmHasNone(last.text);
      }
    }
  }

  lemma {:induction false} QuotesInConcat(a: seq<Edit>, b: seq<Edit>)
    ensures QuotesIn(a + b) == QuotesIn(a) + QuotesIn(b)
  {
    if b == [] {
      assert a + b == a;
    } else {
      QuotesInConcat(a, b[..|b| - 1]);
      assert (a + b)[..|a + b| - 1] == a + b[..|b| - 1];
    }
  }

  lemma DelimiterHasOne(e: Edit)
    requires Shown(e) && OneTriple(e.text)
    ensures QuotesIn([e]) == 1
  {
    OneTripleFlips(e.text);
    assert [e][..0] == [];
  }

  // A hunk with one string in it: its opening line, calm lines, its closing line.
  function WithString(before: seq<Edit>, opening: Edit, inside: seq<Edit>, closing: Edit, after: seq<Edit>): seq<Edit> {
    before + [opening] + inside + [closing] + after
  }

  ghost predicate HoldsString(before: seq<Edit>, opening: Edit, inside: seq<Edit>, closing: Edit, after: seq<Edit>) {
    && CalmBody(before) && CalmBody(inside) && CalmBody(after)
    && Shown(opening) && OneTriple(opening.text) && Shown(closing) && OneTriple(closing.text)
  }

  lemma CalmPrefix(body: seq<Edit>, k: nat)
    requires CalmBody(body) && k <= |body|
    ensures QuotesIn(body[..k]) == 0
  {
    CalmBodyHasNone(body[..k]);
  }

  // The quotes above line k: none before the opening line, one up to the closing line, then two.
  lemma QuotesAbove(before: seq<Edit>, opening: Edit, inside: seq<Edit>, closing: Edit, after: seq<Edit>, k: nat)
    requires HoldsString(before, opening, inside, closing, after)
    requires k <= |WithString(before, opening, inside, closing, after)|
    ensures var lo, hi := |before|, |before| + 1 + |inside|;
      QuotesIn(WithString(before, opening, inside, closing, after)[..k])
      == if k <= lo then 0 else if k <= hi then 1 else 2
  {
    var body, lo, hi := WithString(before, opening, inside, closing, after), |before|, |before| + 1 + |inside|;
    var begun := before + [opening];
    DelimiterHasOne(opening);
    DelimiterHasOne(closing);
    CalmBodyHasNone(before);
    CalmBodyHasNone(inside);
    QuotesInConcat(before, [opening]);
    if k <= lo {
      CalmPrefix(before, k);
      assert body[..k] == before[..k];
    } else if k <= hi {
      CalmPrefix(inside, k - lo - 1);
      assert body[..k] == begun + inside[..k - lo - 1];
      QuotesInConcat(begun, inside[..k - lo - 1]);
    } else {
      CalmPrefix(after, k - hi - 1);
      assert body[..k] == begun + inside + [closing] + after[..k - hi - 1];
      QuotesInConcat(begun, inside);
      QuotesInConcat(begun + inside, [closing]);
      QuotesInConcat(begun + inside + [closing], after[..k - hi - 1]);
    }
  }

  // ---------------------------------------------------------------- the flags

  // The added lines of a hunk, those from line lo to line hi of it marked.
  function Marked(path: string, first: int, body: seq<Edit>, lo: nat, hi: nat): seq<AddedLine> {
    if body == [] then []
    else
      var front := body[..|body| - 1];
      Marked(path, first, front, lo, hi)
      + match body[|body| - 1]
        case Added(t) => [AddedLine(path, first + |PostLines(front)|, t, lo <= |front| <= hi)]
        case _ => []
  }

  ghost predicate FlaggedAt(body: seq<Edit>, k: nat)
    requires k < |body| && body[k].Added?
  {
    QuotesIn(body[..k]) % 2 == 1 || QuotesFlip(body[k].text)
  }

  lemma {:induction false} MarkedByFlags(path: string, first: int, body: seq<Edit>, lo: nat, hi: nat)
    requires forall k: nat :: k < |body| && body[k].Added? ==> (FlaggedAt(body, k) <==> lo <= k <= hi)
    ensures BodyAdded(path, first, body) == Marked(path, first, body, lo, hi)
  {
    if body != [] {
      var front := body[..|body| - 1];
      forall k: nat | k < |front| && front[k].Added? ensures FlaggedAt(front, k) <==> lo <= k <= hi {
        assert front[..k] == body[..k] && front[k] == body[k];
        assert FlaggedAt(body, k) <==> lo <= k <= hi;
      }
      MarkedByFlags(path, first, front, lo, hi);
      assert body[|body| - 1].Added? ==> (FlaggedAt(body, |body| - 1) <==> lo <= |body| - 1 <= hi);
    }
  }

  lemma FlagOfLine(before: seq<Edit>, opening: Edit, inside: seq<Edit>, closing: Edit, after: seq<Edit>, k: nat)
    requires HoldsString(before, opening, inside, closing, after)
    requires k < |WithString(before, opening, inside, closing, after)|
    requires WithString(before, opening, inside, closing, after)[k].Added?
    ensures FlaggedAt(WithString(before, opening, inside, closing, after), k)
            <==> |before| <= k <= |before| + 1 + |inside|
  {
    var body, lo, hi := WithString(before, opening, inside, closing, after), |before|, |before| + 1 + |inside|;
    QuotesAbove(before, opening, inside, closing, after, k);
    if k == lo {
      OneTripleFlips(opening.text);
    } else if k == hi {
      OneTripleFlips(closing.text);
    } else {
      assert body[k] == if k < lo then before[k] else if k < hi then inside[k - lo - 1] else after[k - hi - 1];
      CalmHasNone(body[k].text);
    }
  }

  // In a hunk with one string, of either kind, the added lines from the opening to the closing
  // line are flagged and no others; lines of the pre-image alone do not matter.
  lemma StringIsMarked(path: string, first: int, before: seq<Edit>, opening: Edit, inside: seq<Edit>,
                       closing: Edit, after: seq<Edit>)
    requires HoldsString(before, opening, inside, closing, after)
    ensures var body := WithString(before, opening, inside, closing, after);
      BodyAdded(path, first, body) == Marked(path, first, body, |before|, |before| + 1 + |inside|)
  {
    var body := WithString(before, opening, inside, closing, after);
    forall k: nat | k < |body| && body[k].Added?
      ensures FlaggedAt(body, k) <==> |before| <= k <= |before| + 1 + |inside|
    {
      FlagOfLine(before, opening, inside, closing, after, k);
    }
    MarkedByFlags(path, first, body, |before|, |before| + 1 + |inside|);
  }

  // The same through rendering and reading: a file with one such hunk.
  lemma StringIsRead(f: FileDiff, h: Hunk, before: seq<Edit>, opening: Edit, inside: seq<Edit>,
                     closing: Edit, after: seq<Edit>)
    requires LegalFile(f) && f.path.Some? && f.hunks == [h] && ClashFree(h.body)
    requires h.body == WithString(before, opening, inside, closing, after)
    requires HoldsString(before, opening, inside, closing, after)
    ensures ReadLines(Render([f]))
         == Marked(f.path.value, |h.gap| + 1, h.body, |before|, |before| + 1 + |inside|)
  {
    assert NoClash([f]);
    ReaderAgrees([f]);
    OneHunkAdded(f, h);
    StringIsMarked(f.path.value, |h.gap| + 1, before, opening, inside, closing, after);
  }

  lemma OneHunkAdded(f: FileDiff, h: Hunk)
    requires f.path.Some? && f.hunks == [h]
    ensures AllAdded([f]) == BodyAdded(f.path.value, |h.gap| + 1, h.body)
  {
    assert [f][..0] == [] && [h][..0] == [];
    assert HunksAdded(f.path.value, []) == [] && PostOf([]) == [] && AllAdded([]) == [];
    assert FirstOf(h, 0) == |h.gap| + 1;
  }
}
