// The string-aware brace scanner that finds the JSON documents concatenated in a log.
module JsonScanner {
  import opened Common

  // A half-open range of the text.
  datatype Span = Span(first: nat, end: nat)

  datatype Scan = Scan(depth: nat, start: int, inString: bool, escaped: bool, spans: seq<Span>)

  const BEGIN := Scan(0, -1, false, false, [])

  // One character at index i.
  function Step(s: Scan, i: nat, ch: char): Scan {
    if s.inString then
      if s.escaped then s.(escaped := false)
      else if ch == '\\' then s.(escaped := true)
      else if ch == '"' then s.(inString := false)
      else s
    else if ch == '"' then s.(inString := true)
    else if ch == '{' then
      s.(depth := s.depth + 1, start := if s.depth == 0 then i else s.start)
    else if ch == '}' && s.depth > 0 then
      if s.depth == 1 && s.start >= 0
      then s.(depth := 0, start := -1, spans := s.spans + [Span(s.start, i + 1)])
      else s.(depth := s.depth - 1)
    else s
  }

  // The text read from state s, its first character at index i.
  function Run(s: Scan, i: nat, text: string): Scan {
    if text == "" then s
    else Step(Run(s, i, text[..|text| - 1]), i + |text| - 1, text[|text| - 1])
  }

  // The whole text from the beginning.
  function Read(text: string): Scan {
    Run(BEGIN, 0, text)
  }

  function Slice(text: string, span: Span): string {
    if span.first <= span.end <= |text| then text[span.first..span.end] else ""
  }

  // The documents that parse, in order.
  function LoadAll<T>(slices: seq<string>, loads: string -> Option<T>): seq<T> {
    if slices == [] then []
    else
      LoadAll(slices[..|slices| - 1], loads)
      + match loads(slices[|slices| - 1]) case Some(doc) => [doc] case None => []
  }

  function Slices(text: string, spans: seq<Span>): seq<string> {
    Map(spans, (span: Span) => Slice(text, span))
  }

  // What iter_json_docs returns; `loads` is json.loads, None where it raises.
  function Documents<T>(text: string, loads: string -> Option<T>): seq<T> {
    LoadAll(Slices(text, Read(text).spans), loads)
  }

  // ---------------------------------------------------------------- composition

  lemma {:induction false} RunConcat(s: Scan, i: nat, a: string, b: string)
    ensures Run(s, i, a + b) == Run(Run(s, i, a), i + |a|, b)
  {
    if b == "" {
      assert a + b == a;
    } else {
      RunConcat(s, i, a, b[..|b| - 1]);
      assert (a + b)[..|a + b| - 1] == a + b[..|b| - 1];
    }
  }

  lemma ReadConcat(a: string, b: string)
    ensures Read(a + b) == Run(Read(a), |a|, b)
  {
    RunConcat(BEGIN, 0, a, b);
  }

  // Spans lie inside what has been read, and an open document began inside it.
  ghost predicate Inside(s: Scan, i: nat) {
    && (s.depth > 0 ==> 0 <= s.start < i)
    && (s.depth == 0 ==> s.start == -1)
    && forall k :: 0 <= k < |s.spans| ==> s.spans[k].first < s.spans[k].end <= i
  }

  lemma {:induction false} RunInside(s: Scan, i: nat, text: string)
    requires Inside(s, i)
    ensures Inside(Run(s, i, text), i + |text|)
  {
    if text != "" {
      RunInside(s, i, text[..|text| - 1]);
    }
  }

  lemma ReadInside(text: string)
    ensures Inside(Read(text), |text|)
  {
    RunInside(BEGIN, 0, text);
  }

  lemma {:induction false} RunGrows(s: Scan, i: nat, text: string)
    ensures s.spans <= Run(s, i, text).spans
  {
    if text != "" {
      RunGrows(s, i, text[..|text| - 1]);
    }
  }

  // A span found while reading text that began at index i ends after i.
  lemma {:induction false} NewSpansEndLater(s: Scan, i: nat, text: string, k: nat)
    requires |s.spans| <= k < |Run(s, i, text).spans|
    ensures Run(s, i, text).spans[k].end > i
  {
    if text != "" && k < |Run(s, i, text[..|text| - 1]).spans| {
      NewSpansEndLater(s, i, text[..|text| - 1], k);
    }
  }

  lemma {:induction false} LoadAllConcat<T>(a: seq<string>, b: seq<string>, loads: string -> Option<T>)
    ensures LoadAll(a + b, loads) == LoadAll(a, loads) + LoadAll(b, loads)
  {
    if b == [] {
      assert a + b == a;
    } else {
      LoadAllConcat(a, b[..|b| - 1], loads);
      assert (a + b)[..|a + b| - 1] == a + b[..|b| - 1];
    }
  }

  // Appending text does not change the slices already inside it.
  lemma SlicesKept(t: string, u: string, spans: seq<Span>)
    requires forall k :: 0 <= k < |spans| ==> spans[k].first < spans[k].end <= |t|
    ensures Slices(t + u, spans) == Slices(t, spans)
  {
    forall k | 0 <= k < |spans| ensures Slice(t + u, spans[k]) == Slice(t, spans[k]) {
      assert (t + u)[spans[k].first..spans[k].end] == t[spans[k].first..spans[k].end];
    }
  }

  lemma SlicesConcat(text: string, a: seq<Span>, b: seq<Span>)
    ensures Slices(text, a + b) == Slices(text, a) + Slices(text, b)
  {
  }

  // On a log that only grows, the spans already found stay, and later ones end after them.
  lemma SpansGrow(t: string, u: string)
    ensures var before, after := Read(t).spans, Read(t + u).spans;
      && before <= after
      && (forall k :: 0 <= k < |before| ==> before[k].first < before[k].end <= |t|)
      && (forall k :: |before| <= k < |after| ==> after[k].end > |t|)
  {
    var s := Read(t);
    ReadConcat(t, u);
    RunGrows(s, |t|, u);
    ReadInside(t);
    forall k | |s.spans| <= k < |Run(s, |t|, u).spans| ensures Run(s, |t|, u).spans[k].end > |t| {
      NewSpansEndLater(s, |t|, u, k);
    }
  }

  // The documents read from a log are the first documents read from any longer log.
  lemma DocumentsGrow<T>(t: string, u: string, loads: string -> Option<T>)
    ensures Documents(t, loads) <= Documents(t + u, loads)
  {
    SpansGrow(t, u);
    var before, after := Read(t).spans, Read(t + u).spans;
    var rest := after[|before|..];
    assert after == before + rest;
    SlicesConcat(t + u, before, rest);
    SlicesKept(t, u, before);
    LoadAllConcat(Slices(t, before), Slices(t + u, rest), loads);
  }

  // ---------------------------------------------------------------- the scanner itself

  lemma OneMoreSpan<T>(text: string, spans: seq<Span>, span: Span, loads: string -> Option<T>)
    ensures LoadAll(Slices(text, spans + [span]), loads)
            == LoadAll(Slices(text, spans), loads)
               + match loads(Slice(text, span)) case Some(doc) => [doc] case None => []
  {
    var whole := Slices(text, spans + [span]);
    assert whole[..|whole| - 1] == Slices(text, spans);
  }

  method IterJsonDocs<T>(text: string, loads: string -> Option<T>) returns (docs: seq<T>)
    ensures docs == Documents(text, loads)
  {
    docs := [];
    var depth, start, inString, escaped := 0, -1, false, false;
    ghost var spans: seq<Span> := [];
    for i := 0 to |text|
      invariant Read(text[..i]) == Scan(depth, start, inString, escaped, spans)
      invariant docs == LoadAll(Slices(text, spans), loads)
      invariant depth >= 0 && (depth > 0 ==> 0 <= start < i) && (depth == 0 ==> start == -1)
    {
      TakeOneMore(text, i);
      var ch := text[i];
      if inString {
        if escaped {
          escaped := false;
        } else if ch == '\\' {
          escaped := true;
        } else if ch == '"' {
          inString := false;
        }
        continue;
      }
      if ch == '"' {
        inString := true;
      } else if ch == '{' {
        if depth == 0 {
          start := i;
        }
        depth := depth + 1;
      } else if ch == '}' && depth > 0 {
        depth := depth - 1;
        if depth == 0 && start >= 0 {
          var loaded := loads(text[start..i + 1]);
          if loaded.Some? {
            docs := docs + [loaded.value];
          }
          OneMoreSpan(text, spans, Span(start, i + 1), loads);
          spans := spans + [Span(start, i + 1)];
          start := -1;
        }
      }
    }
    assert text[..|text|] == text;
  }

  method CountSessions<T>(text: string, loads: string -> Option<T>) returns (n: nat)
    ensures n == |Documents(text, loads)|
  {
    var docs := IterJsonDocs(text, loads);
    n := |docs|;
  }
}
