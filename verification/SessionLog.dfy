// What a throughput measurement reads off an iperf3 log, and how fresh it is.
module SessionLog {
  import opened Common
  import opened JsonScanner

  // The figures a parsed session document carries.
  datatype Session = Session(mbps: Option<real>, rtt: Option<(real, real)>, retransmits: Option<int>)

  type Loader = string -> Option<Session>

  function Count(text: string, loads: Loader): nat {
    |Documents(text, loads)|
  }

  function Last(text: string, loads: Loader): Option<Session> {
    var docs := Documents(text, loads);
    if docs == [] then None else Some(docs[|docs| - 1])
  }

  function LastMbps(text: string, loads: Loader): Option<real> {
    match Last(text, loads) case Some(s) => s.mbps case None => None
  }

  function LastRtt(text: string, loads: Loader): Option<(real, real)> {
    match Last(text, loads) case Some(s) => s.rtt case None => None
  }

  function LastRetransmits(text: string, loads: Loader): Option<int> {
    match Last(text, loads) case Some(s) => s.retransmits case None => None
  }

  // The span of the last document that parses, among the first spans.
  function LastSpan(text: string, spans: seq<Span>, loads: Loader): Option<Span> {
    if spans == [] then None
    else if loads(Slice(text, spans[|spans| - 1])).Some? then Some(spans[|spans| - 1])
    else LastSpan(text, spans[..|spans| - 1], loads)
  }

  lemma {:induction false} LastSpanLoads(text: string, spans: seq<Span>, loads: Loader)
    ensures var docs, span := LoadAll(Slices(text, spans), loads), LastSpan(text, spans, loads);
      && (span.Some? <==> docs != [])
      && (span.Some? ==> span.value in spans && loads(Slice(text, span.value)) == Some(docs[|docs| - 1]))
  {
    if spans != [] {
      var front := spans[..|spans| - 1];
      LastSpanLoads(text, front, loads);
      assert Slices(text, spans)[..|spans| - 1] == Slices(text, front);
      assert spans == front + [spans[|spans| - 1]];
    }
  }

  // If reading more spans loads more documents, the last one comes from a later span.
  lemma {:induction false} LaterSpanLoads(text: string, a: seq<Span>, b: seq<Span>, loads: Loader)
    requires |LoadAll(Slices(text, a + b), loads)| > |LoadAll(Slices(text, a), loads)|
    ensures LastSpan(text, a + b, loads).Some? && LastSpan(text, a + b, loads).value in b
  {
    assert a + [] == a;
    if b != [] {
      var front, last := b[..|b| - 1], b[|b| - 1];
      assert (a + b)[..|a + b| - 1] == a + front;
      if loads(Slice(text, last)).None? {
        assert Slices(text, a + b)[..|a + b| - 1] == Slices(text, a + front);
        LaterSpanLoads(text, a, front, loads);
      }
    }
  }

  // More documents than the baseline had: the last comes from a span the baseline lacked.
  lemma NewSpanLoads(baseline: string, text: string, before: seq<Span>, after: seq<Span>, loads: Loader)
    requires before <= after && Slices(text, before) == Slices(baseline, before)
    requires |LoadAll(Slices(text, after), loads)| > |LoadAll(Slices(baseline, before), loads)|
    ensures var docs, span := LoadAll(Slices(text, after), loads), LastSpan(text, after, loads);
      && span.Some? && (exists k :: |before| <= k < |after| && after[k] == span.value)
      && loads(Slice(text, span.value)) == Some(docs[|docs| - 1])
  {
    var rest := after[|before|..];
    assert after == before + rest;
    LaterSpanLoads(text, before, rest, loads);
    LastSpanLoads(text, after, loads);
    var span := LastSpan(text, after, loads).value;
    var k :| 0 <= k < |rest| && rest[k] == span;
    assert after[|before| + k] == span;
  }

  // The spans of a text that extends another begin with its spans.
  lemma FreshSpan(t: string, text: string, before: seq<Span>, after: seq<Span>, loads: Loader)
    requires before <= after && (forall k :: 0 <= k < |before| ==> before[k].first < before[k].end <= |t|)
    requires t <= text && forall k :: |before| <= k < |after| ==> after[k].end > |t|
    requires |LoadAll(Slices(text, after), loads)| > |LoadAll(Slices(t, before), loads)|
    ensures var docs, span := LoadAll(Slices(text, after), loads), LastSpan(text, after, loads);
      span.Some? && span.value.end > |t| && loads(Slice(text, span.value)) == Some(docs[|docs| - 1])
  {
    assert text == t + text[|t|..];
    SlicesKept(t, text[|t|..], before);
    NewSpanLoads(t, text, before, after, loads);
  }

  // On a log that only grows, a session count above the baseline's means that the document
  // the rate is read from was completed after the baseline was taken.
  lemma FreshSession(baseline: string, more: string, loads: Loader)
    requires Count(baseline + more, loads) > Count(baseline, loads)
    ensures var text := baseline + more;
      var span := LastSpan(text, Read(text).spans, loads);
      span.Some? && span.value.end > |baseline| && Last(text, loads) == loads(Slice(text, span.value))
  {
    SpansGrow(baseline, more);
    FreshSpan(baseline, baseline + more, Read(baseline).spans, Read(baseline + more).spans, loads);
  }
}
