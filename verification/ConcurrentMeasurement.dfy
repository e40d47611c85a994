// Running a set of flows at once: receivers, then senders, then the wait, then every stop.
module ConcurrentMeasurement {
  import opened Common
  import opened JsonScanner
  import opened SessionLog
  import opened Testbed
  import opened Throughput

  datatype ReceiverUp = ReceiverUp(flow: Flow, process: Process, baseline: string)

  datatype SenderUp = SenderUp(flow: Flow, process: Process)

  // How the body of the try statement was left.
  datatype Ending =
    | ReceiverRaised(flow: Flow, reason: string)
    | BaselineRaised(flow: Flow, process: Process, reason: string)
    | SenderRaised(flow: Flow, reason: string)
    | Waited(waits: History)

  // A whole run: what came up, how the body ended, and which stops raised.
  datatype Run = Run(receivers: seq<ReceiverUp>, senders: seq<SenderUp>, ending: Ending, raised: seq<bool>)

  function RxDevice(flow: Flow): Device {
    Receiver(flow.receiver)
  }

  function TxDevice(flow: Flow): Device {
    Sender(flow.sender)
  }

  function ReceiverEvents(ups: seq<ReceiverUp>): History {
    if ups == [] then []
    else
      var up := ups[|ups| - 1];
      ReceiverEvents(ups[..|ups| - 1])
      + [Started(RxDevice(up.flow), up.flow, up.process), LogRead(RxDevice(up.flow), up.process.log, up.baseline)]
  }

  function StartOf(up: SenderUp): Event {
    Started(TxDevice(up.flow), up.flow, up.process)
  }

  function SenderEvents(ups: seq<SenderUp>): History {
    if ups == [] then []
    else SenderEvents(ups[..|ups| - 1]) + [StartOf(ups[|ups| - 1])]
  }

  function RxTargets(ups: seq<ReceiverUp>): seq<(Device, int)> {
    Map(ups, (up: ReceiverUp) => (RxDevice(up.flow), up.process.pid))
  }

  function TxTargets(ups: seq<SenderUp>): seq<(Device, int)> {
    Map(ups, (up: SenderUp) => (TxDevice(up.flow), up.process.pid))
  }

  // What the finally block stops, in its order.
  function ToStop(receivers: seq<ReceiverUp>, senders: seq<SenderUp>): seq<(Device, int)> {
    TxTargets(senders) + RxTargets(receivers)
  }

  function StopEvents(targets: seq<(Device, int)>, raised: seq<bool>): History
    requires |targets| == |raised|
  {
    if targets == [] then []
    else
      StopEvents(targets[..|targets| - 1], raised[..|targets| - 1])
      + [Stopped(targets[|targets| - 1].0, targets[|targets| - 1].1, raised[|targets| - 1])]
  }

  // A wait only reads logs, draws the clock and sleeps.
  ghost predicate OnlyWaits(h: History) {
    forall e :: e in h ==> e.LogRead? || e.LogRaised? || e.Slept? || e.ClockDrawn?
  }

  // The events of the body after the receivers that are on record.
  function Middle(senders: seq<SenderUp>, ending: Ending): History {
    match ending
    case ReceiverRaised(flow, reason) => [StartRaised(RxDevice(flow), flow, reason)]
    case BaselineRaised(flow, process, reason) =>
      [Started(RxDevice(flow), flow, process), LogRaised(RxDevice(flow), process.log, reason)]
    case SenderRaised(flow, reason) => SenderEvents(senders) + [StartRaised(TxDevice(flow), flow, reason)]
    case Waited(waits) => SenderEvents(senders) + waits
  }

  function RunEvents(run: Run): History
    requires |run.raised| == |ToStop(run.receivers, run.senders)|
  {
    ReceiverEvents(run.receivers) + Middle(run.senders, run.ending)
    + StopEvents(ToStop(run.receivers, run.senders), run.raised)
  }

  function RxFlows(ups: seq<ReceiverUp>): seq<Flow> {
    Map(ups, (up: ReceiverUp) => up.flow)
  }

  function TxFlows(ups: seq<SenderUp>): seq<Flow> {
    Map(ups, (up: SenderUp) => up.flow)
  }

  ghost predicate ValidBody(receivers: seq<ReceiverUp>, senders: seq<SenderUp>, ending: Ending, flows: seq<Flow>) {
    && RxFlows(receivers) <= flows
    && TxFlows(senders) <= flows
    && match ending
       case ReceiverRaised(flow, _) => |receivers| < |flows| && flow == flows[|receivers|] && senders == []
       case BaselineRaised(flow, _, _) => |receivers| < |flows| && flow == flows[|receivers|] && senders == []
       case SenderRaised(flow, _) => |receivers| == |flows| && |senders| < |flows| && flow == flows[|senders|]
       case Waited(waits) => |receivers| == |flows| && |senders| == |flows| && OnlyWaits(waits)
  }

  ghost predicate ValidRun(run: Run, flows: seq<Flow>) {
    && |run.raised| == |run.receivers| + |run.senders|
    && ValidBody(run.receivers, run.senders, run.ending, flows)
  }

  // ---------------------------------------------------------------- lifecycle of a run

  // The processes a history started, and the ones it stopped.
  function Starts(h: History): seq<(Device, int)> {
    if h == [] then []
    else Starts(h[..|h| - 1]) + match h[|h| - 1] case Started(d, _, p) => [(d, p.pid)] case _ => []
  }

  function Stops(h: History): seq<(Device, int)> {
    if h == [] then []
    else Stops(h[..|h| - 1]) + match h[|h| - 1] case Stopped(d, pid, _) => [(d, pid)] case _ => []
  }

  lemma {:induction false} StartsConcat(a: History, b: History)
    ensures Starts(a + b) == Starts(a) + Starts(b) && Stops(a + b) == Stops(a) + Stops(b)
  {
    if b == [] {
      assert a + b == a;
    } else {
      var front, last := b[..|b| - 1], b[|b| - 1];
      StartsConcat(a, front);
      OneMoreEvent(a + front, last);
      OneMoreEvent(front, last);
      assert b == front + [last] && a + b == a + front + [last];
    }
  }

  lemma {:induction false} WaitsTouchNothing(h: History)
    requires OnlyWaits(h)
    ensures Starts(h) == [] && Stops(h) == []
  {
    if h != [] {
      assert h[|h| - 1] in h;
      WaitsTouchNothing(h[..|h| - 1]);
    }
  }

  lemma OneEvent(e: Event)
    ensures Starts([e]) == match e case Started(d, _, p) => [(d, p.pid)] case _ => []
    ensures Stops([e]) == match e case Stopped(d, pid, _) => [(d, pid)] case _ => []
  {
    assert [e][..0] == [];
  }

  lemma OneMoreEvent(h: History, e: Event)
    ensures Starts(h + [e]) == Starts(h) + match e case Started(d, _, p) => [(d, p.pid)] case _ => []
    ensures Stops(h + [e]) == Stops(h) + match e case Stopped(d, pid, _) => [(d, pid)] case _ => []
  {
    assert (h + [e])[..|h|] == h;
  }

  lemma TwoEvents(a: Event, b: Event)
    ensures Starts([a, b]) == Starts([a]) + Starts([b]) && Stops([a, b]) == Stops([a]) + Stops([b])
  {
    assert [a, b] == [a] + [b];
    StartsConcat([a], [b]);
  }

  lemma ReceiverStarted(up: ReceiverUp, read: Event)
    requires read.LogRead? || read.LogRaised?
    ensures Starts([Started(RxDevice(up.flow), up.flow, up.process), read]) == [(RxDevice(up.flow), up.process.pid)]
    ensures Stops([Started(RxDevice(up.flow), up.flow, up.process), read]) == []
  {
    TwoEvents(Started(RxDevice(up.flow), up.flow, up.process), read);
    OneEvent(Started(RxDevice(up.flow), up.flow, up.process));
    OneEvent(read);
  }

  lemma {:induction false} ReceiversStarted(ups: seq<ReceiverUp>)
    ensures Starts(ReceiverEvents(ups)) == RxTargets(ups)
    ensures Stops(ReceiverEvents(ups)) == []
  {
    if ups != [] {
      var front, up := ups[..|ups| - 1], ups[|ups| - 1];
      var read := LogRead(RxDevice(up.flow), up.process.log, up.baseline);
      ReceiversStarted(front);
      ReceiverStarted(up, read);
      StartsConcat(ReceiverEvents(front), [Started(RxDevice(up.flow), up.flow, up.process), read]);
      assert RxTargets(ups) == RxTargets(front) + [(RxDevice(up.flow), up.process.pid)];
    }
  }

  lemma {:induction false} SendersStarted(ups: seq<SenderUp>)
    ensures Starts(SenderEvents(ups)) == TxTargets(ups)
    ensures Stops(SenderEvents(ups)) == []
  {
    if ups != [] {
      var front, up := ups[..|ups| - 1], ups[|ups| - 1];
      SendersStarted(front);
      OneMoreEvent(SenderEvents(front), StartOf(up));
      assert TxTargets(ups) == TxTargets(front) + [(TxDevice(up.flow), up.process.pid)];
    }
  }

  lemma {:induction false} TargetsStopped(targets: seq<(Device, int)>, raised: seq<bool>)
    requires |targets| == |raised|
    ensures Stops(StopEvents(targets, raised)) == targets && Starts(StopEvents(targets, raised)) == []
  {
    if targets != [] {
      var front, last := targets[..|targets| - 1], targets[|targets| - 1];
      TargetsStopped(front, raised[..|targets| - 1]);
      OneMoreEvent(StopEvents(front, raised[..|targets| - 1]), Stopped(last.0, last.1, raised[|targets| - 1]));
      assert targets == front + [last];
    }
  }

  lemma MiddleStarts(senders: seq<SenderUp>, ending: Ending)
    requires ending.Waited? ==> OnlyWaits(ending.waits)
    requires ending.ReceiverRaised? || ending.BaselineRaised? ==> senders == []
    ensures Stops(Middle(senders, ending)) == []
    ensures Starts(Middle(senders, ending)) == Leaked(ending) + TxTargets(senders)
  {
    SendersStarted(senders);
    match ending
    case ReceiverRaised(flow, reason) =>
      OneEvent(StartRaised(RxDevice(flow), flow, reason));
    case BaselineRaised(flow, process, reason) =>
      ReceiverStarted(ReceiverUp(flow, process, ""), LogRaised(RxDevice(flow), process.log, reason));
    case SenderRaised(flow, reason) =>
      OneEvent(StartRaised(TxDevice(flow), flow, reason));
      StartsConcat(SenderEvents(senders), [StartRaised(TxDevice(flow), flow, reason)]);
    case Waited(waits) =>
      WaitsTouchNothing(waits);
      StartsConcat(SenderEvents(senders), waits);
  }

  // A receiver whose baseline log read raised: started, but not yet on record.
  function Leaked(ending: Ending): seq<(Device, int)> {
    match ending
    case BaselineRaised(flow, process, _) => [(RxDevice(flow), process.pid)]
    case _ => []
  }

  lemma RunStarts(run: Run, flows: seq<Flow>)
    requires ValidRun(run, flows)
    ensures Starts(RunEvents(run)) == RxTargets(run.receivers) + (Leaked(run.ending) + TxTargets(run.senders))
    ensures Stops(RunEvents(run)) == ToStop(run.receivers, run.senders)
  {
    var up, stops := ReceiverEvents(run.receivers), StopEvents(ToStop(run.receivers, run.senders), run.raised);
    ReceiversStarted(run.receivers);
    MiddleStarts(run.senders, run.ending);
    TargetsStopped(ToStop(run.receivers, run.senders), run.raised);
    StartsConcat(up, Middle(run.senders, run.ending));
    StartsConcat(up + Middle(run.senders, run.ending), stops);
  }

  // On every exit, whatever raised, each process on record is stopped exactly once, senders
  // before receivers. What was started and not stopped is the receiver whose baseline log
  // read raised, so the promise that nothing outlives the call holds exactly when none did.
  lemma Lifecycle(run: Run, flows: seq<Flow>)
    requires ValidRun(run, flows)
    ensures Stops(RunEvents(run)) == ToStop(run.receivers, run.senders)
    ensures multiset(Starts(RunEvents(run))) == multiset(Stops(RunEvents(run))) + multiset(Leaked(run.ending))
    ensures multiset(Starts(RunEvents(run))) == multiset(Stops(RunEvents(run))) <==> !run.ending.BaselineRaised?
  {
    RunStarts(run, flows);
    LeftOver(RxTargets(run.receivers), Leaked(run.ending), TxTargets(run.senders));
  }

  lemma LeftOver<T>(a: seq<T>, extra: seq<T>, b: seq<T>)
    ensures multiset(a + (extra + b)) == multiset(b + a) + multiset(extra)
    ensures multiset(a + (extra + b)) == multiset(b + a) <==> extra == []
  {
    assert |multiset(a + (extra + b))| == |multiset(b + a)| + |extra|;
  }

  // ---------------------------------------------------------------- order of a run

  // The phase an event belongs to; reads of logs and failed starts belong to none.
  function Phase(e: Event): Option<nat> {
    match e
    case Started(Receiver(_), _, _) => Some(0)
    case Started(Sender(_), _, _) => Some(1)
    case Slept(_) => Some(2)
    case ClockDrawn(_) => Some(2)
    case Stopped(Sender(_), _, _) => Some(3)
    case Stopped(Receiver(_), _, _) => Some(4)
    case _ => None
  }

  ghost predicate WithinPhases(h: History, lo: nat, hi: nat) {
    forall e :: e in h && Phase(e).Some? ==> lo <= Phase(e).value <= hi
  }

  ghost predicate PhasesInOrder(h: History) {
    forall i, j :: 0 <= i < j < |h| && Phase(h[i]).Some? && Phase(h[j]).Some? ==>
      Phase(h[i]).value <= Phase(h[j]).value
  }

  lemma PhasesConcat(a: History, b: History, lo: nat, mid: nat, hi: nat)
    requires lo <= mid <= hi
    requires PhasesInOrder(a) && PhasesInOrder(b) && WithinPhases(a, lo, mid) && WithinPhases(b, mid, hi)
    ensures PhasesInOrder(a + b) && WithinPhases(a + b, lo, hi)
  {
    forall i, j | 0 <= i < j < |a + b| && Phase((a + b)[i]).Some? && Phase((a + b)[j]).Some?
      ensures Phase((a + b)[i]).value <= Phase((a + b)[j]).value
    {
      if i < |a| <= j {
        assert a[i] in a && b[j - |a|] in b;
      }
    }
  }

  lemma OnePhase(h: History, p: nat)
    requires WithinPhases(h, p, p)
    ensures PhasesInOrder(h)
  {
  }

  lemma {:induction false} ReceiverPhase(ups: seq<ReceiverUp>)
    ensures WithinPhases(ReceiverEvents(ups), 0, 0)
  {
    if ups != [] {
      ReceiverPhase(ups[..|ups| - 1]);
    }
  }

  lemma {:induction false} SenderPhase(ups: seq<SenderUp>)
    ensures WithinPhases(SenderEvents(ups), 1, 1)
  {
    if ups != [] {
      SenderPhase(ups[..|ups| - 1]);
    }
  }

  lemma {:induction false} StopPhase(targets: seq<(Device, int)>, raised: seq<bool>, p: nat)
    requires |targets| == |raised|
    requires forall t :: t in targets ==> p == if t.0.Sender? then 3 else 4
    ensures WithinPhases(StopEvents(targets, raised), p, p)
  {
    if targets != [] {
      assert targets[|targets| - 1] in targets;
      StopPhase(targets[..|targets| - 1], raised[..|targets| - 1], p);
    }
  }

  lemma {:induction false} StopEventsConcat(a: seq<(Device, int)>, b: seq<(Device, int)>, raised: seq<bool>)
    requires |a| + |b| == |raised|
    ensures StopEvents(a + b, raised) == StopEvents(a, raised[..|a|]) + StopEvents(b, raised[|a|..])
  {
    if b == [] {
      assert a + b == a && raised[..|a|] == raised && StopEvents(b, raised[|a|..]) == [];
    } else {
      var front, shorter := b[..|b| - 1], raised[..|raised| - 1];
      StopEventsConcat(a, front, shorter);
      assert (a + b)[..|a + b| - 1] == a + front;
      assert shorter[..|a|] == raised[..|a|] && shorter[|a|..] == raised[|a|..][..|b| - 1];
      LastStop(a, b, raised);
    }
  }

  lemma LastStop(a: seq<(Device, int)>, b: seq<(Device, int)>, raised: seq<bool>)
    requires |a| + |b| == |raised| && b != []
    ensures (a + b)[|a + b| - 1] == b[|b| - 1] && raised[|raised| - 1] == raised[|a|..][|b| - 1]
  {
  }

  // The stops of the senders come before those of the receivers.
  lemma StopsInOrder(receivers: seq<ReceiverUp>, senders: seq<SenderUp>, raised: seq<bool>)
    requires |raised| == |receivers| + |senders|
    ensures PhasesInOrder(StopEvents(ToStop(receivers, senders), raised))
    ensures WithinPhases(StopEvents(ToStop(receivers, senders), raised), 3, 4)
  {
    var tx, rx := TxTargets(senders), RxTargets(receivers);
    StopEventsConcat(tx, rx, raised);
    StopPhase(tx, raised[..|tx|], 3);
    StopPhase(rx, raised[|tx|..], 4);
    OnePhase(StopEvents(tx, raised[..|tx|]), 3);
    OnePhase(StopEvents(rx, raised[|tx|..]), 4);
    PhasesConcat(StopEvents(tx, raised[..|tx|]), StopEvents(rx, raised[|tx|..]), 3, 3, 4);
  }

  // Every receiver start comes before every sender start, every sender start before the first
  // sleep or clock draw, every stop after all of them, and the senders' before the receivers'.
  lemma RunOrder(run: Run, flows: seq<Flow>)
    requires ValidRun(run, flows)
    ensures PhasesInOrder(RunEvents(run))
  {
    var up, targets := ReceiverEvents(run.receivers), ToStop(run.receivers, run.senders);
    ReceiverPhase(run.receivers);
    SenderPhase(run.senders);
    StopsInOrder(run.receivers, run.senders, run.raised);
    OnePhase(up, 0);
    match run.ending {
      case ReceiverRaised(_, _) =>
        PhasesConcat(up, Middle(run.senders, run.ending), 0, 0, 0);
      case BaselineRaised(_, _, _) =>
        PhasesConcat(up, Middle(run.senders, run.ending), 0, 0, 0);
      case SenderRaised(flow, reason) =>
        OnePhase(SenderEvents(run.senders), 1);
        PhasesConcat(SenderEvents(run.senders), [StartRaised(TxDevice(flow), flow, reason)], 1, 1, 1);
        PhasesConcat(up, Middle(run.senders, run.ending), 0, 1, 1);
      case Waited(waits) =>
        OnePhase(SenderEvents(run.senders), 1);
        OnePhase(waits, 2);
        PhasesConcat(SenderEvents(run.senders), waits, 1, 2, 2);
        PhasesConcat(up, Middle(run.senders, run.ending), 0, 1, 2);
    }
    PhasesConcat(up + Middle(run.senders, run.ending), StopEvents(targets, run.raised), 0, 3, 4);
  }

  // The k-th receiver is started and at once its own log is read for the baseline.
  lemma {:induction false} BaselineRead(ups: seq<ReceiverUp>, k: nat)
    requires k < |ups|
    ensures |ReceiverEvents(ups)| == 2 * |ups|
    ensures ReceiverEvents(ups)[2 * k] == Started(Receiver(ups[k].flow.receiver), ups[k].flow, ups[k].process)
    ensures ReceiverEvents(ups)[2 * k + 1]
         == LogRead(Receiver(ups[k].flow.receiver), ups[k].process.log, ups[k].baseline)
  {
    var front := ups[..|ups| - 1];
    if |ups| == 1 {
      assert ReceiverEvents(front) == [];
    } else {
      BaselineRead(front, if k < |front| then k else 0);
    }
  }

  // ---------------------------------------------------------------- the measurement

  // A whole wait on one log: the looks that found nothing new in time, and the last look.
  datatype Watched = Watched(polls: seq<Poll>, look: Look)

  // What one flow's waits came to. The sender's log is watched once the receiver's showed a rate.
  datatype Evidence = Evidence(rx: Watched, tx: Option<Watched>)

  function WatchEvents(device: Device, path: string, w: Watched, interval: real): History {
    PollEvents(device, path, w.polls, interval) + LookEvents(device, path, w.look)
  }

  // The events of one flow's waits: on the receiver's log, then on the sender's.
  function FlowEvents(up: ReceiverUp, tx: SenderUp, e: Evidence, interval: real): History {
    WatchEvents(RxDevice(up.flow), up.process.log, e.rx, interval)
    + match e.tx case Some(w) => WatchEvents(TxDevice(up.flow), tx.process.log, w, interval) case None => []
  }

  // What the last look at a log came to: a rate, an incomplete log past the deadline, or an error.
  ghost predicate Shows(look: Look, prior: nat, deadline: real, loads: Loader) {
    match look
    case Found(text, mbps) => Complete(text, prior, loads) && LastMbps(text, loads) == Some(mbps)
    case Nothing(text, time) => !Complete(text, prior, loads) && time >= deadline
    case LookRaised(_) => true
  }

  ghost predicate Watches(w: Watched, prior: nat, deadline: real, loads: Loader) {
    Waiting(w.polls, prior, deadline, loads) && Shows(w.look, prior, deadline, loads)
  }

  // The receiver's log must show a session its baseline lacked; the launch truncates the sender's.
  ghost predicate Observed(up: ReceiverUp, e: Evidence, deadline: real, loads: Loader) {
    && Watches(e.rx, Count(up.baseline, loads), deadline, loads)
    && (e.tx.Some? <==> e.rx.look.Found?)
    && (e.tx.Some? ==> Watches(e.tx.value, 0, deadline, loads))
  }

  // The result of one flow, from what its waits came to.
  function Outcome(flow: Flow, e: Evidence, loads: Loader): Result<FlowThroughput, Failure> {
    match (e.rx.look, e.tx)
    case (Found(text, mbps), Some(Watched(_, Found(txText, txMbps)))) =>
      Ok(if flow.reverse then WithRtt(flow.port, txMbps, LastRtt(text, loads), LastRetransmits(text, loads))
         else WithRtt(flow.port, mbps, LastRtt(txText, loads), LastRetransmits(txText, loads)))
    case (Found(_, mbps), Some(Watched(_, Nothing(_, _)))) =>
      if flow.reverse then Err(NoCompletedSession(flow.port)) else Ok(WithRtt(flow.port, mbps, None, None))
    case (_, Some(Watched(_, LookRaised(reason)))) => Err(Raised(reason))
    case (LookRaised(reason), _) => Err(Raised(reason))
    case _ => Err(NoCompletedSession(flow.port))
  }

  lemma OnlyWaitsConcat(a: History, b: History)
    requires OnlyWaits(a) && OnlyWaits(b)
    ensures OnlyWaits(a + b)
  {
  }

  lemma {:induction false} PollsOnlyWait(device: Device, path: string, polls: seq<Poll>, interval: real)
    ensures OnlyWaits(PollEvents(device, path, polls, interval))
  {
    if polls != [] {
      PollsOnlyWait(device, path, polls[..|polls| - 1], interval);
    }
  }

  ghost predicate DistinctPorts(flows: seq<Flow>) {
    forall i, j :: 0 <= i < j < |flows| ==> flows[i].port != flows[j].port
  }

  method UniquePorts(flows: seq<Flow>) returns (unique: bool)
    ensures unique <==> DistinctPorts(flows)
  {
    var ports: set<int> := {};
    for i := 0 to |flows|
      invariant ports == set k | 0 <= k < i :: flows[k].port
      invariant DistinctPorts(flows[..i])
    {
      TakeOneMore(flows, i);
      if flows[i].port in ports {
        return false;
      }
      ports := ports + {flows[i].port};
    }
    assert flows[..|flows|] == flows;
    return true;
  }

  lemma ReceiverEventsSnoc(h: History, ups: seq<ReceiverUp>, up: ReceiverUp)
    ensures h + ReceiverEvents(ups + [up])
            == h + ReceiverEvents(ups) + [Started(RxDevice(up.flow), up.flow, up.process)]
               + [LogRead(RxDevice(up.flow), up.process.log, up.baseline)]
    ensures RxFlows(ups + [up]) == RxFlows(ups) + [up.flow]
  {
    assert (ups + [up])[..|ups|] == ups;
  }

  // Every receiver, then a snapshot of its log.
  method StartReceivers(bench: Bench, flows: seq<Flow>)
    returns (ups: seq<ReceiverUp>, failed: Option<string>, ghost ending: Ending)
    requires bench.Genuine(bench.trace)
    modifies bench
    ensures bench.Genuine(bench.trace) && RxFlows(ups) <= flows
    ensures failed.None? ==> |ups| == |flows| && bench.trace == old(bench.trace) + ReceiverEvents(ups)
    ensures failed.Some? ==>
              && |ups| < |flows| && (ending.ReceiverRaised? || ending.BaselineRaised?)
              && ending.flow == flows[|ups|] && ending.reason == failed.value
              && bench.trace == old(bench.trace) + ReceiverEvents(ups) + Middle([], ending)
  {
    ups, failed, ending := [], None, Waited([]);
    ghost var before := bench.trace;
    for i := 0 to |flows|
      invariant bench.Genuine(bench.trace)
      invariant RxFlows(ups) == flows[..i]
      invariant bench.trace == before + ReceiverEvents(ups)
    {
      TakeOneMore(flows, i);
      var flow := flows[i];
      var start := bench.Start(RxDevice(flow), flow);
      if start.Err? {
        return ups, Some(start.error), ReceiverRaised(flow, start.error);
      }
      var baseline := bench.ReadLog(RxDevice(flow), start.value.log);
      if baseline.Err? {
        return ups, Some(baseline.error), BaselineRaised(flow, start.value, baseline.error);
      }
      ReceiverEventsSnoc(before, ups, ReceiverUp(flow, start.value, baseline.value));
      ups := ups + [ReceiverUp(flow, start.value, baseline.value)];
    }
  }

  lemma SenderEventsSnoc(h: History, ups: seq<SenderUp>, up: SenderUp)
    ensures h + SenderEvents(ups + [up]) == h + SenderEvents(ups) + [StartOf(up)]
    ensures TxFlows(ups + [up]) == TxFlows(ups) + [up.flow]
  {
    assert (ups + [up])[..|ups|] == ups;
  }

  // Every sender, once all receivers are up.
  method StartSenders(bench: Bench, flows: seq<Flow>)
    returns (ups: seq<SenderUp>, failed: Option<string>, ghost ending: Ending)
    requires bench.Genuine(bench.trace)
    modifies bench
    ensures bench.Genuine(bench.trace) && TxFlows(ups) <= flows
    ensures failed.None? ==> |ups| == |flows| && bench.trace == old(bench.trace) + SenderEvents(ups)
    ensures failed.Some? ==>
              && |ups| < |flows| && ending == SenderRaised(flows[|ups|], failed.value)
              && bench.trace == old(bench.trace) + Middle(ups, ending)
  {
    ups, failed, ending := [], None, Waited([]);
    ghost var before := bench.trace;
    for i := 0 to |flows|
      invariant bench.Genuine(bench.trace)
      invariant TxFlows(ups) == flows[..i]
      invariant bench.trace == before + SenderEvents(ups)
    {
      TakeOneMore(flows, i);
      var start := bench.Start(TxDevice(flows[i]), flows[i]);
      if start.Err? {
        ending := SenderRaised(flows[i], start.error);
        ConcatAssociates(before, SenderEvents(ups), [StartRaised(TxDevice(flows[i]), flows[i], start.error)]);
        return ups, Some(start.error), ending;
      }
      SenderEventsSnoc(before, ups, SenderUp(flows[i], start.value));
      ups := ups + [SenderUp(flows[i], start.value)];
    }
  }

  // Await a session on one log.
  method Watch(bench: Bench, device: Device, path: string, prior: nat, deadline: real, interval: real)
    returns (look: Look, ghost w: Watched)
    requires bench.Genuine(bench.trace) && bench.ClockAdvances()
    modifies bench
    ensures bench.Genuine(bench.trace) && bench.trace == old(bench.trace) + WatchEvents(device, path, w, interval)
    ensures w.look == look && Watches(w, prior, deadline, bench.loads)
  {
    ghost var before := bench.trace;
    ghost var polls;
    look, polls := bench.AwaitSession(device, path, prior, deadline, interval);
    w := Watched(polls, look);
    ConcatAssociates(before, PollEvents(device, path, polls, interval), LookEvents(device, path, look));
  }

  // One flow's result, from the receiver's log and then the sender's.
  method MeasureFlow(bench: Bench, up: ReceiverUp, tx: SenderUp, deadline: real, interval: real)
    returns (r: Result<FlowThroughput, Failure>, ghost e: Evidence)
    requires bench.Genuine(bench.trace) && bench.ClockAdvances()
    modifies bench
    ensures bench.Genuine(bench.trace) && bench.trace == old(bench.trace) + FlowEvents(up, tx, e, interval)
    ensures Observed(up, e, deadline, bench.loads) && r == Outcome(up.flow, e, bench.loads)
  {
    ghost var start := bench.trace;
    ghost var rxWait, txWait;
    var rx, look;
    rx, rxWait := Watch(bench, RxDevice(up.flow), up.process.log, Count(up.baseline, bench.loads), deadline, interval);
    if !rx.Found? {
      e := Evidence(rxWait, None);
      AppendNothing(WatchEvents(RxDevice(up.flow), up.process.log, rxWait, interval));
      r := Err(FailureOf(rx, up.flow.port));
      return;
    }
    look, txWait := Watch(bench, TxDevice(up.flow), tx.process.log, 0, deadline, interval);
    e := Evidence(rxWait, Some(txWait));
    ConcatAssociates(start, WatchEvents(RxDevice(up.flow), up.process.log, rxWait, interval),
                     WatchEvents(TxDevice(up.flow), tx.process.log, txWait, interval));
    r := Combine(up.flow, rx.text, rx.mbps, look, bench.loads);
  }

  function FailureOf(look: Look, port: int): Failure
    requires !look.Found?
  {
    match look case Nothing(_, _) => NoCompletedSession(port) case LookRaised(reason) => Raised(reason)
  }

  // What the two looks make of a flow whose receiver's log showed a rate.
  function Combine(flow: Flow, text: string, mbps: real, look: Look, loads: Loader): Result<FlowThroughput, Failure> {
    if look.LookRaised? || (flow.reverse && look.Nothing?) then Err(FailureOf(look, flow.port))
    else if flow.reverse then
      Ok(WithRtt(flow.port, look.mbps, LastRtt(text, loads), LastRetransmits(text, loads)))
    else
      var rtt := if look.Found? then LastRtt(look.text, loads) else None;
      Ok(WithRtt(flow.port, mbps, rtt, if look.Found? then LastRetransmits(look.text, loads) else None))
  }

  // ---------------------------------------------------------------- what a result rests on

  // The log a wait found a rate in.
  function LogShown(w: Option<Watched>): Option<string> {
    match w case Some(Watched(_, Found(text, _))) => Some(text) case _ => None
  }

  // The log of the side that received the data, and of the side that sent it.
  function DataReceiverLog(flow: Flow, e: Evidence): Option<string> {
    LogShown(if flow.reverse then e.tx else Some(e.rx))
  }

  function DataSenderLog(flow: Flow, e: Evidence): Option<string> {
    LogShown(if flow.reverse then Some(e.rx) else e.tx)
  }

  // The figures of the data-sending side, all missing when its log showed nothing.
  ghost predicate SenderFigures(v: FlowThroughput, log: Option<string>, loads: Loader) {
    match log
    case None => v.minRtt == None && v.meanRtt == None && v.retransmits == None
    case Some(text) =>
      && v.retransmits == LastRetransmits(text, loads)
      && match LastRtt(text, loads)
         case Some((minimum, mean)) => v.minRtt == Some(minimum) && v.meanRtt == Some(mean)
         case None => v.minRtt == None && v.meanRtt == None
  }

  // The rate is read from the data-receiving side's log, RTT and loss from the data-sending
  // side's. A flow fails exactly when a look raised, when the receiver's log showed no new
  // session, or when a reverse flow's sender showed none.
  lemma SidesOfResult(up: ReceiverUp, e: Evidence, deadline: real, loads: Loader)
    requires Observed(up, e, deadline, loads)
    ensures match Outcome(up.flow, e, loads)
      case Ok(v) =>
        && v.port == up.flow.port
        && DataReceiverLog(up.flow, e).Some? && LastMbps(DataReceiverLog(up.flow, e).value, loads) == Some(v.mbps)
        && SenderFigures(v, DataSenderLog(up.flow, e), loads)
      case Err(NoCompletedSession(port)) =>
        port == up.flow.port && (e.rx.look.Nothing? || (up.flow.reverse && e.tx.Some? && e.tx.value.look.Nothing?))
      case Err(Raised(reason)) =>
        e.rx.look == LookRaised(reason) || (e.tx.Some? && e.tx.value.look == LookRaised(reason))
      case Err(DuplicatePorts) => false
    ensures Outcome(up.flow, e, loads).Ok? <==>
              && e.tx.Some? && !e.tx.value.look.LookRaised?
              && (up.flow.reverse ==> e.tx.value.look.Found?)
  {
  }

  // A wait reads its own device's log and no other; its last look is its last read.
  lemma {:induction false} PollsRead(device: Device, path: string, polls: seq<Poll>, interval: real)
    ensures forall x :: x in PollEvents(device, path, polls, interval) ==> ReadsOnly(x, device, path)
  {
    if polls != [] {
      PollsRead(device, path, polls[..|polls| - 1], interval);
    }
  }

  ghost predicate ReadsOnly(x: Event, device: Device, path: string) {
    && (x.LogRead? || x.LogRaised? || x.ClockDrawn? || x.Slept?)
    && (x.LogRead? || x.LogRaised? ==> x.device == device && x.path == path)
  }

  lemma WatchReads(device: Device, path: string, w: Watched, interval: real)
    ensures forall x :: x in WatchEvents(device, path, w, interval) ==> ReadsOnly(x, device, path)
    ensures EndsWith(WatchEvents(device, path, w, interval), LookEvents(device, path, w.look))
  {
    PollsRead(device, path, w.polls, interval);
    EndsWithAfter(PollEvents(device, path, w.polls, interval), LookEvents(device, path, w.look));
  }

  // Every look but the last reads the log, draws the clock and sleeps; the last reads the log, or
  // fails to, and draws the clock when it found nothing.
  lemma WatchShape(device: Device, path: string, w: Watched, interval: real)
    ensures var h, n := WatchEvents(device, path, w, interval), |w.polls|;
      && |h| == 3 * n + (if w.look.Nothing? then 2 else 1)
      && (forall k: nat :: k < n ==> LooksAt(h, k, device, path, w.polls[k], interval))
      && match w.look
         case Found(text, _) => h[3 * n] == LogRead(device, path, text)
         case Nothing(text, time) => h[3 * n] == LogRead(device, path, text) && h[3 * n + 1] == ClockDrawn(time)
         case LookRaised(reason) => h[3 * n] == LogRaised(device, path, reason)
  {
    PollsShape(device, path, w.polls, interval);
    forall k: nat | k < |w.polls|
      ensures LooksAt(WatchEvents(device, path, w, interval), k, device, path, w.polls[k], interval)
    {
      assert LooksAt(PollEvents(device, path, w.polls, interval), k, device, path, w.polls[k], interval);
    }
  }

  ghost predicate LooksAt(h: History, k: nat, device: Device, path: string, p: Poll, interval: real) {
    && 3 * k + 2 < |h|
    && h[3 * k] == LogRead(device, path, p.text) && h[3 * k + 1] == ClockDrawn(p.time)
    && h[3 * k + 2] == Slept(interval)
  }

  lemma {:induction false} PollsShape(device: Device, path: string, polls: seq<Poll>, interval: real)
    ensures |PollEvents(device, path, polls, interval)| == 3 * |polls|
    ensures forall k: nat :: k < |polls| ==>
              LooksAt(PollEvents(device, path, polls, interval), k, device, path, polls[k], interval)
  {
    if polls != [] {
      var front := polls[..|polls| - 1];
      PollsShape(device, path, front, interval);
      forall k: nat | k < |polls|
        ensures LooksAt(PollEvents(device, path, polls, interval), k, device, path, polls[k], interval)
      {
        if k < |front| {
          assert LooksAt(PollEvents(device, path, front, interval), k, device, path, front[k], interval);
        }
      }
    }
  }

  ghost predicate EndsWith(h: History, last: History) {
    |last| <= |h| && h[|h| - |last|..] == last
  }

  lemma EndsWithAfter(h: History, last: History)
    ensures EndsWith(h + last, last)
  {
  }

  lemma EndsWithLater(h: History, more: History, last: History)
    requires EndsWith(more, last)
    ensures EndsWith(h + more, last)
  {
    assert (h + more)[|h + more| - |last|..] == more[|more| - |last|..];
  }

  // The events of a flow hold the read of every log its result rests on, from the device whose
  // log it is, and no read of any other; they end with the last look, at the sender's log once
  // the receiver's showed a rate.
  lemma FlowReads(up: ReceiverUp, tx: SenderUp, e: Evidence, interval: real)
    ensures var events := FlowEvents(up, tx, e, interval);
      && (LogShown(Some(e.rx)).Some? ==>
            LogRead(RxDevice(up.flow), up.process.log, LogShown(Some(e.rx)).value) in events)
      && (LogShown(e.tx).Some? ==> LogRead(TxDevice(up.flow), tx.process.log, LogShown(e.tx).value) in events)
      && (forall x :: x in events ==>
            ReadsOnly(x, RxDevice(up.flow), up.process.log) || ReadsOnly(x, TxDevice(up.flow), tx.process.log))
      && match e.tx
         case Some(w) => EndsWith(events, LookEvents(TxDevice(up.flow), tx.process.log, w.look))
         case None => EndsWith(events, LookEvents(RxDevice(up.flow), up.process.log, e.rx.look))
  {
    var rx := WatchEvents(RxDevice(up.flow), up.process.log, e.rx, interval);
    WatchReads(RxDevice(up.flow), up.process.log, e.rx, interval);
    LastLookRead(RxDevice(up.flow), up.process.log, e.rx, interval);
    match e.tx
    case Some(w) =>
      WatchReads(TxDevice(up.flow), tx.process.log, w, interval);
      LastLookRead(TxDevice(up.flow), tx.process.log, w, interval);
      EndsWithLater(rx, WatchEvents(TxDevice(up.flow), tx.process.log, w, interval),
                    LookEvents(TxDevice(up.flow), tx.process.log, w.look));
    case None => AppendNothing(rx);
  }

  lemma LastLookRead(device: Device, path: string, w: Watched, interval: real)
    ensures w.look.Found? ==> LogRead(device, path, w.look.text) in WatchEvents(device, path, w, interval)
  {
  }

  // On a log that only grows, the reported rate is that of a document completed after the
  // baseline snapshot; the launch truncates a sender's log.
  lemma EvidenceIsFresh(up: ReceiverUp, e: Evidence, deadline: real, loads: Loader)
    requires Observed(up, e, deadline, loads) && Outcome(up.flow, e, loads).Ok?
    requires RateBaseline(up) <= DataReceiverLogOf(up.flow, e)
    ensures var log := DataReceiverLogOf(up.flow, e);
      var span := LastSpan(log, Read(log).spans, loads);
      && span.Some? && span.value.end > |RateBaseline(up)|
      && loads(Slice(log, span.value)).Some?
      && loads(Slice(log, span.value)).value.mbps == Some(Outcome(up.flow, e, loads).value.mbps)
  {
    var log, before := DataReceiverLogOf(up.flow, e), RateBaseline(up);
    SidesOfResult(up, e, deadline, loads);
    assert log == before + log[|before|..];
    EmptyLogHasNone(loads);
    FreshSession(before, log[|before|..], loads);
  }

  function DataReceiverLogOf(flow: Flow, e: Evidence): string {
    match DataReceiverLog(flow, e) case Some(text) => text case None => ""
  }

  function RateBaseline(up: ReceiverUp): string {
    if up.flow.reverse then "" else up.baseline
  }

  lemma EmptyLogHasNone(loads: Loader)
    ensures Count("", loads) == 0
  {
    assert Read("").spans == [];
    assert Slices("", []) == [];
  }

  // ---------------------------------------------------------------- all flows

  // The events of the first flows' waits, in flow order.
  function GatherEvents(receivers: seq<ReceiverUp>, senders: seq<SenderUp>, evidence: seq<Evidence>,
                        interval: real): History
    requires |evidence| <= |receivers| == |senders|
  {
    if evidence == [] then []
    else
      var k := |evidence| - 1;
      GatherEvents(receivers, senders, evidence[..k], interval)
      + FlowEvents(receivers[k], senders[k], evidence[k], interval)
  }

  lemma GatherEventsSnoc(h: History, receivers: seq<ReceiverUp>, senders: seq<SenderUp>, evidence: seq<Evidence>,
                         e: Evidence, interval: real)
    requires |evidence| < |receivers| == |senders|
    ensures h + GatherEvents(receivers, senders, evidence, interval)
              + FlowEvents(receivers[|evidence|], senders[|evidence|], e, interval)
         == h + GatherEvents(receivers, senders, evidence + [e], interval)
  {
    assert (evidence + [e])[..|evidence|] == evidence;
    ConcatAssociates(h, GatherEvents(receivers, senders, evidence, interval),
                     FlowEvents(receivers[|evidence|], senders[|evidence|], e, interval));
  }

  lemma {:induction false} GatherOnlyWaits(receivers: seq<ReceiverUp>, senders: seq<SenderUp>,
                                           evidence: seq<Evidence>, interval: real)
    requires |evidence| <= |receivers| == |senders|
    ensures OnlyWaits(GatherEvents(receivers, senders, evidence, interval))
  {
    if evidence != [] {
      var k := |evidence| - 1;
      GatherOnlyWaits(receivers, senders, evidence[..k], interval);
      FlowReads(receivers[k], senders[k], evidence[k], interval);
      OnlyWaitsConcat(GatherEvents(receivers, senders, evidence[..k], interval),
                      FlowEvents(receivers[k], senders[k], evidence[k], interval));
    }
  }

  ghost predicate ObservedAt(ups: seq<ReceiverUp>, evidence: seq<Evidence>, deadline: real, loads: Loader, i: nat)
    requires i < |evidence| <= |ups|
  {
    Observed(ups[i], evidence[i], deadline, loads)
  }

  // The first flows were watched until one deadline.
  ghost predicate AllObserved(ups: seq<ReceiverUp>, evidence: seq<Evidence>, deadline: real, loads: Loader)
    requires |evidence| <= |ups|
  {
    forall i: nat {:trigger ObservedAt(ups, evidence, deadline, loads, i)} :: i < |evidence| ==>
      ObservedAt(ups, evidence, deadline, loads, i)
  }

  lemma OneMoreObserved(ups: seq<ReceiverUp>, evidence: seq<Evidence>, e: Evidence, deadline: real, loads: Loader)
    requires |evidence| < |ups| && AllObserved(ups, evidence, deadline, loads)
    requires Observed(ups[|evidence|], e, deadline, loads)
    ensures AllObserved(ups, evidence + [e], deadline, loads)
  {
    forall i: nat | i < |evidence + [e]| ensures ObservedAt(ups, evidence + [e], deadline, loads, i) {
      assert i < |evidence| ==> ObservedAt(ups, evidence, deadline, loads, i);
    }
  }

  function OutcomeAt(ups: seq<ReceiverUp>, evidence: seq<Evidence>, loads: Loader, i: nat)
    : Result<FlowThroughput, Failure>
    requires i < |evidence| <= |ups|
  {
    Outcome(ups[i].flow, evidence[i], loads)
  }

  // The results of the first flows, in flow order.
  ghost predicate AllOk(ups: seq<ReceiverUp>, evidence: seq<Evidence>, results: seq<FlowThroughput>, loads: Loader) {
    && |results| <= |evidence| <= |ups|
    && forall i: nat {:trigger OutcomeAt(ups, evidence, loads, i)} :: i < |results| ==>
         OutcomeAt(ups, evidence, loads, i) == Ok(results[i])
  }

  lemma OneMoreOk(ups: seq<ReceiverUp>, evidence: seq<Evidence>, e: Evidence, results: seq<FlowThroughput>,
                  loads: Loader)
    requires AllOk(ups, evidence, results, loads) && |results| == |evidence| < |ups|
    ensures AllOk(ups, evidence + [e], results, loads)
    ensures Outcome(ups[|evidence|].flow, e, loads).Ok? ==>
              AllOk(ups, evidence + [e], results + [Outcome(ups[|evidence|].flow, e, loads).value], loads)
  {
    forall i: nat | i < |results| ensures OutcomeAt(ups, evidence + [e], loads, i) == Ok(results[i]) {
      assert OutcomeAt(ups, evidence, loads, i) == Ok(results[i]);
    }
  }

  // One result for each flow; or the first failure, and the flows before it had results.
  ghost predicate Settled(ups: seq<ReceiverUp>, evidence: seq<Evidence>, r: Result<seq<FlowThroughput>, Failure>,
                          loads: Loader)
  {
    match r
    case Ok(results) => |results| == |evidence| == |ups| && AllOk(ups, evidence, results, loads)
    case Err(failure) => 0 < |evidence| <= |ups| && FirstFailure(ups, evidence, failure, loads)
  }

  ghost predicate FirstFailure(ups: seq<ReceiverUp>, evidence: seq<Evidence>, failure: Failure, loads: Loader)
    requires 0 < |evidence| <= |ups|
  {
    && OutcomeAt(ups, evidence, loads, |evidence| - 1) == Err(failure)
    && forall i: nat {:trigger OutcomeAt(ups, evidence, loads, i)} :: i < |evidence| - 1 ==>
         OutcomeAt(ups, evidence, loads, i).Ok?
  }

  // The loop over the flows, all of them held to one deadline.
  method Gather(bench: Bench, receivers: seq<ReceiverUp>, senders: seq<SenderUp>, deadline: real, interval: real)
    returns (r: Result<seq<FlowThroughput>, Failure>, ghost evidence: seq<Evidence>)
    requires bench.Genuine(bench.trace) && bench.ClockAdvances() && |receivers| == |senders|
    modifies bench
    ensures bench.Genuine(bench.trace) && |evidence| <= |receivers|
    ensures bench.trace == old(bench.trace) + GatherEvents(receivers, senders, evidence, interval)
    ensures AllObserved(receivers, evidence, deadline, bench.loads)
    ensures Settled(receivers, evidence, r, bench.loads)
  {
    evidence := [];
    ghost var before := bench.trace;
    var results: seq<FlowThroughput> := [];
    for i := 0 to |receivers|
      invariant bench.Genuine(bench.trace) && |results| == |evidence| == i
      invariant bench.trace == before + GatherEvents(receivers, senders, evidence, interval)
      invariant AllObserved(receivers, evidence, deadline, bench.loads)
      invariant AllOk(receivers, evidence, results, bench.loads)
    {
      var one;
      ghost var e;
      one, e := MeasureFlow(bench, receivers[i], senders[i], deadline, interval);
      GatherEventsSnoc(before, receivers, senders, evidence, e, interval);
      OneMoreObserved(receivers, evidence, e, deadline, bench.loads);
      OneMoreOk(receivers, evidence, e, results, bench.loads);
      evidence := evidence + [e];
      if one.Err? {
        return Err(one.error), evidence;
      }
      results := results + [one.value];
    }
    r := Ok(results);
  }

  // The finally block: senders, then receivers, whatever their stops raise.
  method StopAll(bench: Bench, targets: seq<(Device, int)>) returns (ghost raised: seq<bool>)
    requires bench.Genuine(bench.trace)
    modifies bench
    ensures bench.Genuine(bench.trace) && |raised| == |targets|
    ensures bench.trace == old(bench.trace) + StopEvents(targets, raised)
  {
    raised := [];
    ghost var before := bench.trace;
    for i := 0 to |targets|
      invariant bench.Genuine(bench.trace) && |raised| == i
      invariant bench.trace == before + StopEvents(targets[..i], raised)
    {
      TakeOneMore(targets, i);
      var failed := bench.Stop(targets[i].0, targets[i].1);
      assert (raised + [failed])[..i] == raised;
      raised := raised + [failed];
    }
    assert targets[..|targets|] == targets;
  }

  function MaxOmit(flows: seq<Flow>): nat {
    if flows == [] then 0
    else
      var rest := MaxOmit(flows[..|flows| - 1]);
      if flows[|flows| - 1].omitS > rest then flows[|flows| - 1].omitS else rest
  }

  // The window lasts as long as the longest flow with the seconds it omits.
  ghost predicate CoversFlows(window: nat, durationS: nat, flows: seq<Flow>) {
    && (forall f :: f in flows ==> window >= durationS + f.omitS)
    && (window == durationS || exists f :: f in flows && window == durationS + f.omitS)
  }

  lemma {:induction false} MaxOmitCovers(durationS: nat, flows: seq<Flow>)
    ensures CoversFlows(durationS + MaxOmit(flows), durationS, flows)
  {
    if flows != [] {
      var front, last := flows[..|flows| - 1], flows[|flows| - 1];
      MaxOmitCovers(durationS, front);
      assert flows == front + [last] && last in flows;
    }
  }

  // The wait of a run: one sleep through the window, one draw of the clock, and the flows' waits.
  datatype Wait = Wait(window: nat, now: real, evidence: seq<Evidence>)

  function WaitEvents(receivers: seq<ReceiverUp>, senders: seq<SenderUp>, w: Wait, interval: real): History
    requires |w.evidence| <= |receivers| == |senders|
  {
    [Slept(w.window as real), ClockDrawn(w.now)] + GatherEvents(receivers, senders, w.evidence, interval)
  }

  function Deadline(now: real, timeout: real): real {
    now + timeout
  }

  // How the wait went: exactly these events, every flow watched until timeout after the clock
  // drawn when the window was over, and the call's result settled by what was seen.
  ghost predicate WaitedOut(receivers: seq<ReceiverUp>, senders: seq<SenderUp>, waits: History, w: Wait,
                            timeout: real, interval: real, r: Result<seq<FlowThroughput>, Failure>, loads: Loader)
  {
    && |w.evidence| <= |receivers| == |senders|
    && waits == WaitEvents(receivers, senders, w, interval)
    && AllObserved(receivers, w.evidence, Deadline(w.now, timeout), loads)
    && Settled(receivers, w.evidence, r, loads)
  }

  // What the result says of how the body ended: the driver's own error, or what the wait came to.
  ghost predicate Explained(receivers: seq<ReceiverUp>, senders: seq<SenderUp>, ending: Ending, w: Wait,
                            timeout: real, interval: real, r: Result<seq<FlowThroughput>, Failure>, loads: Loader)
  {
    match ending
    case ReceiverRaised(_, reason) => r == Err(Raised(reason))
    case BaselineRaised(_, _, reason) => r == Err(Raised(reason))
    case SenderRaised(_, reason) => r == Err(Raised(reason))
    case Waited(waits) => WaitedOut(receivers, senders, waits, w, timeout, interval, r, loads)
  }

  lemma {:induction false} GatherHolds(receivers: seq<ReceiverUp>, senders: seq<SenderUp>, evidence: seq<Evidence>,
                                       interval: real, i: nat, x: Event)
    requires i < |evidence| <= |receivers| == |senders|
    requires x in FlowEvents(receivers[i], senders[i], evidence[i], interval)
    ensures x in GatherEvents(receivers, senders, evidence, interval)
  {
    if i < |evidence| - 1 {
      GatherHolds(receivers, senders, evidence[..|evidence| - 1], interval, i, x);
    }
  }

  // Every reported rate is that of a log text read, during the wait, from the device that
  // received the flow's data and from the log its own process writes.
  lemma RatesAreRead(receivers: seq<ReceiverUp>, senders: seq<SenderUp>, waits: History, w: Wait, timeout: real,
                     interval: real, results: seq<FlowThroughput>, loads: Loader, i: nat) returns (text: string)
    requires WaitedOut(receivers, senders, waits, w, timeout, interval, Ok(results), loads) && i < |results|
    ensures LastMbps(text, loads) == Some(results[i].mbps)
    ensures var flow := receivers[i].flow;
      LogRead(if flow.reverse then TxDevice(flow) else RxDevice(flow),
              if flow.reverse then senders[i].process.log else receivers[i].process.log, text) in waits
  {
    var up, tx, e := receivers[i], senders[i], w.evidence[i];
    assert OutcomeAt(receivers, w.evidence, loads, i) == Ok(results[i]);
    assert ObservedAt(receivers, w.evidence, Deadline(w.now, timeout), loads, i);
    SidesOfResult(up, e, Deadline(w.now, timeout), loads);
    FlowReads(up, tx, e, interval);
    text := DataReceiverLog(up.flow, e).value;
    GatherHolds(receivers, senders, w.evidence, interval, i,
                LogRead(if up.flow.reverse then TxDevice(up.flow) else RxDevice(up.flow),
                        if up.flow.reverse then tx.process.log else up.process.log, text));
  }

  // A call fails for want of a session only when the clock, drawn after the failing flow's last
  // look, has passed the window's end by the timeout.
  lemma FailureIsLate(receivers: seq<ReceiverUp>, senders: seq<SenderUp>, waits: History, w: Wait, timeout: real,
                      interval: real, port: int, loads: Loader)
    requires WaitedOut(receivers, senders, waits, w, timeout, interval, Err(NoCompletedSession(port)), loads)
    ensures |waits| >= 2 && waits[|waits| - 1].ClockDrawn? && waits[|waits| - 1].time >= w.now + timeout
    ensures waits[|waits| - 2].LogRead?
  {
    var k := |w.evidence| - 1;
    var up, tx, e := receivers[k], senders[k], w.evidence[k];
    assert OutcomeAt(receivers, w.evidence, loads, k) == Err(NoCompletedSession(port));
    assert ObservedAt(receivers, w.evidence, Deadline(w.now, timeout), loads, k);
    SidesOfResult(up, e, Deadline(w.now, timeout), loads);
    FlowReads(up, tx, e, interval);
    var look := if e.tx.Some? then e.tx.value.look else e.rx.look;
    var device := if e.tx.Some? then TxDevice(up.flow) else RxDevice(up.flow);
    var path := if e.tx.Some? then tx.process.log else up.process.log;
    var last, events := LookEvents(device, path, look), FlowEvents(up, tx, e, interval);
    EndsWithLater(GatherEvents(receivers, senders, w.evidence[..k], interval), events, last);
    EndsWithLater([Slept(w.window as real), ClockDrawn(w.now)],
                  GatherEvents(receivers, senders, w.evidence, interval), last);
    assert last == [LogRead(device, path, look.text), ClockDrawn(look.time)];
    assert waits[|waits| - 1] == last[1] && waits[|waits| - 2] == last[0];
  }

  lemma WaitOnlyWaits(before: History, receivers: seq<ReceiverUp>, senders: seq<SenderUp>, w: Wait, interval: real)
    requires |w.evidence| <= |receivers| == |senders|
    ensures before + [Slept(w.window as real)] + [ClockDrawn(w.now)]
            + GatherEvents(receivers, senders, w.evidence, interval)
         == before + WaitEvents(receivers, senders, w, interval)
    ensures OnlyWaits(WaitEvents(receivers, senders, w, interval))
  {
    GatherOnlyWaits(receivers, senders, w.evidence, interval);
    OnlyWaitsConcat([Slept(w.window as real), ClockDrawn(w.now)],
                    GatherEvents(receivers, senders, w.evidence, interval));
    PairAssociates(before, Slept(w.window as real), ClockDrawn(w.now),
                   GatherEvents(receivers, senders, w.evidence, interval));
  }

  // The wait: through the test window, then for the logs.
  method WaitForResults(bench: Bench, receivers: seq<ReceiverUp>, senders: seq<SenderUp>, window: nat,
                        timeout: real, interval: real)
    returns (r: Result<seq<FlowThroughput>, Failure>, ghost w: Wait, ghost waits: History)
    requires bench.Genuine(bench.trace) && bench.ClockAdvances() && |receivers| == |senders|
    modifies bench
    ensures bench.Genuine(bench.trace) && bench.trace == old(bench.trace) + waits && OnlyWaits(waits)
    ensures w.window == window && WaitedOut(receivers, senders, waits, w, timeout, interval, r, bench.loads)
  {
    ghost var before := bench.trace;
    ghost var evidence;
    bench.Sleep(window as real);
    var now := bench.Monotonic();
    r, evidence := Gather(bench, receivers, senders, Deadline(now, timeout), interval);
    w := Wait(window, now, evidence);
    waits := WaitEvents(receivers, senders, w, interval);
    WaitOnlyWaits(before, receivers, senders, w, interval);
  }

  // The senders, once all receivers are up, and then the wait.
  method SendAndWait(bench: Bench, flows: seq<Flow>, receivers: seq<ReceiverUp>, window: nat,
                     timeout: real, interval: real)
    returns (r: Result<seq<FlowThroughput>, Failure>, senders: seq<SenderUp>, ghost ending: Ending, ghost w: Wait)
    requires bench.Genuine(bench.trace) && bench.ClockAdvances() && RxFlows(receivers) == flows
    modifies bench
    ensures bench.Genuine(bench.trace) && ValidBody(receivers, senders, ending, flows)
    ensures bench.trace == old(bench.trace) + Middle(senders, ending)
    ensures w.window == window && (ending.SenderRaised? || ending.Waited?)
    ensures Explained(receivers, senders, ending, w, timeout, interval, r, bench.loads)
  {
    ghost var before := bench.trace;
    w := Wait(window, 0.0, []);
    var failed;
    senders, failed, ending := StartSenders(bench, flows);
    if failed.Some? {
      r := Err(Raised(failed.value));
      return;
    }
    ghost var waits;
    r, w, waits := WaitForResults(bench, receivers, senders, window, timeout, interval);
    ConcatAssociates(before, SenderEvents(senders), waits);
    ending := Waited(waits);
  }

  // The body of the try statement.
  method MeasureBody(bench: Bench, flows: seq<Flow>, durationS: nat, timeout: real, interval: real)
    returns (r: Result<seq<FlowThroughput>, Failure>, receivers: seq<ReceiverUp>, senders: seq<SenderUp>,
             ghost ending: Ending, ghost w: Wait)
    requires bench.Genuine(bench.trace) && bench.ClockAdvances()
    modifies bench
    ensures bench.Genuine(bench.trace) && ValidBody(receivers, senders, ending, flows)
    ensures bench.trace == old(bench.trace) + ReceiverEvents(receivers) + Middle(senders, ending)
    ensures CoversFlows(w.window, durationS, flows)
    ensures Explained(receivers, senders, ending, w, timeout, interval, r, bench.loads)
  {
    var window := durationS + MaxOmit(flows);
    MaxOmitCovers(durationS, flows);
    w, senders := Wait(window, 0.0, []), [];
    var failed;
    receivers, failed, ending := StartReceivers(bench, flows);
    if failed.Some? {
      r := Err(Raised(failed.value));
      return;
    }
    r, senders, ending, w := SendAndWait(bench, flows, receivers, window, timeout, interval);
  }

  // One result for each flow, in order, on its port.
  ghost predicate PortsOf(flows: seq<Flow>, results: seq<FlowThroughput>) {
    |results| == |flows| && forall i :: 0 <= i < |flows| ==> results[i].port == flows[i].port
  }

  // Run all flows at once for durationS seconds and report per-flow receive rates.
  method MeasureConcurrentThroughput(bench: Bench, flows: seq<Flow>, durationS: nat, timeout: real, interval: real)
    returns (r: Result<seq<FlowThroughput>, Failure>, ghost run: Run, ghost w: Wait)
    requires bench.Genuine(bench.trace) && bench.ClockAdvances()
    modifies bench
    ensures bench.Genuine(bench.trace)
    ensures r == Err(DuplicatePorts) <==> !DistinctPorts(flows)
    ensures r == Err(DuplicatePorts) ==> bench.trace == old(bench.trace)
    ensures r != Err(DuplicatePorts) ==>
              && ValidRun(run, flows) && bench.trace == old(bench.trace) + RunEvents(run)
              && CoversFlows(w.window, durationS, flows)
              && Explained(run.receivers, run.senders, run.ending, w, timeout, interval, r, bench.loads)
    ensures r.Ok? ==> RxFlows(run.receivers) == TxFlows(run.senders) == flows && run.ending.Waited?
    ensures r.Ok? ==> PortsOf(flows, r.value)
  {
    run, w := Run([], [], Waited([]), []), Wait(0, 0.0, []);
    var unique := UniquePorts(flows);
    if !unique {
      r := Err(DuplicatePorts);
      return;
    }
    var receivers, senders;
    ghost var ending;
    r, receivers, senders, ending, w := MeasureBody(bench, flows, durationS, timeout, interval);
    ghost var raised := StopAll(bench, ToStop(receivers, senders));
    run := Run(receivers, senders, ending, raised);
    RunRecorded(old(bench.trace), run);
    NeverDuplicate(receivers, senders, ending, w, timeout, interval, r, bench.loads);
    if r.Ok? {
      ResultPorts(receivers, flows, r.value, w.evidence, Deadline(w.now, timeout), bench.loads);
    }
  }

  // Nothing that is started or watched fails for its ports.
  lemma NeverDuplicate(receivers: seq<ReceiverUp>, senders: seq<SenderUp>, ending: Ending, w: Wait,
                       timeout: real, interval: real, r: Result<seq<FlowThroughput>, Failure>, loads: Loader)
    requires Explained(receivers, senders, ending, w, timeout, interval, r, loads)
    ensures r != Err(DuplicatePorts)
  {
    if ending.Waited? && r.Err? {
      assert OutcomeAt(receivers, w.evidence, loads, |w.evidence| - 1) == Err(r.error);
    }
  }

  lemma RunRecorded(before: History, run: Run)
    requires |run.raised| == |ToStop(run.receivers, run.senders)|
    ensures before + ReceiverEvents(run.receivers) + Middle(run.senders, run.ending)
            + StopEvents(ToStop(run.receivers, run.senders), run.raised)
         == before + RunEvents(run)
  {
  }

  lemma ResultPorts(ups: seq<ReceiverUp>, flows: seq<Flow>, results: seq<FlowThroughput>,
                    evidence: seq<Evidence>, deadline: real, loads: Loader)
    requires |evidence| <= |ups| && AllObserved(ups, evidence, deadline, loads)
    requires Settled(ups, evidence, Ok(results), loads) && RxFlows(ups) == flows
    ensures PortsOf(flows, results)
  {
    forall i | 0 <= i < |flows| ensures results[i].port == flows[i].port {
      assert RxFlows(ups)[i] == ups[i].flow && OutcomeAt(ups, evidence, loads, i) == Ok(results[i]);
      assert ObservedAt(ups, evidence, deadline, loads, i);
      SidesOfResult(ups[i], evidence[i], deadline, loads);
    }
  }

  // ---------------------------------------------------------------- the leak, on a bench

  // A run of one flow reads a log or fails to start something, unless its baseline read raises.
  lemma OneFlowReads(run: Run, flow: Flow) returns (i: nat)
    requires ValidRun(run, [flow]) && !run.ending.BaselineRaised?
    ensures i < |RunEvents(run)| && (RunEvents(run)[i].LogRead? || RunEvents(run)[i].StartRaised?)
  {
    var up := ReceiverEvents(run.receivers);
    if |run.receivers| == 1 {
      var only := run.receivers[0];
      assert run.receivers == [only] && [only][..0] == [] && ReceiverEvents([]) == [];
      assert up == [Started(RxDevice(only.flow), only.flow, only.process),
                    LogRead(RxDevice(only.flow), only.process.log, only.baseline)];
      i := 1;
    } else {
      assert up == [];
      i := 0;
    }
  }

  ghost predicate AllStart(bench: Bench, process: Process) {
    forall h, d, f :: bench.startResult(h, d, f) == Ok(process)
  }

  ghost predicate NoneReads(bench: Bench, reason: string) {
    forall h, d, path :: bench.logResult(h, d, path) == Err(reason)
  }

  lemma NeverReads(bench: Bench, h: History, i: nat, process: Process, reason: string)
    requires bench.Genuine(h) && i < |h| && AllStart(bench, process) && NoneReads(bench, reason)
    ensures !h[i].LogRead? && !h[i].StartRaised?
    ensures h[i].Started? ==> h[i].process == process
    ensures h[i].LogRaised? ==> h[i].reason == reason
  {
    assert bench.AnsweredAt(h, i);
  }

  lemma LeakingEvents(run: Run, flow: Flow)
    requires ValidRun(run, [flow]) && run.ending.BaselineRaised?
    ensures RunEvents(run) == [Started(RxDevice(flow), flow, run.ending.process),
                               LogRaised(RxDevice(flow), run.ending.process.log, run.ending.reason)]
    ensures Starts(RunEvents(run)) == [(RxDevice(flow), run.ending.process.pid)] && Stops(RunEvents(run)) == []
  {
    RunStarts(run, [flow]);
    assert run.receivers == [] && run.senders == [] && ToStop([], []) == [];
  }

  // Where every start succeeds and every log read raises, a run of one flow starts its receiver
  // and stops nothing.
  lemma OneFlowLeaks(bench: Bench, run: Run, flow: Flow, process: Process, reason: string)
    requires ValidRun(run, [flow]) && bench.Genuine(RunEvents(run))
    requires AllStart(bench, process) && NoneReads(bench, reason)
    ensures run.ending == BaselineRaised(flow, process, reason)
    ensures Starts(RunEvents(run)) == [(RxDevice(flow), process.pid)] && Stops(RunEvents(run)) == []
  {
    if !run.ending.BaselineRaised? {
      var i := OneFlowReads(run, flow);
      NeverReads(bench, RunEvents(run), i, process, reason);
    } else {
      LeakingEvents(run, flow);
      NeverReads(bench, RunEvents(run), 0, process, reason);
      NeverReads(bench, RunEvents(run), 1, process, reason);
    }
  }

  // Every start succeeds, no log can be read, and the clock advances a second with each sleep.
  method UnreadableBench(process: Process, reason: string) returns (bench: Bench)
    ensures fresh(bench) && bench.trace == [] && bench.Genuine([]) && bench.ClockAdvances()
    ensures AllStart(bench, process) && NoneReads(bench, reason)
  {
    bench := new Bench((h: History) => Sleeps(h) as real,
                       (h: History, d: Device, f: Flow) => Ok(process),
                       (h: History, d: Device, path: string) => Err(reason),
                       (h: History, d: Device, pid: int) => false,
                       (text: string) => None,
                       (d: real) => if d <= 0.0 then 0 else d.Floor + 1);
  }

  // The call that leaves a process running: one flow whose receiver starts and whose log cannot
  // be read.
  method LeakingCall(flow: Flow, process: Process, reason: string)
    returns (r: Result<seq<FlowThroughput>, Failure>, bench: Bench)
    ensures r == Err(Raised(reason))
    ensures Starts(bench.trace) == [(RxDevice(flow), process.pid)] && Stops(bench.trace) == []
  {
    bench := UnreadableBench(process, reason);
    ghost var run, w;
    r, run, w := MeasureConcurrentThroughput(bench, [flow], 10, 30.0, 1.0);
    assert [] + RunEvents(run) == RunEvents(run);
    OneFlowLeaks(bench, run, flow, process, reason);
  }
}
