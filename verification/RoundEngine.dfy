// The shared retry mechanic and the round loop, run against caller-supplied callbacks. What a
// callback answers may depend on everything that happened before it.
module RoundEngine {
  import opened Common
  import opened RoundLog
  import opened Throughput

  datatype Failure = NotCompleted(nc: NonCompletion) | CallbackRaised

  // The events that use up budget: a backoff, or a round that stop_when did not end.
  function Ticks(h: History): nat {
    if h == [] then 0 else Ticks(h[..|h| - 1]) + if h[|h| - 1].BackedOff? || SaysNo(h[|h| - 1]) then 1 else 0
  }

  lemma TicksSnoc(h: History, e: Event)
    ensures Ticks(h + [e]) == Ticks(h) + if e.BackedOff? || SaysNo(e) then 1 else 0
  {
    assert (h + [e])[..|h|] == h;
  }

  function Deadline(start: real, budget: real): real {
    start + budget
  }

  // The least natural number that is not below x.
  function Ceiling(x: real): nat {
    if x <= 0.0 then 0 else -((-x).Floor)
  }

  // A clock that advances a tick or more with every backoff and every round reaches a deadline
  // within the ticks up to it.
  lemma TickingClock(clock: History -> real, origin: real, d: real, h: History)
    requires clock(h) >= origin + Ticks(h) as real
    requires Ticks(h) >= Ceiling(d - origin)
    ensures clock(h) >= d
  {
    var x := d - origin;
    if x > 0.0 {
      assert (-x).Floor as real <= -x;
      assert Ceiling(x) as real >= x;
    }
  }

  class Engine {
    const clock: History -> real
    const allocatePort: History -> Option<int>
    const measureFlow: (History, int, Option<DirectionSpec>) -> FlowOutcome
    const retryWhen: Option<(History, NonCompletion) -> Answer>
    // Whether the reporting callback raises.
    const onRetry: Option<(History, NonCompletion, int) -> bool>
    const onRound: Option<(History, PathMeasurement) -> bool>
    const stopWhen: (History, seq<PathMeasurement>) -> Answer
    // After this many backoffs and rounds the clock has reached a given time.
    ghost const patience: real -> nat
    var trace: History

    ghost predicate ClockAdvances() {
      forall h, d :: Ticks(h) >= patience(d) ==> clock(h) >= d
    }

    constructor (clock: History -> real, allocatePort: History -> Option<int>,
                 measureFlow: (History, int, Option<DirectionSpec>) -> FlowOutcome,
                 retryWhen: Option<(History, NonCompletion) -> Answer>,
                 onRetry: Option<(History, NonCompletion, int) -> bool>,
                 onRound: Option<(History, PathMeasurement) -> bool>,
                 stopWhen: (History, seq<PathMeasurement>) -> Answer,
                 ghost patience: real -> nat)
      requires forall h, d :: Ticks(h) >= patience(d) ==> clock(h) >= d
      ensures ClockAdvances() && trace == [] && Genuine(trace)
      ensures this.clock == clock && this.allocatePort == allocatePort && this.measureFlow == measureFlow
      ensures this.retryWhen == retryWhen && this.onRetry == onRetry && this.onRound == onRound
      ensures this.stopWhen == stopWhen && this.patience == patience
    {
      this.clock, this.allocatePort, this.measureFlow := clock, allocatePort, measureFlow;
      this.retryWhen, this.onRetry, this.onRound, this.stopWhen := retryWhen, onRetry, onRound, stopWhen;
      this.patience := patience;
      trace := [];
    }

    // An engine whose clock advances a tick or more with every backoff and every round: its
    // patience for a deadline is the number of ticks up to it.
    constructor Ticking(clock: History -> real, allocatePort: History -> Option<int>,
                        measureFlow: (History, int, Option<DirectionSpec>) -> FlowOutcome,
                        retryWhen: Option<(History, NonCompletion) -> Answer>,
                        onRetry: Option<(History, NonCompletion, int) -> bool>,
                        onRound: Option<(History, PathMeasurement) -> bool>,
                        stopWhen: (History, seq<PathMeasurement>) -> Answer)
      requires forall h :: clock(h) >= clock([]) + Ticks(h) as real
      ensures ClockAdvances() && CountsTicks() && trace == [] && Genuine(trace)
      ensures this.clock == clock && this.allocatePort == allocatePort && this.measureFlow == measureFlow
      ensures this.retryWhen == retryWhen && this.onRetry == onRetry && this.onRound == onRound
      ensures this.stopWhen == stopWhen
    {
      this.clock, this.allocatePort, this.measureFlow := clock, allocatePort, measureFlow;
      this.retryWhen, this.onRetry, this.onRound, this.stopWhen := retryWhen, onRetry, onRound, stopWhen;
      this.patience := (d: real) => Ceiling(d - clock([]));
      trace := [];
      new;
      forall h, d | Ticks(h) >= this.patience(d) ensures this.clock(h) >= d {
        TickingClock(clock, clock([]), d, h);
      }
    }

    ghost predicate CountsTicks() {
      forall d :: patience(d) == Ceiling(d - clock([]))
    }

    function SetupFor(directions: seq<DirectionSpec>, deadline: real): Setup {
      Setup(directions, deadline, retryWhen.Some?, onRetry.Some?, onRound.Some?)
    }

    // The event is what its callback, or the clock, answers after h.
    ghost predicate Answered(h: History, e: Event) {
      match e
      case ClockDrawn(time) => clock(h) == time
      case Allocated(port) => allocatePort(h) == Some(port)
      case AllocateRaised => allocatePort(h) == None
      case Measured(port, spec, outcome) => measureFlow(h, port, spec) == outcome
      case RetryAsked(nc, answer) => retryWhen.Some? && retryWhen.value(h, nc) == answer
      case RetryTold(nc, port, raised) => onRetry.Some? && onRetry.value(h, nc, port) == raised
      case BackedOff => true
      case RoundTold(facts, raised) => onRound.Some? && onRound.value(h, facts) == raised
      case StopAsked(findings, answer) => stopWhen(h, findings) == answer
    }

    ghost predicate AnsweredAt(h: History, i: nat)
      requires i < |h|
    {
      Answered(h[..i], h[i])
    }

    // Every event of the history was answered so.
    ghost predicate Genuine(h: History) {
      forall i: nat {:trigger AnsweredAt(h, i)} :: i < |h| ==> AnsweredAt(h, i)
    }

    lemma GenuineSnoc(h: History, e: Event)
      requires Genuine(h) && Answered(h, e)
      ensures Genuine(h + [e])
    {
      forall i: nat | i < |h + [e]| ensures AnsweredAt(h + [e], i) {
        if i < |h| {
          assert AnsweredAt(h, i) && (h + [e])[..i] == h[..i];
        } else {
          assert (h + [e])[..i] == h;
        }
      }
    }

    method Record(e: Event)
      requires Genuine(trace) && Answered(trace, e)
      modifies this
      ensures Genuine(trace) && trace == old(trace) + [e]
      ensures Ticks(trace) == Ticks(old(trace)) + if e.BackedOff? || SaysNo(e) then 1 else 0
    {
      GenuineSnoc(trace, e);
      TicksSnoc(trace, e);
      trace := trace + [e];
    }

    method Monotonic() returns (t: real)
      requires Genuine(trace)
      modifies this
      ensures Genuine(trace)
      ensures t == clock(old(trace)) && trace == old(trace) + [ClockDrawn(t)]
      ensures Ticks(trace) == Ticks(old(trace))
    {
      t := clock(trace);
      Record(ClockDrawn(t));
    }

    // One draw of a port and one measurement on it.
    method TryOnce(spec: Option<DirectionSpec>) returns (port: Option<int>, outcome: FlowOutcome)
      requires Genuine(trace)
      modifies this
      ensures Genuine(trace)
      ensures Ticks(trace) == Ticks(old(trace))
      ensures trace == old(trace) + match port
                                    case None => [AllocateRaised]
                                    case Some(p) => [Allocated(p), Measured(p, spec, outcome)]
    {
      outcome := Broken;
      port := allocatePort(trace);
      if port.None? {
        Record(AllocateRaised);
        return;
      }
      Record(Allocated(port.value));
      outcome := measureFlow(trace, port.value, spec);
      Record(Measured(port.value, spec, outcome));
    }

    // retry_when's verdict on a non-completion.
    method AskCaller(nc: NonCompletion) returns (answer: Answer)
      requires Genuine(trace) && retryWhen.Some?
      modifies this
      ensures Genuine(trace) && trace == old(trace) + [RetryAsked(nc, answer)]
      ensures Ticks(trace) == Ticks(old(trace))
    {
      answer := retryWhen.value(trace, nc);
      Record(RetryAsked(nc, answer));
    }

    // Whether the budget and the caller allow another attempt; None when they do.
    method AskRetry(port: int, nc: NonCompletion, deadline: real)
      returns (failure: Option<Failure>, ghost time: real, ghost finish: Finish)
      requires Genuine(trace) && ClockAdvances()
      modifies this
      ensures Genuine(trace)
      ensures failure.None? ==>
                && retryWhen.Some? && time < deadline && Ticks(old(trace)) < patience(deadline)
                && trace == old(trace) + [ClockDrawn(time), RetryAsked(nc, Yes)]
      ensures failure.Some? ==>
                && Refused(finish) && finish.port == port && finish.nc == nc && !finish.TellRaised?
                && ValidFinish(finish, SetupFor([], deadline))
                && trace == old(trace) + RefusalEvents(finish)
                && failure.value == if finish.AskRaised? then CallbackRaised else NotCompleted(nc)
      ensures Ticks(trace) == Ticks(old(trace))
    {
      finish := Unallocated;
      var now := Monotonic();
      time := now;
      if now >= deadline {
        return Some(NotCompleted(nc)), time, Late(port, nc, time);
      }
      if retryWhen.None? {
        return Some(NotCompleted(nc)), time, Unasked(port, nc, time);
      }
      var answer := AskCaller(nc);
      PairAppends(old(trace), ClockDrawn(now), RetryAsked(nc, answer));
      match answer {
        case Yes => failure := None;
        case No => return Some(NotCompleted(nc)), time, Declined(port, nc, time);
        case Raises => return Some(CallbackRaised), time, AskRaised(port, nc, time);
      }
    }

    // Report the abandoned port, then back off; a report that raises ends the attempt.
    method ReportRetry(port: int, nc: NonCompletion) returns (raised: bool)
      requires Genuine(trace)
      modifies this
      ensures Genuine(trace)
      ensures raised ==> onRetry.Some? && trace == old(trace) + [RetryTold(nc, port, true)]
      ensures !raised ==>
                trace == old(trace) + (if onRetry.Some? then [RetryTold(nc, port, false)] else []) + [BackedOff]
      ensures Ticks(trace) == Ticks(old(trace)) + if raised then 0 else 1
    {
      raised := false;
      if onRetry.Some? {
        raised := onRetry.value(trace, nc, port);
        Record(RetryTold(nc, port, raised));
      }
      if !raised {
        Record(BackedOff);
      }
    }

    // A non-completion is absorbed (no failure) or ends the attempt.
    method AfterNonCompletion(port: int, nc: NonCompletion, deadline: real)
      returns (failure: Option<Failure>, ghost time: real, ghost finish: Finish)
      requires Genuine(trace) && ClockAdvances()
      modifies this
      ensures Genuine(trace)
      ensures failure.None? ==>
                && retryWhen.Some? && time < deadline
                && trace == old(trace) + RetryEvents(Absorbed(port, nc, time), onRetry.Some?)
                && Ticks(old(trace)) < patience(deadline) && Ticks(trace) == Ticks(old(trace)) + 1
      ensures failure.Some? ==>
                && Refused(finish) && finish.port == port && finish.nc == nc
                && ValidFinish(finish, SetupFor([], deadline))
                && trace == old(trace) + RefusalEvents(finish) && Ticks(trace) == Ticks(old(trace))
                && Answers(Err(failure.value), finish)
    {
      failure, time, finish := AskRetry(port, nc, deadline);
      if failure.Some? {
        return;
      }
      var raised := ReportRetry(port, nc);
      if raised {
        failure, finish := Some(CallbackRaised), TellRaised(port, nc, time);
      }
    }

    // One pass of the retry loop: None when a non-completion was absorbed.
    method AttemptOnce(spec: Option<DirectionSpec>, deadline: real)
      returns (r: Option<Result<FlowThroughput, Failure>>, ghost absorbed: Absorbed, ghost finish: Finish)
      requires Genuine(trace) && ClockAdvances()
      modifies this
      ensures Genuine(trace)
      ensures r.None? ==>
                && retryWhen.Some? && absorbed.time < deadline
                && trace == old(trace) + AbsorbedEvents(spec, absorbed, onRetry.Some?)
                && Ticks(old(trace)) < patience(deadline) && Ticks(trace) == Ticks(old(trace)) + 1
      ensures r.Some? ==>
                && ValidFinish(finish, SetupFor([], deadline))
                && trace == old(trace) + FinishEvents(spec, finish) && Ticks(trace) == Ticks(old(trace))
                && Answers(r.value, finish)
    {
      ghost var before := trace;
      var port, outcome := TryOnce(spec);
      absorbed, finish := Absorbed(0, NonCompletion(""), 0.0), Unallocated;
      if port.None? {
        return Some(Err(CallbackRaised)), absorbed, finish;
      }
      match outcome {
        case Completed(flow) => return Some(Ok(flow)), absorbed, Done(port.value, flow);
        case Broken => return Some(Err(CallbackRaised)), absorbed, BrokenFlow(port.value);
        case Incomplete(nc) =>
          var failure;
          ghost var time;
          failure, time, finish := AfterNonCompletion(port.value, nc, deadline);
          ConcatAssociates(before, TryEvents(spec, port.value, nc), RefusalEvents(finish));
          absorbed := Absorbed(port.value, nc, time);
          ConcatAssociates(before, TryEvents(spec, port.value, nc), RetryEvents(absorbed, onRetry.Some?));
          r := if failure.Some? then Some(Err(failure.value)) else None;
      }
    }

    // Run a flow on a freshly drawn port, re-drawing on a non-completion only when retry_when
    // says so and the deadline allows.
    method AttemptFlow(spec: Option<DirectionSpec>, deadline: real)
      returns (r: Result<FlowThroughput, Failure>, ghost a: Attempt)
      requires Genuine(trace) && ClockAdvances()
      modifies this
      ensures Genuine(trace)
      ensures trace == old(trace) + AttemptEvents(a, onRetry.Some?)
      ensures a.spec == spec && ValidAttempt(a, SetupFor([], deadline))
      ensures Answers(r, a.finish)
      ensures Ticks(old(trace)) <= Ticks(trace)
      ensures Ticks(trace) <= Ticks(old(trace)) || Ticks(trace) <= patience(deadline)
    {
      ghost var absorbed: seq<Absorbed> := [];
      ghost var before := trace;
      while true
        invariant Genuine(trace)
        invariant trace == before + AllAbsorbed(spec, absorbed, onRetry.Some?)
        invariant absorbed != [] ==> retryWhen.Some?
        invariant forall x :: x in absorbed ==> x.time < deadline
        invariant Ticks(before) <= Ticks(trace)
        invariant Ticks(trace) <= Ticks(before) || Ticks(trace) <= patience(deadline)
        decreases patience(deadline) - Ticks(trace)
      {
        var once;
        ghost var next, finish;
        once, next, finish := AttemptOnce(spec, deadline);
        if once.Some? {
          a := Attempt(spec, absorbed, finish);
          FinishClosesAttempt(before, a, onRetry.Some?);
          return once.value, a;
        }
        AbsorbedExtends(before, spec, absorbed, next, onRetry.Some?);
        absorbed := absorbed + [next];
      }
    }

    // One direction of a round, after the attempts made so far.
    method MeasureDirection(spec: DirectionSpec, deadline: real, ghost before: History,
                            ghost attempts: seq<Attempt>, ghost s: Setup)
      returns (one: Result<FlowThroughput, Failure>, ghost after: seq<Attempt>)
      requires Genuine(trace) && ClockAdvances() && s == SetupFor(s.directions, deadline)
      requires 0 < |attempts| <= |s.directions| && RoundSoFar(attempts, |attempts| - 1, s)
      requires spec == s.directions[|attempts| - 1]
      requires trace == before + AttemptsEvents(attempts, s.tells)
      modifies this
      ensures Genuine(trace)
      ensures trace == before + AttemptsEvents(after, s.tells) && |after| == |attempts| + 1 && after[0] == attempts[0]
      ensures one.Ok? ==> RoundSoFar(after, |attempts|, s)
      ensures one.Ok? ==> ByDirection(after) == ByDirection(attempts)[spec.name := one.value]
      ensures one.Err? ==> ValidFailure(after, s) && Answers(one, after[|after| - 1].finish)
      ensures Ticks(old(trace)) <= Ticks(trace)
      ensures Ticks(trace) <= Ticks(old(trace)) || Ticks(trace) <= patience(deadline)
    {
      ghost var b;
      one, b := AttemptFlow(Some(spec), deadline);
      after := attempts + [b];
      NextAttemptEvents(before, attempts, b, s.tells);
      NextAttempt(attempts, b, s);
      if one.Err? {
        NextAttemptFails(attempts, b, s);
      }
    }

    // Each direction, after the probe.
    method MeasureDirections(directions: seq<DirectionSpec>, deadline: real,
                             ghost before: History, ghost probe: Attempt)
      returns (r: Result<map<string, FlowThroughput>, Failure>, ghost attempts: seq<Attempt>)
      requires Genuine(trace) && ClockAdvances()
      requires RoundSoFar([probe], 0, SetupFor(directions, deadline)) && ByDirection([probe]) == map[]
      requires trace == before + AttemptsEvents([probe], onRetry.Some?)
      modifies this
      ensures Genuine(trace)
      ensures trace == before + AttemptsEvents(attempts, onRetry.Some?) && attempts != [] && attempts[0] == probe
      ensures r.Ok? ==>
                && RoundSoFar(attempts, |directions|, SetupFor(directions, deadline))
                && r.value == ByDirection(attempts)
      ensures r.Err? ==>
                && ValidFailure(attempts, SetupFor(directions, deadline))
                && Answers(Err(r.error), attempts[|attempts| - 1].finish)
      ensures Ticks(old(trace)) <= Ticks(trace)
      ensures Ticks(trace) <= Ticks(old(trace)) || Ticks(trace) <= patience(deadline)
    {
      ghost var s, ticks := SetupFor(directions, deadline), Ticks(trace);
      attempts := [probe];
      var byDirection: map<string, FlowThroughput> := map[];
      for i := 0 to |directions|
        invariant Genuine(trace)
        invariant trace == before + AttemptsEvents(attempts, onRetry.Some?)
        invariant |attempts| == i + 1 && attempts[0] == probe && RoundSoFar(attempts, |attempts| - 1, s)
        invariant byDirection == ByDirection(attempts)
        invariant ticks <= Ticks(trace) && (Ticks(trace) <= ticks || Ticks(trace) <= patience(deadline))
      {
        var one;
        one, attempts := MeasureDirection(directions[i], deadline, before, attempts, s);
        if one.Err? {
          return Err(one.error), attempts;
        }
        byDirection := byDirection[directions[i].name := one.value];
      }
      r := Ok(byDirection);
    }

    // The probe, then each direction.
    method MeasureRound(directions: seq<DirectionSpec>, deadline: real)
      returns (r: Result<PathMeasurement, Failure>, ghost attempts: seq<Attempt>)
      requires Genuine(trace) && ClockAdvances()
      modifies this
      ensures Genuine(trace)
      ensures trace == old(trace) + AttemptsEvents(attempts, onRetry.Some?)
      ensures r.Ok? ==> ValidRound(Round(attempts, r.value), SetupFor(directions, deadline))
      ensures r.Err? ==>
                && ValidFailure(attempts, SetupFor(directions, deadline))
                && Answers(Err(r.error), attempts[|attempts| - 1].finish)
      ensures Ticks(old(trace)) <= Ticks(trace)
      ensures Ticks(trace) <= Ticks(old(trace)) || Ticks(trace) <= patience(deadline)
    {
      ghost var before := trace;
      var probe;
      ghost var a;
      probe, a := AttemptFlow(None, deadline);
      attempts := [a];
      FirstAttempt(before, a, SetupFor(directions, deadline));
      if probe.Err? {
        r := Err(probe.error);
        return;
      }
      r, attempts := FinishRound(directions, deadline, before, probe.value, a);
    }

    // The directions of a round whose probe completed.
    method FinishRound(directions: seq<DirectionSpec>, deadline: real, ghost before: History,
                       probe: FlowThroughput, ghost a: Attempt)
      returns (r: Result<PathMeasurement, Failure>, ghost attempts: seq<Attempt>)
      requires Genuine(trace) && ClockAdvances() && a.finish.Done? && a.finish.flow == probe
      requires trace == before + AttemptsEvents([a], onRetry.Some?)
      requires RoundSoFar([a], 0, SetupFor(directions, deadline)) && ByDirection([a]) == map[]
      modifies this
      ensures Genuine(trace)
      ensures trace == before + AttemptsEvents(attempts, onRetry.Some?)
      ensures r.Ok? ==> ValidRound(Round(attempts, r.value), SetupFor(directions, deadline))
      ensures r.Err? ==>
                && ValidFailure(attempts, SetupFor(directions, deadline))
                && Answers(Err(r.error), attempts[|attempts| - 1].finish)
      ensures Ticks(old(trace)) <= Ticks(trace)
      ensures Ticks(trace) <= Ticks(old(trace)) || Ticks(trace) <= patience(deadline)
    {
      var byDirection;
      byDirection, attempts := MeasureDirections(directions, deadline, before, a);
      if byDirection.Err? {
        return Err(byDirection.error), attempts;
      }
      r := Ok(PathMeasurement(probe.minRtt, probe.meanRtt, byDirection.value));
      RoundIsValid(attempts, r.value, SetupFor(directions, deadline));
    }

    // Report a round, when the caller asked for reports.
    method ReportRound(facts: PathMeasurement) returns (raised: bool)
      requires Genuine(trace)
      modifies this
      ensures Genuine(trace)
      ensures trace == old(trace) + if onRound.Some? then [RoundTold(facts, raised)] else []
      ensures raised ==> onRound.Some?
      ensures Ticks(trace) == Ticks(old(trace))
    {
      raised := false;
      if onRound.Some? {
        raised := onRound.value(trace, facts);
        Record(RoundTold(facts, raised));
      }
    }

    // The post-round check: the clock is drawn only when stop_when answered no.
    method CheckStop(findings: seq<PathMeasurement>, deadline: real) returns (answer: Answer, time: real)
      requires Genuine(trace) && ClockAdvances()
      modifies this
      ensures Genuine(trace)
      ensures trace == old(trace) + [StopAsked(findings, answer)] + if answer == No then [ClockDrawn(time)] else []
      ensures Ticks(trace) == Ticks(old(trace)) + if answer == No then 1 else 0
      ensures answer == No && time < deadline ==> Ticks(trace) < patience(deadline)
    {
      time := 0.0;
      answer := stopWhen(trace, findings);
      Record(StopAsked(findings, answer));
      if answer == No {
        time := Monotonic();
      }
    }

    // What follows a measured round: whether to go on, or how the run ends.
    method AfterRound(ghost before: History, ghost round: Round, facts: PathMeasurement, deadline: real,
                      findings: seq<PathMeasurement>)
      returns (go: bool, r: Result<seq<PathMeasurement>, Failure>, ghost time: real, ghost ending: Ending)
      requires Genuine(trace) && ClockAdvances() && round.facts == facts
      requires trace == before + AttemptsEvents(round.attempts, onRetry.Some?)
      modifies this
      ensures Genuine(trace)
      ensures go ==>
                && time < deadline && Ticks(old(trace)) < Ticks(trace) <= patience(deadline)
                && trace == before + (RoundEvents(round, onRetry.Some?, onRound.Some?, false)
                                      + [StopAsked(findings + [facts], No), ClockDrawn(time)])
      ensures !go ==>
                && Ticks(trace) <= Ticks(old(trace)) + 1
                && Concludes(ending, round, deadline, onRound.Some?)
                && trace == before + EndingEvents(ending, findings, onRetry.Some?, onRound.Some?)
                && EndingAnswers(r, ending, findings)
    {
      go, time, r, ending := false, 0.0, Err(CallbackRaised), ReportRaised(round);
      var raised := ReportRound(facts);
      ReportedEvents(before, round, findings, onRetry.Some?, onRound.Some?, raised);
      if raised {
        return;
      }
      var answer, now := CheckStop(findings + [facts], deadline);
      CheckedEvents(before, round, findings, answer, now, onRetry.Some?, onRound.Some?);
      time := now;
      match answer {
        case Yes =>
          ending, r := Satisfied(round), Ok(findings + [facts]);
        case Raises =>
          ending := StopRaised(round);
        case No =>
          go, ending, r := now < deadline, OutOfTime(round, now), Ok(findings + [facts]);
      }
    }

    // One round and what follows it.
    method OneRound(directions: seq<DirectionSpec>, deadline: real, findings: seq<PathMeasurement>)
      returns (go: bool, facts: PathMeasurement, r: Result<seq<PathMeasurement>, Failure>,
               ghost round: Round, ghost time: real, ghost ending: Ending)
      requires Genuine(trace) && ClockAdvances()
      modifies this
      ensures Genuine(trace)
      ensures go ==>
                && ValidRound(round, SetupFor(directions, deadline)) && time < deadline && facts == round.facts
                && trace == old(trace) + (RoundEvents(round, onRetry.Some?, onRound.Some?, false)
                                          + [StopAsked(findings + [facts], No), ClockDrawn(time)])
                && Ticks(old(trace)) < Ticks(trace) <= patience(deadline)
      ensures !go ==>
                && ValidEnding(ending, SetupFor(directions, deadline))
                && trace == old(trace) + EndingEvents(ending, findings, onRetry.Some?, onRound.Some?)
                && EndingAnswers(r, ending, findings)
                && Ticks(trace) <= Max(Ticks(old(trace)), patience(deadline)) + 1
    {
      var measured;
      ghost var attempts;
      measured, attempts := MeasureRound(directions, deadline);
      if measured.Err? {
        go, time, facts, r := false, 0.0, PathMeasurement(None, None, map[]), Err(measured.error);
        round, ending := Round(attempts, facts), AttemptFailed(attempts);
        FailureIsValid(attempts, measured.error, findings, SetupFor(directions, deadline));
        return;
      }
      facts := measured.value;
      round := Round(attempts, facts);
      go, r, time, ending := AfterRound(old(trace), round, facts, deadline, findings);
      if !go {
        ConclusionIsValid(ending, round, SetupFor(directions, deadline));
      }
    }

    // The round loop, once the deadline is set.
    method RunRounds(ghost before: History, start: real, directions: seq<DirectionSpec>, deadline: real)
      returns (r: Result<seq<PathMeasurement>, Failure>, ghost run: Run)
      requires Genuine(trace) && ClockAdvances() && trace == before + [ClockDrawn(start)]
      modifies this
      ensures Genuine(trace)
      ensures run.start == start && Reports(before, trace, r, run, SetupFor(directions, deadline))
      ensures Ticks(trace) <= Max(Ticks(old(trace)), patience(deadline)) + 1
    {
      ghost var s, rounds: seq<(Round, real)> := SetupFor(directions, deadline), [];
      ghost var ticks := Ticks(trace);
      var findings: seq<PathMeasurement> := [];
      RunBegins(before, start, s);
      while true
        invariant Genuine(trace)
        invariant Going(before, trace, start, rounds, findings, s)
        invariant ticks <= Ticks(trace) <= Max(ticks, patience(deadline))
        decreases Max(ticks, patience(deadline)) - Ticks(trace)
      {
        ghost var h := trace;
        var facts, go;
        ghost var round, time, ending;
        go, facts, r, round, time, ending := OneRound(directions, deadline, findings);
        if !go {
          run := Run(start, rounds, ending);
          RunEnds(before, h, trace, start, rounds, findings, ending, r, s);
          return;
        }
        RunGoesOn(before, h, trace, start, rounds, findings, (round, time), s);
        findings, rounds := findings + [facts], rounds + [(round, time)];
      }
    }

    // Repeat rounds until stop_when or the budget; report them all.
    method MeasureRounds(directions: seq<DirectionSpec>, budget: real)
      returns (r: Result<seq<PathMeasurement>, Failure>, ghost run: Run)
      requires Genuine(trace) && ClockAdvances()
      modifies this
      ensures Genuine(trace)
      ensures run.start == clock(old(trace))
      ensures Reports(old(trace), trace, r, run, SetupFor(directions, Deadline(run.start, budget)))
      ensures Ticks(trace) <= Max(Ticks(old(trace)), patience(Deadline(run.start, budget))) + 1
      ensures CountsTicks() && old(trace) == [] ==> Ticks(trace) <= Ceiling(budget) + 1
    {
      ghost var before := trace;
      var start := Monotonic();
      r, run := RunRounds(before, start, directions, Deadline(start, budget));
      if CountsTicks() && before == [] {
        BudgetPatience(budget);
      }
    }

    // From the first draw on, the patience for a budget is the ticks it buys.
    lemma BudgetPatience(budget: real)
      requires CountsTicks()
      ensures patience(Deadline(clock([]), budget)) == Ceiling(budget)
    {
      assert Deadline(clock([]), budget) - clock([]) == budget;
    }
  }

  // What the caller of a run sees of its end.
  ghost predicate EndingAnswers(r: Result<seq<PathMeasurement>, Failure>, e: Ending, findings: seq<PathMeasurement>) {
    && (r.Ok? <==> e.Satisfied? || e.OutOfTime?)
    && (r.Ok? ==> r.value == findings + [e.round.facts])
    && (r.Err? && r.error.NotCompleted? <==> PropagatesNonCompletion(e))
    && (PropagatesNonCompletion(e) ==> r == Err(NotCompleted(FailedFinish(e).value.nc)))
  }

  // The trace grew by a valid run, and the caller sees how it ended.
  ghost predicate Reports(before: History, after: History, r: Result<seq<PathMeasurement>, Failure>,
                          run: Run, s: Setup)
  {
    && ValidRun(run, s)
    && after == before + RunEvents(run, s.tells, s.reports)
    && EndingAnswers(r, run.ending, FactsOfRounds(run.rounds))
  }

  // The probe and the first n directions are measured.
  ghost predicate RoundSoFar(attempts: seq<Attempt>, n: nat, s: Setup) {
    && n <= |s.directions|
    && SpecsOf(attempts) == RoundSpecs(s.directions)[..n + 1]
    && AllDone(attempts) && ValidAttempts(attempts, s)
  }

  lemma RoundIsValid(attempts: seq<Attempt>, facts: PathMeasurement, s: Setup)
    requires RoundSoFar(attempts, |s.directions|, s) && attempts != [] && attempts[0].finish.Done?
    requires facts == FactsOf(attempts)
    ensures ValidRound(Round(attempts, facts), s)
  {
    assert RoundSpecs(s.directions)[..|s.directions| + 1] == RoundSpecs(s.directions);
  }

  lemma FirstAttempt(h: History, a: Attempt, s: Setup)
    requires a.spec == None && ValidAttempt(a, s.(directions := []))
    ensures h + AttemptEvents(a, s.tells) == h + AttemptsEvents([a], s.tells)
    ensures a.finish.Done? ==> RoundSoFar([a], 0, s) && ByDirection([a]) == map[]
    ensures !a.finish.Done? ==> ValidFailure([a], s)
  {
    assert [a][..0] == [];
    assert SpecsOf([a]) == RoundSpecs(s.directions)[..1];
  }

  lemma NextAttemptSpecs(attempts: seq<Attempt>, b: Attempt, s: Setup)
    requires 0 < |attempts| <= |s.directions|
    requires SpecsOf(attempts) == RoundSpecs(s.directions)[..|attempts|]
    requires b.spec == Some(s.directions[|attempts| - 1])
    ensures SpecsOf(attempts + [b]) == RoundSpecs(s.directions)[..|attempts| + 1]
  {
  }

  lemma NextAttemptEvents(h: History, attempts: seq<Attempt>, b: Attempt, tells: bool)
    ensures h + AttemptsEvents(attempts, tells) + AttemptEvents(b, tells) == h + AttemptsEvents(attempts + [b], tells)
    ensures b.spec.Some? && b.finish.Done? ==>
              ByDirection(attempts + [b]) == ByDirection(attempts)[b.spec.value.name := b.finish.flow]
  {
    assert (attempts + [b])[..|attempts|] == attempts;
  }

  lemma NextAttempt(attempts: seq<Attempt>, b: Attempt, s: Setup)
    requires 0 < |attempts| <= |s.directions| && RoundSoFar(attempts, |attempts| - 1, s)
    requires b.spec == Some(s.directions[|attempts| - 1]) && ValidAttempt(b, s.(directions := []))
    ensures SpecsOf(attempts + [b]) == RoundSpecs(s.directions)[..|attempts| + 1]
    ensures ValidAttempts(attempts + [b], s)
    ensures b.finish.Done? ==> AllDone(attempts + [b])
  {
    NextAttemptSpecs(attempts, b, s);
    assert ValidAttempt(b, s);
  }

  lemma NextAttemptFails(attempts: seq<Attempt>, b: Attempt, s: Setup)
    requires AllDone(attempts) && SpecsOf(attempts + [b]) <= RoundSpecs(s.directions)
    requires ValidAttempts(attempts + [b], s) && !b.finish.Done?
    ensures ValidFailure(attempts + [b], s)
  {
    assert (attempts + [b])[..|attempts|] == attempts;
  }

  // The endings a measured round can lead to.
  ghost predicate Concludes(e: Ending, round: Round, deadline: real, reports: bool) {
    match e
    case Satisfied(r) => r == round
    case OutOfTime(r, time) => r == round && time >= deadline
    case StopRaised(r) => r == round
    case ReportRaised(r) => r == round && reports
    case AttemptFailed(_) => false
  }

  lemma ReportedEvents(h: History, round: Round, earlier: seq<PathMeasurement>, tells: bool, reports: bool,
                       raised: bool)
    ensures h + AttemptsEvents(round.attempts, tells) + (if reports then [RoundTold(round.facts, raised)] else [])
         == h + RoundEvents(round, tells, reports, raised)
    ensures RoundEvents(round, tells, reports, true) == EndingEvents(ReportRaised(round), earlier, tells, reports)
  {
  }

  lemma CheckedEvents(h: History, round: Round, earlier: seq<PathMeasurement>, answer: Answer, time: real,
                      tells: bool, reports: bool)
    ensures var told := RoundEvents(round, tells, reports, false);
      var asked := earlier + [round.facts];
      var t := h + told + [StopAsked(asked, answer)] + (if answer == No then [ClockDrawn(time)] else []);
      match answer
      case Yes => t == h + EndingEvents(Satisfied(round), earlier, tells, reports)
      case Raises => t == h + EndingEvents(StopRaised(round), earlier, tells, reports)
      case No => t == h + EndingEvents(OutOfTime(round, time), earlier, tells, reports)
                 && t == h + (told + [StopAsked(asked, No), ClockDrawn(time)])
  {
    var asked := StopAsked(earlier + [round.facts], answer);
    assert [asked] + [ClockDrawn(time)] == [asked, ClockDrawn(time)];
  }

  lemma FailureAnswers(attempts: seq<Attempt>, failure: Failure, findings: seq<PathMeasurement>)
    requires attempts != [] && !attempts[|attempts| - 1].finish.Done?
    requires Answers(Err(failure), attempts[|attempts| - 1].finish)
    ensures EndingAnswers(Err(failure), AttemptFailed(attempts), findings)
  {
    assert FailedFinish(AttemptFailed(attempts)) == Some(attempts[|attempts| - 1].finish);
  }

  lemma FailureIsValid(attempts: seq<Attempt>, failure: Failure, findings: seq<PathMeasurement>, s: Setup)
    requires ValidFailure(attempts, s) && Answers(Err(failure), attempts[|attempts| - 1].finish)
    ensures ValidEnding(AttemptFailed(attempts), s)
    ensures EndingAnswers(Err(failure), AttemptFailed(attempts), findings)
  {
    FailureAnswers(attempts, failure, findings);
  }

  lemma ConclusionIsValid(e: Ending, round: Round, s: Setup)
    requires ValidRound(round, s) && Concludes(e, round, s.deadline, s.reports)
    ensures ValidEnding(e, s)
  {
  }

  // Some rounds into a run.
  ghost predicate Going(before: History, h: History, start: real, rounds: seq<(Round, real)>,
                        findings: seq<PathMeasurement>, s: Setup)
  {
    && h == before + [ClockDrawn(start)] + ContinuedEvents(rounds, s.tells, s.reports)
    && ValidRounds(rounds, s)
    && findings == FactsOfRounds(rounds)
  }

  lemma RunBegins(before: History, start: real, s: Setup)
    ensures Going(before, before + [ClockDrawn(start)], start, [], [], s)
  {
  }

  lemma RunGoesOn(before: History, h: History, after: History, start: real, rounds: seq<(Round, real)>,
                  findings: seq<PathMeasurement>, next: (Round, real), s: Setup)
    requires Going(before, h, start, rounds, findings, s) && ValidRound(next.0, s) && next.1 < s.deadline
    requires after == h + (RoundEvents(next.0, s.tells, s.reports, false)
                           + [StopAsked(findings + [next.0.facts], No), ClockDrawn(next.1)])
    ensures Going(before, after, start, rounds + [next], findings + [next.0.facts], s)
  {
    RoundOnRecord(before + [ClockDrawn(start)], rounds, next, s);
    RoundCounted(rounds, next, s);
  }

  lemma RoundCounted(rounds: seq<(Round, real)>, next: (Round, real), s: Setup)
    requires ValidRounds(rounds, s) && ValidRound(next.0, s) && next.1 < s.deadline
    ensures ValidRounds(rounds + [next], s)
    ensures FactsOfRounds(rounds + [next]) == FactsOfRounds(rounds) + [next.0.facts]
  {
    assert (rounds + [next])[..|rounds|] == rounds;
  }

  lemma RoundOnRecord(h: History, rounds: seq<(Round, real)>, next: (Round, real), s: Setup)
    ensures h + ContinuedEvents(rounds, s.tells, s.reports)
            + (RoundEvents(next.0, s.tells, s.reports, false)
               + [StopAsked(FactsOfRounds(rounds + [next]), No), ClockDrawn(next.1)])
         == h + ContinuedEvents(rounds + [next], s.tells, s.reports)
  {
    ContinuedEventsSnoc(rounds, next, s);
    ConcatAssociates(h, ContinuedEvents(rounds, s.tells, s.reports),
                     RoundEvents(next.0, s.tells, s.reports, false)
                     + [StopAsked(FactsOfRounds(rounds + [next]), No), ClockDrawn(next.1)]);
  }

  lemma ContinuedEventsSnoc(rounds: seq<(Round, real)>, next: (Round, real), s: Setup)
    ensures ContinuedEvents(rounds + [next], s.tells, s.reports)
            == ContinuedEvents(rounds, s.tells, s.reports)
               + (RoundEvents(next.0, s.tells, s.reports, false)
                  + [StopAsked(FactsOfRounds(rounds + [next]), No), ClockDrawn(next.1)])
  {
    assert (rounds + [next])[..|rounds|] == rounds;
  }

  lemma RunEnds(before: History, h: History, after: History, start: real, rounds: seq<(Round, real)>,
                findings: seq<PathMeasurement>, ending: Ending, r: Result<seq<PathMeasurement>, Failure>, s: Setup)
    requires Going(before, h, start, rounds, findings, s) && ValidEnding(ending, s)
    requires after == h + EndingEvents(ending, findings, s.tells, s.reports) && EndingAnswers(r, ending, findings)
    ensures Reports(before, after, r, Run(start, rounds, ending), s)
  {
    RunEventsAre(before, start, rounds, ending, s);
  }

  lemma RunEventsAre(before: History, start: real, rounds: seq<(Round, real)>, ending: Ending, s: Setup)
    ensures before + RunEvents(Run(start, rounds, ending), s.tells, s.reports)
            == before + [ClockDrawn(start)] + ContinuedEvents(rounds, s.tells, s.reports)
               + EndingEvents(ending, FactsOfRounds(rounds), s.tells, s.reports)
  {
    var c := ContinuedEvents(rounds, s.tells, s.reports);
    var e := EndingEvents(ending, FactsOfRounds(rounds), s.tells, s.reports);
    ConcatAssociates(before, [ClockDrawn(start)] + c, e);
    ConcatAssociates(before, [ClockDrawn(start)], c);
  }

  function Max(a: nat, b: nat): nat {
    if a < b then b else a
  }

  // What the caller of an attempt sees of its end.
  ghost predicate Answers(r: Result<FlowThroughput, Failure>, f: Finish) {
    && (r.Ok? <==> f.Done?)
    && (r.Ok? ==> r.value == f.flow)
    && (r.Err? ==>
          if f.Late? || f.Unasked? || f.Declined? then r.error == NotCompleted(f.nc) else r.error == CallbackRaised)
  }

  lemma AbsorbedExtends(h: History, spec: Option<DirectionSpec>, absorbed: seq<Absorbed>, next: Absorbed, tells: bool)
    ensures h + AllAbsorbed(spec, absorbed + [next], tells)
         == h + AllAbsorbed(spec, absorbed, tells) + AbsorbedEvents(spec, next, tells)
    ensures forall x :: x in absorbed + [next] <==> x in absorbed || x == next
  {
    assert (absorbed + [next])[..|absorbed|] == absorbed;
  }

  lemma FinishClosesAttempt(h: History, a: Attempt, tells: bool)
    ensures h + AllAbsorbed(a.spec, a.absorbed, tells) + FinishEvents(a.spec, a.finish) == h + AttemptEvents(a, tells)
  {
  }

  // ---------------------------------------------------------------- stopping at a number of rounds

  // stop_when answers yes exactly at n findings or more.
  ghost predicate StopsAt(e: Engine, n: nat) {
    forall h, findings :: e.stopWhen(h, findings) == if |findings| >= n then Yes else No
  }

  lemma QuestionAnswered(e: Engine, h: History, q: Event, n: nat)
    requires e.Genuine(h) && StopsAt(e, n) && q in h && q.StopAsked?
    ensures q.answer == if |q.findings| >= n then Yes else No
  {
    var i: nat :| i < |h| && h[i] == q;
    assert e.AnsweredAt(h, i);
  }

  // With such a stop_when, a run that ends satisfied has n findings exactly, and one that ends
  // out of time has fewer.
  lemma StopsExactly(e: Engine, before: History, run: Run, s: Setup, n: nat)
    requires n > 0 && ValidRun(run, s) && StopsAt(e, n)
    requires e.Genuine(before + RunEvents(run, s.tells, s.reports))
    ensures |run.rounds| < n
    ensures run.ending.Satisfied? ==> |AllFacts(run)| == n
    ensures run.ending.OutOfTime? ==> |AllFacts(run)| < n
    ensures !run.ending.StopRaised?
  {
    var h := before + RunEvents(run, s.tells, s.reports);
    if run.rounds != [] {
      ContinuedQuestion(run.rounds, s.tells, s.reports);
      QuestionAnswered(e, h, StopAsked(FactsOfRounds(run.rounds), No), n);
    }
    if LastAsked(run.ending) {
      var answer := if run.ending.Satisfied? then Yes else if run.ending.OutOfTime? then No else Raises;
      var q := StopAsked(FactsOfRounds(run.rounds) + [run.ending.round.facts], answer);
      assert q in EndingEvents(run.ending, FactsOfRounds(run.rounds), s.tells, s.reports);
      QuestionAnswered(e, h, q, n);
    }
  }

  // ---------------------------------------------------------------- the refused probe, on an engine

  // No flow ever completes, and there is no retry_when.
  ghost predicate NeverCompletes(e: Engine, port: int, nc: NonCompletion) {
    && e.retryWhen.None?
    && (forall h :: e.allocatePort(h) == Some(port))
    && (forall h, p, spec :: e.measureFlow(h, p, spec) == Incomplete(nc))
  }

  lemma NothingCompleted(e: Engine, h: History, i: nat, port: int, nc: NonCompletion)
    requires e.Genuine(h) && i < |h| && NeverCompletes(e, port, nc)
    ensures !h[i].AllocateRaised? && (h[i].Measured? ==> h[i].outcome == Incomplete(nc))
  {
    assert e.AnsweredAt(h, i);
  }

  // Every run of such an engine ends with its probe.
  lemma RefusedProbe(e: Engine, run: Run, s: Setup, port: int, nc: NonCompletion)
    requires ValidRun(run, s) && e.Genuine(RunEvents(run, s.tells, s.reports))
    requires NeverCompletes(e, port, nc) && !s.asks
    ensures FirstAttempts(run) != []
    ensures var a := FirstAttempts(run)[0];
      && run.rounds == [] && run.ending == AttemptFailed([a])
      && a.absorbed == [] && (a.finish.Late? || a.finish.Unasked?) && a.finish.nc == nc
  {
    FirstFinishEvents(run, s);
    FirstAttemptDone(run, s);
    var h, a := RunEvents(run, s.tells, s.reports), FirstAttempts(run)[0];
    var first := [ClockDrawn(run.start)] + FinishEvents(a.spec, a.finish);
    assert h[1] == first[1];
    NothingCompleted(e, h, 1, port, nc);
    if !a.finish.Unallocated? {
      assert h[2] == first[2] && h[2].Measured?;
      NothingCompleted(e, h, 2, port, nc);
    }
  }

  // Such a call draws the clock twice: for the deadline, and for a non-completion that nothing
  // absorbed.
  method RefusedProbeCall(directions: seq<DirectionSpec>, budget: real, port: int, nc: NonCompletion)
    returns (r: Result<seq<PathMeasurement>, Failure>, h: History)
    ensures r == Err(NotCompleted(nc))
    ensures Count(h, Draw) == 2 && Count(h, Backoff) == 0 && Count(h, StopNo) == 0
  {
    var engine := new Engine.Ticking((h: History) => Ticks(h) as real,
                                     (h: History) => Some(port),
                                     (h: History, p: int, spec: Option<DirectionSpec>) => Incomplete(nc),
                                     None, None, None,
                                     (h: History, findings: seq<PathMeasurement>) => Yes);
    ghost var run;
    r, run := engine.MeasureRounds(directions, budget);
    h := engine.trace;
    ghost var s := engine.SetupFor(directions, Deadline(run.start, budget));
    assert [] + RunEvents(run, s.tells, s.reports) == RunEvents(run, s.tells, s.reports);
    RefusedProbe(engine, run, s, port, nc);
    RefusedRunDrawsTwice(run, s, FirstAttempts(run)[0]);
  }
}
