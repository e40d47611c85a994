// The order of a run's events, told by a monitor that sees them one at a time and knows nothing
// of attempts and rounds.
module RoundProtocol {
  import opened Common
  import opened RoundLog

  // What the run may do next. An attempt is numbered by its place in the round, the probe first.
  datatype Phase =
    | Start
    | Ready(i: nat)
    | Holding(i: nat, port: int)
    | Failed(i: nat, port: int, nc: NonCompletion)
    | InBudget(i: nat, port: int, nc: NonCompletion)
    | Agreed(i: nat, port: int, nc: NonCompletion)
    | Told(i: nat)
    | Complete
    | Reported
    | Continues
    | Over

  // A resource is drawn for every measurement and used once, on its own attempt's spec; a
  // non-completion is checked against the budget before anyone is asked about it; what is asked
  // and told is the non-completion just seen, on the resource it used; a backoff needs a yes, and
  // the report when there is a reporter; stop_when is asked after the round's report, and the
  // clock is drawn only on its no.
  function Next(p: Phase, e: Event, s: Setup): Option<Phase> {
    match (p, e)
    case (Start, ClockDrawn(_)) => Some(Ready(0))
    case (Ready(i), Allocated(port)) => Some(Holding(i, port))
    case (Ready(_), AllocateRaised) => Some(Over)
    case (Holding(i, port), Measured(used, spec, outcome)) =>
      if used != port || i > |s.directions| || spec != RoundSpecs(s.directions)[i] then None
      else
        Some(match outcome
             case Completed(_) => if i == |s.directions| then Complete else Ready(i + 1)
             case Incomplete(nc) => Failed(i, port, nc)
             case Broken => Over)
    case (Failed(i, port, nc), ClockDrawn(time)) =>
      Some(if time < s.deadline && s.asks then InBudget(i, port, nc) else Over)
    case (InBudget(i, port, nc), RetryAsked(about, answer)) =>
      if about != nc then None else Some(if answer == Yes then Agreed(i, port, nc) else Over)
    case (Agreed(i, port, nc), RetryTold(about, used, raised)) =>
      if !s.tells || about != nc || used != port then None else Some(if raised then Over else Told(i))
    case (Agreed(i, _, _), BackedOff) => if s.tells then None else Some(Ready(i))
    case (Told(i), BackedOff) => Some(Ready(i))
    case (Complete, RoundTold(_, raised)) =>
      if !s.reports then None else Some(if raised then Over else Reported)
    case (Complete, StopAsked(_, answer)) => if s.reports then None else Some(if answer == No then Continues else Over)
    case (Reported, StopAsked(_, answer)) => Some(if answer == No then Continues else Over)
    case (Continues, ClockDrawn(time)) => Some(if time < s.deadline then Ready(0) else Over)
    case _ => None
  }

  // Where a history leads, if the monitor follows it to the end.
  function Follow(p: Phase, h: History, s: Setup): Option<Phase> {
    if h == [] then Some(p)
    else
      match Follow(p, h[..|h| - 1], s)
      case None => None
      case Some(q) => Next(q, h[|h| - 1], s)
  }

  lemma {:induction false} FollowConcat(p: Phase, a: History, b: History, s: Setup, q: Phase)
    requires Follow(p, a, s) == Some(q)
    ensures Follow(p, a + b, s) == Follow(q, b, s)
  {
    if b == [] {
      assert a + b == a;
    } else {
      FollowConcat(p, a, b[..|b| - 1], s, q);
      assert (a + b)[..|a + b| - 1] == a + b[..|b| - 1];
    }
  }

  lemma FollowSnoc(p: Phase, h: History, e: Event, s: Setup, q: Phase)
    requires Follow(p, h, s) == Some(q)
    ensures Follow(p, h + [e], s) == Next(q, e, s)
  {
    assert (h + [e])[..|h|] == h;
  }

  lemma FollowOne(p: Phase, e: Event, s: Setup)
    ensures Follow(p, [e], s) == Next(p, e, s)
  {
    assert [e][..0] == [];
  }

  lemma FollowTwo(p: Phase, a: Event, b: Event, s: Setup, q: Phase)
    requires Next(p, a, s) == Some(q)
    ensures Follow(p, [a, b], s) == Next(q, b, s)
  {
    FollowOne(p, a, s);
    FollowSnoc(p, [a], b, s, q);
    assert [a] + [b] == [a, b];
  }

  // ---------------------------------------------------------------- attempts

  ghost predicate IsSpec(spec: Option<DirectionSpec>, i: nat, s: Setup) {
    i <= |s.directions| && RoundSpecs(s.directions)[i] == spec
  }

  // The phase after attempt i completed.
  function Done(i: nat, s: Setup): Phase {
    if i == |s.directions| then Complete else Ready(i + 1)
  }

  lemma TryFollows(spec: Option<DirectionSpec>, i: nat, port: int, nc: NonCompletion, s: Setup)
    requires IsSpec(spec, i, s)
    ensures Follow(Ready(i), TryEvents(spec, port, nc), s) == Some(Failed(i, port, nc))
  {
    FollowTwo(Ready(i), Allocated(port), Measured(port, spec, Incomplete(nc)), s, Holding(i, port));
  }

  lemma RetryFollows(i: nat, a: Absorbed, s: Setup)
    requires s.asks && a.time < s.deadline
    ensures Follow(Failed(i, a.port, a.nc), RetryEvents(a, s.tells), s) == Some(Ready(i))
  {
    var failed, agreed := Failed(i, a.port, a.nc), Agreed(i, a.port, a.nc);
    var asked := [ClockDrawn(a.time), RetryAsked(a.nc, Yes)];
    FollowTwo(failed, ClockDrawn(a.time), RetryAsked(a.nc, Yes), s, InBudget(i, a.port, a.nc));
    if s.tells {
      var told := RetryTold(a.nc, a.port, false);
      FollowSnoc(failed, asked, told, s, agreed);
      FollowSnoc(failed, asked + [told], BackedOff, s, Told(i));
    } else {
      AppendNothing(asked);
      FollowSnoc(failed, asked, BackedOff, s, agreed);
    }
  }

  lemma {:induction false} AbsorbedFollow(spec: Option<DirectionSpec>, i: nat, absorbed: seq<Absorbed>, s: Setup)
    requires IsSpec(spec, i, s) && (absorbed != [] ==> s.asks)
    requires forall x :: x in absorbed ==> x.time < s.deadline
    ensures Follow(Ready(i), AllAbsorbed(spec, absorbed, s.tells), s) == Some(Ready(i))
  {
    if absorbed != [] {
      var front, a := absorbed[..|absorbed| - 1], absorbed[|absorbed| - 1];
      assert a in absorbed;
      AbsorbedFollow(spec, i, front, s);
      TryFollows(spec, i, a.port, a.nc, s);
      RetryFollows(i, a, s);
      FollowConcat(Ready(i), TryEvents(spec, a.port, a.nc), RetryEvents(a, s.tells), s, Failed(i, a.port, a.nc));
      FollowConcat(Ready(i), AllAbsorbed(spec, front, s.tells), AbsorbedEvents(spec, a, s.tells), s, Ready(i));
    }
  }

  lemma RefusalFollows(i: nat, f: Finish, s: Setup)
    requires Refused(f) && ValidFinish(f, s)
    ensures Follow(Failed(i, f.port, f.nc), RefusalEvents(f), s) == Some(Over)
  {
    var failed, checked := Failed(i, f.port, f.nc), InBudget(i, f.port, f.nc);
    match f
    case Late(_, _, time) => FollowOne(failed, ClockDrawn(time), s);
    case Unasked(_, _, time) => FollowOne(failed, ClockDrawn(time), s);
    case Declined(_, nc, time) => FollowTwo(failed, ClockDrawn(time), RetryAsked(nc, No), s, checked);
    case AskRaised(_, nc, time) => FollowTwo(failed, ClockDrawn(time), RetryAsked(nc, Raises), s, checked);
    case TellRaised(port, nc, time) =>
      FollowTwo(failed, ClockDrawn(time), RetryAsked(nc, Yes), s, checked);
      FollowSnoc(failed, [ClockDrawn(time), RetryAsked(nc, Yes)], RetryTold(nc, port, true), s, Agreed(i, port, nc));
      assert RefusalEvents(f) == [ClockDrawn(time), RetryAsked(nc, Yes)] + [RetryTold(nc, port, true)];
  }

  lemma FinishFollows(spec: Option<DirectionSpec>, i: nat, f: Finish, s: Setup)
    requires IsSpec(spec, i, s) && ValidFinish(f, s)
    ensures Follow(Ready(i), FinishEvents(spec, f), s) == Some(if f.Done? then Done(i, s) else Over)
  {
    match f
    case Done(port, flow) =>
      FollowTwo(Ready(i), Allocated(port), Measured(port, spec, Completed(flow)), s, Holding(i, port));
    case Unallocated => FollowOne(Ready(i), AllocateRaised, s);
    case BrokenFlow(port) => FollowTwo(Ready(i), Allocated(port), Measured(port, spec, Broken), s, Holding(i, port));
    case _ => RefusedFollows(spec, i, f, s);
  }

  lemma RefusedFollows(spec: Option<DirectionSpec>, i: nat, f: Finish, s: Setup)
    requires IsSpec(spec, i, s) && ValidFinish(f, s) && Refused(f)
    ensures Follow(Ready(i), FinishEvents(spec, f), s) == Some(Over)
  {
    TryFollows(spec, i, f.port, f.nc, s);
    RefusalFollows(i, f, s);
    FollowConcat(Ready(i), TryEvents(spec, f.port, f.nc), RefusalEvents(f), s, Failed(i, f.port, f.nc));
    assert FinishEvents(spec, f) == TryEvents(spec, f.port, f.nc) + RefusalEvents(f);
  }

  lemma AttemptFollows(a: Attempt, i: nat, s: Setup)
    requires IsSpec(a.spec, i, s) && ValidAttempt(a, s)
    ensures Follow(Ready(i), AttemptEvents(a, s.tells), s) == Some(if a.finish.Done? then Done(i, s) else Over)
  {
    AbsorbedFollow(a.spec, i, a.absorbed, s);
    FinishFollows(a.spec, i, a.finish, s);
    FollowConcat(Ready(i), AllAbsorbed(a.spec, a.absorbed, s.tells), FinishEvents(a.spec, a.finish), s, Ready(i));
  }

  // ---------------------------------------------------------------- rounds

  // The phase after the first n attempts of a round completed.
  function After(n: nat, s: Setup): Phase {
    if n == |s.directions| + 1 then Complete else Ready(n)
  }

  lemma {:induction false} AttemptsFollow(attempts: seq<Attempt>, s: Setup)
    requires SpecsOf(attempts) <= RoundSpecs(s.directions) && ValidAttempts(attempts, s) && AllDone(attempts)
    ensures Follow(Ready(0), AttemptsEvents(attempts, s.tells), s) == Some(After(|attempts|, s))
  {
    if attempts != [] {
      var n, front, last := |attempts| - 1, attempts[..|attempts| - 1], attempts[|attempts| - 1];
      assert last in attempts && SpecsOf(front) == SpecsOf(attempts)[..n] && SpecsOf(attempts)[n] == last.spec;
      AttemptsFollow(front, s);
      AttemptFollows(last, n, s);
      FollowConcat(Ready(0), AttemptsEvents(front, s.tells), AttemptEvents(last, s.tells), s, Ready(n));
    }
  }

  lemma FailureFollows(attempts: seq<Attempt>, s: Setup)
    requires ValidFailure(attempts, s)
    ensures Follow(Ready(0), AttemptsEvents(attempts, s.tells), s) == Some(Over)
  {
    var n, front, last := |attempts| - 1, attempts[..|attempts| - 1], attempts[|attempts| - 1];
    assert last in attempts && SpecsOf(front) == SpecsOf(attempts)[..n] && SpecsOf(attempts)[n] == last.spec;
    AttemptsFollow(front, s);
    AttemptFollows(last, n, s);
    FollowConcat(Ready(0), AttemptsEvents(front, s.tells), AttemptEvents(last, s.tells), s, Ready(n));
  }

  // The phase in which stop_when is asked.
  function Asking(s: Setup): Phase {
    if s.reports then Reported else Complete
  }

  lemma MeasuredFollows(r: Round, s: Setup)
    requires ValidRound(r, s)
    ensures Follow(Ready(0), AttemptsEvents(r.attempts, s.tells), s) == Some(Complete)
  {
    assert |SpecsOf(r.attempts)| == |RoundSpecs(s.directions)| == |s.directions| + 1;
    AttemptsFollow(r.attempts, s);
  }

  lemma RoundFollows(r: Round, raised: bool, s: Setup)
    requires ValidRound(r, s) && (raised ==> s.reports)
    ensures Follow(Ready(0), RoundEvents(r, s.tells, s.reports, raised), s) == Some(if raised then Over else Asking(s))
  {
    MeasuredFollows(r, s);
    ReportFollows(AttemptsEvents(r.attempts, s.tells), r.facts, raised, s);
  }

  lemma ReportFollows(h: History, facts: PathMeasurement, raised: bool, s: Setup)
    requires Follow(Ready(0), h, s) == Some(Complete) && (raised ==> s.reports)
    ensures Follow(Ready(0), h + if s.reports then [RoundTold(facts, raised)] else [], s)
         == Some(if raised then Over else Asking(s))
  {
    if s.reports {
      FollowSnoc(Ready(0), h, RoundTold(facts, raised), s, Complete);
    } else {
      AppendNothing(h);
    }
  }

  lemma AskedFollows(r: Round, findings: seq<PathMeasurement>, answer: Answer, s: Setup)
    requires ValidRound(r, s)
    ensures Follow(Ready(0), RoundEvents(r, s.tells, s.reports, false) + [StopAsked(findings, answer)], s)
         == Some(if answer == No then Continues else Over)
  {
    RoundFollows(r, false, s);
    FollowSnoc(Ready(0), RoundEvents(r, s.tells, s.reports, false), StopAsked(findings, answer), s, Asking(s));
  }

  lemma CheckedFollows(r: Round, findings: seq<PathMeasurement>, time: real, s: Setup)
    requires ValidRound(r, s)
    ensures Follow(Ready(0), RoundEvents(r, s.tells, s.reports, false) + [StopAsked(findings, No), ClockDrawn(time)], s)
         == Some(if time < s.deadline then Ready(0) else Over)
  {
    var told := RoundEvents(r, s.tells, s.reports, false);
    AskedFollows(r, findings, No, s);
    FollowSnoc(Ready(0), told + [StopAsked(findings, No)], ClockDrawn(time), s, Continues);
    PairAppends(told, StopAsked(findings, No), ClockDrawn(time));
  }

  lemma {:induction false} ContinuedFollow(rounds: seq<(Round, real)>, s: Setup)
    requires ValidRounds(rounds, s)
    ensures Follow(Ready(0), ContinuedEvents(rounds, s.tells, s.reports), s) == Some(Ready(0))
  {
    if rounds != [] {
      var front, last := rounds[..|rounds| - 1], rounds[|rounds| - 1];
      assert last in rounds;
      ContinuedFollow(front, s);
      CheckedFollows(last.0, FactsOfRounds(rounds), last.1, s);
      FollowConcat(Ready(0), ContinuedEvents(front, s.tells, s.reports),
                   RoundEvents(last.0, s.tells, s.reports, false)
                   + [StopAsked(FactsOfRounds(rounds), No), ClockDrawn(last.1)], s, Ready(0));
    }
  }

  lemma EndingFollows(e: Ending, earlier: seq<PathMeasurement>, s: Setup)
    requires ValidEnding(e, s)
    ensures Follow(Ready(0), EndingEvents(e, earlier, s.tells, s.reports), s) == Some(Over)
  {
    match e
    case Satisfied(r) => AskedFollows(r, earlier + [r.facts], Yes, s);
    case OutOfTime(r, time) => CheckedFollows(r, earlier + [r.facts], time, s);
    case StopRaised(r) => AskedFollows(r, earlier + [r.facts], Raises, s);
    case ReportRaised(r) => RoundFollows(r, true, s);
    case AttemptFailed(attempts) => FailureFollows(attempts, s);
  }

  // The monitor follows every run to its end, and lets nothing come after.
  lemma RunFollows(run: Run, s: Setup)
    requires ValidRun(run, s)
    ensures Follow(Start, RunEvents(run, s.tells, s.reports), s) == Some(Over)
  {
    var continued := ContinuedEvents(run.rounds, s.tells, s.reports);
    var ending := EndingEvents(run.ending, FactsOfRounds(run.rounds), s.tells, s.reports);
    ContinuedFollow(run.rounds, s);
    EndingFollows(run.ending, FactsOfRounds(run.rounds), s);
    StartFollows(run.start, continued, ending, s);
  }

  lemma StartFollows(start: real, continued: History, ending: History, s: Setup)
    requires Follow(Ready(0), continued, s) == Some(Ready(0)) && Follow(Ready(0), ending, s) == Some(Over)
    ensures Follow(Start, [ClockDrawn(start)] + continued + ending, s) == Some(Over)
  {
    FollowOne(Start, ClockDrawn(start), s);
    FollowThree(Start, [ClockDrawn(start)], Ready(0), continued, ending, s, Over);
  }

  lemma FollowThree(p: Phase, a: History, q: Phase, b: History, c: History, s: Setup, r: Phase)
    requires Follow(p, a, s) == Some(q) && Follow(q, b, s) == Some(q) && Follow(q, c, s) == Some(r)
    ensures Follow(p, a + b + c, s) == Some(r)
  {
    FollowConcat(p, a, b, s, q);
    FollowConcat(p, a + b, c, s, q);
  }
}
