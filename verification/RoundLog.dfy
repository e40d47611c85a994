// The record of a probe-and-directions measurement: every callback, clock draw and resource,
// and what must balance in any such record.
module RoundLog {
  import opened Common
  import opened Throughput

  datatype DirectionSpec = DirectionSpec(name: string, reverse: bool)

  datatype NonCompletion = NonCompletion(detail: string)

  datatype PathMeasurement = PathMeasurement(
    probeMinRtt: Option<real>, probeMeanRtt: Option<real>, byDirection: map<string, FlowThroughput>)

  datatype FlowOutcome = Completed(flow: FlowThroughput) | Incomplete(nc: NonCompletion) | Broken

  // A callback's verdict, or an exception of its own.
  datatype Answer = Yes | No | Raises

  datatype Event =
    | ClockDrawn(time: real)
    | Allocated(port: int)
    | AllocateRaised
    | Measured(port: int, spec: Option<DirectionSpec>, outcome: FlowOutcome)
    | RetryAsked(nc: NonCompletion, answer: Answer)
    | RetryTold(nc: NonCompletion, port: int, raised: bool)
    | BackedOff
    | RoundTold(facts: PathMeasurement, raised: bool)
    | StopAsked(findings: seq<PathMeasurement>, answer: Answer)

  type History = seq<Event>

  // stop_when answered no.
  predicate SaysNo(e: Event) {
    e.StopAsked? && e.answer == No
  }

  // ---------------------------------------------------------------- one attempt

  // A non-completion the retry mechanic absorbed.
  datatype Absorbed = Absorbed(port: int, nc: NonCompletion, time: real)

  // How an attempt ended.
  datatype Finish =
    | Done(port: int, flow: FlowThroughput)
    | Unallocated
    | BrokenFlow(port: int)
    | Late(port: int, nc: NonCompletion, time: real)
    | Unasked(port: int, nc: NonCompletion, time: real)
    | Declined(port: int, nc: NonCompletion, time: real)
    | AskRaised(port: int, nc: NonCompletion, time: real)
    | TellRaised(port: int, nc: NonCompletion, time: real)

  // A non-completion ended the attempt.
  predicate Refused(f: Finish) {
    f.Late? || f.Unasked? || f.Declined? || f.AskRaised? || f.TellRaised?
  }

  datatype Attempt = Attempt(spec: Option<DirectionSpec>, absorbed: seq<Absorbed>, finish: Finish)

  // A measurement on a freshly drawn port that did not complete.
  function TryEvents(spec: Option<DirectionSpec>, port: int, nc: NonCompletion): History {
    [Allocated(port), Measured(port, spec, Incomplete(nc))]
  }

  // The budget check, the caller's yes, the report and the pause before the next attempt.
  function RetryEvents(a: Absorbed, tells: bool): History {
    [ClockDrawn(a.time), RetryAsked(a.nc, Yes)]
    + (if tells then [RetryTold(a.nc, a.port, false)] else [])
    + [BackedOff]
  }

  function AbsorbedEvents(spec: Option<DirectionSpec>, a: Absorbed, tells: bool): History {
    TryEvents(spec, a.port, a.nc) + RetryEvents(a, tells)
  }

  function AllAbsorbed(spec: Option<DirectionSpec>, absorbed: seq<Absorbed>, tells: bool): History {
    if absorbed == [] then []
    else
      AllAbsorbed(spec, absorbed[..|absorbed| - 1], tells)
      + AbsorbedEvents(spec, absorbed[|absorbed| - 1], tells)
  }

  // What follows a non-completion that is not retried.
  function RefusalEvents(f: Finish): History {
    match f
    case Late(_, _, time) => [ClockDrawn(time)]
    case Unasked(_, _, time) => [ClockDrawn(time)]
    case Declined(_, nc, time) => [ClockDrawn(time), RetryAsked(nc, No)]
    case AskRaised(_, nc, time) => [ClockDrawn(time), RetryAsked(nc, Raises)]
    case TellRaised(port, nc, time) => [ClockDrawn(time), RetryAsked(nc, Yes), RetryTold(nc, port, true)]
    case _ => []
  }

  function FinishEvents(spec: Option<DirectionSpec>, f: Finish): History {
    match f
    case Done(port, flow) => [Allocated(port), Measured(port, spec, Completed(flow))]
    case Unallocated => [AllocateRaised]
    case BrokenFlow(port) => [Allocated(port), Measured(port, spec, Broken)]
    case _ => TryEvents(spec, f.port, f.nc) + RefusalEvents(f)
  }

  function AttemptEvents(a: Attempt, tells: bool): History {
    AllAbsorbed(a.spec, a.absorbed, tells) + FinishEvents(a.spec, a.finish)
  }

  // What a run is measured against: the directions, the deadline, and which callbacks were given.
  datatype Setup = Setup(directions: seq<DirectionSpec>, deadline: real, asks: bool, tells: bool, reports: bool)

  // Past the deadline nothing is asked; within it, everything the caller supplied is.
  ghost predicate ValidFinish(f: Finish, s: Setup) {
    match f
    case Late(_, _, time) => time >= s.deadline
    case Unasked(_, _, time) => time < s.deadline && !s.asks
    case Declined(_, _, time) => time < s.deadline && s.asks
    case AskRaised(_, _, time) => time < s.deadline && s.asks
    case TellRaised(_, _, time) => time < s.deadline && s.asks && s.tells
    case _ => true
  }

  ghost predicate ValidAttempt(a: Attempt, s: Setup) {
    && (a.absorbed != [] ==> s.asks)
    && (forall x :: x in a.absorbed ==> x.time < s.deadline)
    && ValidFinish(a.finish, s)
  }

  ghost predicate ValidAttempts(attempts: seq<Attempt>, s: Setup) {
    forall a :: a in attempts ==> ValidAttempt(a, s)
  }

  // ---------------------------------------------------------------- a run

  function AttemptsEvents(attempts: seq<Attempt>, tells: bool): History {
    if attempts == [] then []
    else AttemptsEvents(attempts[..|attempts| - 1], tells) + AttemptEvents(attempts[|attempts| - 1], tells)
  }

  // A round that measured its probe and every direction.
  datatype Round = Round(attempts: seq<Attempt>, facts: PathMeasurement)

  // How a run ended: satisfied, out of budget, or by an exception.
  datatype Ending =
    | Satisfied(round: Round)
    | OutOfTime(round: Round, time: real)
    | StopRaised(round: Round)
    | ReportRaised(round: Round)
    | AttemptFailed(attempts: seq<Attempt>)

  datatype Run = Run(start: real, rounds: seq<(Round, real)>, ending: Ending)

  function RoundEvents(r: Round, tells: bool, reports: bool, raised: bool): History {
    AttemptsEvents(r.attempts, tells) + if reports then [RoundTold(r.facts, raised)] else []
  }

  function FactsOfRounds(rounds: seq<(Round, real)>): seq<PathMeasurement> {
    Map(rounds, (x: (Round, real)) => x.0.facts)
  }

  // stop_when is asked about every round so far, the one just measured included.
  function ContinuedEvents(rounds: seq<(Round, real)>, tells: bool, reports: bool): History {
    if rounds == [] then []
    else
      var last := rounds[|rounds| - 1];
      ContinuedEvents(rounds[..|rounds| - 1], tells, reports)
      + (RoundEvents(last.0, tells, reports, false) + [StopAsked(FactsOfRounds(rounds), No), ClockDrawn(last.1)])
  }

  function EndingEvents(e: Ending, earlier: seq<PathMeasurement>, tells: bool, reports: bool): History {
    match e
    case Satisfied(r) => RoundEvents(r, tells, reports, false) + [StopAsked(earlier + [r.facts], Yes)]
    case OutOfTime(r, time) =>
      RoundEvents(r, tells, reports, false) + [StopAsked(earlier + [r.facts], No), ClockDrawn(time)]
    case StopRaised(r) => RoundEvents(r, tells, reports, false) + [StopAsked(earlier + [r.facts], Raises)]
    case ReportRaised(r) => RoundEvents(r, tells, reports, true)
    case AttemptFailed(attempts) => AttemptsEvents(attempts, tells)
  }

  function RunEvents(run: Run, tells: bool, reports: bool): History {
    [ClockDrawn(run.start)] + ContinuedEvents(run.rounds, tells, reports)
    + EndingEvents(run.ending, FactsOfRounds(run.rounds), tells, reports)
  }

  // The specs of a round, probe first.
  function RoundSpecs(directions: seq<DirectionSpec>): seq<Option<DirectionSpec>> {
    [None] + Map(directions, (d: DirectionSpec) => Some(d))
  }

  function SpecsOf(attempts: seq<Attempt>): seq<Option<DirectionSpec>> {
    Map(attempts, (a: Attempt) => a.spec)
  }

  ghost predicate AllDone(attempts: seq<Attempt>) {
    forall a :: a in attempts ==> a.finish.Done?
  }

  // {spec.name: flow for spec in directions}, the later of two same-named directions winning.
  function ByDirection(attempts: seq<Attempt>): map<string, FlowThroughput> {
    if attempts == [] then map[]
    else
      var a, before := attempts[|attempts| - 1], ByDirection(attempts[..|attempts| - 1]);
      if a.spec.Some? && a.finish.Done? then before[a.spec.value.name := a.finish.flow] else before
  }

  ghost predicate ValidRound(r: Round, s: Setup) {
    && SpecsOf(r.attempts) == RoundSpecs(s.directions)
    && AllDone(r.attempts) && ValidAttempts(r.attempts, s)
    && r.facts == FactsOf(r.attempts)
  }

  // The facts of a completed round: the probe's RTT and each direction's flow.
  function FactsOf(attempts: seq<Attempt>): PathMeasurement
    requires attempts != [] && attempts[0].finish.Done?
  {
    PathMeasurement(attempts[0].finish.flow.minRtt, attempts[0].finish.flow.meanRtt, ByDirection(attempts))
  }

  ghost predicate ValidFailure(attempts: seq<Attempt>, s: Setup) {
    && attempts != [] && SpecsOf(attempts) <= RoundSpecs(s.directions) && ValidAttempts(attempts, s)
    && AllDone(attempts[..|attempts| - 1]) && !attempts[|attempts| - 1].finish.Done?
  }

  ghost predicate ValidEnding(e: Ending, s: Setup) {
    match e
    case Satisfied(r) => ValidRound(r, s)
    case OutOfTime(r, time) => ValidRound(r, s) && time >= s.deadline
    case StopRaised(r) => ValidRound(r, s)
    case ReportRaised(r) => ValidRound(r, s) && s.reports
    case AttemptFailed(attempts) => ValidFailure(attempts, s)
  }

  ghost predicate ValidRounds(rounds: seq<(Round, real)>, s: Setup) {
    forall x :: x in rounds ==> ValidRound(x.0, s) && x.1 < s.deadline
  }

  // Rounds go on only within the budget, each measuring the probe and every direction.
  ghost predicate ValidRun(run: Run, s: Setup) {
    ValidRounds(run.rounds, s) && ValidEnding(run.ending, s)
  }

  // ---------------------------------------------------------------- counting

  // What is counted in a history.
  datatype Kind = Draw | Resource | Measurement | NonCompletions | Report | Backoff | StopNo

  predicate Is(e: Event, k: Kind) {
    match k
    case Draw => e.ClockDrawn?
    case Resource => e.Allocated?
    case Measurement => e.Measured?
    case NonCompletions => e.Measured? && e.outcome.Incomplete?
    case Report => e.RetryTold?
    case Backoff => e.BackedOff?
    case StopNo => SaysNo(e)
  }

  function Count(h: History, k: Kind): nat {
    if h == [] then 0 else Count(h[..|h| - 1], k) + if Is(h[|h| - 1], k) then 1 else 0
  }

  lemma {:induction false} CountConcat(a: History, b: History, k: Kind)
    ensures Count(a + b, k) == Count(a, k) + Count(b, k)
  {
    if b == [] {
      assert a + b == a;
    } else {
      CountConcat(a, b[..|b| - 1], k);
      assert (a + b)[..|a + b| - 1] == a + b[..|b| - 1];
    }
  }

  lemma CountSnoc(h: History, e: Event, k: Kind)
    ensures Count(h + [e], k) == Count(h, k) + if Is(e, k) then 1 else 0
  {
    assert (h + [e])[..|h|] == h;
  }

  lemma CountOne(e: Event, k: Kind)
    ensures Count([e], k) == if Is(e, k) then 1 else 0
  {
    assert [] + [e] == [e];
    CountSnoc([], e, k);
  }

  lemma CountPair(a: Event, b: Event, k: Kind)
    ensures Count([a], k) == if Is(a, k) then 1 else 0
    ensures Count([a, b], k) == (if Is(a, k) then 1 else 0) + if Is(b, k) then 1 else 0
  {
    assert [a] + [b] == [a, b];
    CountOne(a, k);
    CountSnoc([a], b, k);
  }

  // A measurement that did not complete: a resource, a measurement and a look at the clock.
  predicate TriedHas(k: Kind) {
    k == Draw || k == Resource || k == Measurement || k == NonCompletions
  }

  // What every absorbed non-completion adds exactly once.
  predicate AbsorbedHas(k: Kind, tells: bool) {
    TriedHas(k) || k == Backoff || (k == Report && tells)
  }

  // What the end of an attempt adds exactly once.
  predicate FinishHas(f: Finish, k: Kind) {
    match f
    case Done(_, _) => k == Resource || k == Measurement
    case Unallocated => false
    case BrokenFlow(_) => k == Resource || k == Measurement
    case TellRaised(_, _, _) => TriedHas(k) || k == Report
    case _ => TriedHas(k)
  }

  function Once(b: bool): nat {
    if b then 1 else 0
  }

  function Times(b: bool, n: nat): nat {
    if b then n else 0
  }

  lemma RetryCount(a: Absorbed, tells: bool, k: Kind)
    ensures Count(RetryEvents(a, tells), k) == Once(k == Draw) + Once(k == Backoff) + Once(k == Report && tells)
  {
    var begin, told := [ClockDrawn(a.time), RetryAsked(a.nc, Yes)], RetryTold(a.nc, a.port, false);
    CountPair(ClockDrawn(a.time), RetryAsked(a.nc, Yes), k);
    if tells {
      CountSnoc(begin, told, k);
      CountSnoc(begin + [told], BackedOff, k);
    } else {
      assert begin + [] == begin;
      CountSnoc(begin, BackedOff, k);
    }
  }

  lemma AbsorbedCount(spec: Option<DirectionSpec>, a: Absorbed, tells: bool, k: Kind)
    ensures Count(AbsorbedEvents(spec, a, tells), k) == Once(AbsorbedHas(k, tells))
  {
    CountPair(Allocated(a.port), Measured(a.port, spec, Incomplete(a.nc)), k);
    RetryCount(a, tells, k);
    CountConcat(TryEvents(spec, a.port, a.nc), RetryEvents(a, tells), k);
  }

  lemma {:induction false} AllAbsorbedCount(spec: Option<DirectionSpec>, absorbed: seq<Absorbed>, tells: bool, k: Kind)
    ensures Count(AllAbsorbed(spec, absorbed, tells), k) == Times(AbsorbedHas(k, tells), |absorbed|)
  {
    if absorbed != [] {
      var front, last := absorbed[..|absorbed| - 1], absorbed[|absorbed| - 1];
      AllAbsorbedCount(spec, front, tells, k);
      AbsorbedCount(spec, last, tells, k);
      CountConcat(AllAbsorbed(spec, front, tells), AbsorbedEvents(spec, last, tells), k);
    }
  }

  lemma RefusalCount(f: Finish, k: Kind)
    requires Refused(f)
    ensures Count(RefusalEvents(f), k) == Once(k == Draw) + Once(f.TellRaised? && k == Report)
  {
    var draw := ClockDrawn(f.time);
    match f
    case Late(_, nc, time) => CountPair(draw, draw, k);
    case Unasked(_, nc, time) => CountPair(draw, draw, k);
    case Declined(_, nc, time) => CountPair(draw, RetryAsked(nc, No), k);
    case AskRaised(_, nc, time) => CountPair(draw, RetryAsked(nc, Raises), k);
    case TellRaised(port, nc, time) =>
      CountPair(draw, RetryAsked(nc, Yes), k);
      CountSnoc([draw, RetryAsked(nc, Yes)], RetryTold(nc, port, true), k);
      assert [draw, RetryAsked(nc, Yes)] + [RetryTold(nc, port, true)] == RefusalEvents(f);
  }

  lemma FinishCount(spec: Option<DirectionSpec>, f: Finish, k: Kind)
    ensures Count(FinishEvents(spec, f), k) == Once(FinishHas(f, k))
  {
    match f
    case Done(port, flow) => CountPair(Allocated(port), Measured(port, spec, Completed(flow)), k);
    case Unallocated => CountPair(AllocateRaised, AllocateRaised, k);
    case BrokenFlow(port) => CountPair(Allocated(port), Measured(port, spec, Broken), k);
    case _ => RefusedCount(spec, f, k);
  }

  lemma RefusedCount(spec: Option<DirectionSpec>, f: Finish, k: Kind)
    requires Refused(f)
    ensures Count(FinishEvents(spec, f), k) == Once(FinishHas(f, k))
  {
    CountPair(Allocated(f.port), Measured(f.port, spec, Incomplete(f.nc)), k);
    RefusalCount(f, k);
    CountConcat(TryEvents(spec, f.port, f.nc), RefusalEvents(f), k);
    assert FinishEvents(spec, f) == TryEvents(spec, f.port, f.nc) + RefusalEvents(f);
  }

  lemma AttemptCount(a: Attempt, tells: bool, k: Kind)
    ensures Count(AttemptEvents(a, tells), k)
         == Times(AbsorbedHas(k, tells), |a.absorbed|) + Once(FinishHas(a.finish, k))
  {
    AllAbsorbedCount(a.spec, a.absorbed, tells, k);
    FinishCount(a.spec, a.finish, k);
    CountConcat(AllAbsorbed(a.spec, a.absorbed, tells), FinishEvents(a.spec, a.finish), k);
  }

  // Non-completions absorbed by some attempts.
  function AbsorbedBy(attempts: seq<Attempt>): nat {
    if attempts == [] then 0 else AbsorbedBy(attempts[..|attempts| - 1]) + |attempts[|attempts| - 1].absorbed|
  }

  // A resource and a measurement for each completed attempt, besides what it absorbed.
  predicate DoneHas(k: Kind) {
    k == Resource || k == Measurement
  }

  lemma {:induction false} DoneCount(attempts: seq<Attempt>, tells: bool, k: Kind)
    requires AllDone(attempts)
    ensures Count(AttemptsEvents(attempts, tells), k)
         == Times(AbsorbedHas(k, tells), AbsorbedBy(attempts)) + Times(DoneHas(k), |attempts|)
  {
    if attempts != [] {
      var front, last := attempts[..|attempts| - 1], attempts[|attempts| - 1];
      assert last in attempts;
      DoneCount(front, tells, k);
      AttemptCount(last, tells, k);
      CountConcat(AttemptsEvents(front, tells), AttemptEvents(last, tells), k);
    }
  }

  lemma RoundCount(r: Round, tells: bool, reports: bool, raised: bool, k: Kind)
    requires AllDone(r.attempts)
    ensures Count(RoundEvents(r, tells, reports, raised), k)
         == Times(AbsorbedHas(k, tells), AbsorbedBy(r.attempts)) + Times(DoneHas(k), |r.attempts|)
  {
    DoneCount(r.attempts, tells, k);
    ReportNotCounted(AttemptsEvents(r.attempts, tells), r.facts, reports, raised, k);
  }

  lemma ReportNotCounted(h: History, facts: PathMeasurement, reports: bool, raised: bool, k: Kind)
    ensures Count(h + if reports then [RoundTold(facts, raised)] else [], k) == Count(h, k)
  {
    if reports {
      CountSnoc(h, RoundTold(facts, raised), k);
    } else {
      AppendNothing(h);
    }
  }

  function AbsorbedInRounds(rounds: seq<(Round, real)>): nat {
    if rounds == [] then 0
    else AbsorbedInRounds(rounds[..|rounds| - 1]) + AbsorbedBy(rounds[|rounds| - 1].0.attempts)
  }

  function AttemptsInRounds(rounds: seq<(Round, real)>): nat {
    if rounds == [] then 0
    else AttemptsInRounds(rounds[..|rounds| - 1]) + |rounds[|rounds| - 1].0.attempts|
  }

  lemma {:induction false} ContinuedCount(rounds: seq<(Round, real)>, tells: bool, reports: bool, k: Kind)
    requires forall x :: x in rounds ==> AllDone(x.0.attempts)
    ensures Count(ContinuedEvents(rounds, tells, reports), k)
         == Times(AbsorbedHas(k, tells), AbsorbedInRounds(rounds)) + Times(DoneHas(k), AttemptsInRounds(rounds))
            + Times(k == Draw || k == StopNo, |rounds|)
  {
    if rounds != [] {
      var front, last := rounds[..|rounds| - 1], rounds[|rounds| - 1];
      var asked := StopAsked(FactsOfRounds(rounds), No);
      var round, check := RoundEvents(last.0, tells, reports, false), [asked, ClockDrawn(last.1)];
      assert last in rounds;
      ContinuedCount(front, tells, reports, k);
      RoundCount(last.0, tells, reports, false, k);
      CountPair(asked, ClockDrawn(last.1), k);
      CountConcat(round, check, k);
      CountConcat(ContinuedEvents(front, tells, reports), round + check, k);
    }
  }

  // The attempts of the round in which a run ended.
  function EndingAttempts(e: Ending): seq<Attempt> {
    if e.AttemptFailed? then e.attempts else e.round.attempts
  }

  // The attempt whose exception ended the run, if one did.
  function FailedFinish(e: Ending): Option<Finish> {
    if e.AttemptFailed? && e.attempts != [] then Some(e.attempts[|e.attempts| - 1].finish) else None
  }

  function CompletedAttempts(e: Ending): nat {
    |EndingAttempts(e)| - if FailedFinish(e).Some? then 1 else 0
  }

  // What counting needs of a valid ending.
  ghost predicate CountableEnding(e: Ending) {
    if e.AttemptFailed? then e.attempts != [] && AllDone(e.attempts[..|e.attempts| - 1]) else AllDone(e.round.attempts)
  }

  function EndingTotal(e: Ending, tells: bool, k: Kind): nat {
    Times(AbsorbedHas(k, tells), AbsorbedBy(EndingAttempts(e))) + Times(DoneHas(k), CompletedAttempts(e))
    + Once(e.OutOfTime? && (k == Draw || k == StopNo))
    + Once(FailedFinish(e).Some? && FinishHas(FailedFinish(e).value, k))
  }

  lemma RoundEndingCount(r: Round, check: History, tells: bool, reports: bool, raised: bool, k: Kind)
    requires AllDone(r.attempts)
    ensures Count(RoundEvents(r, tells, reports, raised) + check, k)
         == Times(AbsorbedHas(k, tells), AbsorbedBy(r.attempts)) + Times(DoneHas(k), |r.attempts|) + Count(check, k)
  {
    RoundCount(r, tells, reports, raised, k);
    CountConcat(RoundEvents(r, tells, reports, raised), check, k);
  }

  lemma FailedEndingCount(attempts: seq<Attempt>, tells: bool, k: Kind)
    requires attempts != [] && AllDone(attempts[..|attempts| - 1])
    ensures Count(AttemptsEvents(attempts, tells), k) == EndingTotal(AttemptFailed(attempts), tells, k)
  {
    var front, last := attempts[..|attempts| - 1], attempts[|attempts| - 1];
    DoneCount(front, tells, k);
    AttemptCount(last, tells, k);
    CountConcat(AttemptsEvents(front, tells), AttemptEvents(last, tells), k);
    TimesSum(AbsorbedHas(k, tells), AbsorbedBy(front), |last.absorbed|);
    FailedTotal(attempts, tells, k);
  }

  lemma TimesSum(b: bool, m: nat, n: nat)
    ensures Times(b, m + n) == Times(b, m) + Times(b, n)
  {
  }

  lemma FailedTotal(attempts: seq<Attempt>, tells: bool, k: Kind)
    requires attempts != []
    ensures var front, last := attempts[..|attempts| - 1], attempts[|attempts| - 1];
      EndingTotal(AttemptFailed(attempts), tells, k)
      == Times(AbsorbedHas(k, tells), AbsorbedBy(front) + |last.absorbed|) + Times(DoneHas(k), |front|)
         + Once(FinishHas(last.finish, k))
  {
  }

  // A run that ended at its post-round check.
  lemma AskedEndingCount(e: Ending, r: Round, asked: seq<PathMeasurement>, earlier: seq<PathMeasurement>,
                         check: History, tells: bool, reports: bool, k: Kind)
    requires AllDone(r.attempts) && asked == earlier + [r.facts]
    requires || (e == Satisfied(r) && check == [StopAsked(asked, Yes)])
             || (e == StopRaised(r) && check == [StopAsked(asked, Raises)])
             || (e.OutOfTime? && e.round == r && check == [StopAsked(asked, No), ClockDrawn(e.time)])
    ensures Count(EndingEvents(e, earlier, tells, reports), k) == EndingTotal(e, tells, k)
  {
    if e.OutOfTime? {
      CountPair(StopAsked(asked, No), ClockDrawn(e.time), k);
    } else {
      CountOne(check[0], k);
    }
    RoundEndingCount(r, check, tells, reports, false, k);
  }

  lemma EndingCount(e: Ending, earlier: seq<PathMeasurement>, tells: bool, reports: bool, k: Kind)
    requires CountableEnding(e)
    ensures Count(EndingEvents(e, earlier, tells, reports), k) == EndingTotal(e, tells, k)
  {
    match e
    case Satisfied(r) =>
      var asked := earlier + [r.facts];
      AskedEndingCount(e, r, asked, earlier, [StopAsked(asked, Yes)], tells, reports, k);
    case OutOfTime(r, time) =>
      var asked := earlier + [r.facts];
      AskedEndingCount(e, r, asked, earlier, [StopAsked(asked, No), ClockDrawn(time)], tells, reports, k);
    case StopRaised(r) =>
      var asked := earlier + [r.facts];
      AskedEndingCount(e, r, asked, earlier, [StopAsked(asked, Raises)], tells, reports, k);
    case ReportRaised(r) =>
      RoundCount(r, tells, reports, true, k);
    case AttemptFailed(attempts) =>
      FailedEndingCount(attempts, tells, k);
  }

  function RunTotal(run: Run, tells: bool, k: Kind): nat {
    Once(k == Draw)
    + Times(AbsorbedHas(k, tells), AbsorbedInRounds(run.rounds)) + Times(DoneHas(k), AttemptsInRounds(run.rounds))
    + Times(k == Draw || k == StopNo, |run.rounds|)
    + EndingTotal(run.ending, tells, k)
  }

  ghost predicate Countable(run: Run) {
    (forall x :: x in run.rounds ==> AllDone(x.0.attempts)) && CountableEnding(run.ending)
  }

  lemma RunCount(run: Run, tells: bool, reports: bool, k: Kind)
    requires Countable(run)
    ensures Count(RunEvents(run, tells, reports), k) == RunTotal(run, tells, k)
  {
    var start, middle := [ClockDrawn(run.start)], ContinuedEvents(run.rounds, tells, reports);
    ContinuedCount(run.rounds, tells, reports, k);
    EndingCount(run.ending, FactsOfRounds(run.rounds), tells, reports, k);
    CountPair(ClockDrawn(run.start), ClockDrawn(run.start), k);
    CountConcat(start, middle, k);
    CountConcat(start + middle, EndingEvents(run.ending, FactsOfRounds(run.rounds), tells, reports), k);
  }

  lemma ValidIsCountable(run: Run, s: Setup)
    requires ValidRun(run, s)
    ensures Countable(run)
    ensures FailedFinish(run.ending).Some? ==> !FailedFinish(run.ending).value.Done?
  {
  }

  // The run ended with a non-completion that the retry mechanic let through.
  predicate PropagatesNonCompletion(e: Ending) {
    match FailedFinish(e)
    case Some(f) => f.Late? || f.Unasked? || f.Declined?
    case None => false
  }

  // A non-completion ended the run: it was raised and not absorbed.
  predicate EndsRefused(run: Run) {
    FailedFinish(run.ending).Some? && Refused(FailedFinish(run.ending).value)
  }

  // The report of a non-completion raised, and ended the run.
  predicate EndsTelling(run: Run) {
    FailedFinish(run.ending).Some? && FailedFinish(run.ending).value.TellRaised?
  }

  // The accounting of every run, however it ends: one draw for the deadline, one for each
  // non-completion raised and one for each round stop_when answered no to; one resource for each
  // measurement; one backoff for each non-completion but one that ended the run; and with
  // on_retry one report for each backoff, besides one that raised itself.
  lemma RunAccounting(run: Run, s: Setup)
    requires ValidRun(run, s)
    ensures var h := RunEvents(run, s.tells, s.reports);
      && Count(h, Draw) == 1 + Count(h, NonCompletions) + Count(h, StopNo)
      && Count(h, Resource) == Count(h, Measurement)
      && Count(h, NonCompletions) == Count(h, Backoff) + Once(EndsRefused(run))
      && Count(h, Report) == Times(s.tells, Count(h, Backoff)) + Once(EndsTelling(run))
  {
    ValidIsCountable(run, s);
    RunCount(run, s.tells, s.reports, Draw);
    RunCount(run, s.tells, s.reports, NonCompletions);
    RunCount(run, s.tells, s.reports, StopNo);
    RunCount(run, s.tells, s.reports, Resource);
    RunCount(run, s.tells, s.reports, Measurement);
    RunCount(run, s.tells, s.reports, Backoff);
    RunCount(run, s.tells, s.reports, Report);
    DrawTotals(run, s.tells);
    RetryTotals(run, s.tells);
  }

  lemma EndingDraws(e: Ending, tells: bool)
    ensures EndingTotal(e, tells, Draw) == EndingTotal(e, tells, NonCompletions) + EndingTotal(e, tells, StopNo)
    ensures EndingTotal(e, tells, Resource) == EndingTotal(e, tells, Measurement)
  {
  }

  lemma DrawTotals(run: Run, tells: bool)
    ensures RunTotal(run, tells, Draw) == 1 + RunTotal(run, tells, NonCompletions) + RunTotal(run, tells, StopNo)
    ensures RunTotal(run, tells, Resource) == RunTotal(run, tells, Measurement)
  {
    EndingDraws(run.ending, tells);
  }

  lemma RetryTotals(run: Run, tells: bool)
    ensures RunTotal(run, tells, NonCompletions) == RunTotal(run, tells, Backoff) + Once(EndsRefused(run))
    ensures RunTotal(run, tells, Report) == Times(tells, RunTotal(run, tells, Backoff)) + Once(EndsTelling(run))
  {
  }

  // The draws the documentation counts, one for each absorbed non-completion instead of each
  // raised one, are those of the run exactly when no non-completion ended it.
  lemma DocumentedDrawsIff(run: Run, s: Setup)
    requires ValidRun(run, s)
    ensures var h := RunEvents(run, s.tells, s.reports);
      Count(h, Draw) == 1 + Count(h, Backoff) + Count(h, StopNo) <==> !EndsRefused(run)
  {
    RunAccounting(run, s);
  }

  // A run that its first attempt ended, with a non-completion and nothing absorbed.
  lemma RefusedRunDrawsTwice(run: Run, s: Setup, a: Attempt)
    requires ValidRun(run, s) && run.rounds == [] && run.ending == AttemptFailed([a])
    requires a.absorbed == [] && Refused(a.finish)
    ensures var h := RunEvents(run, s.tells, s.reports);
      Count(h, Draw) == 2 && Count(h, Backoff) == 0 && Count(h, StopNo) == 0
  {
    var attempts := [a];
    assert attempts[..0] == [] && AbsorbedBy(attempts[..0]) == 0;
    assert AbsorbedBy(attempts) == 0;
    RunAccounting(run, s);
    RunCount(run, s.tells, s.reports, StopNo);
    RunCount(run, s.tells, s.reports, NonCompletions);
  }

  // A probe that does not complete, and no retry_when: the clock is drawn twice, and nothing
  // was absorbed.
  lemma RefusedProbeDrawsTwice(start: real, time: real, port: int, nc: NonCompletion)
    ensures var s := Setup([], time + 1.0, false, false, false);
      var run := Run(start, [], AttemptFailed([Attempt(None, [], Unasked(port, nc, time))]));
      var h := RunEvents(run, false, false);
      && ValidRun(run, s)
      && Count(h, Draw) == 2 && Count(h, Backoff) == 0 && Count(h, StopNo) == 0
  {
    var s := Setup([], time + 1.0, false, false, false);
    var attempts := [Attempt(None, [], Unasked(port, nc, time))];
    var run := Run(start, [], AttemptFailed(attempts));
    assert attempts[..0] == [] && SpecsOf(attempts) == [None] == RoundSpecs([]);
    RefusedRunDrawsTwice(run, s, attempts[0]);
  }

  // ---------------------------------------------------------------- what stop_when is asked

  // The findings stop_when was asked about, in order.
  function Asked(h: History): seq<seq<PathMeasurement>> {
    if h == [] then []
    else Asked(h[..|h| - 1]) + if h[|h| - 1].StopAsked? then [h[|h| - 1].findings] else []
  }

  lemma {:induction false} AskedConcat(a: History, b: History)
    ensures Asked(a + b) == Asked(a) + Asked(b)
  {
    if b == [] {
      assert a + b == a;
    } else {
      var front, last := b[..|b| - 1], b[|b| - 1];
      AskedConcat(a, front);
      assert a + b == (a + front) + [last];
      AskedSnoc(a + front, last);
      AskedSnoc(front, last);
      assert b == front + [last];
    }
  }

  lemma AskedSnoc(h: History, e: Event)
    ensures Asked(h + [e]) == Asked(h) + if e.StopAsked? then [e.findings] else []
  {
    assert (h + [e])[..|h|] == h;
  }

  ghost predicate NoneAsked(h: History) {
    forall e :: e in h ==> !e.StopAsked?
  }

  lemma {:induction false} NoneAskedEmpty(h: History)
    requires NoneAsked(h)
    ensures Asked(h) == []
  {
    if h != [] {
      assert h[|h| - 1] in h;
      NoneAskedEmpty(h[..|h| - 1]);
    }
  }

  lemma {:induction false} AbsorbedNoneAsked(spec: Option<DirectionSpec>, absorbed: seq<Absorbed>, tells: bool)
    ensures NoneAsked(AllAbsorbed(spec, absorbed, tells))
  {
    if absorbed != [] {
      AbsorbedNoneAsked(spec, absorbed[..|absorbed| - 1], tells);
    }
  }

  lemma NoneAskedConcat(a: History, b: History)
    requires NoneAsked(a) && NoneAsked(b)
    ensures NoneAsked(a + b)
  {
  }

  lemma AttemptNoneAsked(a: Attempt, tells: bool)
    ensures NoneAsked(AttemptEvents(a, tells))
  {
    AbsorbedNoneAsked(a.spec, a.absorbed, tells);
    NoneAskedConcat(AllAbsorbed(a.spec, a.absorbed, tells), FinishEvents(a.spec, a.finish));
  }

  lemma {:induction false} AttemptsNoneAsked(attempts: seq<Attempt>, tells: bool)
    ensures NoneAsked(AttemptsEvents(attempts, tells))
  {
    if attempts != [] {
      var a := attempts[|attempts| - 1];
      AttemptsNoneAsked(attempts[..|attempts| - 1], tells);
      AttemptNoneAsked(a, tells);
      NoneAskedConcat(AttemptsEvents(attempts[..|attempts| - 1], tells), AttemptEvents(a, tells));
    }
  }

  lemma RoundAsks(r: Round, tells: bool, reports: bool, raised: bool, check: History)
    ensures Asked(RoundEvents(r, tells, reports, raised) + check) == Asked(check)
  {
    AttemptsNoneAsked(r.attempts, tells);
    NoneAskedEmpty(RoundEvents(r, tells, reports, raised));
    AskedConcat(RoundEvents(r, tells, reports, raised), check);
  }

  lemma AskedOnce(e: Event, time: real)
    requires e.StopAsked?
    ensures Asked([e]) == [e.findings] && Asked([e, ClockDrawn(time)]) == [e.findings]
  {
    AskedSnoc([], e);
    assert [] + [e] == [e];
    AskedSnoc([e], ClockDrawn(time));
    assert [e] + [ClockDrawn(time)] == [e, ClockDrawn(time)];
  }

  // Each question is about the rounds up to it.
  ghost predicate AsksOfEach(asked: seq<seq<PathMeasurement>>, facts: seq<PathMeasurement>) {
    |asked| <= |facts| && forall k :: 0 <= k < |asked| ==> asked[k] == facts[..k + 1]
  }

  lemma {:induction false} ContinuedAsks(rounds: seq<(Round, real)>, tells: bool, reports: bool)
    ensures |Asked(ContinuedEvents(rounds, tells, reports))| == |rounds|
    ensures AsksOfEach(Asked(ContinuedEvents(rounds, tells, reports)), FactsOfRounds(rounds))
  {
    if rounds != [] {
      var front, last := rounds[..|rounds| - 1], rounds[|rounds| - 1];
      var asked := StopAsked(FactsOfRounds(rounds), No);
      ContinuedAsks(front, tells, reports);
      RoundAsks(last.0, tells, reports, false, [asked, ClockDrawn(last.1)]);
      AskedOnce(asked, last.1);
      AskedConcat(ContinuedEvents(front, tells, reports),
                  RoundEvents(last.0, tells, reports, false) + [asked, ClockDrawn(last.1)]);
      OneMoreQuestion(Asked(ContinuedEvents(front, tells, reports)), FactsOfRounds(front), FactsOfRounds(rounds));
    }
  }

  lemma OneMoreQuestion(asked: seq<seq<PathMeasurement>>, earlier: seq<PathMeasurement>, facts: seq<PathMeasurement>)
    requires AsksOfEach(asked, earlier) && |asked| == |earlier|
    requires |facts| == |earlier| + 1 && earlier == facts[..|earlier|]
    ensures AsksOfEach(asked + [facts], facts)
  {
    forall k | 0 <= k < |asked + [facts]| ensures (asked + [facts])[k] == facts[..k + 1] {
      if k < |asked| {
        assert asked[k] == earlier[..k + 1];
      }
    }
  }

  // Whether the run's last round came to its post-round check.
  predicate LastAsked(e: Ending) {
    e.Satisfied? || e.OutOfTime? || e.StopRaised?
  }

  // The facts of every round the run measured.
  function AllFacts(run: Run): seq<PathMeasurement> {
    FactsOfRounds(run.rounds) + if run.ending.AttemptFailed? then [] else [run.ending.round.facts]
  }

  lemma EndingAsks(e: Ending, earlier: seq<PathMeasurement>, tells: bool, reports: bool)
    ensures Asked(EndingEvents(e, earlier, tells, reports))
         == if LastAsked(e) then [earlier + [e.round.facts]] else []
  {
    if LastAsked(e) {
      var answer := if e.Satisfied? then Yes else if e.OutOfTime? then No else Raises;
      var asked := StopAsked(earlier + [e.round.facts], answer);
      AskedOnce(asked, if e.OutOfTime? then e.time else 0.0);
      RoundAsks(e.round, tells, reports, false, if e.OutOfTime? then [asked, ClockDrawn(e.time)] else [asked]);
    } else if e.ReportRaised? {
      RoundAsks(e.round, tells, reports, true, []);
      AppendNothing(RoundEvents(e.round, tells, reports, true));
    } else {
      AttemptsNoneAsked(e.attempts, tells);
      NoneAskedEmpty(AttemptsEvents(e.attempts, tells));
    }
  }

  lemma RunAsksParts(run: Run, tells: bool, reports: bool)
    ensures Asked(RunEvents(run, tells, reports))
         == Asked(ContinuedEvents(run.rounds, tells, reports))
            + if LastAsked(run.ending) then [FactsOfRounds(run.rounds) + [run.ending.round.facts]] else []
  {
    var earlier := FactsOfRounds(run.rounds);
    EndingAsks(run.ending, earlier, tells, reports);
    AskedAfterStart([ClockDrawn(run.start)], ContinuedEvents(run.rounds, tells, reports),
                    EndingEvents(run.ending, earlier, tells, reports));
  }

  lemma AskedAfterStart(start: History, a: History, b: History)
    requires NoneAsked(start)
    ensures Asked(start + a + b) == Asked(a) + Asked(b)
  {
    NoneAskedEmpty(start);
    AskedConcat(start, a);
    AskedConcat(start + a, b);
    assert [] + Asked(a) == Asked(a);
  }

  // The k-th question is about the facts of the first k rounds, the one just measured included.
  lemma RunAsks(run: Run, tells: bool, reports: bool)
    ensures var asked := Asked(RunEvents(run, tells, reports));
      && AsksOfEach(asked, AllFacts(run))
      && |asked| == |run.rounds| + if LastAsked(run.ending) then 1 else 0
  {
    var earlier, asked := FactsOfRounds(run.rounds), Asked(ContinuedEvents(run.rounds, tells, reports));
    RunAsksParts(run, tells, reports);
    ContinuedAsks(run.rounds, tells, reports);
    if LastAsked(run.ending) {
      OneMoreQuestion(asked, earlier, AllFacts(run));
    } else {
      AppendNothing(asked);
      QuestionsOfPrefix(asked, earlier, AllFacts(run));
    }
  }

  lemma QuestionsOfPrefix(asked: seq<seq<PathMeasurement>>, earlier: seq<PathMeasurement>, facts: seq<PathMeasurement>)
    requires AsksOfEach(asked, earlier) && earlier <= facts
    ensures AsksOfEach(asked, facts)
  {
    forall k | 0 <= k < |asked| ensures asked[k] == facts[..k + 1] {
      assert asked[k] == earlier[..k + 1];
    }
  }

  lemma {:induction false} ContinuedQuestion(rounds: seq<(Round, real)>, tells: bool, reports: bool)
    requires rounds != []
    ensures StopAsked(FactsOfRounds(rounds), No) in ContinuedEvents(rounds, tells, reports)
  {
    var last := rounds[|rounds| - 1];
    var check := [StopAsked(FactsOfRounds(rounds), No), ClockDrawn(last.1)];
    assert check[0] in check;
  }

  // ---------------------------------------------------------------- what a round reports

  // No later attempt is for a direction of that name.
  ghost predicate LastNamed(attempts: seq<Attempt>, i: nat)
    requires i < |attempts|
  {
    forall j :: i < j < |attempts| && attempts[j].spec.Some? ==> attempts[j].spec.value.name != NameOf(attempts[i])
  }

  function NameOf(a: Attempt): string {
    match a.spec case Some(d) => d.name case None => ""
  }

  lemma {:induction false} DirectionFlows(attempts: seq<Attempt>, i: nat)
    requires i < |attempts| && AllDone(attempts) && attempts[i].spec.Some? && LastNamed(attempts, i)
    ensures NameOf(attempts[i]) in ByDirection(attempts)
    ensures ByDirection(attempts)[NameOf(attempts[i])] == attempts[i].finish.flow
  {
    var front, last := attempts[..|attempts| - 1], attempts[|attempts| - 1];
    assert last in attempts && attempts[i] in attempts;
    if i < |attempts| - 1 {
      assert forall j :: i < j < |front| ==> front[j] == attempts[j];
      DirectionFlows(front, i);
    }
  }

  lemma {:induction false} DirectionNames(attempts: seq<Attempt>, name: string)
    requires AllDone(attempts)
    ensures name in ByDirection(attempts) <==> exists a :: a in attempts && a.spec.Some? && a.spec.value.name == name
  {
    if attempts != [] {
      var front, last := attempts[..|attempts| - 1], attempts[|attempts| - 1];
      DirectionNames(front, name);
      assert attempts == front + [last] && last in attempts;
    }
  }

  // A round's facts: the minimum and mean RTT of the probe's flow, and for each direction's name
  // the flow of the last direction of that name; no other names.
  lemma RoundFacts(r: Round, s: Setup)
    requires ValidRound(r, s)
    ensures r.attempts != [] && r.attempts[0].spec == None && r.attempts[0].finish.Done?
    ensures r.facts.probeMinRtt == r.attempts[0].finish.flow.minRtt
    ensures r.facts.probeMeanRtt == r.attempts[0].finish.flow.meanRtt
    ensures forall i: nat :: i < |r.attempts| && r.attempts[i].spec.Some? && LastNamed(r.attempts, i) ==>
              && NameOf(r.attempts[i]) in r.facts.byDirection && r.attempts[i].finish.Done?
              && r.facts.byDirection[NameOf(r.attempts[i])] == r.attempts[i].finish.flow
    ensures forall name :: name in r.facts.byDirection <==>
              exists a :: a in r.attempts && a.spec.Some? && a.spec.value.name == name
  {
    RoundHasAttempts(r, s);
    assert SpecsOf(r.attempts)[0] == r.attempts[0].spec && r.attempts[0] in r.attempts;
    forall i: nat | i < |r.attempts| && r.attempts[i].spec.Some? && LastNamed(r.attempts, i)
      ensures NameOf(r.attempts[i]) in r.facts.byDirection && r.attempts[i].finish.Done?
      ensures r.facts.byDirection[NameOf(r.attempts[i])] == r.attempts[i].finish.flow
    {
      assert r.attempts[i] in r.attempts;
      DirectionFlows(r.attempts, i);
    }
    forall name ensures name in r.facts.byDirection <==>
                        exists a :: a in r.attempts && a.spec.Some? && a.spec.value.name == name
    {
      DirectionNames(r.attempts, name);
    }
  }

  // ---------------------------------------------------------------- how a run begins

  lemma {:induction false} AttemptsBegin(attempts: seq<Attempt>, tells: bool)
    requires attempts != []
    ensures AttemptEvents(attempts[0], tells) <= AttemptsEvents(attempts, tells)
  {
    if |attempts| == 1 {
      assert attempts[..0] == [];
    } else {
      AttemptsBegin(attempts[..|attempts| - 1], tells);
    }
  }

  lemma RoundBegins(r: Round, tells: bool, reports: bool, check: History)
    ensures AttemptsEvents(r.attempts, tells) <= [] + (RoundEvents(r, tells, reports, false) + check)
  {
    var first := AttemptsEvents(r.attempts, tells);
    PrefixOfSum(first, first, if reports then [RoundTold(r.facts, false)] else []);
    PrefixOfSum(first, RoundEvents(r, tells, reports, false), check);
  }

  lemma {:induction false} ContinuedBegin(rounds: seq<(Round, real)>, tells: bool, reports: bool)
    requires rounds != []
    ensures AttemptsEvents(rounds[0].0.attempts, tells) <= ContinuedEvents(rounds, tells, reports)
  {
    var front, last := rounds[..|rounds| - 1], rounds[|rounds| - 1];
    var check := [StopAsked(FactsOfRounds(rounds), No), ClockDrawn(last.1)];
    if |rounds| == 1 {
      RoundBegins(last.0, tells, reports, check);
      assert front == [] && ContinuedEvents(front, tells, reports) == [];
    } else {
      ContinuedBegin(front, tells, reports);
      PrefixOfSum(AttemptsEvents(rounds[0].0.attempts, tells), ContinuedEvents(front, tells, reports),
                  RoundEvents(last.0, tells, reports, false) + check);
    }
  }

  // The attempts of a run's first round, complete or not.
  function FirstAttempts(run: Run): seq<Attempt> {
    if run.rounds != [] then run.rounds[0].0.attempts else EndingAttempts(run.ending)
  }

  lemma RunBeginsWith(run: Run, s: Setup)
    requires ValidRun(run, s)
    ensures FirstAttempts(run) != []
    ensures [ClockDrawn(run.start)] + AttemptsEvents(FirstAttempts(run), s.tells) <= RunEvents(run, s.tells, s.reports)
  {
    var start, rounds := [ClockDrawn(run.start)], ContinuedEvents(run.rounds, s.tells, s.reports);
    var ending := EndingEvents(run.ending, FactsOfRounds(run.rounds), s.tells, s.reports);
    if run.rounds != [] {
      assert run.rounds[0] in run.rounds;
      RoundHasAttempts(run.rounds[0].0, s);
      ContinuedBegin(run.rounds, s.tells, s.reports);
      PrefixThrough(start, AttemptsEvents(FirstAttempts(run), s.tells), rounds, ending);
    } else {
      EndingBegins(run.ending, FactsOfRounds(run.rounds), s);
      PrefixThrough(start, AttemptsEvents(FirstAttempts(run), s.tells), ending, []);
      AppendNothing(start);
      AppendNothing(start + ending);
    }
  }

  lemma PrefixThrough<T>(x: seq<T>, a: seq<T>, b: seq<T>, c: seq<T>)
    requires a <= b
    ensures x + a <= x + b + c
  {
  }

  lemma RoundHasAttempts(r: Round, s: Setup)
    requires ValidRound(r, s)
    ensures r.attempts != []
  {
    assert |SpecsOf(r.attempts)| == |RoundSpecs(s.directions)|;
  }

  lemma EndingBegins(e: Ending, earlier: seq<PathMeasurement>, s: Setup)
    requires ValidEnding(e, s)
    ensures EndingAttempts(e) != []
    ensures AttemptsEvents(EndingAttempts(e), s.tells) <= EndingEvents(e, earlier, s.tells, s.reports)
  {
    if !e.AttemptFailed? {
      RoundHasAttempts(e.round, s);
      var first := AttemptsEvents(e.round.attempts, s.tells);
      var told := RoundEvents(e.round, s.tells, s.reports, e.ReportRaised?);
      PrefixOfSum(first, first, if s.reports then [RoundTold(e.round.facts, e.ReportRaised?)] else []);
      match e {
        case Satisfied(_) => PrefixOfSum(first, told, [StopAsked(earlier + [e.round.facts], Yes)]);
        case OutOfTime(_, time) =>
          PrefixOfSum(first, told, [StopAsked(earlier + [e.round.facts], No), ClockDrawn(time)]);
        case StopRaised(_) => PrefixOfSum(first, told, [StopAsked(earlier + [e.round.facts], Raises)]);
        case ReportRaised(_) =>
      }
    }
  }

  lemma PrefixOfSum<T>(a: seq<T>, b: seq<T>, c: seq<T>)
    requires a <= b
    ensures a <= b + c
  {
  }

  // The first attempt of a run completed, or it is all there was.
  lemma FirstAttemptDone(run: Run, s: Setup)
    requires ValidRun(run, s)
    ensures FirstAttempts(run) != [] && ValidAttempt(FirstAttempts(run)[0], s)
    ensures FirstAttempts(run)[0].finish.Done?
            || (run.rounds == [] && run.ending == AttemptFailed([FirstAttempts(run)[0]]))
  {
    RunBeginsWith(run, s);
    var attempts := FirstAttempts(run);
    assert attempts[0] in attempts;
    if run.rounds != [] {
      assert run.rounds[0] in run.rounds;
    } else if run.ending.AttemptFailed? {
      if |attempts| > 1 {
        assert attempts[..|attempts| - 1][0] in attempts[..|attempts| - 1];
      } else {
        assert attempts == [attempts[0]];
      }
    }
  }

  // Without retry_when, the run's second event is the first attempt's first.
  lemma FirstFinishEvents(run: Run, s: Setup)
    requires ValidRun(run, s) && !s.asks
    ensures FirstAttempts(run) != [] && FirstAttempts(run)[0].absorbed == []
    ensures var a := FirstAttempts(run)[0];
      [ClockDrawn(run.start)] + FinishEvents(a.spec, a.finish) <= RunEvents(run, s.tells, s.reports)
  {
    RunBeginsWith(run, s);
    FirstAttemptDone(run, s);
    AttemptsBegin(FirstAttempts(run), s.tells);
    var a := FirstAttempts(run)[0];
    assert AttemptEvents(a, s.tells) == FinishEvents(a.spec, a.finish);
  }
}
