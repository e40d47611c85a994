// The drivers, clock and logs behind a throughput measurement, with every call on record.
// What a call returns may depend on everything that happened before it.
module Testbed {
  import opened Common
  import opened SessionLog

  datatype Device = Receiver(id: nat) | Sender(id: nat)

  datatype Process = Process(pid: int, log: string)

  datatype Flow = Flow(sender: nat, receiver: nat, port: int, reverse: bool, omitS: nat)

  datatype Failure =
    | DuplicatePorts
    | NoCompletedSession(port: int)
    | Raised(reason: string)

  datatype Event =
    | Started(device: Device, flow: Flow, process: Process)
    | StartRaised(device: Device, flow: Flow, reason: string)
    | LogRead(device: Device, path: string, text: string)
    | LogRaised(device: Device, path: string, reason: string)
    | Slept(seconds: real)
    | ClockDrawn(time: real)
    | Stopped(device: Device, pid: int, raised: bool)

  type History = seq<Event>

  function Sleeps(h: History): nat {
    if h == [] then 0 else Sleeps(h[..|h| - 1]) + if h[|h| - 1].Slept? then 1 else 0
  }

  lemma SleepsSnoc(h: History, e: Event)
    ensures Sleeps(h + [e]) == Sleeps(h) + if e.Slept? then 1 else 0
  {
    assert (h + [e])[..|h|] == h;
  }

  // One unsuccessful look at a log: what it held and the time then drawn.
  datatype Poll = Poll(text: string, time: real)

  // The log holds more sessions than before, and the last one carries a rate.
  predicate Complete(text: string, prior: nat, loads: Loader) {
    Count(text, loads) > prior && LastMbps(text, loads).Some?
  }

  function PollEvents(device: Device, path: string, polls: seq<Poll>, interval: real): History {
    if polls == [] then []
    else
      PollEvents(device, path, polls[..|polls| - 1], interval)
      + [LogRead(device, path, polls[|polls| - 1].text), ClockDrawn(polls[|polls| - 1].time), Slept(interval)]
  }

  lemma PollEventsSnoc(h: History, device: Device, path: string, polls: seq<Poll>, p: Poll, interval: real)
    ensures h + PollEvents(device, path, polls, interval)
            + LookEvents(device, path, Nothing(p.text, p.time)) + [Slept(interval)]
         == h + PollEvents(device, path, polls + [p], interval)
  {
    assert (polls + [p])[..|polls|] == polls;
  }

  // What a look at a log comes to: a rate, nothing new by the time then drawn, or an exception.
  datatype Look = Found(text: string, mbps: real) | Nothing(text: string, time: real) | LookRaised(reason: string)

  function LookEvents(device: Device, path: string, look: Look): History {
    match look
    case Found(text, _) => [LogRead(device, path, text)]
    case Nothing(text, time) => [LogRead(device, path, text), ClockDrawn(time)]
    case LookRaised(reason) => [LogRaised(device, path, reason)]
  }

  // Every poll so far found no new session and still had time.
  ghost predicate Waiting(polls: seq<Poll>, prior: nat, deadline: real, loads: Loader) {
    forall p :: p in polls ==> !Complete(p.text, prior, loads) && p.time < deadline
  }

  class Bench {
    const clock: History -> real
    const startResult: (History, Device, Flow) -> Result<Process, string>
    const logResult: (History, Device, string) -> Result<string, string>
    const stopRaises: (History, Device, int) -> bool
    const loads: Loader
    // However late a deadline, enough sleeping gets the clock past it.
    ghost const patience: real -> nat
    var trace: History

    ghost predicate ClockAdvances() {
      forall h, d :: Sleeps(h) >= patience(d) ==> clock(h) >= d
    }

    // The event is what its driver or clock answers after h.
    ghost predicate Answered(h: History, e: Event) {
      match e
      case Started(device, flow, process) => startResult(h, device, flow) == Ok(process)
      case StartRaised(device, flow, reason) => startResult(h, device, flow) == Err(reason)
      case LogRead(device, path, text) => logResult(h, device, path) == Ok(text)
      case LogRaised(device, path, reason) => logResult(h, device, path) == Err(reason)
      case Slept(_) => true
      case ClockDrawn(time) => clock(h) == time
      case Stopped(device, pid, raised) => stopRaises(h, device, pid) == raised
    }

    ghost predicate AnsweredAt(h: History, i: nat)
      requires i < |h|
    {
      Answered(h[..i], h[i])
    }

    // Every event of the history was answered so.
    ghost predicate Genuine(h: History) {
      forall i: nat {:trigger AnsweredAt(h, i)} :: i < |h| ==> AnsweredAt(h, i)
    }

    lemma GenuineSnoc(h: History, e: Event)
      requires Genuine(h) && Answered(h, e)
      ensures Genuine(h + [e])
    {
      forall i: nat | i < |h + [e]| ensures AnsweredAt(h + [e], i) {
        if i < |h| {
          assert AnsweredAt(h, i) && (h + [e])[..i] == h[..i];
        } else {
          assert (h + [e])[..i] == h;
        }
      }
    }

    method Record(e: Event)
      requires Genuine(trace) && Answered(trace, e)
      modifies this
      ensures trace == old(trace) + [e] && Genuine(trace)
      ensures Sleeps(trace) == Sleeps(old(trace)) + if e.Slept? then 1 else 0
    {
      GenuineSnoc(trace, e);
      SleepsSnoc(trace, e);
      trace := trace + [e];
    }

    constructor (clock: History -> real,
                 startResult: (History, Device, Flow) -> Result<Process, string>,
                 logResult: (History, Device, string) -> Result<string, string>,
                 stopRaises: (History, Device, int) -> bool,
                 loads: Loader, ghost patience: real -> nat)
      requires forall h, d :: Sleeps(h) >= patience(d) ==> clock(h) >= d
      ensures ClockAdvances() && trace == [] && Genuine(trace)
      ensures this.clock == clock && this.startResult == startResult && this.logResult == logResult
      ensures this.stopRaises == stopRaises && this.loads == loads && this.patience == patience
    {
      this.clock, this.startResult, this.logResult := clock, startResult, logResult;
      this.stopRaises, this.loads, this.patience := stopRaises, loads, patience;
      trace := [];
    }

    method Start(device: Device, flow: Flow) returns (r: Result<Process, string>)
      requires Genuine(trace)
      modifies this
      ensures Genuine(trace) && r == startResult(old(trace), device, flow)
      ensures trace == old(trace) + [match r
                                     case Ok(process) => Started(device, flow, process)
                                     case Err(reason) => StartRaised(device, flow, reason)]
    {
      r := startResult(trace, device, flow);
      Record(match r
             case Ok(process) => Started(device, flow, process)
             case Err(reason) => StartRaised(device, flow, reason));
    }

    method ReadLog(device: Device, path: string) returns (r: Result<string, string>)
      requires Genuine(trace)
      modifies this
      ensures Genuine(trace) && r == logResult(old(trace), device, path)
      ensures trace == old(trace) + [match r
                                     case Ok(text) => LogRead(device, path, text)
                                     case Err(reason) => LogRaised(device, path, reason)]
      ensures Sleeps(trace) == Sleeps(old(trace))
    {
      r := logResult(trace, device, path);
      Record(match r
             case Ok(text) => LogRead(device, path, text)
             case Err(reason) => LogRaised(device, path, reason));
    }

    method Sleep(seconds: real)
      requires Genuine(trace)
      modifies this
      ensures Genuine(trace) && trace == old(trace) + [Slept(seconds)]
      ensures Sleeps(trace) == Sleeps(old(trace)) + 1
    {
      Record(Slept(seconds));
    }

    method Monotonic() returns (t: real)
      requires Genuine(trace)
      modifies this
      ensures Genuine(trace) && t == clock(old(trace)) && trace == old(trace) + [ClockDrawn(t)]
      ensures Sleeps(trace) == Sleeps(old(trace))
    {
      t := clock(trace);
      Record(ClockDrawn(t));
    }

    // stop_traffic, with any exception swallowed by the caller's finally block.
    method Stop(device: Device, pid: int) returns (raised: bool)
      requires Genuine(trace)
      modifies this
      ensures Genuine(trace) && raised == stopRaises(old(trace), device, pid)
      ensures trace == old(trace) + [Stopped(device, pid, raised)]
    {
      raised := stopRaises(trace, device, pid);
      Record(Stopped(device, pid, raised));
    }

    // One look at the log, and at the clock when it shows nothing new.
    method LookOnce(device: Device, path: string, prior: nat, deadline: real) returns (look: Look)
      requires Genuine(trace) && ClockAdvances()
      modifies this
      ensures Genuine(trace) && trace == old(trace) + LookEvents(device, path, look)
      ensures match look
        case Found(text, mbps) => Complete(text, prior, loads) && LastMbps(text, loads) == Some(mbps)
        case Nothing(text, time) => !Complete(text, prior, loads)
        case LookRaised(_) => true
      ensures Sleeps(trace) == Sleeps(old(trace))
      ensures look.Nothing? && look.time < deadline ==> Sleeps(old(trace)) < patience(deadline)
    {
      var read := ReadLog(device, path);
      if read.Err? {
        return LookRaised(read.error);
      }
      if Count(read.value, loads) > prior {
        var mbps := LastMbps(read.value, loads);
        if mbps.Some? {
          return Found(read.value, mbps.value);
        }
      }
      var now := Monotonic();
      look := Nothing(read.value, now);
    }

    // Poll a log for a new completed session carrying a rate, until the deadline passes.
    method AwaitSession(device: Device, path: string, prior: nat, deadline: real, interval: real)
      returns (look: Look, ghost polls: seq<Poll>)
      requires Genuine(trace) && ClockAdvances()
      modifies this
      ensures Genuine(trace)
      ensures trace == old(trace) + PollEvents(device, path, polls, interval) + LookEvents(device, path, look)
      ensures Waiting(polls, prior, deadline, loads)
      ensures match look
        case Found(text, mbps) => Complete(text, prior, loads) && LastMbps(text, loads) == Some(mbps)
        case Nothing(text, time) => !Complete(text, prior, loads) && time >= deadline
        case LookRaised(_) => true
    {
      polls := [];
      ghost var before := trace;
      while true
        invariant Genuine(trace) && Waiting(polls, prior, deadline, loads)
        invariant trace == before + PollEvents(device, path, polls, interval)
        decreases patience(deadline) - Sleeps(trace)
      {
        look := LookOnce(device, path, prior, deadline);
        if !look.Nothing? || look.time >= deadline {
          return;
        }
        Sleep(interval);
        PollEventsSnoc(before, device, path, polls, Poll(look.text, look.time), interval);
        polls := polls + [Poll(look.text, look.time)];
      }
    }
  }
}
