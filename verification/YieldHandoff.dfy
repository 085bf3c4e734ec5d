/** The terminal yield of a job: one immutable request, replayed a bounded number of times while its
    delivery is uncertain, and what the job executors do with each way it can end. */
module YieldHandoff {
  import opened Common
  import opened LeaseWorker
  import YieldStore

  type Request = YieldStore.Request

  /** Failures as the executors tell them apart. `wait` is the environment wait reason, if the error
      carries one; `retained` marks a cleanup that could not be confirmed. */
  datatype Error =
    | HandoffUnknown
    | LeaseLost
    | JobCancelled
    | DependencyUnavailable
    | StepFailed(retryable: bool)
    | Retained
    | Other(wait: Option<string>)

  datatype Reply =
    | Answer(ok: bool, runAt: int, reason: string)   // a well-formed success body
    | Malformed                                      // any other success body
    | Unreachable                                    // no definite answer
    | YieldRejected                                  // 409 job_yield_rejected
    | Refusal(error: Error)                          // any other definite error

  datatype ReadReply =
    | ReadUnreachable
    | ReadRefused
    | NoJob
    | JobRead(status: JobStatus, owner: Option<nat>, unexpired: bool)

  datatype JobStatus = Queued | Leased | Running | Cancelled | Finished

  /** What the network does to one turn of the loop, and the clock when each request is sent. */
  datatype Round = Round(at: real, reply: Reply, readAt: real, read: ReadReply)

  datatype Sent =
    | YieldSent(request: Request, at: real, reply: Reply)
    | ReadSent(at: real)
    | CompleteSent
    | FailSent(retryable: bool)

  /** `Pending` while the guard has not answered yet. */
  datatype Outcome = Returned | Raised(error: Error) | Pending

  datatype Run = Run(trace: seq<Sent>, outcome: Outcome)

  const ATTEMPTS := 3

  predicate ExactEcho(request: Request, reply: Reply)
  {
    reply.Answer? && reply.ok && reply.runAt == request.runAt && reply.reason == request.reason
  }

  /** The store may or may not have taken the request. */
  predicate Uncertain(request: Request, reply: Reply)
  {
    !ExactEcho(request, reply) && !reply.Refusal?
  }

  datatype Next = Again | Stop(error: Error)

  /** What the read after an uncertain answer allows. */
  function Judge(request: Request, read: ReadReply): Next
  {
    match read
    case ReadUnreachable => Again
    case ReadRefused => Stop(HandoffUnknown)
    case NoJob => Stop(HandoffUnknown)
    case JobRead(Cancelled, _, _) => Stop(JobCancelled)
    case JobRead(Queued, owner, _) => if owner == None then Again else Stop(HandoffUnknown)
    case JobRead(Finished, _, _) => Stop(HandoffUnknown)
    case JobRead(_, owner, unexpired) =>
      if owner != Some(request.owner) then Stop(LeaseLost)
      else if unexpired then Again
      else Stop(HandoffUnknown)
  }

  function Prepend(s: seq<Sent>, r: Run): Run
  {
    Run(s + r.trace, r.outcome)
  }

  /** The yield loop from its turn `i`, with `left` attempts to go. */
  function Yield(request: Request, deadline: real, left: nat, unknown: bool, rounds: nat -> Round, i: nat): Run
    decreases left
  {
    if left == 0 || deadline - rounds(i).at <= 0.0 then Run([], Raised(HandoffUnknown))
    else
      var r := rounds(i);
      var sent := YieldSent(request, r.at, r.reply);
      if ExactEcho(request, r.reply) then Run([sent], Returned)
      else if r.reply.Refusal? then Run([sent], Raised(if unknown then HandoffUnknown else r.reply.error))
      else if deadline - r.readAt <= 0.0 then Run([sent], Raised(HandoffUnknown))
      else
        match Judge(request, r.read)
        case Stop(e) => Run([sent, ReadSent(r.readAt)], Raised(e))
        case Again => Prepend([sent, ReadSent(r.readAt)], Yield(request, deadline, left - 1, true, rounds, i + 1))
  }

  /** The same from a trace that is already there. */
  function Continue(request: Request, deadline: real, left: nat, unknown: bool, rounds: nat -> Round, i: nat, trace: seq<Sent>): Run
    decreases left
  {
    if left == 0 || deadline - rounds(i).at <= 0.0 then Run(trace, Raised(HandoffUnknown))
    else
      var r := rounds(i);
      var trace1 := trace + [YieldSent(request, r.at, r.reply)];
      if ExactEcho(request, r.reply) then Run(trace1, Returned)
      else if r.reply.Refusal? then Run(trace1, Raised(if unknown then HandoffUnknown else r.reply.error))
      else if deadline - r.readAt <= 0.0 then Run(trace1, Raised(HandoffUnknown))
      else
        var trace2 := trace1 + [ReadSent(r.readAt)];
        match Judge(request, r.read)
        case Stop(e) => Run(trace2, Raised(e))
        case Again => Continue(request, deadline, left - 1, true, rounds, i + 1, trace2)
  }

  lemma {:induction false} ContinueIs(request: Request, deadline: real, left: nat, unknown: bool, rounds: nat -> Round, i: nat, trace: seq<Sent>)
    ensures Continue(request, deadline, left, unknown, rounds, i, trace)
         == Prepend(trace, Yield(request, deadline, left, unknown, rounds, i))
    decreases left
  {
    if left > 0 && rounds(i).at < deadline {
      var r := rounds(i);
      var y, read := YieldSent(request, r.at, r.reply), ReadSent(r.readAt);
      assert trace + [y] + [read] == trace + [y, read];
      if Uncertain(request, r.reply) && r.readAt < deadline && Judge(request, r.read) == Again {
        ContinueIs(request, deadline, left - 1, true, rounds, i + 1, trace + [y] + [read]);
        Reassociate(trace, [y, read], Yield(request, deadline, left - 1, true, rounds, i + 1));
      }
    }
  }

  lemma Reassociate(a: seq<Sent>, b: seq<Sent>, r: Run)
    ensures Prepend(a + b, r) == Prepend(a, Prepend(b, r))
  {
    assert (a + b) + r.trace == a + (b + r.trace);
  }

  /** The worker's loop. */
  method YieldJob(request: Request, deadline: real, attempts: nat, rounds: nat -> Round)
    returns (trace: seq<Sent>, outcome: Outcome)
    ensures Run(trace, outcome) == Yield(request, deadline, attempts, false, rounds, 0)
  {
    ContinueIs(request, deadline, attempts, false, rounds, 0, []);
    assert [] + Yield(request, deadline, attempts, false, rounds, 0).trace == Yield(request, deadline, attempts, false, rounds, 0).trace;
    trace := [];
    var deliveryUnknown := false;
    var i := 0;
    while i < attempts
      invariant 0 <= i <= attempts
      invariant Continue(request, deadline, attempts - i, deliveryUnknown, rounds, i, trace)
             == Continue(request, deadline, attempts, false, rounds, 0, [])
    {
      var r := rounds(i);
      if deadline - r.at <= 0.0 {
        break;
      }
      trace := trace + [YieldSent(request, r.at, r.reply)];
      if ExactEcho(request, r.reply) {
        return trace, Returned;
      }
      if r.reply.Refusal? {
        return trace, Raised(if deliveryUnknown then HandoffUnknown else r.reply.error);
      }
      deliveryUnknown := true;
      if deadline - r.readAt <= 0.0 {
        break;
      }
      trace := trace + [ReadSent(r.readAt)];
      var next := Judge(request, r.read);
      if next.Stop? {
        return trace, Raised(next.error);
      }
      i := i + 1;
    }
    outcome := Raised(HandoffUnknown);
  }

  // ----- what the loop guarantees -----

  ghost predicate SomeUncertain(trace: seq<Sent>)
  {
    exists i :: 0 <= i < |trace| && trace[i].YieldSent? && Uncertain(trace[i].request, trace[i].reply)
  }

  function Yields(trace: seq<Sent>): nat
  {
    if trace == [] then 0 else (if trace[0].YieldSent? then 1 else 0) + Yields(trace[1..])
  }

  function Reads(trace: seq<Sent>): nat
  {
    if trace == [] then 0 else (if trace[0].ReadSent? then 1 else 0) + Reads(trace[1..])
  }

  /** Every request of the trace is the one request or a read, started before the deadline. */
  ghost predicate OnlyThisYield(trace: seq<Sent>, request: Request, deadline: real)
  {
    forall i :: 0 <= i < |trace| ==>
      ((trace[i].YieldSent? && trace[i].request == request) || trace[i].ReadSent?) && trace[i].at < deadline
  }

  predicate Echoed(request: Request, s: Sent)
  {
    s.YieldSent? && ExactEcho(request, s.reply)
  }

  lemma CountsOfPair(y: Sent, r: Sent, rest: seq<Sent>)
    requires y.YieldSent? && r.ReadSent?
    ensures Yields([y]) == 1 && Reads([y]) == 0 && Yields([y, r]) == 1 && Reads([y, r]) == 1
    ensures Yields([y, r] + rest) == 1 + Yields(rest) && Reads([y, r] + rest) == 1 + Reads(rest)
  {
    assert [y, r][1..] == [r] && [y, r][1..][1..] == [];
    assert ([y, r] + rest)[1..] == [r] + rest && ([r] + rest)[1..] == rest;
  }

  /** At most `left` byte-identical yields and no more reads than yields, all before the deadline. */
  lemma {:induction false} YieldRequests(request: Request, deadline: real, left: nat, unknown: bool, rounds: nat -> Round, i: nat)
    ensures var trace := Yield(request, deadline, left, unknown, rounds, i).trace;
            OnlyThisYield(trace, request, deadline) && Yields(trace) <= left && Reads(trace) <= Yields(trace)
    decreases left
  {
    if left > 0 && rounds(i).at < deadline {
      var r := rounds(i);
      var y, read := YieldSent(request, r.at, r.reply), ReadSent(r.readAt);
      if Uncertain(request, r.reply) && r.readAt < deadline && Judge(request, r.read) == Again {
        YieldRequests(request, deadline, left - 1, true, rounds, i + 1);
        CountsOfPair(y, read, Yield(request, deadline, left - 1, true, rounds, i + 1).trace);
      } else {
        CountsOfPair(y, read, []);
      }
    }
  }

  /** The loop returns exactly when its last request was answered by the exact echo. Once a delivery is
      uncertain the only other endings are handoff unknown, lost lease and cancelled job; any other error
      is the definite refusal of the one request sent. */
  lemma {:induction false} YieldEnding(request: Request, deadline: real, left: nat, unknown: bool, rounds: nat -> Round, i: nat)
    ensures var run := Yield(request, deadline, left, unknown, rounds, i);
            && (run.outcome == Returned <==> (run.trace != [] && Echoed(request, run.trace[|run.trace| - 1])))
            && (unknown || SomeUncertain(run.trace) ==>
                  run.outcome == Returned || (run.outcome.Raised? && run.outcome.error in {HandoffUnknown, LeaseLost, JobCancelled}))
            && (!unknown && !SomeUncertain(run.trace) ==>
                  (run.trace == [] && run.outcome == Raised(HandoffUnknown)) || |run.trace| == 1)
    decreases left
  {
    var run := Yield(request, deadline, left, unknown, rounds, i);
    if left > 0 && rounds(i).at < deadline {
      var r := rounds(i);
      assert run.trace[0] == YieldSent(request, r.at, r.reply);
      if Uncertain(request, r.reply) {
        YieldEnding(request, deadline, left - 1, true, rounds, i + 1);
      }
    }
  }

  // ----- against the store -----

  /** The network may lose, delay and repeat, but an exact echo comes from a copy that the store answered
      positively. `steps` is everything that happens to the job's row, every copy that arrives included. */
  ghost predicate Honest(request: Request, trace: seq<Sent>, steps: seq<YieldStore.Step>)
    requires YieldStore.Runs(YieldStore.Start, steps)
  {
    forall i :: 0 <= i < |trace| && Echoed(request, trace[i]) ==> exists k: nat :: Confirmed(request, steps, k)
  }

  ghost predicate Confirmed(request: Request, steps: seq<YieldStore.Step>, k: nat)
  {
    && k < |steps| && steps[k] == YieldStore.Yield(request) && YieldStore.Runs(YieldStore.Start, steps[..k])
    && YieldStore.Deliver(YieldStore.After(YieldStore.Start, steps[..k]), request).1
  }

  /** End to end: a yield that returns is recorded exactly once, and one that ends in any other way at most
      once, whatever else happened to the job meanwhile. */
  lemma YieldEndToEnd(request: Request, deadline: real, left: nat, rounds: nat -> Round, steps: seq<YieldStore.Step>)
    requires YieldStore.Runs(YieldStore.Start, steps)
    requires Honest(request, Yield(request, deadline, left, false, rounds, 0).trace, steps)
    ensures var count := multiset(YieldStore.After(YieldStore.Start, steps).events)[request];
            if Yield(request, deadline, left, false, rounds, 0).outcome == Returned then count == 1 else count <= 1
  {
    var run := Yield(request, deadline, left, false, rounds, 0);
    YieldEnding(request, deadline, left, false, rounds, 0);
    YieldStore.YieldsOnce(YieldStore.Start, steps, request);
    if run.outcome == Returned {
      assert Echoed(request, run.trace[|run.trace| - 1]);
      var k: nat :| Confirmed(request, steps, k);
      YieldStore.AnsweredIsRecorded(steps, k, request);
    }
  }

  // ----- the executors around it -----

  datatype Terminal = DoYield(request: Request, rounds: nat -> Round) | DoComplete(error: Option<Error>)

  /** What the clock and the renewal thread do while a handoff waits, and while it joins that thread. */
  datatype Handoff = Handoff(waiting: seq<Turn>, joining: seq<Turn>)

  /** How the guarded work of a job ends: with an error of its own, or in its terminal request. */
  datatype Body = Fails(error: Error) | Ends(handoff: Handoff, terminal: Terminal)

  /** A whole execution: the guard as the work leaves it, how the work ends, what happens while the recovery
      checks the guard, and the yield the recovery may make. */
  datatype Script = Script(lease: real, guard: Worker, body: Body, checking: seq<Turn>, recovery: Handoff,
                           request: Request, rounds: nat -> Round)

  /** A run, and the guard it leaves. */
  datatype JobRun = JobRun(run: Run, guard: Worker)

  /** A yield behind the guard's handoff, within the deadline the handoff confirms. */
  function Guarded(lease: real, guard: Worker, h: Handoff, request: Request, rounds: nat -> Round): JobRun
  {
    var (w, answer) := AskHandoff(lease, guard, h.waiting, h.joining);
    match answer
    case Yes => JobRun(Yield(request, w.shared.deadline, ATTEMPTS, false, rounds, 0), w)
    case No => JobRun(Run([], Raised(LeaseLost)), w)
    case NotYet => JobRun(Run([], Pending), w)
  }

  /** A completion behind the handoff. */
  function Completed(lease: real, guard: Worker, h: Handoff, error: Option<Error>): JobRun
  {
    var (w, answer) := AskHandoff(lease, guard, h.waiting, h.joining);
    match answer
    case Yes => JobRun(Run([CompleteSent], if error == None then Returned else Raised(error.value)), w)
    case No => JobRun(Run([], Raised(LeaseLost)), w)
    case NotYet => JobRun(Run([], Pending), w)
  }

  /** Cleanup hides what it cannot classify, except a lost lease, an unknown handoff and a known wait. */
  function Finished(e: Error): Error
  {
    if e == LeaseLost || e == HandoffUnknown || (e.Other? && e.wait.Some?) then e else Retained
  }

  function RunBody(s: Script, wrap: bool): JobRun
  {
    match s.body
    case Fails(e) => JobRun(Run([], Raised(e)), s.guard)
    case Ends(h, DoYield(request, rounds)) => Wrapped(Guarded(s.lease, s.guard, h, request, rounds), wrap)
    case Ends(h, DoComplete(error)) => Wrapped(Completed(s.lease, s.guard, h, error), wrap)
  }

  function Wrapped(j: JobRun, wrap: bool): JobRun
  {
    if wrap && j.run.outcome.Raised? then JobRun(Run(j.run.trace, Raised(Finished(j.run.outcome.error))), j.guard) else j
  }

  /** The recovery of both executors: ask the guard, and if it still clears the owner, hand off by a yield. */
  function Recover(s: Script, j: JobRun): JobRun
  {
    var (w, healthy) := AskHealth(s.lease, j.guard, s.checking);
    match healthy
    case No => JobRun(Run(j.run.trace, Raised(LeaseLost)), w)
    case NotYet => JobRun(Run(j.run.trace, Pending), w)
    case Yes =>
      var r := Guarded(s.lease, w, s.recovery, s.request, s.rounds);
      JobRun(Prepend(j.run.trace, r.run), r.guard)
  }

  function LifecycleJob(s: Script, wrap: bool): JobRun
  {
    var j := RunBody(s, wrap);
    if j.run.outcome.Raised? && (j.run.outcome.error == Retained || (j.run.outcome.error.Other? && j.run.outcome.error.wait.Some?))
    then Recover(s, j) else j
  }

  /** A claimed lifecycle job, with the failure report its error leads to. */
  function ClaimedJob(s: Script, wrap: bool): seq<Sent>
  {
    var run := LifecycleJob(s, wrap).run;
    match run.outcome
    case Returned => run.trace
    case Pending => run.trace
    case Raised(DependencyUnavailable) => run.trace + [FailSent(true)]
    case Raised(StepFailed(retryable)) => run.trace + [FailSent(retryable)]
    case Raised(e) => if e in {HandoffUnknown, LeaseLost, JobCancelled} then run.trace else run.trace + [FailSent(false)]
  }

  /** A control job: every error but a lost lease or an unknown handoff tries the recovery yield. */
  function ControlJob(s: Script, wrap: bool): JobRun
  {
    var j := RunBody(s, wrap);
    if !j.run.outcome.Raised? || j.run.outcome.error in {HandoffUnknown, LeaseLost} then j else Recover(s, j)
  }

  /** The trace belongs to one yield: one request, at most three sends and reads, all in the window, and
      neither a completion nor a failure report. */
  ghost predicate YieldOnly(trace: seq<Sent>, deadline: real)
  {
    && (exists request :: OnlyThisYield(trace, request, deadline))
    && Yields(trace) <= ATTEMPTS && Reads(trace) <= ATTEMPTS
  }

  ghost predicate Reports(trace: seq<Sent>)
  {
    exists i :: 0 <= i < |trace| && (trace[i].FailSent? || trace[i].CompleteSent?)
  }

  predicate KnownEnding(o: Outcome)
  {
    o == Returned || o == Pending || (o.Raised? && o.error in {HandoffUnknown, LeaseLost, JobCancelled})
  }

  /** A guarded yield sends its own request only, before the deadline its guard keeps, and spends the guard as
      soon as the guard has answered. */
  lemma GuardedYield(lease: real, guard: Worker, h: Handoff, request: Request, rounds: nat -> Round)
    requires WorkerOk(guard) && guard.caller == Executing
    ensures var j := Guarded(lease, guard, h, request, rounds);
            && OnlyThisYield(j.run.trace, request, j.guard.shared.deadline) && YieldOnly(j.run.trace, j.guard.shared.deadline)
            && (SomeUncertain(j.run.trace) ==> KnownEnding(j.run.outcome))
            && WorkerOk(j.guard) && (j.run.outcome != Pending ==> Refuses(j.guard))
            && (j.run.trace != [] ==> j.guard.renewer.Exited?)
  {
    HandoffSpends(lease, guard, h.waiting, h.joining);
    var (w, answer) := AskHandoff(lease, guard, h.waiting, h.joining);
    if answer == Yes {
      YieldRequests(request, w.shared.deadline, ATTEMPTS, false, rounds, 0);
      YieldEnding(request, w.shared.deadline, ATTEMPTS, false, rounds, 0);
    } else {
      assert OnlyThisYield([], request, w.shared.deadline);
    }
  }

  /** What the guarded work can have sent, and that the guard is spent once it has asked for a handoff. */
  lemma BodySpends(s: Script, wrap: bool)
    requires WorkerOk(s.guard) && s.guard.caller == Executing && s.body.Ends?
    ensures var j := RunBody(s, wrap);
            && WorkerOk(j.guard) && (j.run.outcome != Pending ==> Refuses(j.guard))
            && (s.body.terminal.DoYield? ==>
                  YieldOnly(j.run.trace, j.guard.shared.deadline) && (j.run.trace != [] ==> j.guard.renewer.Exited?))
            && (s.body.terminal.DoComplete? ==> j.run.trace == [] || j.run.trace == [CompleteSent])
  {
    HandoffSpends(s.lease, s.guard, s.body.handoff.waiting, s.body.handoff.joining);
    if s.body.terminal.DoYield? {
      GuardedYield(s.lease, s.guard, s.body.handoff, s.body.terminal.request, s.body.terminal.rounds);
    }
  }

  /** After the work has asked the guard to hand off, the recovery can send nothing: its check is refused. */
  lemma SpentRecovery(s: Script, j: JobRun)
    requires WorkerOk(j.guard) && Refuses(j.guard)
    ensures Recover(s, j).run == Run(j.run.trace, Raised(LeaseLost))
    ensures j.guard.renewer.Exited? ==> Recover(s, j).guard.shared.deadline == j.guard.shared.deadline
  {
    RefusedAsk(s.lease, j.guard, s.checking, []);
  }

  /** Without a handoff in the work, the recovery sends at most one yield. */
  lemma FirstRecovery(s: Script, j: JobRun)
    requires WorkerOk(j.guard) && j.guard.caller == Executing && j.run.trace == []
    ensures var r := Recover(s, j);
            YieldOnly(r.run.trace, r.guard.shared.deadline) && (SomeUncertain(r.run.trace) ==> KnownEnding(r.run.outcome))
  {
    HealthAsked(s.lease, j.guard, s.checking);
    var (w, healthy) := AskHealth(s.lease, j.guard, s.checking);
    if healthy == Yes {
      GuardedYield(s.lease, w, s.recovery, s.request, s.rounds);
      var g := Guarded(s.lease, w, s.recovery, s.request, s.rounds);
      assert [] + g.run.trace == g.run.trace;
    } else {
      assert OnlyThisYield([], s.request, w.shared.deadline);
    }
  }

  lemma NothingUncertain(trace: seq<Sent>)
    requires trace == [] || trace == [CompleteSent]
    ensures !SomeUncertain(trace)
  {
  }

  /** The work's own ending, when it asked for a handoff by a yield. */
  lemma YieldBody(s: Script, wrap: bool)
    requires WorkerOk(s.guard) && s.guard.caller == Executing && s.body.Ends? && s.body.terminal.DoYield?
    ensures SomeUncertain(RunBody(s, wrap).run.trace) ==>
              KnownEnding(RunBody(s, wrap).run.outcome) || RunBody(s, wrap).run.outcome == Raised(Retained)
  {
    GuardedYield(s.lease, s.guard, s.body.handoff, s.body.terminal.request, s.body.terminal.rounds);
  }

  lemma ReportsNothing(trace: seq<Sent>, deadline: real)
    requires YieldOnly(trace, deadline)
    ensures !Reports(trace)
  {
  }

  /** Once any yield of a lifecycle job has unknown delivery, nothing but that same yield and its reads
      is ever sent for the job; in particular neither a failure report nor a completion. */
  lemma UncertainLifecycleNeverFails(s: Script, wrap: bool)
    requires WorkerOk(s.guard) && s.guard.caller == Executing && SomeUncertain(LifecycleJob(s, wrap).run.trace)
    ensures ClaimedJob(s, wrap) == LifecycleJob(s, wrap).run.trace
    ensures YieldOnly(ClaimedJob(s, wrap), LifecycleJob(s, wrap).guard.shared.deadline) && !Reports(ClaimedJob(s, wrap))
  {
    var j := RunBody(s, wrap);
    if s.body.Fails? {
      FirstRecovery(s, j);
      NothingUncertain([]);
    } else {
      BodySpends(s, wrap);
      if j.run.outcome != Pending { SpentRecovery(s, j); }
      if s.body.terminal.DoYield? { YieldBody(s, wrap); } else { NothingUncertain(j.run.trace); }
    }
    ReportsNothing(LifecycleJob(s, wrap).run.trace, LifecycleJob(s, wrap).guard.shared.deadline);
  }

  /** The same for control jobs. */
  lemma UncertainControlNeverFails(s: Script, wrap: bool)
    requires WorkerOk(s.guard) && s.guard.caller == Executing && SomeUncertain(ControlJob(s, wrap).run.trace)
    ensures YieldOnly(ControlJob(s, wrap).run.trace, ControlJob(s, wrap).guard.shared.deadline)
    ensures !Reports(ControlJob(s, wrap).run.trace)
  {
    var j := RunBody(s, wrap);
    if s.body.Fails? {
      FirstRecovery(s, j);
      NothingUncertain([]);
    } else {
      BodySpends(s, wrap);
      if j.run.outcome != Pending { SpentRecovery(s, j); }
      if s.body.terminal.DoComplete? { NothingUncertain(j.run.trace); }
    }
    ReportsNothing(ControlJob(s, wrap).run.trace, ControlJob(s, wrap).guard.shared.deadline);
  }
}
