/** Waiting for an allocation, unless the batch halts first.

    The call starts a task that acquires from the admission gate, waits for that task or the halt, and takes
    care of an allocation that comes too late. It can be cancelled wherever it waits: for the two tasks, for
    the cancelled task to end, for the gate's lock when it gives an allocation back, and, last, for its tasks
    to be gone. Others use the gate all the while. */
module HaltableAcquire {
  import opened Admission
  import opened Common

  /** The acquiring task. `cancelling` means that its cancellation was requested, so that it ends by raising. */
  datatype Task =
    | Unstarted(cancelling: bool)
    | Queued(ticket: nat, cancelling: bool)
    | Granted(serial: nat)
    | Cancelled
    | Failed

  datatype Result = Allocated | Nothing | Error

  /** Where the call waits, and how it ended. */
  datatype Phase =
    | Watching               // for its acquiring task or the halt
    | Yielding               // halted: for the cancelled task
    | HaltGiving             // halted: to give the allocation back
    | Collecting             // in its handler: for the cancelled task
    | Giving                 // in its handler: to give the allocation back
    | Closing(result: Result)
    | Done(result: Result)

  /** `given` is the allocation's own mark of having been released; `cancels` counts the cancellations of the
      call, and `struck` records that one arrived while the allocation had nobody else to give it back. */
  datatype World = World(gate: Gate, task: Task, phase: Phase, halted: bool, given: bool, cancels: nat, struck: bool)

  /** What is asked of the gate. */
  datatype Ask = Ask(identity: string, resources: Resources)

  datatype Step =
    | Others(step: Admission.Step)
    | Halt
    | TaskStarts
    | TaskTurns(k: nat)
    | TaskStops(k: nat)
    | Resume
    | GiveBack(k: nat)
    | CancelCall
    | End

  predicate Ended(t: Task)
  {
    t.Granted? || t.Cancelled? || t.Failed?
  }

  predicate Foreign(w: World, step: Admission.Step)
  {
    match step
    case Turn(k) => k < |w.gate.waiting| && (w.task.Queued? ==> w.gate.waiting[k].ticket != w.task.ticket)
    case Cancel(k) => k < |w.gate.waiting| && (w.task.Queued? ==> w.gate.waiting[k].ticket != w.task.ticket)
    case Free(k) => k < |w.gate.active| && (w.task.Granted? ==> w.gate.active[k].serial != w.task.serial)
    case _ => true
  }

  predicate Can(w: World, step: Step)
  {
    match step
    case Others(s) => Enabled(w.gate, s) && Foreign(w, s)
    case Halt => true
    case TaskStarts => w.task == Unstarted(false)
    case TaskTurns(k) =>
      && w.task.Queued? && !w.task.cancelling
      && k < |w.gate.waiting| && w.gate.waiting[k].ticket == w.task.ticket && w.gate.waiting[k].woken
    case TaskStops(k) =>
      || w.task == Unstarted(true)
      || (w.task.Queued? && w.task.cancelling && k < |w.gate.waiting| && w.gate.waiting[k].ticket == w.task.ticket)
    case Resume =>
      || (w.phase.Watching? && (Ended(w.task) || w.halted))
      || ((w.phase.Yielding? || w.phase.Collecting?) && Ended(w.task))
    case GiveBack(k) =>
      && (w.phase.HaltGiving? || w.phase.Giving?) && w.task.Granted?
      && k < |w.gate.active| && w.gate.active[k].serial == w.task.serial
    case CancelCall => !w.phase.Done?
    case End => w.phase.Closing? && Ended(w.task)
  }

  /** Cancellation of an acquiring task is requested, unless it has ended. */
  function Stop(t: Task): Task
  {
    match t
    case Unstarted(_) => Unstarted(true)
    case Queued(ticket, _) => Queued(ticket, true)
    case _ => t
  }

  function Rechecked(w: World, r: (Gate, Option<nat>), ticket: nat): World
  {
    w.(gate := r.0, task := match r.1 case Some(serial) => Task.Granted(serial) case None => Queued(ticket, false))
  }

  /** The call goes on after its first wait. */
  function Watched(w: World): World
  {
    if w.task.Granted? then w.(phase := if w.halted then HaltGiving else Closing(Allocated))
    else if Ended(w.task) then w.(phase := Closing(Error))
    else w.(phase := Yielding, task := Stop(w.task))
  }

  /** The handler: an unfinished task is cancelled, a late allocation is given back. */
  function Handled(w: World): World
  {
    if !Ended(w.task) then w.(phase := Collecting, task := Stop(w.task))
    else if w.task.Granted? && !w.given then w.(phase := Giving)
    else w.(phase := Closing(Error))
  }

  /** The waits at which a cancellation leaves nobody to give the allocation back: the handler's own release,
      when the gate's lock is taken, and the last wait of a call that is about to return the allocation. */
  predicate Exposed(phase: Phase)
  {
    phase == Giving || phase == Closing(Allocated)
  }

  function CancelledAt(w: World): World
  {
    match w.phase
    case Watching => Handled(w)
    case Yielding => w                       // taken for the cancellation of its acquiring task
    case HaltGiving => Handled(w)
    case Collecting => w.(phase := Closing(Error))
    case Giving => w.(phase := Closing(Error))
    case Closing(_) => w.(phase := Closing(Error))
    case Done(_) => w
  }

  function Next(a: Ask, w: World, step: Step): World
    requires Can(w, step)
  {
    match step
    case Others(s) => w.(gate := Apply(w.gate, s))
    case Halt => w.(halted := true)
    case TaskStarts =>
      if New(w.gate, a.identity, a.resources)
      then Rechecked(w, Recheck(Enqueue(w.gate, a.identity, a.resources), |w.gate.waiting|), w.gate.tickets)
      else w.(task := Failed)
    case TaskTurns(k) => Rechecked(w, Recheck(w.gate, k), w.task.ticket)
    case TaskStops(k) => w.(task := Cancelled, gate := if w.task.Queued? then CancelWaiter(w.gate, k) else w.gate)
    case Resume =>
      if w.phase.Watching? then Watched(w) else w.(phase := Closing(if w.phase.Yielding? then Nothing else Error))
    case GiveBack(k) =>
      w.(gate := Release(w.gate, k), given := true, phase := Closing(if w.phase.HaltGiving? then Nothing else Error))
    case CancelCall => CancelledAt(w).(cancels := w.cancels + 1, struck := w.struck || Exposed(w.phase))
    case End => w.(phase := Done(w.phase.result))
  }

  ghost predicate Runs(a: Ask, w: World, steps: seq<Step>)
    decreases |steps|
  {
    steps != [] ==> Can(w, steps[0]) && Runs(a, Next(a, w, steps[0]), steps[1..])
  }

  ghost function After(a: Ask, w: World, steps: seq<Step>): World
    requires Runs(a, w, steps)
    decreases |steps|
  {
    if steps == [] then w else After(a, Next(a, w, steps[0]), steps[1..])
  }

  /** Some cancellation of the run arrives at an exposed wait. */
  ghost predicate Strikes(a: Ask, w: World, steps: seq<Step>)
    requires Runs(a, w, steps)
    decreases |steps|
  {
    steps != [] && ((steps[0].CancelCall? && Exposed(w.phase)) || Strikes(a, Next(a, w, steps[0]), steps[1..]))
  }

  function Start(gate: Gate, halted: bool): World
  {
    World(gate, Unstarted(false), Watching, halted, false, 0, false)
  }

  // ----- the allocation in the gate -----

  ghost predicate Held(g: Gate, serial: nat)
  {
    exists k :: 0 <= k < |g.active| && g.active[k].serial == serial
  }

  lemma AdmitHeld(g: Gate, identity: string, r: Resources, serial: nat)
    ensures Held(Admit(g, identity, r), serial) <==> Held(g, serial) || serial == g.issued
  {
    var g' := Admit(g, identity, r);
    assert g'.active[|g.active|].serial == g.issued;
    if Held(g, serial) {
      var k :| 0 <= k < |g.active| && g.active[k].serial == serial;
      assert g'.active[k].serial == serial;
    }
  }

  lemma ReleaseHeld(g: Gate, k: nat, serial: nat)
    requires Issued(g.active, g.issued) && k < |g.active|
    ensures Held(Release(g, k), serial) <==> Held(g, serial) && serial != g.active[k].serial
  {
    var g' := Release(g, k);
    if Held(g, serial) && serial != g.active[k].serial {
      var i :| 0 <= i < |g.active| && g.active[i].serial == serial;
      RemoveAt(g.active, k, if i < k then i else i - 1);
      assert g'.active[if i < k then i else i - 1].serial == serial;
    }
    if Held(g', serial) {
      var i :| 0 <= i < |g'.active| && g'.active[i].serial == serial;
      RemoveAt(g.active, k, i);
    }
  }

  /** Looking again grants the next serial or nothing, and leaves every other allocation alone. */
  lemma RecheckHeld(g: Gate, k: nat, serial: nat)
    requires k < |g.waiting|
    ensures var r := Recheck(g, k);
            && (Held(r.0, serial) <==> Held(g, serial) || r.1 == Some(serial))
            && (r.1.Some? ==> r.1.value == g.issued && r.0.issued == g.issued + 1)
            && (r.1.None? ==> r.0.issued == g.issued)
  {
    var w := g.waiting[k];
    AdmitHeld(g.(waiting := g.waiting[1..]), w.identity, w.resources, serial);
  }

  lemma OthersHeld(g: Gate, step: Admission.Step, serial: nat)
    requires Admission.Inv(g) && Enabled(g, step) && serial < g.issued
    requires step.Free? ==> g.active[step.k].serial != serial
    ensures Held(Apply(g, step), serial) <==> Held(g, serial)
    ensures g.issued <= Apply(g, step).issued
  {
    match step
    case Try(identity, r) => AdmitHeld(g, identity, r, serial);
    case Acquire(identity, r) => RecheckHeld(Enqueue(g, identity, r), |g.waiting|, serial);
    case Turn(k) => RecheckHeld(g, k, serial);
    case Cancel(k) =>
    case Free(k) => ReleaseHeld(g, k, serial);
  }

  // ----- what every step keeps -----

  predicate Stopping(t: Task)
  {
    t == Unstarted(true) || (t.Queued? && t.cancelling) || t.Cancelled?
  }

  ghost predicate PhaseOk(w: World)
  {
    match w.phase
    case Watching => !Stopping(w.task) && !w.given && !w.struck
    case Yielding => Stopping(w.task) && !w.given && !w.struck
    case Collecting => Stopping(w.task) && !w.given && !w.struck
    case HaltGiving => w.task.Granted? && !w.given && !w.struck
    case Giving => w.task.Granted? && !w.given && !w.struck
    case Closing(result) => Settled(w, result) && (Ended(w.task) || Stopping(w.task))
    case Done(result) => Settled(w, result) && Ended(w.task)
  }

  /** At the end the allocation is returned, was given back, or was struck. */
  ghost predicate Settled(w: World, result: Result)
  {
    if result.Allocated? then w.task.Granted? && !w.given && !w.struck
    else (w.task.Granted? ==> (w.given <==> !w.struck)) && (w.struck ==> w.task.Granted?)
  }

  ghost predicate Inv(w: World)
  {
    && Admission.Inv(w.gate) && PhaseOk(w)
    && (w.task.Granted? ==> w.task.serial < w.gate.issued && (Held(w.gate, w.task.serial) <==> !w.given))
    && (w.struck ==> w.cancels > 0)
  }

  lemma OthersKeep(a: Ask, w: World, step: Admission.Step)
    requires Inv(w) && Can(w, Others(step))
    ensures Inv(Next(a, w, Others(step)))
  {
    Admission.InvKept(w.gate, step);
    if w.task.Granted? { OthersHeld(w.gate, step, w.task.serial); }
  }

  lemma StartKeeps(a: Ask, w: World)
    requires Inv(w) && Can(w, TaskStarts)
    ensures Inv(Next(a, w, TaskStarts))
  {
    if New(w.gate, a.identity, a.resources) {
      Admission.InvKept(w.gate, Acquire(a.identity, a.resources));
      RecheckHeld(Enqueue(w.gate, a.identity, a.resources), |w.gate.waiting|, w.gate.issued);
    }
  }

  lemma TurnKeeps(a: Ask, w: World, k: nat)
    requires Inv(w) && Can(w, TaskTurns(k))
    ensures Inv(Next(a, w, TaskTurns(k)))
  {
    Admission.InvKept(w.gate, Turn(k));
    RecheckHeld(w.gate, k, w.gate.issued);
  }

  lemma GiveKeeps(a: Ask, w: World, k: nat)
    requires Inv(w) && Can(w, GiveBack(k))
    ensures Inv(Next(a, w, GiveBack(k)))
  {
    Admission.InvKept(w.gate, Free(k));
    ReleaseHeld(w.gate, k, w.task.serial);
  }

  lemma StepKeeps(a: Ask, w: World, step: Step)
    requires Inv(w) && Can(w, step)
    ensures Inv(Next(a, w, step))
  {
    match step
    case Others(s) => OthersKeep(a, w, s);
    case TaskStarts => StartKeeps(a, w);
    case TaskTurns(k) => TurnKeeps(a, w, k);
    case TaskStops(k) => if w.task.Queued? { Admission.InvKept(w.gate, Admission.Cancel(k)); }
    case GiveBack(k) => GiveKeeps(a, w, k);
    case _ =>
  }

  lemma {:induction false} RunKeeps(a: Ask, w: World, steps: seq<Step>)
    requires Inv(w) && Runs(a, w, steps)
    ensures Inv(After(a, w, steps)) && (After(a, w, steps).struck <==> w.struck || Strikes(a, w, steps))
    decreases |steps|
  {
    if steps != [] {
      StepKeeps(a, w, steps[0]);
      RunKeeps(a, Next(a, w, steps[0]), steps[1..]);
    }
  }

  // ----- the theorems -----

  /** The call is over, the gate still holds the allocation it was granted, and the caller does not have it. */
  ghost predicate Leaked(w: World)
  {
    w.phase.Done? && !w.phase.result.Allocated? && w.task.Granted? && Held(w.gate, w.task.serial)
  }

  /** In every run from a gate that is in order, with a halt and cancellations at any wait and everybody else at
      the gate: a returned allocation is held in the gate for the caller; without one, the gate holds nothing
      of this call, except exactly when a cancellation arrived at one of the two exposed waits. */
  lemma LeakExact(a: Ask, gate: Gate, halted: bool, steps: seq<Step>)
    requires Admission.Inv(gate) && Runs(a, Start(gate, halted), steps) && After(a, Start(gate, halted), steps).phase.Done?
    ensures var w := After(a, Start(gate, halted), steps);
            && (w.phase.result.Allocated? ==> w.task.Granted? && Held(w.gate, w.task.serial))
            && (Leaked(w) <==> Strikes(a, Start(gate, halted), steps)) && (Leaked(w) ==> w.cancels > 0)
  {
    RunKeeps(a, Start(gate, halted), steps);
  }

  ghost predicate LeaksWithin(a: Ask, w: World, n: nat)
  {
    exists steps :: Runs(a, w, steps) && Leaked(After(a, w, steps)) && After(a, w, steps).cancels <= n
  }

  lemma Before(a: Ask, w: World, step: Step, n: nat)
    requires Can(w, step) && LeaksWithin(a, Next(a, w, step), n)
    ensures LeaksWithin(a, w, n)
  {
    var w' := Next(a, w, step);
    var rest :| Runs(a, w', rest) && Leaked(After(a, w', rest)) && After(a, w', rest).cancels <= n;
    assert ([step] + rest)[1..] == rest;
    assert Runs(a, w, [step] + rest) && After(a, w, [step] + rest) == After(a, w', rest);
  }

  /** For a request that a free gate can grant: no run with at most `n` cancellations leaks its allocation
      exactly when there are none. One is enough, while the call that has its allocation waits for its tasks. */
  lemma CancelsExact(a: Ask, gate: Gate, n: nat)
    requires Admission.Inv(gate) && New(gate, a.identity, a.resources) && gate.waiting == [] && Fits(gate, a.resources)
    ensures !LeaksWithin(a, Start(gate, false), n) <==> n == 0
  {
    var w0 := Start(gate, false);
    if n == 0 {
      forall steps | Runs(a, w0, steps) && Leaked(After(a, w0, steps)) ensures After(a, w0, steps).cancels > 0 {
        LeakExact(a, gate, false, steps);
      }
    } else {
      var w1 := Next(a, w0, TaskStarts);
      StartKeeps(a, w0);
      var w2 := Next(a, w1, Resume);
      var w3 := Next(a, w2, CancelCall);
      var w4 := Next(a, w3, End);
      var none: seq<Step> := [];
      assert Runs(a, w4, none) && Leaked(After(a, w4, none)) && After(a, w4, none).cancels <= n;
      Before(a, w3, End, n);
      Before(a, w2, CancelCall, n);
      Before(a, w1, Resume, n);
      Before(a, w0, TaskStarts, n);
    }
  }
}
