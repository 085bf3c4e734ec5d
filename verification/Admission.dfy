/** The admission gate of a benchmark batch: at most two active trials, within a resource budget, an
    8 GiB trial alone, first come first served.

    `Gate` is the gate as a value with one function per critical section; a waiter parks inside the
    condition variable and is woken by a notification. `AdmissionGate` and `Allocation` are the objects
    the controller uses. */
module Admission {
  import opened Common

  datatype Resources = Resources(memory: int, cpus: real, storage: int)

  const EXCLUSIVE := 8192
  const SLOTS := 2

  predicate Positive(r: Resources)
  {
    r.memory > 0 && r.cpus > 0.0 && r.storage > 0
  }

  function Add(a: Resources, b: Resources): Resources
  {
    Resources(a.memory + b.memory, a.cpus + b.cpus, a.storage + b.storage)
  }

  predicate Within(a: Resources, limit: Resources)
  {
    a.memory <= limit.memory && a.cpus <= limit.cpus && a.storage <= limit.storage
  }

  function Remove<T>(s: seq<T>, k: nat): seq<T>
    requires k < |s|
  {
    s[..k] + s[k + 1..]
  }

  /** An admitted trial; `serial` tells two allocations of one identity apart. */
  datatype Grant = Grant(identity: string, serial: nat, resources: Resources)

  /** A trial waiting in `acquire`; `woken` means a notification reached it since it last parked. */
  datatype Waiter = Waiter(identity: string, ticket: nat, resources: Resources, woken: bool)

  /** `issued` counts allocations, `tickets` counts calls of `acquire` that enqueued. */
  datatype Gate = Gate(budget: Resources, waiting: seq<Waiter>, active: seq<Grant>, issued: nat, tickets: nat)

  function Used(active: seq<Grant>): Resources
  {
    if active == [] then Resources(0, 0.0, 0) else Add(active[0].resources, Used(active[1..]))
  }

  predicate Alone(active: seq<Grant>, r: Resources)
  {
    active == [] || (r.memory < EXCLUSIVE && forall i :: 0 <= i < |active| ==> active[i].resources.memory < EXCLUSIVE)
  }

  predicate Fits(g: Gate, r: Resources)
  {
    |g.active| < SLOTS && Alone(g.active, r) && Within(Add(Used(g.active), r), g.budget)
  }

  predicate Requestable(g: Gate, identity: string, r: Resources)
  {
    identity != "" && Within(r, g.budget)
  }

  predicate Active(g: Gate, identity: string)
  {
    exists i :: 0 <= i < |g.active| && g.active[i].identity == identity
  }

  predicate Waiting(g: Gate, identity: string)
  {
    exists i :: 0 <= i < |g.waiting| && g.waiting[i].identity == identity
  }

  function Woken(waiting: seq<Waiter>): seq<Waiter>
  {
    seq(|waiting|, i requires 0 <= i < |waiting| => waiting[i].(woken := true))
  }

  function NotifyAll(g: Gate): Gate
  {
    g.(waiting := Woken(g.waiting))
  }

  function Admit(g: Gate, identity: string, r: Resources): Gate
  {
    g.(active := g.active + [Grant(identity, g.issued, r)], issued := g.issued + 1)
  }

  /** Reserve only what is free right now, never ahead of a waiter. */
  function TryAcquire(g: Gate, identity: string, r: Resources): (Gate, Option<nat>)
  {
    if g.waiting != [] || !Fits(g, r) then (g, None) else (Admit(g, identity, r), Some(g.issued))
  }

  /** A waiter looks again: the head is admitted if it fits, anyone else parks. */
  function Recheck(g: Gate, k: nat): (Gate, Option<nat>)
    requires k < |g.waiting|
  {
    var w := g.waiting[k];
    if k == 0 && Fits(g, w.resources)
    then (NotifyAll(Admit(g.(waiting := g.waiting[1..]), w.identity, w.resources)), Some(g.issued))
    else (g.(waiting := g.waiting[k := w.(woken := false)]), None)
  }

  function Enqueue(g: Gate, identity: string, r: Resources): Gate
  {
    g.(waiting := g.waiting + [Waiter(identity, g.tickets, r, true)], tickets := g.tickets + 1)
  }

  /** A waiter is cancelled while it waits. */
  function CancelWaiter(g: Gate, k: nat): Gate
    requires k < |g.waiting|
  {
    NotifyAll(g.(waiting := Remove(g.waiting, k)))
  }

  /** A confirmed release of the k-th active allocation. */
  function Release(g: Gate, k: nat): Gate
    requires k < |g.active|
  {
    NotifyAll(g.(active := Remove(g.active, k)))
  }

  // ----- what the gate always keeps -----

  ghost predicate Distinct<T>(s: seq<T>)
  {
    forall i, j :: 0 <= i < j < |s| ==> s[i] != s[j]
  }

  function Holders(active: seq<Grant>): seq<string>
  {
    seq(|active|, i requires 0 <= i < |active| => active[i].identity)
  }

  function Queuers(waiting: seq<Waiter>): seq<string>
  {
    seq(|waiting|, i requires 0 <= i < |waiting| => waiting[i].identity)
  }

  /** Everyone active, then everyone waiting. */
  function Names(g: Gate): seq<string>
  {
    Holders(g.active) + Queuers(g.waiting)
  }

  /** The host is never oversubscribed. */
  ghost predicate Safe(active: seq<Grant>, budget: Resources)
  {
    && |active| <= SLOTS
    && Within(Used(active), budget)
    && (forall i :: 0 <= i < |active| && active[i].resources.memory >= EXCLUSIVE ==> |active| == 1)
  }

  ghost predicate Issued(active: seq<Grant>, issued: nat)
  {
    && (forall i :: 0 <= i < |active| ==> Positive(active[i].resources) && active[i].serial < issued)
    && (forall i, j :: 0 <= i < j < |active| ==> active[i].serial < active[j].serial)
  }

  ghost predicate Validated(waiting: seq<Waiter>, budget: Resources)
  {
    forall i :: 0 <= i < |waiting| ==> Positive(waiting[i].resources) && Within(waiting[i].resources, budget)
  }

  /** No wake-up is lost: a parked head does not fit. */
  ghost predicate Awake(g: Gate)
  {
    g.waiting != [] && !g.waiting[0].woken ==> !Fits(g, g.waiting[0].resources)
  }

  ghost predicate Steady(g: Gate)
  {
    && Positive(g.budget) && Distinct(Names(g)) && Safe(g.active, g.budget)
    && Issued(g.active, g.issued) && Validated(g.waiting, g.budget)
  }

  ghost predicate Inv(g: Gate)
  {
    Steady(g) && Awake(g)
  }

  lemma {:induction false} UsedAppend(active: seq<Grant>, x: Grant)
    ensures Used(active + [x]) == Add(Used(active), x.resources)
    decreases |active|
  {
    if active == [] {
      assert [x][1..] == [];
    } else {
      UsedAppend(active[1..], x);
      assert (active + [x])[1..] == active[1..] + [x];
    }
  }

  lemma {:induction false} UsedRemove(active: seq<Grant>, k: nat)
    requires k < |active|
    ensures Used(active) == Add(Used(Remove(active, k)), active[k].resources)
    decreases |active|
  {
    if k == 0 {
      assert Remove(active, 0) == active[1..];
    } else {
      UsedRemove(active[1..], k - 1);
      assert Remove(active, k)[1..] == Remove(active[1..], k - 1);
    }
  }

  lemma RemoveKeepsDistinct<T>(s: seq<T>, k: nat)
    requires k < |s| && Distinct(s)
    ensures Distinct(Remove(s, k))
  {
  }

  lemma AdmitSafe(g: Gate, identity: string, r: Resources)
    requires Safe(g.active, g.budget) && Issued(g.active, g.issued) && Fits(g, r) && Positive(r)
    ensures var g' := Admit(g, identity, r); Safe(g'.active, g'.budget) && Issued(g'.active, g'.issued)
  {
    UsedAppend(g.active, Grant(identity, g.issued, r));
  }

  lemma RemoveSafe(active: seq<Grant>, budget: Resources, issued: nat, k: nat)
    requires Safe(active, budget) && Issued(active, issued) && k < |active|
    ensures Safe(Remove(active, k), budget) && Issued(Remove(active, k), issued)
  {
    UsedRemove(active, k);
  }

  /** The calls that reach the gate's critical sections. A call whose request is refused before them, for
      a duplicate identity or a request over the budget, raises and changes nothing. */
  datatype Step =
    | Try(identity: string, resources: Resources)
    | Acquire(identity: string, resources: Resources)
    | Turn(k: nat)
    | Cancel(k: nat)
    | Free(k: nat)

  predicate New(g: Gate, identity: string, r: Resources)
  {
    Requestable(g, identity, r) && Positive(r) && !Active(g, identity) && !Waiting(g, identity)
  }

  predicate Enabled(g: Gate, step: Step)
  {
    match step
    case Try(identity, r) => New(g, identity, r)
    case Acquire(identity, r) => New(g, identity, r)
    case Turn(k) => k < |g.waiting| && g.waiting[k].woken
    case Cancel(k) => k < |g.waiting|
    case Free(k) => k < |g.active|
  }

  function Apply(g: Gate, step: Step): Gate
    requires Enabled(g, step)
  {
    match step
    case Try(identity, r) => TryAcquire(g, identity, r).0
    case Acquire(identity, r) => Recheck(Enqueue(g, identity, r), |g.waiting|).0
    case Turn(k) => Recheck(g, k).0
    case Cancel(k) => CancelWaiter(g, k)
    case Free(k) => Release(g, k)
  }

  lemma RecheckKeeps(g: Gate, k: nat)
    requires Steady(g) && k < |g.waiting| && (k == 0 || Awake(g))
    ensures Inv(Recheck(g, k).0)
  {
    var w := g.waiting[k];
    var g' := Recheck(g, k).0;
    if k == 0 && Fits(g, w.resources) {
      AdmitSafe(g, w.identity, w.resources);
      assert Names(g') == Names(g);
    } else {
      assert Names(g') == Names(g);
    }
  }

  lemma EnqueueKeeps(g: Gate, identity: string, r: Resources)
    requires Inv(g) && New(g, identity, r)
    ensures Steady(Enqueue(g, identity, r)) && (g.waiting != [] ==> Awake(Enqueue(g, identity, r)))
  {
    assert Names(Enqueue(g, identity, r)) == Names(g) + [identity];
  }

  lemma TryKeeps(g: Gate, identity: string, r: Resources)
    requires Inv(g) && New(g, identity, r)
    ensures Inv(TryAcquire(g, identity, r).0)
  {
    if g.waiting == [] && Fits(g, r) {
      AdmitSafe(g, identity, r);
      assert Names(Admit(g, identity, r)) == Names(g) + [identity];
    }
  }

  lemma CancelKeeps(g: Gate, k: nat)
    requires Inv(g) && k < |g.waiting|
    ensures Inv(CancelWaiter(g, k))
  {
    RemoveKeepsDistinct(Names(g), |g.active| + k);
    assert Names(CancelWaiter(g, k)) == Remove(Names(g), |g.active| + k);
  }

  lemma ReleaseKeeps(g: Gate, k: nat)
    requires Inv(g) && k < |g.active|
    ensures Inv(Release(g, k))
  {
    RemoveSafe(g.active, g.budget, g.issued, k);
    RemoveKeepsDistinct(Names(g), k);
    assert Names(Release(g, k)) == Remove(Names(g), k);
  }

  lemma InvKept(g: Gate, step: Step)
    requires Inv(g) && Enabled(g, step)
    ensures Inv(Apply(g, step)) && Apply(g, step).budget == g.budget
  {
    match step
    case Try(identity, r) => TryKeeps(g, identity, r);
    case Acquire(identity, r) =>
      EnqueueKeeps(g, identity, r);
      RecheckKeeps(Enqueue(g, identity, r), |g.waiting|);
    case Turn(k) => RecheckKeeps(g, k);
    case Cancel(k) => CancelKeeps(g, k);
    case Free(k) => ReleaseKeeps(g, k);
  }

  /** With nothing left to look again, either nobody waits or the head does not fit and some trial is
      active: no wake-up is lost and no request that passed validation is blocked for ever. */
  lemma NoPermanentBlock(g: Gate)
    requires Inv(g) && g.waiting != [] && !g.waiting[0].woken
    ensures !Fits(g, g.waiting[0].resources) && g.active != []
  {
    assert Used([]) == Resources(0, 0.0, 0);
  }

  // ----- first come, first served, over whole runs -----

  /** The gate with its history: tickets admitted through `acquire`, in order, and tickets cancelled. */
  datatype History = History(gate: Gate, admitted: seq<nat>, cancelled: set<nat>)

  function Record(h: History, step: Step): History
    requires Enabled(h.gate, step)
  {
    var g := h.gate;
    match step
    case Acquire(identity, r) =>
      var entered := Enqueue(g, identity, r);
      History(Apply(g, step), if Recheck(entered, |g.waiting|).1.Some? then h.admitted + [g.tickets] else h.admitted, h.cancelled)
    case Turn(k) =>
      History(Apply(g, step), if Recheck(g, k).1.Some? then h.admitted + [g.waiting[k].ticket] else h.admitted, h.cancelled)
    case Cancel(k) => History(Apply(g, step), h.admitted, h.cancelled + {g.waiting[k].ticket})
    case _ => History(Apply(g, step), h.admitted, h.cancelled)
  }

  ghost predicate Runs(h: History, steps: seq<Step>)
    decreases |steps|
  {
    steps == [] || (Enabled(h.gate, steps[0]) && Runs(Record(h, steps[0]), steps[1..]))
  }

  ghost function After(h: History, steps: seq<Step>): History
    requires Runs(h, steps)
    decreases |steps|
  {
    if steps == [] then h else After(Record(h, steps[0]), steps[1..])
  }

  function Tickets(waiting: seq<Waiter>): seq<nat>
  {
    seq(|waiting|, i requires 0 <= i < |waiting| => waiting[i].ticket)
  }

  /** `line` holds exactly the tickets below `issued` that were not cancelled, in increasing order. */
  ghost predicate InOrder(line: seq<nat>, issued: nat, cancelled: set<nat>)
  {
    && (forall i, j :: 0 <= i < j < |line| ==> line[i] < line[j])
    && (forall i :: 0 <= i < |line| ==> line[i] < issued && line[i] !in cancelled)
    && (forall t: nat :: t in cancelled ==> t < issued)
    && (forall t: nat :: t < issued && t !in cancelled ==> t in line)
  }

  /** Those admitted, then those still waiting, are exactly the tickets ever issued and not cancelled, in
      the order they were issued. */
  ghost predicate Fifo(h: History)
  {
    InOrder(Line(h), h.gate.tickets, h.cancelled)
  }

  function Line(h: History): seq<nat>
  {
    h.admitted + Tickets(h.gate.waiting)
  }

  /** Nobody leaves the line by being admitted; an admitted waiter only changes sides. */
  lemma TurnLine(h: History, k: nat)
    requires Enabled(h.gate, Turn(k))
    ensures var h' := Record(h, Turn(k));
            Line(h') == Line(h) && h'.gate.tickets == h.gate.tickets && h'.cancelled == h.cancelled
  {
  }

  lemma AcquireLine(h: History, identity: string, r: Resources)
    requires Enabled(h.gate, Acquire(identity, r))
    ensures var h' := Record(h, Acquire(identity, r));
            Line(h') == Line(h) + [h.gate.tickets] && h'.gate.tickets == h.gate.tickets + 1 && h'.cancelled == h.cancelled
  {
    var entered := Enqueue(h.gate, identity, r);
    assert Tickets(entered.waiting) == Tickets(h.gate.waiting) + [h.gate.tickets];
  }

  lemma CancelLine(h: History, k: nat)
    requires Enabled(h.gate, Cancel(k))
    ensures var h' := Record(h, Cancel(k));
            && Line(h') == Remove(Line(h), |h.admitted| + k) && h'.gate.tickets == h.gate.tickets
            && h'.cancelled == h.cancelled + {Line(h)[|h.admitted| + k]}
  {
  }

  lemma OtherLine(h: History, step: Step)
    requires Enabled(h.gate, step) && (step.Try? || step.Free?)
    ensures var h' := Record(h, step);
            Line(h') == Line(h) && h'.gate.tickets == h.gate.tickets && h'.cancelled == h.cancelled
  {
  }

  lemma RemoveAt<T>(s: seq<T>, k: nat, i: nat)
    requires k < |s| && i < |s| - 1
    ensures Remove(s, k)[i] == s[if i < k then i else i + 1]
  {
  }

  lemma RemoveInOrder(line: seq<nat>, issued: nat, cancelled: set<nat>, k: nat)
    requires InOrder(line, issued, cancelled) && k < |line|
    ensures InOrder(Remove(line, k), issued, cancelled + {line[k]})
  {
    var line', cancelled' := Remove(line, k), cancelled + {line[k]};
    forall i | 0 <= i < |line'| ensures line'[i] < issued && line'[i] !in cancelled' {
      RemoveAt(line, k, i);
    }
    forall i, j | 0 <= i < j < |line'| ensures line'[i] < line'[j] {
      RemoveAt(line, k, i);
      RemoveAt(line, k, j);
    }
    forall t: nat | t < issued && t !in cancelled'
      ensures t in line'
    {
      var i :| 0 <= i < |line| && line[i] == t;
      var at := if i < k then i else i - 1;
      RemoveAt(line, k, at);
      assert line'[at] == t;
    }
  }

  lemma CancelFifo(h: History, k: nat)
    requires Fifo(h) && Enabled(h.gate, Cancel(k))
    ensures Fifo(Record(h, Cancel(k)))
  {
    CancelLine(h, k);
    CancelInOrder(Record(h, Cancel(k)), Line(h), h.gate.tickets, h.cancelled, |h.admitted| + k);
  }

  lemma CancelInOrder(h': History, line: seq<nat>, issued: nat, cancelled: set<nat>, at: nat)
    requires InOrder(line, issued, cancelled) && at < |line|
    requires Line(h') == Remove(line, at) && h'.gate.tickets == issued && h'.cancelled == cancelled + {line[at]}
    ensures Fifo(h')
  {
    RemoveInOrder(line, issued, cancelled, at);
  }

  lemma AcquireFifo(h: History, identity: string, r: Resources)
    requires Fifo(h) && Enabled(h.gate, Acquire(identity, r))
    ensures Fifo(Record(h, Acquire(identity, r)))
  {
    AcquireLine(h, identity, r);
    AppendInOrder(Line(h), h.gate.tickets, h.cancelled);
  }

  lemma FifoStep(h: History, step: Step)
    requires Fifo(h) && Enabled(h.gate, step)
    ensures Fifo(Record(h, step))
  {
    if step.Cancel? {
      CancelFifo(h, step.k);
    } else if step.Acquire? {
      AcquireFifo(h, step.identity, step.resources);
    } else if step.Turn? {
      TurnLine(h, step.k);
    } else {
      OtherLine(h, step);
    }
  }

  lemma AppendInOrder(line: seq<nat>, issued: nat, cancelled: set<nat>)
    requires InOrder(line, issued, cancelled)
    ensures InOrder(line + [issued], issued + 1, cancelled)
  {
  }

  lemma EmptyGate(budget: Resources)
    requires Positive(budget)
    ensures Inv(Gate(budget, [], [], 0, 0))
  {
    assert Used([]) == Resources(0, 0.0, 0);
    assert Names(Gate(budget, [], [], 0, 0)) == [];
  }

  lemma {:induction false} GateRuns(h: History, steps: seq<Step>)
    requires Inv(h.gate) && Fifo(h) && Runs(h, steps)
    ensures Inv(After(h, steps).gate) && Fifo(After(h, steps))
    decreases |steps|
  {
    if steps != [] {
      InvKept(h.gate, steps[0]);
      FifoStep(h, steps[0]);
      GateRuns(Record(h, steps[0]), steps[1..]);
    }
  }

  /** From an empty gate, over every run of tries, acquires, cancellations and releases: the host is never
      oversubscribed, no two trials share an identity, no wake-up is lost, and admission is first come
      first served. */
  lemma AdmissionRuns(budget: Resources, steps: seq<Step>)
    requires Positive(budget) && Runs(History(Gate(budget, [], [], 0, 0), [], {}), steps)
    ensures var h := After(History(Gate(budget, [], [], 0, 0), [], {}), steps);
            Inv(h.gate) && Fifo(h)
  {
    var g := Gate(budget, [], [], 0, 0);
    EmptyGate(budget);
    assert Line(History(g, [], {})) == [];
    GateRuns(History(g, [], {}), steps);
  }

  // ----- the controller's objects -----

  datatype Cleanup = Absent | NeverCreated | CleanupPending

  class Allocation {
    const identity: string
    const serial: nat
    const resources: Resources
    var creationStarted: bool
    var released: bool

    constructor (identity: string, serial: nat, resources: Resources)
      ensures this.identity == identity && this.serial == serial && this.resources == resources
      ensures !creationStarted && !released
    {
      this.identity, this.serial, this.resources := identity, serial, resources;
      creationStarted, released := false, false;
    }

    /** Called before a create request is sent, including one whose answer could be lost. */
    method MarkCreationStarted() returns (ok: bool)
      modifies this`creationStarted
      ensures ok <==> !released
      ensures creationStarted == (old(creationStarted) || ok)
    {
      if released {
        return false;
      }
      creationStarted := true;
      ok := true;
    }
  }

  datatype Answer = Granted(allocation: Allocation) | NoCapacity | Rejected

  class AdmissionGate {
    const budget: Resources
    var waiting: seq<Waiter>
    var active: seq<Grant>
    var issued: nat
    var tickets: nat

    function View(): (g: Gate)
      reads this
    {
      Gate(budget, waiting, active, issued, tickets)
    }

    constructor (budget: Resources)
      requires Positive(budget)
      ensures View() == Gate(budget, [], [], 0, 0)
    {
      this.budget := budget;
      waiting, active, issued, tickets := [], [], 0, 0;
    }

    method Duplicate(identity: string) returns (found: bool)
      ensures found <==> Active(View(), identity) || Waiting(View(), identity)
    {
      for i := 0 to |active|
        invariant forall j :: 0 <= j < i ==> active[j].identity != identity
      {
        if active[i].identity == identity { return true; }
      }
      for i := 0 to |waiting|
        invariant forall j :: 0 <= j < i ==> waiting[j].identity != identity
      {
        if waiting[i].identity == identity { return true; }
      }
      found := false;
    }

    method TryAcquireNow(identity: string, resources: Resources) returns (answer: Answer)
      modifies this`active, this`issued
      ensures answer == Rejected <==>
              !Requestable(old(View()), identity, resources) || Active(old(View()), identity) || Waiting(old(View()), identity)
      ensures View() == if answer == Rejected then old(View()) else TryAcquire(old(View()), identity, resources).0
      ensures answer.Granted? <==> View().active != old(View().active)
      ensures answer.Granted? ==>
              && fresh(answer.allocation) && !answer.allocation.released && !answer.allocation.creationStarted
              && Grant(identity, answer.allocation.serial, resources) in active
              && answer.allocation.identity == identity && answer.allocation.resources == resources
    {
      if !Requestable(View(), identity, resources) {
        return Rejected;
      }
      var duplicate := Duplicate(identity);
      if duplicate {
        return Rejected;
      }
      if waiting != [] || !Fits(View(), resources) {
        return NoCapacity;
      }
      var allocation := new Allocation(identity, issued, resources);
      ghost var before := active;
      active, issued := active + [Grant(identity, issued, resources)], issued + 1;
      assert active[|before|] == Grant(identity, allocation.serial, resources);
      answer := Granted(allocation);
    }

    /** The opening of `acquire`, up to the wait loop. */
    method AcquireEnqueue(identity: string, resources: Resources) returns (entered: bool)
      modifies this`waiting, this`tickets
      ensures entered <==>
              Requestable(old(View()), identity, resources) && !Active(old(View()), identity) && !Waiting(old(View()), identity)
      ensures View() == if entered then Enqueue(old(View()), identity, resources) else old(View())
    {
      if !Requestable(View(), identity, resources) {
        return false;
      }
      var duplicate := Duplicate(identity);
      if duplicate {
        return false;
      }
      waiting, tickets := waiting + [Waiter(identity, tickets, resources, true)], tickets + 1;
      entered := true;
    }

    method Notify()
      modifies this`waiting
      ensures View() == NotifyAll(old(View()))
    {
      waiting := Woken(waiting);
    }

    /** One turn of the wait loop of the waiter at position `k`. */
    method AcquireTurn(k: nat) returns (answer: Answer)
      requires k < |waiting|
      modifies this`waiting, this`active, this`issued
      ensures View() == Recheck(old(View()), k).0
      ensures answer.Granted? <==> Recheck(old(View()), k).1.Some?
      ensures answer.Granted? ==>
              && fresh(answer.allocation) && answer.allocation.serial == Recheck(old(View()), k).1.value
              && answer.allocation.identity == old(waiting)[k].identity
              && answer.allocation.resources == old(waiting)[k].resources
      ensures answer != Rejected
    {
      var w := waiting[k];
      if k != 0 || !Fits(View(), w.resources) {
        waiting := waiting[k := w.(woken := false)];
        return NoCapacity;
      }
      var allocation := new Allocation(w.identity, issued, w.resources);
      waiting := waiting[1..];
      active, issued := active + [Grant(w.identity, issued, w.resources)], issued + 1;
      Notify();
      answer := Granted(allocation);
    }

    method AcquireCancelled(k: nat)
      requires k < |waiting|
      modifies this`waiting
      ensures View() == CancelWaiter(old(View()), k)
    {
      waiting := waiting[..k] + waiting[k + 1..];
      Notify();
    }

    /** Capacity comes back only for an allocation that is still active, and only with confirmed physical
        absence, or when no create request was ever started. */
    method ReleaseAllocation(a: Allocation, cleanup: Cleanup) returns (ok: bool)
      modifies this`waiting, this`active, a`released
      ensures ok <==>
              && (cleanup == Absent || (cleanup == NeverCreated && !a.creationStarted))
              && !old(a.released)
              && exists k :: Holds(old(View()), a.identity, a.serial, k)
      ensures ok ==> a.released && exists k :: Holds(old(View()), a.identity, a.serial, k) && View() == Release(old(View()), k)
      ensures !ok ==> View() == old(View()) && a.released == old(a.released)
    {
      if cleanup != Absent && !(cleanup == NeverCreated && !a.creationStarted) {
        return false;
      }
      if a.released {
        return false;
      }
      for k := 0 to |active|
        invariant forall j :: 0 <= j < k ==> !Holds(View(), a.identity, a.serial, j)
        invariant View() == old(View()) && a.released == old(a.released)
      {
        if active[k].identity == a.identity && active[k].serial == a.serial {
          assert Holds(old(View()), a.identity, a.serial, k);
          active := active[..k] + active[k + 1..];
          a.released := true;
          Notify();
          return true;
        }
      }
      ok := false;
    }
  }

  predicate Holds(g: Gate, identity: string, serial: nat, k: nat)
  {
    k < |g.active| && g.active[k].identity == identity && g.active[k].serial == serial
  }
}
