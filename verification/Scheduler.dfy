/** The batch scheduler: two workers drain one list of trials through the admission gate.

    A worker picks a trial under the scheduling lock, takes a display slot, runs the trial, gives the
    allocation back if cleanup was confirmed, and settles its account under the lock again. A trial whose
    image did not fit on the disk is put back; a trial whose cleanup is unconfirmed keeps its allocation
    and its slot for ever. The accounting before the slot is given back can itself raise, for example when
    the summary cannot be written; the worker is then gone with its slot and its place in the count. */
module Scheduler {
  import opened Admission

  datatype Entry = Entry(task: string, attempt: nat, trial: string)

  datatype Phase =
    | Choosing
    | Parked(woken: bool)
    | WantsSlot(entry: Entry)
    | Running(entry: Entry, slot: nat, released: bool)
    | Settling(entry: Entry, deferred: bool, released: bool)
    | Died(entry: Entry, slot: nat, released: bool, recorded: bool)
    | Returned
    | Crashed

  /** `kept` are the finished trials that still hold their allocation and slot. */
  datatype Batch = Batch(
    gate: Gate, pending: seq<Entry>, workers: seq<Phase>, running: int, retained: bool,
    slots: seq<nat>, kept: seq<(Entry, nat)>, results: seq<Entry>, unrun: seq<Entry>)

  datatype Choice = Chosen(index: nat) | Nothing | Raises

  /** What `next_trial` finds from position `i` on. `disk(j)` says whether the j-th pending trial's storage
      fits on the live disk. Only a batch with retained capacity looks past the first trial. */
  function Scan(b: Batch, resources: string -> Resources, disk: nat -> bool, i: nat): (choice: Choice)
    requires i <= |b.pending|
    ensures choice.Chosen? ==>
              && i <= choice.index < |b.pending| && disk(choice.index) && (choice.index == i || b.retained)
              && var e := b.pending[choice.index];
                 Requestable(b.gate, e.trial, resources(e.task)) && Fits(b.gate, resources(e.task)) && b.gate.waiting == []
    decreases |b.pending| - i
  {
    if i == |b.pending| then Nothing
    else
      var r := resources(b.pending[i].task);
      if !disk(i) then (if b.retained then Scan(b, resources, disk, i + 1) else Nothing)
      else if !Requestable(b.gate, b.pending[i].trial, r) then Raises
      else if TryAcquire(b.gate, b.pending[i].trial, r).1.Some? then Chosen(i)
      else if b.retained then Scan(b, resources, disk, i + 1)
      else Nothing
  }

  /** The loop of `next_trial`. */
  method NextTrial(b: Batch, resources: string -> Resources, disk: nat -> bool) returns (choice: Choice)
    ensures choice == Scan(b, resources, disk, 0)
  {
    for i := 0 to |b.pending|
      invariant Scan(b, resources, disk, i) == Scan(b, resources, disk, 0)
    {
      var r := resources(b.pending[i].task);
      if !disk(i) {
        if b.retained {
          continue;
        }
        return Nothing;
      }
      if !Requestable(b.gate, b.pending[i].trial, r) {
        return Raises;
      }
      var answer := TryAcquire(b.gate, b.pending[i].trial, r);
      if answer.1.Some? {
        return Chosen(i);
      }
      if !b.retained {
        return Nothing;
      }
    }
    choice := Nothing;
  }

  datatype Step =
    | Choose(w: nat, disk: nat -> bool)
    | TakeSlot(w: nat)
    | GiveBack(w: nat, k: nat)
    | Finish(w: nat, deferred: bool)
    | Die(w: nat, recorded: bool)
    | Settle(w: nat, crash: bool)

  predicate Can(b: Batch, step: Step)
  {
    step.w < |b.workers| &&
    var p := b.workers[step.w];
    match step
    case Choose(_, _) => p == Choosing || p == Parked(true)
    case TakeSlot(_) => p.WantsSlot? && b.slots != []
    case GiveBack(_, k) => p.Running? && !p.released && k < |b.gate.active| && b.gate.active[k].identity == p.entry.trial
    case Finish(_, deferred) => p.Running? && (deferred ==> p.released)
    case Die(_, _) => p.Running?
    case Settle(_, _) => p.Settling?
  }

  function At(b: Batch, w: nat, p: Phase): Batch
    requires w < |b.workers|
  {
    b.(workers := b.workers[w := p])
  }

  function Wake(workers: seq<Phase>): seq<Phase>
  {
    seq(|workers|, i requires 0 <= i < |workers| => if workers[i].Parked? then Parked(true) else workers[i])
  }

  function Pick(b: Batch, resources: string -> Resources, w: nat, i: nat): Batch
    requires w < |b.workers| && i < |b.pending|
  {
    var e := b.pending[i];
    At(b, w, WantsSlot(e)).(
      gate := TryAcquire(b.gate, e.trial, resources(e.task)).0, pending := Remove(b.pending, i), running := b.running + 1)
  }

  /** What a worker does with the outcome of the scan. */
  function Chose(b: Batch, resources: string -> Resources, w: nat, choice: Choice): Batch
    requires w < |b.workers| && (choice.Chosen? ==> choice.index < |b.pending|)
  {
    if b.pending == [] then At(b, w, Returned)
    else
      match choice
      case Chosen(i) => Pick(b, resources, w, i)
      case Nothing =>
        if b.running == 0 then At(b, w, Returned).(unrun := b.unrun + b.pending, pending := []) else At(b, w, Parked(false))
      case Raises => At(b, w, Crashed)
  }

  function Next(b: Batch, resources: string -> Resources, step: Step): Batch
    requires Can(b, step)
  {
    var p := b.workers[step.w];
    match step
    case Choose(w, disk) => Chose(b, resources, w, Scan(b, resources, disk, 0))
    case TakeSlot(w) => At(b, w, Running(p.entry, b.slots[0], false)).(slots := b.slots[1..])
    case GiveBack(w, k) => At(b, w, Running(p.entry, p.slot, true)).(gate := Release(b.gate, k))
    case Finish(w, deferred) =>
      At(b, w, Settling(p.entry, deferred, p.released)).(
        results := if deferred then b.results else b.results + [p.entry],
        slots := if p.released then b.slots + [p.slot] else b.slots,
        kept := if p.released then b.kept else b.kept + [(p.entry, p.slot)])
    case Die(w, recorded) =>
      At(b, w, Died(p.entry, p.slot, p.released, recorded)).(results := if recorded then b.results + [p.entry] else b.results)
    case Settle(w, crash) =>
      var b' := At(b, w, if crash then Crashed else Choosing);
      b'.(workers := Wake(b'.workers), running := b.running - 1, retained := b.retained || !p.released,
          pending := if p.deferred then [p.entry] + b.pending else b.pending)
  }

  ghost predicate Runs(b: Batch, resources: string -> Resources, steps: seq<Step>)
    decreases |steps|
  {
    steps == [] || (Can(b, steps[0]) && Runs(Next(b, resources, steps[0]), resources, steps[1..]))
  }

  ghost function After(b: Batch, resources: string -> Resources, steps: seq<Step>): Batch
    requires Runs(b, resources, steps)
    decreases |steps|
  {
    if steps == [] then b else After(Next(b, resources, steps[0]), resources, steps[1..])
  }

  ghost predicate Init(b: Batch, trials: seq<Entry>, budget: Resources)
  {
    b == Batch(Gate(budget, [], [], 0, 0), trials, [Choosing, Choosing], 0, false, [1, 2], [], [], [])
  }

  // ----- conservation -----

  function Times(s: seq<Entry>, x: Entry): nat
  {
    if s == [] then 0 else (if s[0] == x then 1 else 0) + Times(s[1..], x)
  }

  function Tally(workers: seq<Phase>, f: Phase -> bool): nat
  {
    if workers == [] then 0 else (if f(workers[0]) then 1 else 0) + Tally(workers[1..], f)
  }

  function Bit(b: bool): nat
  {
    if b then 1 else 0
  }

  /** Whether a worker accounts for the trial `x`. */
  function Carries(x: Entry): Phase -> bool
  {
    (p: Phase) => (p.WantsSlot? || p.Running? || (p.Settling? && p.deferred) || (p.Died? && !p.recorded)) && p.entry == x
  }

  const Busy: Phase -> bool := (p: Phase) => p.WantsSlot? || p.Running? || p.Settling? || p.Died?

  /** Whether a worker's trial still holds its allocation. */
  const Owns: Phase -> bool := (p: Phase) => p.WantsSlot? || ((p.Running? || p.Died?) && !p.released)

  const HasSlot: Phase -> bool := (p: Phase) => p.Running? || p.Died?

  /** How often a trial occurs in the whole batch, wherever it is. */
  function Total(b: Batch, x: Entry): nat
  {
    Times(b.pending, x) + Tally(b.workers, Carries(x)) + Times(b.results, x) + Times(b.unrun, x)
  }

  lemma {:induction false} TallyAt(workers: seq<Phase>, w: nat, p: Phase, f: Phase -> bool)
    requires w < |workers|
    ensures Tally(workers[w := p], f) == Tally(workers, f) + Bit(f(p)) - Bit(f(workers[w]))
    decreases |workers|
  {
    if w == 0 {
      assert workers[w := p][1..] == workers[1..];
    } else {
      assert workers[w := p][1..] == workers[1..][w - 1 := p];
      TallyAt(workers[1..], w - 1, p, f);
    }
  }

  lemma {:induction false} TallyAwake(workers: seq<Phase>, f: Phase -> bool)
    requires f(Parked(true)) == f(Parked(false)) == false
    ensures Tally(Wake(workers), f) == Tally(workers, f)
    decreases |workers|
  {
    if workers != [] {
      assert Wake(workers)[1..] == Wake(workers[1..]);
      TallyAwake(workers[1..], f);
    }
  }

  lemma {:induction false} TallyHas(workers: seq<Phase>, w: nat, f: Phase -> bool)
    requires w < |workers| && f(workers[w])
    ensures Tally(workers, f) >= 1
    decreases |workers|
  {
    if w > 0 { TallyHas(workers[1..], w - 1, f); }
  }

  lemma {:induction false} TimesAppend(s: seq<Entry>, t: seq<Entry>, x: Entry)
    ensures Times(s + t, x) == Times(s, x) + Times(t, x)
    decreases |s|
  {
    if s == [] {
      assert s + t == t;
    } else {
      assert (s + t)[1..] == s[1..] + t;
      TimesAppend(s[1..], t, x);
    }
  }

  lemma {:induction false} TimesRemove(s: seq<Entry>, i: nat, x: Entry)
    requires i < |s|
    ensures Times(s, x) == Times(Remove(s, i), x) + if s[i] == x then 1 else 0
    decreases |s|
  {
    if i == 0 {
      assert Remove(s, 0) == s[1..];
    } else {
      assert Remove(s, i)[1..] == Remove(s[1..], i - 1);
      TimesRemove(s[1..], i - 1, x);
    }
  }

  lemma {:induction false} TimesHas(s: seq<Entry>, x: Entry)
    ensures Times(s, x) > 0 <==> x in s
    decreases |s|
  {
    if s != [] { TimesHas(s[1..], x); }
  }

  /** How one step changes the tallies; used for each of the four counts. */
  lemma TallyStep(b: Batch, resources: string -> Resources, step: Step, f: Phase -> bool)
    requires Can(b, step) && f(Parked(true)) == f(Parked(false)) == false
    ensures var b' := Next(b, resources, step);
            |b'.workers| == |b.workers| &&
            Tally(b'.workers, f) == Tally(b.workers, f) + Bit(f(b'.workers[step.w])) - Bit(f(b.workers[step.w]))
  {
    var b' := Next(b, resources, step);
    if step.Settle? {
      var p := if step.crash then Crashed else Choosing;
      TallyAt(b.workers, step.w, p, f);
      TallyAwake(b.workers[step.w := p], f);
    } else {
      assert b'.workers == b.workers[step.w := b'.workers[step.w]];
      TallyAt(b.workers, step.w, b'.workers[step.w], f);
    }
  }

  /** How often a trial occurs in the three lists. */
  function Listed(b: Batch, x: Entry): nat
  {
    Times(b.pending, x) + Times(b.results, x) + Times(b.unrun, x)
  }

  lemma WorkerMoves(b: Batch, b': Batch, w: nat, p: Phase, x: Entry)
    requires w < |b.workers| && b'.workers == b.workers[w := p]
    requires Listed(b', x) + Bit(Carries(x)(p)) == Listed(b, x) + Bit(Carries(x)(b.workers[w]))
    ensures Total(b', x) == Total(b, x)
  {
    TallyAt(b.workers, w, p, Carries(x));
  }

  lemma ChoseConserves(b: Batch, resources: string -> Resources, w: nat, choice: Choice, x: Entry)
    requires w < |b.workers| && (choice.Chosen? ==> choice.index < |b.pending|) && !Carries(x)(b.workers[w])
    ensures Total(Chose(b, resources, w, choice), x) == Total(b, x)
  {
    var b' := Chose(b, resources, w, choice);
    if b.pending != [] && choice.Chosen? {
      TimesRemove(b.pending, choice.index, x);
    } else {
      TimesAppend(b.unrun, b.pending, x);
    }
    WorkerMoves(b, b', w, b'.workers[w], x);
  }

  /** No step loses, copies or renames a trial. */
  lemma StepConserves(b: Batch, resources: string -> Resources, step: Step, x: Entry)
    requires Can(b, step)
    ensures Total(Next(b, resources, step), x) == Total(b, x)
  {
    if step.Choose? {
      ChoseConserves(b, resources, step.w, Scan(b, resources, step.disk, 0), x);
    } else {
      TallyStep(b, resources, step, Carries(x));
      ListedStep(b, resources, step, x);
    }
  }

  lemma ListedStep(b: Batch, resources: string -> Resources, step: Step, x: Entry)
    requires Can(b, step) && !step.Choose?
    ensures var b' := Next(b, resources, step);
            Listed(b', x) + Bit(Carries(x)(b'.workers[step.w])) == Listed(b, x) + Bit(Carries(x)(b.workers[step.w]))
  {
    if !step.TakeSlot? && !step.GiveBack? {
      var e := b.workers[step.w].entry;
      TimesAppend(b.results, [e], x);
      TimesAppend([e], b.pending, x);
      assert Times([e], x) == Bit(e == x);
    }
  }

  /** The running count is right, nobody parks while nothing runs, and pending trials always have a worker
      that has not returned. */
  ghost predicate Lively(b: Batch)
  {
    && |b.workers| == 2
    && b.running == Tally(b.workers, Busy)
    && (forall w :: 0 <= w < 2 && b.workers[w] == Parked(false) ==> b.running > 0)
    && (b.pending != [] ==> b.workers[0] != Returned || b.workers[1] != Returned)
  }

  lemma ChoiceLively(b: Batch, resources: string -> Resources, w: nat, choice: Choice)
    requires Lively(b) && w < 2 && !Busy(b.workers[w]) && (choice.Chosen? ==> choice.index < |b.pending|)
    ensures Lively(Chose(b, resources, w, choice))
  {
    var b' := Chose(b, resources, w, choice);
    TallyAt(b.workers, w, b'.workers[w], Busy);
    assert b'.workers == b.workers[w := b'.workers[w]];
  }

  lemma LivelyKept(b: Batch, resources: string -> Resources, step: Step)
    requires Lively(b) && Can(b, step)
    ensures Lively(Next(b, resources, step))
  {
    if step.Choose? {
      ChoiceLively(b, resources, step.w, Scan(b, resources, step.disk, 0));
    } else {
      TallyStep(b, resources, step, Busy);
    }
  }

  // ----- allocations and slots -----

  /** Every active allocation belongs to a trial at work or to a kept one, and the counts agree. */
  ghost predicate Placed(b: Batch, id: string)
  {
    || (exists w :: 0 <= w < |b.workers| && Owns(b.workers[w]) && b.workers[w].entry.trial == id)
    || (exists i :: 0 <= i < |b.kept| && b.kept[i].0.trial == id)
  }

  /** Kept trials and dead ones whose summary was appended are among the results. */
  ghost predicate Recorded(b: Batch)
  {
    && (forall i :: 0 <= i < |b.kept| ==> b.kept[i].0 in b.results)
    && (forall w :: 0 <= w < |b.workers| && b.workers[w].Died? && b.workers[w].recorded ==> b.workers[w].entry in b.results)
  }

  ghost predicate Slotted(b: Batch)
  {
    && Admission.Inv(b.gate) && b.gate.waiting == []
    && |b.gate.active| == Tally(b.workers, Owns) + |b.kept|
    && |b.slots| + Tally(b.workers, HasSlot) + |b.kept| == 2
    && Recorded(b)
    && (forall k :: 0 <= k < |b.gate.active| ==> Placed(b, b.gate.active[k].identity))
  }

  /** The trial identities of a batch are distinct. */
  ghost predicate Plan(trials: seq<Entry>)
  {
    && (forall x :: Times(trials, x) <= 1)
    && (forall x, y :: x in trials && y in trials && x.trial == y.trial ==> x == y)
    && (forall x :: x in trials ==> x.trial != "")
  }

  ghost predicate Conserved(b: Batch, trials: seq<Entry>)
  {
    forall x :: Total(b, x) == Times(trials, x)
  }

  ghost predicate Inv(b: Batch, trials: seq<Entry>)
  {
    Plan(trials) && Conserved(b, trials) && Lively(b) && Slotted(b)
  }

  /** A pending trial has no allocation yet. */
  lemma PendingIsNew(b: Batch, trials: seq<Entry>, i: nat)
    requires Plan(trials) && Conserved(b, trials) && Slotted(b) && i < |b.pending|
    ensures !Active(b.gate, b.pending[i].trial)
  {
    var e := b.pending[i];
    TimesHas(b.pending, e);
    TimesHas(trials, e);
    if Active(b.gate, e.trial) {
      var k :| 0 <= k < |b.gate.active| && b.gate.active[k].identity == e.trial;
      assert Placed(b, e.trial);
      if w :| 0 <= w < |b.workers| && Owns(b.workers[w]) && b.workers[w].entry.trial == e.trial {
        var x := b.workers[w].entry;
        if b.workers[w].Died? && b.workers[w].recorded {
          TimesHas(b.results, x);
        } else {
          TallyHas(b.workers, w, Carries(x));
        }
        TimesHas(trials, x);
      } else {
        var j :| 0 <= j < |b.kept| && b.kept[j].0.trial == e.trial;
        TimesHas(b.results, b.kept[j].0);
        TimesHas(trials, b.kept[j].0);
      }
    }
  }

  /** A placed allocation stays placed when only worker `w` moves and its trial, if it held `id`, still does
      or is kept. */
  lemma PlacedMoves(b: Batch, b': Batch, w: nat, id: string)
    requires Placed(b, id) && |b'.workers| == |b.workers| && w < |b.workers| && b.kept <= b'.kept
    requires forall v :: 0 <= v < |b.workers| && v != w && Owns(b.workers[v]) ==> b'.workers[v] == b.workers[v]
    requires Owns(b.workers[w]) && b.workers[w].entry.trial == id ==>
               || (Owns(b'.workers[w]) && b'.workers[w].entry.trial == id)
               || (|b.kept| < |b'.kept| && b'.kept[|b.kept|].0.trial == id)
    ensures Placed(b', id)
  {
    if v :| 0 <= v < |b.workers| && Owns(b.workers[v]) && b.workers[v].entry.trial == id {
      if v == w && |b.kept| < |b'.kept| && b'.kept[|b.kept|].0.trial == id {
      } else {
        assert Owns(b'.workers[v]) && b'.workers[v].entry.trial == id;
      }
    } else {
      var i :| 0 <= i < |b.kept| && b.kept[i].0.trial == id;
      assert b'.kept[i] == b.kept[i];
    }
  }

  lemma PickSlotted(b: Batch, resources: string -> Resources, trials: seq<Entry>, w: nat, i: nat)
    requires Inv(b, trials) && w < |b.workers| && !Busy(b.workers[w]) && i < |b.pending|
    requires var r := resources(b.pending[i].task);
             Positive(r) && Requestable(b.gate, b.pending[i].trial, r) && Fits(b.gate, r)
    ensures Slotted(Pick(b, resources, w, i))
  {
    var e := b.pending[i];
    var r := resources(e.task);
    var b' := Pick(b, resources, w, i);
    PendingIsNew(b, trials, i);
    TryKeeps(b.gate, e.trial, r);
    TallyAt(b.workers, w, WantsSlot(e), Owns);
    TallyAt(b.workers, w, WantsSlot(e), HasSlot);
    assert b'.gate.active == b.gate.active + [Grant(e.trial, b.gate.issued, r)];
    forall k | 0 <= k < |b'.gate.active|
      ensures Placed(b', b'.gate.active[k].identity)
    {
      if k < |b.gate.active| {
        PlacedMoves(b, b', w, b.gate.active[k].identity);
      } else {
        assert Owns(b'.workers[w]) && b'.workers[w].entry.trial == e.trial;
      }
    }
  }

  lemma GiveBackSlotted(b: Batch, resources: string -> Resources, w: nat, k: nat)
    requires Slotted(b) && Can(b, GiveBack(w, k))
    ensures Slotted(Next(b, resources, GiveBack(w, k)))
  {
    var b' := Next(b, resources, GiveBack(w, k));
    ReleaseKeeps(b.gate, k);
    TallyAt(b.workers, w, b'.workers[w], Owns);
    TallyAt(b.workers, w, b'.workers[w], HasSlot);
    var names := Names(b.gate);
    forall j | 0 <= j < |b'.gate.active|
      ensures Placed(b', b'.gate.active[j].identity)
    {
      var i := if j < k then j else j + 1;
      assert names[i] == b.gate.active[i].identity && names[k] == b.gate.active[k].identity;
      assert names[i] != names[k];
      PlacedMoves(b, b', w, b.gate.active[i].identity);
    }
  }

  /** Steps that leave the gate alone. */
  lemma QuietSlotted(b: Batch, b': Batch, w: nat)
    requires Slotted(b) && b'.gate == b.gate && |b'.workers| == |b.workers| && w < |b.workers|
    requires Tally(b'.workers, Owns) + |b'.kept| == Tally(b.workers, Owns) + |b.kept|
    requires |b'.slots| + Tally(b'.workers, HasSlot) + |b'.kept| == 2
    requires b.kept <= b'.kept && Recorded(b')
    requires forall v :: 0 <= v < |b.workers| && v != w && Owns(b.workers[v]) ==> b'.workers[v] == b.workers[v]
    requires Owns(b.workers[w]) ==>
               || (Owns(b'.workers[w]) && b'.workers[w].entry == b.workers[w].entry)
               || (|b.kept| < |b'.kept| && b'.kept[|b.kept|].0 == b.workers[w].entry)
    ensures Slotted(b')
  {
    forall k | 0 <= k < |b.gate.active|
      ensures Placed(b', b.gate.active[k].identity)
    {
      PlacedMoves(b, b', w, b.gate.active[k].identity);
    }
  }

  lemma MoveSlotted(b: Batch, resources: string -> Resources, step: Step)
    requires Slotted(b) && Can(b, step) && (step.TakeSlot? || step.Finish? || step.Die?)
    ensures Slotted(Next(b, resources, step))
  {
    TallyStep(b, resources, step, Owns);
    TallyStep(b, resources, step, HasSlot);
    MoveRecorded(b, resources, step);
    QuietSlotted(b, Next(b, resources, step), step.w);
  }

  lemma MoveRecorded(b: Batch, resources: string -> Resources, step: Step)
    requires Recorded(b) && Can(b, step) && (step.TakeSlot? || step.Finish? || step.Die?)
    ensures Recorded(Next(b, resources, step))
  {
  }

  lemma SettleSlotted(b: Batch, resources: string -> Resources, w: nat, crash: bool)
    requires Slotted(b) && Can(b, Settle(w, crash))
    ensures Slotted(Next(b, resources, Settle(w, crash)))
  {
    TallyStep(b, resources, Settle(w, crash), Owns);
    TallyStep(b, resources, Settle(w, crash), HasSlot);
    QuietSlotted(b, Next(b, resources, Settle(w, crash)), w);
  }

  /** A worker that has no trial stays without one. */
  lemma IdleSlotted(b: Batch, b': Batch, w: nat, p: Phase)
    requires Slotted(b) && w < |b.workers| && !Busy(b.workers[w]) && !Busy(p)
    requires b'.workers == b.workers[w := p] && b'.gate == b.gate && b'.slots == b.slots && b'.kept == b.kept && b'.results == b.results
    ensures Slotted(b')
  {
    TallyAt(b.workers, w, p, Owns);
    TallyAt(b.workers, w, p, HasSlot);
    QuietSlotted(b, b', w);
  }

  lemma ChoiceSlotted(b: Batch, resources: string -> Resources, trials: seq<Entry>, w: nat, disk: nat -> bool)
    requires Inv(b, trials) && Can(b, Choose(w, disk)) && forall task :: Positive(resources(task))
    ensures Slotted(Next(b, resources, Choose(w, disk)))
  {
    var choice := Scan(b, resources, disk, 0);
    if choice.Chosen? {
      PickSlotted(b, resources, trials, w, choice.index);
    } else {
      var b' := Chose(b, resources, w, choice);
      IdleSlotted(b, b', w, b'.workers[w]);
    }
  }

  lemma ConservedKept(b: Batch, resources: string -> Resources, trials: seq<Entry>, step: Step)
    requires Conserved(b, trials) && Can(b, step)
    ensures Conserved(Next(b, resources, step), trials)
  {
    forall x ensures Total(Next(b, resources, step), x) == Times(trials, x) {
      StepConserves(b, resources, step, x);
    }
  }

  lemma InvKept(b: Batch, resources: string -> Resources, trials: seq<Entry>, step: Step)
    requires Inv(b, trials) && Can(b, step) && forall task :: Positive(resources(task))
    ensures Inv(Next(b, resources, step), trials)
  {
    LivelyKept(b, resources, step);
    ConservedKept(b, resources, trials, step);
    match step
    case Choose(w, disk) => ChoiceSlotted(b, resources, trials, w, disk);
    case GiveBack(w, k) => GiveBackSlotted(b, resources, w, k);
    case Settle(w, crash) => SettleSlotted(b, resources, w, crash);
    case _ => MoveSlotted(b, resources, step);
  }

  lemma {:induction false} Reachable(b: Batch, resources: string -> Resources, trials: seq<Entry>, steps: seq<Step>)
    requires Inv(b, trials) && Runs(b, resources, steps) && forall task :: Positive(resources(task))
    ensures Inv(After(b, resources, steps), trials)
    decreases |steps|
  {
    if steps != [] {
      InvKept(b, resources, trials, steps[0]);
      Reachable(Next(b, resources, steps[0]), resources, trials, steps[1..]);
    }
  }

  // ----- the theorems -----

  lemma AllReturned(b: Batch, trials: seq<Entry>, x: Entry)
    requires Inv(b, trials) && b.workers == [Returned, Returned]
    ensures b.pending == [] && Times(b.results, x) + Times(b.unrun, x) == Times(trials, x)
  {
    TwoTallies(b.workers, Carries(x));
  }

  /** In every run every trial of the plan is in exactly one place, under its one identity: pending, with a
      worker, finished or reported as not run. When both workers have returned, nothing is pending and
      every trial was finished or reported exactly once. */
  lemma EveryTrialOnce(b0: Batch, resources: string -> Resources, trials: seq<Entry>, budget: Resources, steps: seq<Step>, x: Entry)
    requires Plan(trials) && Positive(budget) && Init(b0, trials, budget) && (forall task :: Positive(resources(task)))
    requires Runs(b0, resources, steps)
    ensures Total(After(b0, resources, steps), x) == Bit(x in trials)
    ensures var b := After(b0, resources, steps);
            b.workers == [Returned, Returned] ==> b.pending == [] && Times(b.results, x) + Times(b.unrun, x) == Bit(x in trials)
  {
    InitInv(b0, trials, budget);
    Reachable(b0, resources, trials, steps);
    TimesHas(trials, x);
    var b := After(b0, resources, steps);
    if b.workers == [Returned, Returned] { AllReturned(b, trials, x); }
  }

  lemma InitInv(b: Batch, trials: seq<Entry>, budget: Resources)
    requires Plan(trials) && Positive(budget) && Init(b, trials, budget)
    ensures Inv(b, trials)
  {
    InitConserved(b, trials, budget);
    InitLively(b, trials, budget);
    InitSlotted(b, trials, budget);
  }

  lemma InitConserved(b: Batch, trials: seq<Entry>, budget: Resources)
    requires Init(b, trials, budget)
    ensures Conserved(b, trials)
  {
    forall x ensures Total(b, x) == Times(trials, x) {
      TwoTallies(b.workers, Carries(x));
    }
  }

  lemma InitLively(b: Batch, trials: seq<Entry>, budget: Resources)
    requires Init(b, trials, budget)
    ensures Lively(b)
  {
    TwoTallies(b.workers, Busy);
  }

  lemma InitSlotted(b: Batch, trials: seq<Entry>, budget: Resources)
    requires Positive(budget) && Init(b, trials, budget)
    ensures Slotted(b)
  {
    TwoTallies(b.workers, Owns);
    TwoTallies(b.workers, HasSlot);
    EmptyGate(budget);
  }

  // ----- who waits for whom -----

  /** Parked and not yet notified, or in the queue for a slot when there is none. */
  predicate Waits(b: Batch, w: nat)
  {
    w < |b.workers| && (b.workers[w] == Parked(false) || (b.workers[w].WantsSlot? && b.slots == []))
  }

  /** Some run takes worker `w` out of the phase it is in. */
  ghost predicate Leaves(b: Batch, resources: string -> Resources, w: nat)
    requires w < |b.workers|
  {
    exists steps ::
      && Runs(b, resources, steps) && w < |After(b, resources, steps).workers|
      && After(b, resources, steps).workers[w] != b.workers[w]
  }

  /** Some run ends with both workers returned, so that the batch writes its report. */
  ghost predicate Reports(b: Batch, resources: string -> Resources)
  {
    exists steps :: Runs(b, resources, steps) && After(b, resources, steps).workers == [Returned, Returned]
  }

  predicate Gone(p: Phase)
  {
    p.Died? || p.Crashed?
  }

  /** How far a worker is from returning, when nothing new is chosen. */
  function Distance(p: Phase): nat
  {
    match p
    case WantsSlot(_) => 5
    case Running(_, _, _) => 4
    case Settling(_, _, _) => 3
    case Parked(woken) => if woken then 1 else 2
    case Choosing => 1
    case _ => 0
  }

  const Full: nat -> bool := (j: nat) => false

  lemma {:induction false} FullDisk(b: Batch, resources: string -> Resources, i: nat)
    requires i <= |b.pending|
    ensures Scan(b, resources, Full, i) == Nothing
    decreases |b.pending| - i
  {
    if i < |b.pending| { FullDisk(b, resources, i + 1); }
  }

  /** A worker that wants a slot finds one unless the other one has it, its allocation given back. */
  lemma SlotOrOther(b: Batch, trials: seq<Entry>, w: nat)
    requires Inv(b, trials) && w < 2
    ensures b.workers[w] == Parked(false) ==> Busy(b.workers[1 - w])
    ensures b.workers[w].WantsSlot? && b.slots == [] ==> HasSlot(b.workers[1 - w]) && b.workers[1 - w].released
  {
    TwoTallies(b.workers, Busy);
    TwoTallies(b.workers, Owns);
    TwoTallies(b.workers, HasSlot);
  }

  /** Nobody is gone and the two workers are closer to returning. */
  predicate Nearer(b: Batch, b': Batch)
    requires |b.workers| == 2
  {
    && |b'.workers| == 2 && !Gone(b'.workers[0]) && !Gone(b'.workers[1])
    && Distance(b'.workers[0]) + Distance(b'.workers[1]) < Distance(b.workers[0]) + Distance(b.workers[1])
  }

  lemma FinishNears(b: Batch, resources: string -> Resources, w: nat)
    requires |b.workers| == 2 && w < 2 && !Gone(b.workers[1 - w]) && b.workers[w].Running?
    ensures Can(b, Finish(w, false)) && Nearer(b, Next(b, resources, Finish(w, false)))
  {
  }

  lemma SettleNears(b: Batch, resources: string -> Resources, w: nat)
    requires |b.workers| == 2 && w < 2 && !Gone(b.workers[1 - w]) && b.workers[w].Settling?
    ensures Can(b, Settle(w, false)) && Nearer(b, Next(b, resources, Settle(w, false)))
  {
  }

  lemma TakeNears(b: Batch, resources: string -> Resources, w: nat)
    requires |b.workers| == 2 && w < 2 && !Gone(b.workers[1 - w]) && b.workers[w].WantsSlot? && b.slots != []
    ensures Can(b, TakeSlot(w)) && Nearer(b, Next(b, resources, TakeSlot(w)))
  {
  }

  lemma ReturnNears(b: Batch, resources: string -> Resources, w: nat, disk: nat -> bool)
    requires |b.workers| == 2 && w < 2 && !Gone(b.workers[1 - w]) && (b.workers[w] == Choosing || b.workers[w] == Parked(true))
    requires b.running == 0 && Scan(b, resources, disk, 0) == Nothing
    ensures Can(b, Choose(w, disk)) && Nearer(b, Next(b, resources, Choose(w, disk)))
  {
  }

  /** As long as nobody is gone some step brings the two workers closer to returning. */
  lemma Advance(b: Batch, resources: string -> Resources, trials: seq<Entry>) returns (step: Step)
    requires Inv(b, trials) && !Gone(b.workers[0]) && !Gone(b.workers[1]) && b.workers != [Returned, Returned]
    ensures Can(b, step) && Nearer(b, Next(b, resources, step))
  {
    var p, q := b.workers[0], b.workers[1];
    if p.Running? || q.Running? {
      var w := if p.Running? then 0 else 1;
      FinishNears(b, resources, w);
      step := Finish(w, false);
    } else if p.Settling? || q.Settling? {
      var w := if p.Settling? then 0 else 1;
      SettleNears(b, resources, w);
      step := Settle(w, false);
    } else if p.WantsSlot? || q.WantsSlot? {
      var w := if p.WantsSlot? then 0 else 1;
      SlotOrOther(b, trials, w);
      TakeNears(b, resources, w);
      step := TakeSlot(w);
    } else {
      TwoTallies(b.workers, Busy);
      var w := if p == Returned then 1 else 0;
      FullDisk(b, resources, 0);
      ReturnNears(b, resources, w, Full);
      step := Choose(w, Full);
    }
  }

  lemma {:induction false} CanReport(b: Batch, resources: string -> Resources, trials: seq<Entry>)
    requires Inv(b, trials) && (forall task :: Positive(resources(task))) && !Gone(b.workers[0]) && !Gone(b.workers[1])
    ensures Reports(b, resources)
    decreases Distance(b.workers[0]) + Distance(b.workers[1])
  {
    if b.workers == [Returned, Returned] {
      var none: seq<Step> := [];
      assert Runs(b, resources, none) && After(b, resources, none).workers == [Returned, Returned];
    } else {
      var step := Advance(b, resources, trials);
      var b' := Next(b, resources, step);
      InvKept(b, resources, trials, step);
      CanReport(b', resources, trials);
      var rest :| Runs(b', resources, rest) && After(b', resources, rest).workers == [Returned, Returned];
      assert ([step] + rest)[1..] == rest;
      assert Runs(b, resources, [step] + rest) && After(b, resources, [step] + rest).workers == [Returned, Returned];
    }
  }

  lemma {:induction false} GoneForGood(b: Batch, resources: string -> Resources, steps: seq<Step>, w: nat)
    requires w < |b.workers| && Gone(b.workers[w]) && Runs(b, resources, steps)
    ensures w < |After(b, resources, steps).workers| && After(b, resources, steps).workers[w] == b.workers[w]
    decreases |steps|
  {
    if steps != [] { GoneForGood(Next(b, resources, steps[0]), resources, steps[1..], w); }
  }

  /** In every run, from where it has got to, the batch can still come to its report exactly when no worker
      has died or raised. */
  lemma ReportExact(b0: Batch, resources: string -> Resources, trials: seq<Entry>, budget: Resources, steps: seq<Step>)
    requires Plan(trials) && Positive(budget) && Init(b0, trials, budget) && (forall task :: Positive(resources(task)))
    requires Runs(b0, resources, steps)
    ensures var b := After(b0, resources, steps);
            |b.workers| == 2 && (Reports(b, resources) <==> !Gone(b.workers[0]) && !Gone(b.workers[1]))
  {
    InitInv(b0, trials, budget);
    Reachable(b0, resources, trials, steps);
    var b := After(b0, resources, steps);
    if !Gone(b.workers[0]) && !Gone(b.workers[1]) {
      CanReport(b, resources, trials);
    } else if Reports(b, resources) {
      var more :| Runs(b, resources, more) && After(b, resources, more).workers == [Returned, Returned];
      GoneForGood(b, resources, more, if Gone(b.workers[0]) then 0 else 1);
    }
  }

  /** Nothing can happen any more. */
  ghost predicate Stuck(b: Batch)
  {
    forall step :: !Can(b, step)
  }

  /** In every run a worker that waits, parked or for a slot, waits for the other worker, which is at a trial,
      and some run takes it out of its wait exactly when that worker has not died in its accounting. A living
      one that has the last slot puts it back with its next step; a dead one leaves nothing that could happen. */
  lemma NobodyWaitsInVain(b0: Batch, resources: string -> Resources, trials: seq<Entry>, budget: Resources,
                          steps: seq<Step>, w: nat, deferred: bool)
    requires Plan(trials) && Positive(budget) && Init(b0, trials, budget) && (forall task :: Positive(resources(task)))
    requires Runs(b0, resources, steps) && Waits(After(b0, resources, steps), w)
    ensures var b := After(b0, resources, steps);
            && |b.workers| == 2 && Busy(b.workers[1 - w])
            && (Leaves(b, resources, w) <==> !b.workers[1 - w].Died?)
            && (Stuck(b) <==> b.workers[1 - w].Died?)
            && (b.workers[w].WantsSlot? && !b.workers[1 - w].Died? ==>
                  && b.workers[1 - w].Running? && b.workers[1 - w].released
                  && Can(b, Finish(1 - w, deferred)) && Next(b, resources, Finish(1 - w, deferred)).slots != [])
  {
    InitInv(b0, trials, budget);
    Reachable(b0, resources, trials, steps);
    var b := After(b0, resources, steps);
    SlotOrOther(b, trials, w);
    if b.workers[1 - w].Died? { NoneLeaves(b, resources, w); } else { OtherFrees(b, resources, trials, w, deferred); }
  }

  lemma OtherFrees(b: Batch, resources: string -> Resources, trials: seq<Entry>, w: nat, deferred: bool)
    requires Inv(b, trials) && (forall task :: Positive(resources(task))) && w < 2 && Waits(b, w) && !b.workers[1 - w].Died?
    ensures Leaves(b, resources, w) && !Stuck(b)
    ensures b.workers[w].WantsSlot? ==>
              && b.workers[1 - w].Running? && b.workers[1 - w].released
              && Can(b, Finish(1 - w, deferred)) && Next(b, resources, Finish(1 - w, deferred)).slots != []
  {
    SlotOrOther(b, trials, w);
    CanReport(b, resources, trials);
    var step := Advance(b, resources, trials);
  }

  lemma NoneLeaves(b: Batch, resources: string -> Resources, w: nat)
    requires |b.workers| == 2 && w < 2 && Waits(b, w) && b.workers[1 - w].Died?
    ensures Stuck(b) && !Leaves(b, resources, w)
  {
    NoneCan(b, w);
    forall more | Runs(b, resources, more) ensures more == [] { StuckRuns(b, resources, more); }
  }

  lemma StuckRuns(b: Batch, resources: string -> Resources, more: seq<Step>)
    requires Stuck(b) && Runs(b, resources, more)
    ensures more == []
  {
  }

  lemma NoneCan(b: Batch, w: nat)
    requires |b.workers| == 2 && w < 2 && Waits(b, w) && b.workers[1 - w].Died?
    ensures Stuck(b)
  {
    forall step ensures !Can(b, step) {
      assert step.w == w || step.w == 1 - w || step.w >= 2;
    }
  }

  // ----- it does happen -----

  ghost predicate Comes(b: Batch, resources: string -> Resources, c: Batch)
  {
    exists steps :: Runs(b, resources, steps) && After(b, resources, steps) == c
  }

  lemma Stays(b: Batch, resources: string -> Resources)
    ensures Comes(b, resources, b)
  {
    var none: seq<Step> := [];
    assert Runs(b, resources, none) && After(b, resources, none) == b;
  }

  lemma Then(b: Batch, resources: string -> Resources, step: Step, c: Batch)
    requires Can(b, step) && Comes(Next(b, resources, step), resources, c)
    ensures Comes(b, resources, c)
  {
    var rest :| Runs(Next(b, resources, step), resources, rest) && After(Next(b, resources, step), resources, rest) == c;
    assert ([step] + rest)[1..] == rest;
    assert Runs(b, resources, [step] + rest) && After(b, resources, [step] + rest) == c;
  }

  const Roomy: nat -> bool := (j: nat) => true

  lemma Picks(b: Batch, resources: string -> Resources, w: nat)
    requires w < |b.workers| && b.workers[w] == Choosing && b.pending != [] && b.gate.waiting == []
    requires var r := resources(b.pending[0].task); Requestable(b.gate, b.pending[0].trial, r) && Fits(b.gate, r)
    ensures Can(b, Choose(w, Roomy)) && Next(b, resources, Choose(w, Roomy)) == Pick(b, resources, w, 0)
  {
  }

  /** From every plan of two trials or more: the first worker's accounting raises while the second is parked. */
  lemma ParkedForEver(b0: Batch, resources: string -> Resources, trials: seq<Entry>, budget: Resources) returns (b: Batch)
    requires Plan(trials) && |trials| >= 2 && Init(b0, trials, budget) && Within(resources(trials[0].task), budget)
    ensures Comes(b0, resources, b) && |b.workers| == 2 && b.workers[1] == Parked(false) && b.workers[0].Died?
  {
    assert Used([]) == Resources(0, 0.0, 0);
    Picks(b0, resources, 0);
    var b1 := Pick(b0, resources, 0, 0);
    var b2 := Next(b1, resources, TakeSlot(0));
    FullDisk(b2, resources, 0);
    var b3 := At(b2, 1, Parked(false));
    assert Next(b2, resources, Choose(1, Full)) == b3;
    var b4 := Next(b3, resources, GiveBack(0, 0));
    b := Next(b4, resources, Die(0, true));
    Stays(b, resources);
    Then(b4, resources, Die(0, true), b);
    Then(b3, resources, GiveBack(0, 0), b);
    Then(b2, resources, Choose(1, Full), b);
    Then(b1, resources, TakeSlot(0), b);
    Then(b0, resources, Choose(0, Roomy), b);
  }

  /** Whether a trial of resources `r` fits beside one of resources `held`. */
  predicate Beside(held: Resources, r: Resources, budget: Resources)
  {
    held.memory < EXCLUSIVE && r.memory < EXCLUSIVE && Within(r, budget) && Within(Add(held, r), budget)
  }

  lemma FitsBeside(g: Gate, r: Resources)
    requires |g.active| == 1 && Beside(g.active[0].resources, r, g.budget)
    ensures Fits(g, r)
  {
    assert g.active[1..] == [];
  }

  /** From every plan whose first trial leaves room for either of the next two: it is kept, the second one's
      accounting raises after its allocation came back, and the third has an allocation and no slot. */
  lemma SlotlessForEver(b0: Batch, resources: string -> Resources, trials: seq<Entry>, budget: Resources) returns (b: Batch)
    requires Plan(trials) && |trials| >= 3 && Init(b0, trials, budget) && Within(resources(trials[0].task), budget)
    requires forall i :: 1 <= i <= 2 ==> Beside(resources(trials[0].task), resources(trials[i].task), budget)
    ensures Comes(b0, resources, b) && |b.workers| == 2 && b.workers[1].WantsSlot? && b.slots == [] && b.workers[0].Died?
  {
    assert Used([]) == Resources(0, 0.0, 0);
    Picks(b0, resources, 0);
    var b1 := Pick(b0, resources, 0, 0);
    var b2 := Next(b1, resources, TakeSlot(0));
    var b3 := Next(b2, resources, Finish(0, false));
    var b4 := Next(b3, resources, Settle(0, false));
    b := FromKept(b4, resources);
    Then(b3, resources, Settle(0, false), b);
    Then(b2, resources, Finish(0, false), b);
    Then(b1, resources, TakeSlot(0), b);
    Then(b0, resources, Choose(0, Roomy), b);
  }

  lemma FromKept(b4: Batch, resources: string -> Resources) returns (b: Batch)
    requires b4.workers == [Choosing, Choosing] && |b4.slots| == 1 && |b4.pending| >= 2
    requires |b4.gate.active| == 1 && b4.gate.waiting == []
    requires forall i :: 0 <= i <= 1 ==> b4.pending[i].trial != ""
    requires forall i :: 0 <= i <= 1 ==> Beside(b4.gate.active[0].resources, resources(b4.pending[i].task), b4.gate.budget)
    ensures Comes(b4, resources, b) && |b.workers| == 2 && b.workers[1].WantsSlot? && b.slots == [] && b.workers[0].Died?
  {
    FitsBeside(b4.gate, resources(b4.pending[0].task));
    Picks(b4, resources, 0);
    var b5 := Pick(b4, resources, 0, 0);
    var b6 := Next(b5, resources, TakeSlot(0));
    var b7 := Next(b6, resources, GiveBack(0, 1));
    assert b7.gate.active == b4.gate.active;
    FitsBeside(b7.gate, resources(b7.pending[0].task));
    Picks(b7, resources, 1);
    var b8 := Pick(b7, resources, 1, 0);
    b := Next(b8, resources, Die(0, true));
    Stays(b, resources);
    Then(b8, resources, Die(0, true), b);
    Then(b7, resources, Choose(1, Roomy), b);
    Then(b6, resources, GiveBack(0, 1), b);
    Then(b5, resources, TakeSlot(0), b);
    Then(b4, resources, Choose(0, Roomy), b);
  }

  lemma TwoTallies(workers: seq<Phase>, f: Phase -> bool)
    requires |workers| == 2
    ensures Tally(workers, f) == Bit(f(workers[0])) + Bit(f(workers[1]))
  {
    assert workers[1..] == [workers[1]] && workers[1..][1..] == [];
    assert Tally([workers[1]], f) == Bit(f(workers[1]));
  }
}
