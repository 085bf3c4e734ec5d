/** Trial environments on top of the admission gate, and the instances they may leave on the host.

    A create request can be answered late or never, a start can be cancelled while its request is under
    way, and a cleanup can fail. The host is the environment of this model: it may create an instance at
    any time after a create request was sent, and once it has retired the instance of an allocation it
    creates no other for that allocation. */
module Environment {
  import opened Admission

  datatype Host = Untouched | Requested | Resident | Retired

  /** One trial: its allocation's serial and flags, its environment object's flags, and the host's record. */
  datatype Trial = Trial(
    serial: nat, creationStarted: bool, released: bool,
    attempted: bool, owned: bool, destroyed: bool, host: Host)

  datatype World = World(gate: Gate, trials: map<string, Trial>)

  predicate MayExist(t: Trial)
  {
    t.host == Requested || t.host == Resident
  }

  function NewTrial(serial: nat): Trial
  {
    Trial(serial, false, false, false, false, false, Untouched)
  }

  datatype Step =
    | GateStep(step: Admission.Step)     // admission and waiting
    | StartCreate(id: string)            // start: mark the allocation, then send the create request
    | HostCreates(id: string)
    | Observed(id: string)               // a valid answer, or a later observation, shows the instance
    | StopUntouched(id: string, k: nat)  // stop before any create attempt
    | HostRetires(id: string)
    | StopConfirmed(id: string, k: nat)  // stop with the instance observed absent and its record terminal
    | NeverBuilt(id: string, k: nat)     // the batch worker gives back an allocation it never used

  predicate Held(w: World, id: string, k: nat)
  {
    id in w.trials && !w.trials[id].released && Holds(w.gate, id, w.trials[id].serial, k)
  }

  predicate Can(w: World, step: Step)
  {
    match step
    case GateStep(s) => Admission.Enabled(w.gate, s) && !s.Free?
    case StartCreate(id) =>
      id in w.trials && !w.trials[id].destroyed && !w.trials[id].owned && !w.trials[id].released
    case HostCreates(id) => id in w.trials && w.trials[id].host == Requested
    case Observed(id) => id in w.trials && w.trials[id].host == Resident && w.trials[id].attempted && !w.trials[id].destroyed
    case StopUntouched(id, k) =>
      Held(w, id, k) && !w.trials[id].destroyed && !w.trials[id].owned && !w.trials[id].attempted && !w.trials[id].creationStarted
    case HostRetires(id) => id in w.trials && w.trials[id].host == Resident && w.trials[id].owned
    case StopConfirmed(id, k) =>
      Held(w, id, k) && !w.trials[id].destroyed && w.trials[id].owned && w.trials[id].host == Retired
    case NeverBuilt(id, k) => Held(w, id, k) && !w.trials[id].creationStarted
  }

  function Put(w: World, id: string, t: Trial): World
  {
    w.(trials := w.trials[id := t])
  }

  function Next(w: World, step: Step): World
    requires Can(w, step)
  {
    match step
    case GateStep(s) =>
      var g := Admission.Apply(w.gate, s);
      if g.issued > w.gate.issued && g.active != [] then
        World(g, w.trials[g.active[|g.active| - 1].identity := NewTrial(w.gate.issued)])
      else w.(gate := g)
    case StartCreate(id) =>
      var t := w.trials[id];
      Put(w, id, t.(creationStarted := true, attempted := true, host := if t.host == Untouched then Requested else t.host))
    case HostCreates(id) => Put(w, id, w.trials[id].(host := Resident))
    case Observed(id) => Put(w, id, w.trials[id].(owned := true))
    case StopUntouched(id, k) => Put(w, id, w.trials[id].(released := true, destroyed := true)).(gate := Release(w.gate, k))
    case HostRetires(id) => Put(w, id, w.trials[id].(host := Retired))
    case StopConfirmed(id, k) => Put(w, id, w.trials[id].(released := true, destroyed := true)).(gate := Release(w.gate, k))
    case NeverBuilt(id, k) => Put(w, id, w.trials[id].(released := true)).(gate := Release(w.gate, k))
  }

  ghost predicate Runs(w: World, steps: seq<Step>)
    decreases |steps|
  {
    steps == [] || (Can(w, steps[0]) && Runs(Next(w, steps[0]), steps[1..]))
  }

  ghost function After(w: World, steps: seq<Step>): World
    requires Runs(w, steps)
    decreases |steps|
  {
    if steps == [] then w else After(Next(w, steps[0]), steps[1..])
  }

  // ----- the invariant -----

  ghost predicate TrialOk(t: Trial)
  {
    (t.host != Untouched ==> t.creationStarted) && (t.released && t.creationStarted ==> t.host == Retired)
  }

  /** An unreleased allocation is active in the gate. */
  ghost predicate Backed(g: Gate, id: string, t: Trial)
  {
    t.released || exists k :: Holds(g, id, t.serial, k)
  }

  ghost predicate Inv(w: World)
  {
    && Admission.Inv(w.gate)
    && (forall id | id in w.trials :: TrialOk(w.trials[id]) && Backed(w.gate, id, w.trials[id]))
    && (forall k :: 0 <= k < |w.gate.active| ==> w.gate.active[k].identity in w.trials)
  }

  /** Admission only ever appends one grant, for the trial that asked or waited. */
  lemma GateStepGrants(g: Gate, s: Admission.Step)
    requires Admission.Enabled(g, s) && !s.Free?
    ensures var g' := Admission.Apply(g, s);
            || (g'.active == g.active && g'.issued == g.issued)
            || (exists id, r :: g'.active == g.active + [Grant(id, g.issued, r)] && g'.issued == g.issued + 1
                                && (s.Try? || s.Acquire? ==> id == s.identity)
                                && (s.Turn? ==> id == g.waiting[s.k].identity)
                                && !s.Cancel?)
  {
    var g' := Admission.Apply(g, s);
    match s
    case Try(id, r) =>
      if g'.issued != g.issued { assert g'.active == g.active + [Grant(id, g.issued, r)]; }
    case Acquire(id, r) =>
      if g'.issued != g.issued { assert g'.active == g.active + [Grant(id, g.issued, r)]; }
    case Turn(k) =>
      var w := g.waiting[k];
      if g'.issued != g.issued { assert g'.active == g.active + [Grant(w.identity, g.issued, w.resources)]; }
    case Cancel(k) =>
  }

  lemma GateStepKeeps(w: World, s: Admission.Step)
    requires Inv(w) && Can(w, GateStep(s))
    ensures Inv(Next(w, GateStep(s)))
  {
    Admission.InvKept(w.gate, s);
    GateStepGrants(w.gate, s);
    var w' := Next(w, GateStep(s));
    var g, g' := w.gate, w'.gate;
    if g'.issued != g.issued {
      var n := |g.active|;
      var id := g'.active[n].identity;
      forall other | other in w'.trials
        ensures TrialOk(w'.trials[other]) && Backed(g', other, w'.trials[other])
      {
        if other == id {
          assert Holds(g', id, g.issued, n);
        } else if !w.trials[other].released {
          var k: nat :| Holds(g, other, w.trials[other].serial, k);
          assert Holds(g', other, w.trials[other].serial, k);
        }
      }
    } else {
      forall other | other in w.trials
        ensures Backed(g', other, w.trials[other])
      {
        if !w.trials[other].released {
          var k: nat :| Holds(g, other, w.trials[other].serial, k);
          assert Holds(g', other, w.trials[other].serial, k);
        }
      }
    }
  }

  /** Giving back the k-th grant leaves every other trial's grant in place. */
  lemma ReleaseBacks(g: Gate, k: nat, id: string, t: Trial)
    requires k < |g.active| && g.active[k].identity != id && Backed(g, id, t)
    ensures Backed(Release(g, k), id, t)
  {
    if !t.released {
      var j: nat :| Holds(g, id, t.serial, j);
      assert Holds(Release(g, k), id, t.serial, if j < k then j else j - 1);
    }
  }

  lemma FreeKeeps(w: World, id: string, k: nat, t': Trial)
    requires Inv(w) && Held(w, id, k) && TrialOk(t') && t'.released
    ensures Inv(Put(w, id, t').(gate := Release(w.gate, k)))
  {
    ReleaseKeeps(w.gate, k);
    forall other | other in w.trials && other != id
      ensures Backed(Release(w.gate, k), other, w.trials[other])
    {
      ReleaseBacks(w.gate, k, other, w.trials[other]);
    }
  }

  lemma InvKept(w: World, step: Step)
    requires Inv(w) && Can(w, step)
    ensures Inv(Next(w, step))
  {
    match step
    case GateStep(s) => GateStepKeeps(w, s);
    case StopUntouched(id, k) => FreeKeeps(w, id, k, Next(w, step).trials[id]);
    case StopConfirmed(id, k) => FreeKeeps(w, id, k, Next(w, step).trials[id]);
    case NeverBuilt(id, k) => FreeKeeps(w, id, k, Next(w, step).trials[id]);
    case _ => 
      assert Next(w, step).gate == w.gate;
      assert forall id | id in w.trials :: Next(w, step).trials[id].serial == w.trials[id].serial && Next(w, step).trials[id].released == w.trials[id].released;
  }

  // ----- the theorem -----

  /** The grants whose instance may physically exist. */
  function Physical(active: seq<Grant>, trials: map<string, Trial>): seq<Grant>
  {
    if active == [] then []
    else (if active[0].identity in trials && MayExist(trials[active[0].identity]) then [active[0]] else [])
         + Physical(active[1..], trials)
  }

  lemma {:induction false} PhysicalBelow(active: seq<Grant>, trials: map<string, Trial>)
    requires forall i :: 0 <= i < |active| ==> Positive(active[i].resources)
    ensures var p := Physical(active, trials);
            && |p| <= |active| && Within(Used(p), Used(active))
            && (forall i :: 0 <= i < |p| ==> p[i] in active)
    decreases |active|
  {
    if active != [] {
      PhysicalBelow(active[1..], trials);
      var p, rest := Physical(active, trials), Physical(active[1..], trials);
      assert forall x :: x in active[1..] ==> x in active;
      if active[0].identity in trials && MayExist(trials[active[0].identity]) {
        assert p[1..] == rest && p[0] == active[0];
      } else {
        assert p == rest;
      }
    }
  }

  lemma {:induction false} PhysicalHas(active: seq<Grant>, trials: map<string, Trial>, k: nat)
    requires k < |active| && active[k].identity in trials && MayExist(trials[active[k].identity])
    ensures active[k] in Physical(active, trials)
    decreases |active|
  {
    if k > 0 {
      PhysicalHas(active[1..], trials, k - 1);
    }
  }

  /** Every trial whose instance may exist holds an active allocation, and those allocations together are
      at most two, fit the budget in memory, processors and storage, and leave an 8 GiB trial alone. */
  ghost predicate HostWithinBudget(w: World)
  {
    var p := Physical(w.gate.active, w.trials);
    && Safe(p, w.gate.budget)
    && forall id | id in w.trials && MayExist(w.trials[id]) :: exists r :: Grant(id, w.trials[id].serial, r) in p
  }

  lemma InvWithinBudget(w: World)
    requires Inv(w)
    ensures HostWithinBudget(w)
  {
    var p := Physical(w.gate.active, w.trials);
    PhysicalBelow(w.gate.active, w.trials);
    forall id | id in w.trials && MayExist(w.trials[id])
      ensures exists r :: Grant(id, w.trials[id].serial, r) in p
    {
      var k: nat :| Holds(w.gate, id, w.trials[id].serial, k);
      PhysicalHas(w.gate.active, w.trials, k);
      assert Grant(id, w.trials[id].serial, w.gate.active[k].resources) in p;
    }
  }

  lemma {:induction false} Reachable(w: World, steps: seq<Step>)
    requires Inv(w) && Runs(w, steps)
    ensures Inv(After(w, steps)) && After(w, steps).gate.budget == w.gate.budget
    decreases |steps|
  {
    if steps != [] {
      InvKept(w, steps[0]);
      if steps[0].GateStep? { Admission.InvKept(w.gate, steps[0].step); }
      Reachable(Next(w, steps[0]), steps[1..]);
    }
  }

  /** In every run from an empty gate, whatever answers were lost, starts cancelled or cleanups failed,
      the instances that may exist on the host stay within the budget. */
  lemma PhysicalBudget(budget: Resources, steps: seq<Step>)
    requires Positive(budget) && Runs(World(Gate(budget, [], [], 0, 0), map[]), steps)
    ensures var w := After(World(Gate(budget, [], [], 0, 0), map[]), steps);
            HostWithinBudget(w) && w.gate.budget == budget
  {
    var w := World(Gate(budget, [], [], 0, 0), map[]);
    assert Used([]) == Resources(0, 0.0, 0);
    assert Names(w.gate) == [];
    Reachable(w, steps);
    InvWithinBudget(After(w, steps));
  }

  // ----- the environment object -----

  datatype Outcome = Done | Refused | Unsettled

  class WorkspaceEnvironment {
    const gate: AdmissionGate
    const allocation: Allocation
    var attempted: bool
    var owned: bool
    var prepared: bool
    var destroyed: bool

    /** No create request without a marked allocation; an instance is owned only after one. */
    ghost predicate Valid()
      reads this, allocation
    {
      (attempted ==> allocation.creationStarted) && (owned ==> attempted) && (destroyed ==> allocation.released)
    }

    constructor (gate: AdmissionGate, allocation: Allocation)
      ensures this.gate == gate && this.allocation == allocation
      ensures !attempted && !owned && !prepared && !destroyed && Valid()
    {
      this.gate, this.allocation := gate, allocation;
      attempted, owned, prepared, destroyed := false, false, false, false;
    }

    /** Set up the trial. `bound` says whether session and profile were bound, `seen` whether the create
        request was answered with the bound instance, `ready` whether the log directories and upload
        succeeded. `sent` says whether a create request went out: then the allocation is marked, so it
        can no longer be given back without confirmed absence. */
    method Start(bound: bool, seen: bool, ready: bool) returns (outcome: Outcome, sent: bool)
      requires Valid()
      modifies this, allocation`creationStarted
      ensures Valid()
      ensures sent ==> allocation.creationStarted && attempted && !allocation.released
      ensures sent <==> !old(destroyed) && !old(owned) && bound && !allocation.released
      ensures !sent ==> allocation.creationStarted == old(allocation.creationStarted) && attempted == old(attempted) && owned == old(owned)
      ensures destroyed == old(destroyed)
      ensures outcome == Done ==> owned && prepared
    {
      sent := false;
      if destroyed {
        return Refused, false;
      }
      if owned {
        outcome := if prepared then Done else Refused;
        return;
      }
      if !bound {
        return Refused, false;
      }
      var marked := allocation.MarkCreationStarted();
      if !marked {
        return Refused, false;
      }
      attempted, sent := true, true;
      if !seen {
        return Unsettled, true;
      }
      owned := true;
      if !ready {
        return Refused, true;
      }
      prepared := true;
      outcome := Done;
    }

    /** Tear the trial down. `seen` says whether a later look shows the instance of an unanswered create
        request, `absent` whether cleanup is observed with the instance gone, its record terminal and no
        resources held. The allocation comes back exactly when nothing was ever attempted or absence is
        confirmed; otherwise it stays held. */
    method Stop(delete: bool, seen: bool, absent: bool) returns (outcome: Outcome)
      requires Valid()
      modifies this, allocation`released, gate`waiting, gate`active
      ensures Valid()
      ensures allocation.released && !old(allocation.released) ==>
                (!old(attempted) && !allocation.creationStarted) || (absent && owned)
      ensures !allocation.released ==> gate.View() == old(gate.View())
      ensures outcome == Done && delete ==> destroyed && allocation.released
      ensures delete && !old(destroyed) && !old(allocation.released) && (exists k :: Holds(old(gate.View()), allocation.identity, allocation.serial, k)) ==>
                (outcome == Done <==> if old(attempted) then absent && (old(owned) || seen) else !allocation.creationStarted)
      ensures attempted == old(attempted)
    {
      if destroyed || !delete {
        return Done;
      }
      if !owned {
        if !attempted {
          var ok := gate.ReleaseAllocation(allocation, NeverCreated);
          if !ok {
            return Refused;
          }
          destroyed := true;
          return Done;
        }
        if !seen {
          return Unsettled;
        }
        owned := true;
      }
      if !absent {
        return Unsettled;
      }
      var ok := gate.ReleaseAllocation(allocation, Absent);
      if !ok {
        return Refused;
      }
      destroyed := true;
      outcome := Done;
    }
  }
}
