/** Any number of workers against one job row.

    The row is the job store's own record: renewals are fenced by owner token and expiry and set the
    expiry from the store's clock, claims mint a fresh token, reclaim looks at a clock reading sent by
    some worker, and complete, yield and fail need the current token. Requests and answers may be
    delayed, repeated or lost. Every worker has its own monotonic clock. */
module LeaseProtocol {
  import opened Common
  import opened LeaseGuard
  import opened LeaseWorker

  /** `rate` bounds how much faster the store's clock may run than a worker's monotonic clock, `skew`
      how far a reclaiming worker's wall clock may be ahead of the store's. */
  datatype Config = Config(lease: real, rate: real, skew: real)

  /** The timing assumption: over one window the store's clock plus the skew stays within the lease. */
  ghost predicate Timely(c: Config)
  {
    0.0 < c.lease && 0.0 < c.rate && 0.0 <= c.skew && c.rate * Window(c.lease) + c.skew <= c.lease
  }

  // ----- the system -----

  datatype Row = Queued | Held(owner: nat, expires: real) | Succeeded | Failed | Cancelled(last: Option<nat>)

  /** A confirmed renewal: request start on the worker's clock, processing time on the store's. */
  datatype Proof = Proof(started: real, renewedAt: real)

  /** `sent` and `renewed` are the network: requests ever sent, and the time of the renewal the store
      made for one. `proof` remembers the renewal behind a worker's present deadline. */
  datatype System = System(
    now: real, row: Row, minted: nat, workers: map<nat, Worker>,
    sent: set<(nat, nat)>, renewed: map<(nat, nat), real>, proof: map<nat, Proof>)

  ghost predicate Init(s: System)
  {
    s.row == Queued && s.minted == 0 && s.workers == map[] && s.sent == {} && s.renewed == map[] && s.proof == map[]
  }

  datatype Step =
    | Tick(ds: real, dl: map<nat, real>)
    | Claim(expires: real)
    | Open(owner: nat, clock: real)
    | Abandon(owner: nat)
    | Act(owner: nat, move: Move)
    | Deliver(owner: nat, attempt: nat)
    | Mutate(owner: nat, row: Row)
    | Reclaim(reported: real, row: Row)
    | Cancel

  predicate Enabled(c: Config, s: System, step: Step)
  {
    match step
    case Tick(ds, dl) =>
      0.0 <= ds && dl.Keys == s.workers.Keys && forall o | o in dl :: 0.0 <= dl[o] && ds <= c.rate * dl[o]
    case Claim(_) => s.row == Queued || s.row == Failed
    case Open(o, clock) => o < s.minted && o !in s.workers && 0.0 <= clock
    case Abandon(o) => o < s.minted && o !in s.workers
    case Act(o, m) =>
      o in s.workers && CanMove(s.workers[o], m) && (m == Ack ==> (o, s.workers[o].shared.attempt) in s.renewed)
    case Deliver(o, k) => (o, k) in s.sent
    case Mutate(o, r) =>
      && o in s.workers && Released(s.workers[o]) && s.row.Held? && s.row.owner == o
      && (r == Queued || r == Succeeded || r == Failed)
    case Reclaim(reported, r) =>
      s.row.Held? && s.row.expires <= reported <= s.now + c.skew && (r == Queued || r == Failed)
    case Cancel => s.row == Queued || s.row.Held?
  }

  function Acts(c: Config, s: System, o: nat, m: Move): System
    requires Enabled(c, s, Act(o, m))
  {
    var w := s.workers[o];
    var w' := Moved(c.lease, w, m);
    s.(workers := s.workers[o := w'],
       sent := if m == Enter && w'.renewer.InFlight? then s.sent + {(o, w'.shared.attempt)} else s.sent,
       proof := if m == Ack && w'.renewer == Settling(true)
                then s.proof[o := Proof(w.renewer.started, s.renewed[(o, w.shared.attempt)])] else s.proof)
  }

  function Apply(c: Config, s: System, step: Step): System
    requires Enabled(c, s, step)
  {
    match step
    case Tick(ds, dl) =>
      s.(now := s.now + ds,
         workers := map o | o in s.workers :: s.workers[o].(clock := s.workers[o].clock + dl[o]))
    case Claim(expires) => s.(row := Held(s.minted, expires), minted := s.minted + 1)
    case Open(o, clock) =>
      s.(workers := s.workers[o := Opened(clock)], sent := s.sent + {(o, Opened(clock).shared.attempt)})
    case Abandon(o) => s.(workers := s.workers[o := Worker(0.0, Fresh, Exited, Left)])
    case Act(o, m) => Acts(c, s, o, m)
    case Deliver(o, k) =>
      if s.row.Held? && s.row.owner == o && s.row.expires > s.now then
        s.(row := Held(o, s.now + c.lease), renewed := s.renewed[(o, k) := s.now])
      else s
    case Mutate(_, r) => s.(row := r)
    case Reclaim(_, r) => s.(row := r)
    case Cancel => s.(row := Cancelled(if s.row.Held? then Some(s.row.owner) else None))
  }

  ghost predicate Runs(c: Config, s: System, steps: seq<Step>)
    decreases |steps|
  {
    steps == [] || (Enabled(c, s, steps[0]) && Runs(c, Apply(c, s, steps[0]), steps[1..]))
  }

  ghost function After(c: Config, s: System, steps: seq<Step>): System
    requires Runs(c, s, steps)
    decreases |steps|
  {
    if steps == [] then s else After(c, Apply(c, s, steps[0]), steps[1..])
  }

  // ----- the invariant -----

  /** The store still stands behind a renewal made at `renewedAt` for owner `o`. */
  ghost predicate Backed(c: Config, row: Row, now: real, released: bool, o: nat, renewedAt: real)
  {
    || (row.Held? && row.owner == o && row.expires >= renewedAt + c.lease)
    || row == Cancelled(Some(o))
    || now + c.skew >= renewedAt + c.lease
    || released
  }

  /** The two clocks since the request start and the renewal are within the drift bound. */
  ghost predicate Spans(rate: real, now: real, clock: real, p: Proof)
  {
    p.started <= clock && p.renewedAt <= now && now - p.renewedAt <= rate * (clock - p.started)
  }

  ghost predicate Stands(c: Config, s: System, o: nat, p: Proof)
    requires o in s.workers
  {
    && Spans(c.rate, s.now, s.workers[o].clock, p)
    && Backed(c, s.row, s.now, Released(s.workers[o]), o, p.renewedAt)
  }

  ghost predicate ProofOk(c: Config, s: System, o: nat)
    requires o in s.workers
  {
    var w := s.workers[o];
    if o in s.proof then
      && w.shared.deadline == s.proof[o].started + Window(c.lease)
      && Stands(c, s, o, s.proof[o])
      && (w.renewer.Sampled? || w.renewer.InFlight? ==> s.proof[o].started <= w.renewer.started)
      && (w.caller == Entering ==> !w.renewer.InFlight?)
    else
      w.shared.deadline == 0.0 && w.shared.status != Healthy && (w.caller == Entering || w.caller == Left)
  }

  ghost predicate FlightOk(c: Config, s: System, o: nat)
    requires o in s.workers
  {
    var w := s.workers[o];
    w.renewer.InFlight? && (o, w.shared.attempt) in s.renewed ==>
      Stands(c, s, o, Proof(w.renewer.started, s.renewed[(o, w.shared.attempt)]))
  }

  ghost predicate Local(c: Config, s: System, o: nat)
    requires o in s.workers
  {
    WorkerOk(s.workers[o]) && ProofOk(c, s, o) && FlightOk(c, s, o)
  }

  ghost predicate Bounded(s: System)
  {
    && (forall o | o in s.workers :: o < s.minted)
    && (s.row.Held? ==> s.row.owner < s.minted)
    && s.proof.Keys <= s.workers.Keys
    && (forall m | m in s.sent :: m.0 in s.workers && m.1 <= s.workers[m.0].shared.attempt)
    && s.renewed.Keys <= s.sent
  }

  ghost predicate Inv(c: Config, s: System)
  {
    Bounded(s) && forall o | o in s.workers :: Local(c, s, o)
  }

  lemma BoundedKept(c: Config, s: System, step: Step)
    requires Inv(c, s) && Enabled(c, s, step)
    ensures Bounded(Apply(c, s, step))
  {
    if step.Act? { MovedFacts(c.lease, s.workers[step.owner], step.move); }
  }

  lemma StandsTick(c: Config, s: System, step: Step, o: nat, p: Proof)
    requires Timely(c) && step.Tick? && Enabled(c, s, step) && o in s.workers && Stands(c, s, o, p)
    ensures o in Apply(c, s, step).workers && Stands(c, Apply(c, s, step), o, p)
  {
    SpansKept(c.rate, s.now, s.workers[o].clock, p, step.ds, step.dl[o]);
  }

  lemma StandsAct(c: Config, s: System, step: Step, o: nat, p: Proof)
    requires step.Act? && Enabled(c, s, step) && o in s.workers && Stands(c, s, o, p) && WorkerOk(s.workers[step.owner])
    ensures o in Apply(c, s, step).workers && Stands(c, Apply(c, s, step), o, p)
  {
    MovedFacts(c.lease, s.workers[step.owner], step.move);
  }

  /** Whatever the store and the others do, a renewal stays backed. */
  lemma StandsKept(c: Config, s: System, step: Step, o: nat, p: Proof)
    requires Timely(c) && Enabled(c, s, step) && o in s.workers && Stands(c, s, o, p)
    requires step.Act? ==> WorkerOk(s.workers[step.owner])
    ensures o in Apply(c, s, step).workers && Stands(c, Apply(c, s, step), o, p)
  {
    if step.Act? {
      StandsAct(c, s, step, o, p);
    } else if step.Tick? {
      StandsTick(c, s, step, o, p);
    }
  }

  lemma SpansKept(rate: real, now: real, clock: real, p: Proof, ds: real, dl: real)
    requires Spans(rate, now, clock, p) && 0.0 <= ds <= rate * dl && 0.0 <= dl
    ensures Spans(rate, now + ds, clock + dl, p)
  {
    assert rate * (clock + dl - p.started) == rate * (clock - p.started) + rate * dl;
  }

  /** What a worker's own move leaves as the proof behind its deadline. */
  lemma ActKeepsProof(c: Config, s: System, o: nat, m: Move)
    requires Timely(c) && Bounded(s) && Enabled(c, s, Act(o, m)) && Local(c, s, o)
    ensures ProofOk(c, Acts(c, s, o, m), o)
  {
    var w := s.workers[o];
    MovedFacts(c.lease, w, m);
    if m == Ack {
      StandsKept(c, s, Act(o, m), o, Proof(w.renewer.started, s.renewed[(o, w.shared.attempt)]));
    }
    if o in s.proof {
      StandsKept(c, s, Act(o, m), o, s.proof[o]);
    }
  }

  lemma ActKeepsFlight(c: Config, s: System, o: nat, m: Move)
    requires Timely(c) && Bounded(s) && Enabled(c, s, Act(o, m)) && Local(c, s, o)
    ensures FlightOk(c, Acts(c, s, o, m), o)
  {
    var w := s.workers[o];
    MovedFacts(c.lease, w, m);
    if w.renewer.InFlight? && (o, w.shared.attempt) in s.renewed {
      StandsKept(c, s, Act(o, m), o, Proof(w.renewer.started, s.renewed[(o, w.shared.attempt)]));
    }
  }

  lemma DeliverKeepsFlight(c: Config, s: System, o: nat, k: nat)
    requires Timely(c) && (o, k) in s.sent && o in s.workers && Local(c, s, o)
    ensures FlightOk(c, Apply(c, s, Deliver(o, k)), o)
  {
    var w := s.workers[o];
    if w.renewer.InFlight? {
      assert 0.0 <= c.rate * (w.clock - w.renewer.started);
      if (o, w.shared.attempt) in s.renewed {
        StandsKept(c, s, Deliver(o, k), o, Proof(w.renewer.started, s.renewed[(o, w.shared.attempt)]));
      }
    }
  }

  lemma OthersKept(c: Config, s: System, step: Step, o: nat)
    requires Timely(c) && Enabled(c, s, step) && o in s.workers && Local(c, s, o)
    requires step.Act? ==> step.owner != o && WorkerOk(s.workers[step.owner])
    requires step.Open? || step.Abandon? ==> step.owner != o
    ensures ProofOk(c, Apply(c, s, step), o)
    ensures !(step.Deliver? && step.owner == o) ==> FlightOk(c, Apply(c, s, step), o)
    ensures WorkerOk(Apply(c, s, step).workers[o])
  {
    var w := s.workers[o];
    if o in s.proof {
      StandsKept(c, s, step, o, s.proof[o]);
    }
    if w.renewer.InFlight? && (o, w.shared.attempt) in s.renewed {
      StandsKept(c, s, step, o, Proof(w.renewer.started, s.renewed[(o, w.shared.attempt)]));
    }
  }

  lemma InvKept(c: Config, s: System, step: Step)
    requires Timely(c) && Inv(c, s) && Enabled(c, s, step)
    ensures Inv(c, Apply(c, s, step))
  {
    var s' := Apply(c, s, step);
    BoundedKept(c, s, step);
    forall o | o in s'.workers
      ensures Local(c, s', o)
    {
      if step.Act? && step.owner == o {
        MoveKeepsWorker(c.lease, s.workers[o], step.move);
        ActKeepsProof(c, s, o, step.move);
        ActKeepsFlight(c, s, o, step.move);
      } else if o in s.workers {
        OthersKept(c, s, step, o);
        if step.Deliver? && step.owner == o { DeliverKeepsFlight(c, s, o, step.attempt); }
      }
    }
  }

  lemma {:induction false} ReachableInv(c: Config, s: System, steps: seq<Step>)
    requires Timely(c) && Inv(c, s) && Runs(c, s, steps)
    ensures Inv(c, After(c, s, steps))
    decreases |steps|
  {
    if steps != [] {
      InvKept(c, s, steps[0]);
      ReachableInv(c, Apply(c, s, steps[0]), steps[1..]);
    }
  }

  // ----- the theorems -----

  /** A health check of owner `o` would let its caller through right now. */
  ghost predicate WouldClear(s: System, o: nat)
  {
    o in s.workers && s.workers[o].caller != Entering && Check(s.workers[o].shared, s.workers[o].clock).1 == Cleared
  }

  lemma ScaledBelow(rate: real, a: real, b: real)
    requires 0.0 < rate && a < b
    ensures rate * a < rate * b
  {
  }

  /** The row is `o`'s, with more than the skew left, or was cancelled while it was. */
  ghost predicate Owns(c: Config, s: System, o: nat)
  {
    s.row == Cancelled(Some(o)) || (s.row.Held? && s.row.owner == o && s.now + c.skew < s.row.expires)
  }

  lemma ClearedOwns(c: Config, s: System, o: nat)
    requires Timely(c) && o in s.workers && Local(c, s, o) && WouldClear(s, o)
    ensures Owns(c, s, o)
  {
    var w := s.workers[o];
    var p := s.proof[o];
    ScaledBelow(c.rate, w.clock - p.started, Window(c.lease));
    assert s.now - p.renewedAt < c.lease - c.skew;
  }

  /** In every run, when a health check lets an owner through, the store names that owner with an
      expiry still more than the skew away, unless the job was cancelled under that very owner. */
  lemma ClearedMeansOwner(c: Config, s0: System, steps: seq<Step>, o: nat)
    requires Timely(c) && Init(s0) && Runs(c, s0, steps) && WouldClear(After(c, s0, steps), o)
    ensures Owns(c, After(c, s0, steps), o)
  {
    ReachableInv(c, s0, steps);
    ClearedOwns(c, After(c, s0, steps), o);
  }

  /** Two owners of one job are never let through at the same instant. */
  lemma MutualExclusion(c: Config, s0: System, steps: seq<Step>, o1: nat, o2: nat)
    requires Timely(c) && Init(s0) && Runs(c, s0, steps)
    requires WouldClear(After(c, s0, steps), o1) && WouldClear(After(c, s0, steps), o2)
    ensures o1 == o2
  {
    ClearedMeansOwner(c, s0, steps, o1);
    ClearedMeansOwner(c, s0, steps, o2);
  }

  /** What one step of anybody can do to owner `o`: never revive it, never move its deadline back,
      never undo its handoff and never begin a heartbeat after it. */
  lemma OwnerStep(c: Config, s: System, step: Step, o: nat)
    requires Timely(c) && Enabled(c, s, step) && o in s.workers && Local(c, s, o)
    requires step.Open? || step.Abandon? ==> step.owner != o
    ensures o in Apply(c, s, step).workers
    ensures var w, w' := s.workers[o], Apply(c, s, step).workers[o];
            && w.shared.deadline <= w'.shared.deadline
            && (w.shared.status == Lost ==> w'.shared.status == Lost)
            && (Released(w) ==> Released(w') && w'.shared.attempt == w.shared.attempt)
  {
    if step.Act? && step.owner == o { MovedFacts(c.lease, s.workers[o], step.move); }
  }

  /** Over every continuation of every reachable state: a lost owner stays lost and is never let
      through again, and no owner's deadline ever moves back. */
  lemma {:induction false} LostForever(c: Config, s: System, steps: seq<Step>, o: nat)
    requires Timely(c) && Inv(c, s) && Runs(c, s, steps) && o in s.workers
    ensures o in After(c, s, steps).workers
    ensures s.workers[o].shared.deadline <= After(c, s, steps).workers[o].shared.deadline
    ensures s.workers[o].shared.status == Lost ==>
              After(c, s, steps).workers[o].shared.status == Lost && !WouldClear(After(c, s, steps), o)
    decreases |steps|
  {
    if steps != [] {
      OwnerStep(c, s, steps[0], o);
      InvKept(c, s, steps[0]);
      LostForever(c, Apply(c, s, steps[0]), steps[1..], o);
    }
  }

  /** Past handoff, over every continuation: no heartbeat is begun, no check and no second handoff
      succeeds. */
  lemma {:induction false} HandoffIsFinal(c: Config, s: System, steps: seq<Step>, o: nat)
    requires Timely(c) && Inv(c, s) && Runs(c, s, steps) && o in s.workers && Released(s.workers[o])
    ensures o in After(c, s, steps).workers
    ensures var w := After(c, s, steps).workers[o];
            && Released(w)
            && w.renewer.Exited?
            && w.shared.attempt == s.workers[o].shared.attempt
            && Check(w.shared, w.clock).1 == Raised
            && Gate(w.shared, w.clock).1 == Raised
    decreases |steps|
  {
    assert Local(c, s, o);
    if steps != [] {
      OwnerStep(c, s, steps[0], o);
      InvKept(c, s, steps[0]);
      HandoffIsFinal(c, Apply(c, s, steps[0]), steps[1..], o);
    }
  }

  /** Seen from one owner, a run of the system is a run of its worker: each step leaves the worker alone, lets
      time pass for it, or is one of its moves. So what holds of every run of a worker holds here. */
  lemma StepIsTurn(c: Config, s: System, step: Step, o: nat)
    requires Enabled(c, s, step) && o in s.workers && (step.Open? || step.Abandon? ==> step.owner != o)
    ensures var w, w' := s.workers[o], Apply(c, s, step).workers[o];
            w' == w || exists t :: CanTurn(w, t) && Turned(c.lease, w, t) == w'
  {
    var w := s.workers[o];
    if step.Tick? {
      assert CanTurn(w, Pass(step.dl[o])) && Turned(c.lease, w, Pass(step.dl[o])) == Apply(c, s, step).workers[o];
    } else if step.Act? && step.owner == o {
      assert CanTurn(w, Make(step.move)) && Turned(c.lease, w, Make(step.move)) == Apply(c, s, step).workers[o];
    }
  }

  // ----- the timing assumption is exactly what is needed -----

  lemma {:induction false} Extend(c: Config, s: System, steps: seq<Step>, step: Step)
    requires Runs(c, s, steps) && Enabled(c, After(c, s, steps), step)
    ensures Runs(c, s, steps + [step]) && After(c, s, steps + [step]) == Apply(c, After(c, s, steps), step)
    decreases |steps|
  {
    if steps == [] {
      assert [step][1..] == [];
    } else {
      Extend(c, Apply(c, s, steps[0]), steps[1..], step);
      assert (steps + [step])[1..] == steps[1..] + [step];
    }
  }

  /** An unowned job can always be claimed by a new worker whose first heartbeat the store renews. */
  lemma ClaimAndOpen(c: Config, s0: System, steps: seq<Step>) returns (steps': seq<Step>)
    requires 0.0 < c.lease && Runs(c, s0, steps)
    requires var s := After(c, s0, steps); s.row == Queued && s.minted !in s.workers
    ensures Runs(c, s0, steps')
    ensures var s, s' := After(c, s0, steps), After(c, s0, steps');
            && s'.now == s.now && s'.minted == s.minted + 1
            && s'.row == Held(s.minted, s.now + c.lease)
            && s'.workers == s.workers[s.minted := Opened(0.0)]
            && (s.minted, 1) in s'.renewed
  {
    var s := After(c, s0, steps);
    var o := s.minted;
    var claim, open, deliver := Claim(s.now + c.lease), Open(o, 0.0), Deliver(o, 1);
    Extend(c, s0, steps, claim); steps' := steps + [claim];
    Extend(c, s0, steps', open); steps' := steps' + [open];
    Extend(c, s0, steps', deliver); steps' := steps' + [deliver];
  }

  /** And that worker gets through it. */
  lemma ClaimAndConfirm(c: Config, s0: System, steps: seq<Step>) returns (steps': seq<Step>)
    requires 0.0 < c.lease && Runs(c, s0, steps)
    requires var s := After(c, s0, steps); s.row == Queued && s.minted !in s.workers
    ensures Runs(c, s0, steps')
    ensures var s, s' := After(c, s0, steps), After(c, s0, steps');
            && s'.now == s.now && s'.minted == s.minted + 1
            && s'.row == Held(s.minted, s.now + c.lease)
            && s'.workers == s.workers[s.minted := Worker(0.0, Shared(Window(c.lease), Healthy, 1, false, false), Idle, Executing)]
  {
    var o := After(c, s0, steps).minted;
    steps' := ClaimAndOpen(c, s0, steps);
    Extend(c, s0, steps', Act(o, Ack)); steps' := steps' + [Act(o, Ack)];
    Extend(c, s0, steps', Act(o, Settle)); steps' := steps' + [Act(o, Settle)];
  }

  /** When the store's clock can outrun the lease within one window, two owners are let through at the
      same instant: so `Timely` is exactly the condition for mutual exclusion. */
  lemma TimelyIsNeeded(c: Config) returns (s0: System, steps: seq<Step>)
    requires 0.0 < c.lease && 0.0 < c.rate && 0.0 <= c.skew && !Timely(c)
    ensures Init(s0) && Runs(c, s0, steps)
    ensures WouldClear(After(c, s0, steps), 0) && WouldClear(After(c, s0, steps), 1)
  {
    s0 := System(0.0, Queued, 0, map[], {}, map[], map[]);
    steps := ClaimAndConfirm(c, s0, []);
    var s := After(c, s0, steps);
    var dl := if c.lease <= c.skew then 0.0 else (c.lease - c.skew) / c.rate;
    var ds := c.rate * dl;
    assert ds == if c.lease <= c.skew then 0.0 else c.lease - c.skew;
    assert c.rate * dl < c.rate * Window(c.lease);
    assert dl < Window(c.lease);
    var tick := Tick(ds, map[0 := dl]);
    Extend(c, s0, steps, tick); steps := steps + [tick];
    var reclaim := Reclaim(c.lease, Queued);
    Extend(c, s0, steps, reclaim); steps := steps + [reclaim];
    steps := ClaimAndConfirm(c, s0, steps);
  }
}
