/** The job store's side of a yield: the lease fence, and the exact-replay acknowledgement that lets a
    worker repeat one immutable request under an uncertain answer. */
module YieldStore {

  /** One yield of the job: the owner's token, its time stamp, and when and why the job is to go on. */
  datatype Request = Request(owner: nat, yieldedAt: int, runAt: int, reason: string)

  datatype Row = Queued | Held(owner: nat, expires: int) | Terminal

  /** One job. Owner tokens are minted fresh for every claim; `events` are the recorded yields. */
  datatype Store = Store(row: Row, minted: nat, events: seq<Request>)

  /** The one recorded yield with this time stamp, as a set: two of them are a store error. */
  function Recorded(events: seq<Request>, yieldedAt: int): set<Request>
  {
    set r | r in events && r.yieldedAt == yieldedAt
  }

  function Deliver(s: Store, r: Request): (Store, bool)
  {
    match s.row
    case Queued => (s, Recorded(s.events, r.yieldedAt) == {r})
    case Held(owner, expires) =>
      if owner == r.owner && expires > r.yieldedAt then (Store(Queued, s.minted, s.events + [r]), true) else (s, false)
    case Terminal => (s, false)
  }

  datatype Step =
    | Claim(expires: int)
    | Renew(expires: int)
    | Release(row: Row)          // complete, fail, cancel or reclaim
    | Yield(request: Request)    // one copy of a yield request arrives

  predicate Enabled(s: Store, step: Step)
  {
    match step
    case Claim(_) => !s.row.Held?
    case Renew(_) => s.row.Held?
    case Release(row) => !row.Held?
    case Yield(_) => true
  }

  function Apply(s: Store, step: Step): Store
    requires Enabled(s, step)
  {
    match step
    case Claim(expires) => s.(row := Held(s.minted, expires), minted := s.minted + 1)
    case Renew(expires) => s.(row := Held(s.row.owner, expires))
    case Release(row) => s.(row := row)
    case Yield(r) => Deliver(s, r).0
  }

  ghost predicate Runs(s: Store, steps: seq<Step>)
    decreases |steps|
  {
    steps == [] || (Enabled(s, steps[0]) && Runs(Apply(s, steps[0]), steps[1..]))
  }

  ghost function After(s: Store, steps: seq<Step>): Store
    requires Runs(s, steps)
    decreases |steps|
  {
    if steps == [] then s else After(Apply(s, steps[0]), steps[1..])
  }

  ghost predicate Inv(s: Store)
  {
    && (s.row.Held? ==> s.row.owner < s.minted)
    && (forall i :: 0 <= i < |s.events| ==> s.events[i].owner < s.minted)
    && (forall i, j :: 0 <= i < j < |s.events| ==> s.events[i].owner != s.events[j].owner)
    && (s.row.Held? ==> forall i :: 0 <= i < |s.events| ==> s.events[i].owner != s.row.owner)
  }

  lemma {:induction false} Reachable(s: Store, steps: seq<Step>)
    requires Inv(s) && Runs(s, steps)
    ensures Inv(After(s, steps))
    ensures s.events <= After(s, steps).events
    decreases |steps|
  {
    if steps != [] {
      Reachable(Apply(s, steps[0]), steps[1..]);
    }
  }

  /** However many copies of a yield arrive, in whatever order among claims, renewals and releases: it is
      recorded at most once, a positive answer means it is recorded, and a copy that arrives after the
      record changes nothing, so it cannot disturb the next owner. */
  lemma YieldsOnce(s0: Store, steps: seq<Step>, r: Request)
    requires s0 == Store(Queued, 0, []) && Runs(s0, steps)
    ensures var s := After(s0, steps);
            && multiset(s.events)[r] <= 1
            && (Deliver(s, r).1 ==> multiset(Deliver(s, r).0.events)[r] == 1)
            && (r in s.events ==> Deliver(s, r).0 == s)
            && (s.row.Held? && s.row.owner == r.owner && s.row.expires > r.yieldedAt ==>
                  Deliver(s, r).1 && Deliver(s, r).0.row == Queued)
  {
    Reachable(s0, steps);
    var s := After(s0, steps);
    CountDistinct(s.events, r);
    var s' := Apply(s, Yield(r));
    CountDistinct(s'.events, r);
    if s.row == Queued && Deliver(s, r).1 {
      assert r in Recorded(s.events, r.yieldedAt);
    }
  }

  lemma {:induction false} CountDistinct(events: seq<Request>, r: Request)
    requires forall i, j :: 0 <= i < j < |events| ==> events[i].owner != events[j].owner
    ensures multiset(events)[r] == if r in events then 1 else 0
    decreases |events|
  {
    if events != [] {
      var n := |events| - 1;
      assert events == events[..n] + [events[n]];
      CountDistinct(events[..n], r);
    }
  }

  lemma {:induction false} Divide(s: Store, steps: seq<Step>, k: nat)
    requires Runs(s, steps) && k <= |steps|
    ensures Runs(s, steps[..k]) && Runs(After(s, steps[..k]), steps[k..])
    ensures After(s, steps) == After(After(s, steps[..k]), steps[k..])
    decreases k
  {
    if k == 0 {
      assert steps[..0] == [] && steps[0..] == steps;
    } else {
      assert steps[..k][1..] == steps[1..][..k - 1] && steps[k..] == steps[1..][k - 1..];
      Divide(Apply(s, steps[0]), steps[1..], k - 1);
    }
  }

  const Start := Store(Queued, 0, [])

  /** A copy that arrives as step `k` and is answered positively is recorded exactly once at the end. */
  lemma AnsweredIsRecorded(steps: seq<Step>, k: nat, r: Request)
    requires Runs(Start, steps) && k < |steps| && steps[k] == Yield(r)
    requires Runs(Start, steps[..k]) && Deliver(After(Start, steps[..k]), r).1
    ensures multiset(After(Start, steps).events)[r] == 1
  {
    Divide(Start, steps, k);
    var s := After(Start, steps[..k]);
    Reachable(Start, steps[..k]);
    YieldsOnce(Start, steps[..k], r);
    var s' := Apply(s, Yield(r));
    assert steps[k..][0] == steps[k] && Runs(s', steps[k..][1..]);
    Reachable(s, steps[k..]);
    Reachable(s', steps[k..][1..]);
    assert r in s'.events;
    Reachable(Start, steps);
    CountDistinct(After(Start, steps).events, r);
  }
}
