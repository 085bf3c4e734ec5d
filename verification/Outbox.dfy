/** Fan-out of terminal job events: each control round wakes one page of waiters per visible event, keeps a
    cursor for an unfinished one, and acknowledges an event only when a page says there is nothing after it.

    Waiters are ordered; which of them exist may change between pages. A round may fail at any request, before
    or after the server acted on it, and the dispatcher may restart with no cursors. */
module Outbox {
  import opened Common

  const PAGE_LIMIT := 256

  datatype Key = Key(job: nat, generation: nat)

  predicate Past(x: int, after: Option<int>)
  {
    after.Some? ==> x > after.value
  }

  /** `page` is the first waiters past the cursor, in order, at most a page of them. */
  ghost predicate IsPage(page: seq<int>, present: set<int>, after: Option<int>)
  {
    && |page| <= PAGE_LIMIT
    && (forall i, j :: 0 <= i < j < |page| ==> page[i] < page[j])
    && (forall i :: 0 <= i < |page| ==> page[i] in present && Past(page[i], after))
    && (forall x | x in present && Past(x, after) && x !in page :: |page| == PAGE_LIMIT && page[PAGE_LIMIT - 1] < x)
  }

  /** The server checks a prefix of the page, at least one waiter if there is any. */
  predicate Checked(page: seq<int>, checked: nat)
  {
    checked <= |page| && (page != [] ==> checked > 0)
  }

  function PageNext(page: seq<int>, checked: nat): Option<int>
    requires Checked(page, checked)
  {
    if checked > 0 && (checked < |page| || |page| == PAGE_LIMIT) then Some(page[checked - 1]) else None
  }

  /** The dispatcher's own test of a page; None when it refuses it. */
  function WaiterPageNext(checked: int, next: Option<int>, after: Option<int>): Option<Option<int>>
  {
    if !(0 <= checked <= PAGE_LIMIT) || (next.Some? && (next == after || checked == 0)) then None else Some(next)
  }

  /** What becomes of the requests for one event. */
  datatype Fate = WakeLost | WakeReplyLost | Woken(publish: Publish)

  datatype Publish = PublishLost | PublishReplyLost | PublishOk

  datatype Reply = Reply(present: set<int>, page: seq<int>, checked: nat, fate: Fate)

  /** The dispatcher's cursors; on the server, the waiters woken for an event and the events acknowledged. */
  datatype State = State(cursors: map<Key, int>, woken: map<Key, set<int>>, published: set<Key>)

  function After(s: State, key: Key): Option<int>
  {
    if key in s.cursors then Some(s.cursors[key]) else None
  }

  function WokenFor(s: State, key: Key): set<int>
  {
    if key in s.woken then s.woken[key] else {}
  }

  ghost predicate Honest(s: State, key: Key, r: Reply, steady: Key -> set<int>)
  {
    steady(key) <= r.present && IsPage(r.page, r.present, After(s, key)) && Checked(r.page, r.checked)
  }

  function Elements(page: seq<int>): set<int>
  {
    set x | x in page
  }

  function Wake(s: State, key: Key, r: Reply): State
    requires r.checked <= |r.page|
  {
    s.(woken := s.woken[key := WokenFor(s, key) + Elements(r.page[..r.checked])])
  }

  /** One event of a round; the flag says whether the round goes on. */
  function Process(s: State, key: Key, r: Reply): (State, bool)
    requires Checked(r.page, r.checked)
  {
    match r.fate
    case WakeLost => (s, false)
    case WakeReplyLost => (Wake(s, key, r), false)
    case Woken(publish) =>
      var s1 := Wake(s, key, r);
      match WaiterPageNext(r.checked, PageNext(r.page, r.checked), After(s, key))
      case None => (s1, false)
      case Some(Some(cursor)) => (s1.(cursors := s1.cursors[key := cursor]), true)
      case Some(None) =>
        match publish
        case PublishLost => (s1, false)
        case PublishReplyLost => (s1.(published := s1.published + {key}), false)
        case PublishOk => (s1.(published := s1.published + {key}, cursors := s1.cursors - {key}), true)
  }

  ghost predicate CanRound(s: State, events: seq<Key>, replies: seq<Reply>, steady: Key -> set<int>)
    decreases |events|
  {
    && |events| == |replies|
    && (events != [] ==>
          && Honest(s, events[0], replies[0], steady)
          && (Process(s, events[0], replies[0]).1 ==> CanRound(Process(s, events[0], replies[0]).0, events[1..], replies[1..], steady)))
  }

  predicate Usable(replies: seq<Reply>)
  {
    forall i :: 0 <= i < |replies| ==> Checked(replies[i].page, replies[i].checked)
  }

  function Events(s: State, events: seq<Key>, replies: seq<Reply>): (State, bool)
    requires |events| == |replies| && Usable(replies)
    decreases |events|
  {
    if events == [] then (s, true)
    else
      var (s1, ok) := Process(s, events[0], replies[0]);
      if ok then Events(s1, events[1..], replies[1..]) else (s1, false)
  }

  /** A finished round forgets the cursors of events that are no longer visible. */
  function Evict(cursors: map<Key, int>, visible: set<Key>): map<Key, int>
  {
    map key | key in cursors && key in visible :: cursors[key]
  }

  function Round(s: State, events: seq<Key>, replies: seq<Reply>): (State, bool)
    requires |events| == |replies| && Usable(replies)
  {
    var (s1, ok) := Events(s, events, replies);
    if ok then (s1.(cursors := Evict(s1.cursors, set key | key in events)), true) else (s1, false)
  }

  // ----- the dispatcher object -----

  class TerminalDispatcher {
    var cursors: map<Key, int>

    constructor ()
      ensures cursors == map[]
    {
      cursors := map[];
    }

    /** One round against a server that holds `woken` and `published`. */
    method Dispatch(events: seq<Key>, replies: seq<Reply>, woken: map<Key, set<int>>, published: set<Key>)
      returns (woken': map<Key, set<int>>, published': set<Key>, ok: bool)
      requires |events| == |replies| && Usable(replies)
      modifies this
      ensures (State(cursors, woken', published'), ok) == Round(State(old(cursors), woken, published), events, replies)
    {
      woken', published', ok := woken, published, true;
      ghost var start := State(old(cursors), woken, published);
      for i := 0 to |events|
        invariant Events(State(cursors, woken', published'), events[i..], replies[i..]) == Events(start, events, replies)
      {
        var key, r := events[i], replies[i];
        assert events[i..][0] == key && events[i..][1..] == events[i + 1..];
        assert replies[i..][0] == r && replies[i..][1..] == replies[i + 1..];
        woken', published', ok := DispatchEvent(key, r, woken', published');
        if !ok { return; }
      }
      var visible := set key | key in events;
      var rest := cursors.Keys;
      ghost var full := cursors;
      while rest != {}
        invariant rest <= full.Keys
        invariant forall key :: key in cursors <==> key in full && (key in rest || key in visible)
        invariant forall key | key in cursors :: cursors[key] == full[key]
        decreases |rest|
      {
        var key :| key in rest;
        if key !in visible { cursors := cursors - {key}; }
        rest := rest - {key};
      }
      assert cursors == Evict(full, visible);
    }

    method DispatchEvent(key: Key, r: Reply, woken: map<Key, set<int>>, published: set<Key>)
      returns (woken': map<Key, set<int>>, published': set<Key>, ok: bool)
      requires Checked(r.page, r.checked)
      modifies this
      ensures (State(cursors, woken', published'), ok) == Process(State(old(cursors), woken, published), key, r)
    {
      woken', published', ok := woken, published, false;
      if r.fate.WakeLost? { return; }
      var after := if key in cursors then Some(cursors[key]) else None;
      woken' := Wake(State(cursors, woken, published), key, r).woken;
      if r.fate.WakeReplyLost? { return; }
      var next := WaiterPageNext(r.checked, PageNext(r.page, r.checked), after);
      if next.None? { return; }
      if next.value.Some? {
        cursors := cursors[key := next.value.value];
        ok := true;
        return;
      }
      if r.fate.publish.PublishLost? { return; }
      published' := published' + {key};
      if r.fate.publish.PublishReplyLost? { return; }
      cursors := cursors - {key};
      ok := true;
    }
  }

  // ----- nothing is acknowledged before every steady waiter was woken -----

  /** The dispatcher never refuses an honest page. */
  lemma HonestPageAccepted(s: State, key: Key, r: Reply, steady: Key -> set<int>)
    requires Honest(s, key, r, steady)
    ensures WaiterPageNext(r.checked, PageNext(r.page, r.checked), After(s, key)) == Some(PageNext(r.page, r.checked))
  {
  }

  /** Waiters up to the cursor were woken; all of them once the event is acknowledged. */
  ghost predicate KeyOk(s: State, key: Key, steady: Key -> set<int>)
  {
    && (forall x | key in s.cursors && x in steady(key) && x <= s.cursors[key] :: x in WokenFor(s, key))
    && (key in s.published ==> steady(key) <= WokenFor(s, key))
  }

  ghost predicate Inv(s: State, steady: Key -> set<int>)
  {
    forall key :: KeyOk(s, key, steady)
  }

  /** A page with a next cursor covers everything up to it; a page without one covers everything. */
  lemma PageCovers(page: seq<int>, present: set<int>, after: Option<int>, checked: nat, x: int)
    requires IsPage(page, present, after) && Checked(page, checked) && x in present && Past(x, after)
    requires PageNext(page, checked).Some? ==> x <= PageNext(page, checked).value
    ensures x in page[..checked]
  {
    assert x in page;
    var i :| 0 <= i < |page| && page[i] == x;
    assert i < checked;
    assert page[..checked][i] == x;
  }

  lemma WakeCovers(s: State, key: Key, r: Reply, steady: Key -> set<int>)
    requires KeyOk(s, key, steady) && Honest(s, key, r, steady)
    ensures var next := PageNext(r.page, r.checked);
            forall x | x in steady(key) && (next.Some? ==> x <= next.value) :: x in WokenFor(Wake(s, key, r), key)
    ensures PageNext(r.page, r.checked).None? ==> steady(key) <= WokenFor(Wake(s, key, r), key)
  {
    var next := PageNext(r.page, r.checked);
    forall x | x in steady(key) && (next.Some? ==> x <= next.value) ensures x in WokenFor(Wake(s, key, r), key) {
      if Past(x, After(s, key)) {
        PageCovers(r.page, r.present, After(s, key), r.checked, x);
      }
    }
  }

  /** The same with the answer of the page, seen from the state the page leads to. */
  lemma OwnKeyKept(s: State, key: Key, r: Reply, steady: Key -> set<int>)
    requires KeyOk(s, key, steady) && Honest(s, key, r, steady)
    ensures KeyOk(Process(s, key, r).0, key, steady)
  {
    if !r.fate.WakeLost? {
      WakeCovers(s, key, r, steady);
      var w := Wake(s, key, r);
      assert WokenFor(s, key) <= WokenFor(w, key);
      assert WokenFor(Process(s, key, r).0, key) == WokenFor(w, key);
    }
  }

  lemma OtherKeysSame(s: State, key: Key, r: Reply, other: Key)
    requires Checked(r.page, r.checked) && other != key
    ensures var s' := Process(s, key, r).0;
            && After(s', other) == After(s, other) && WokenFor(s', other) == WokenFor(s, other)
            && (other in s'.published <==> other in s.published)
  {
  }

  lemma ProcessKeeps(s: State, key: Key, r: Reply, steady: Key -> set<int>)
    requires Inv(s, steady) && Honest(s, key, r, steady)
    ensures Inv(Process(s, key, r).0, steady)
    ensures s.published <= Process(s, key, r).0.published
  {
    var s' := Process(s, key, r).0;
    forall k ensures KeyOk(s', k, steady) {
      assert KeyOk(s, k, steady);
      if k == key { OwnKeyKept(s, key, r, steady); } else { OtherKeysSame(s, key, r, k); }
    }
  }

  lemma {:induction false} EventsKeep(s: State, events: seq<Key>, replies: seq<Reply>, steady: Key -> set<int>)
    requires Inv(s, steady) && Usable(replies) && CanRound(s, events, replies, steady)
    ensures Inv(Events(s, events, replies).0, steady)
    ensures s.published <= Events(s, events, replies).0.published
    decreases |events|
  {
    if events != [] {
      ProcessKeeps(s, events[0], replies[0], steady);
      var (s1, ok) := Process(s, events[0], replies[0]);
      if ok { EventsKeep(s1, events[1..], replies[1..], steady); }
    }
  }

  datatype Step = Control(events: seq<Key>, replies: seq<Reply>) | Restart

  ghost predicate Can(s: State, step: Step, steady: Key -> set<int>)
  {
    match step
    case Control(events, replies) => Usable(replies) && CanRound(s, events, replies, steady)
    case Restart => true
  }

  ghost function Next(s: State, step: Step, steady: Key -> set<int>): State
    requires Can(s, step, steady)
  {
    match step
    case Control(events, replies) => Round(s, events, replies).0
    case Restart => s.(cursors := map[])
  }

  ghost predicate Runs(s: State, steps: seq<Step>, steady: Key -> set<int>)
    decreases |steps|
  {
    steps != [] ==> Can(s, steps[0], steady) && Runs(Next(s, steps[0], steady), steps[1..], steady)
  }

  ghost function Ends(s: State, steps: seq<Step>, steady: Key -> set<int>): State
    requires Runs(s, steps, steady)
    decreases |steps|
  {
    if steps == [] then s else Ends(Next(s, steps[0], steady), steps[1..], steady)
  }

  lemma StepKeeps(s: State, step: Step, steady: Key -> set<int>)
    requires Inv(s, steady) && Can(s, step, steady)
    ensures Inv(Next(s, step, steady), steady) && s.published <= Next(s, step, steady).published
  {
    if step.Control? {
      EventsKeep(s, step.events, step.replies, steady);
      var s1 := Events(s, step.events, step.replies).0;
      var s' := Next(s, step, steady);
      forall key ensures KeyOk(s', key, steady) {
        assert KeyOk(s1, key, steady);
      }
    } else {
      forall key ensures KeyOk(Next(s, step, steady), key, steady) {
        assert KeyOk(s, key, steady);
      }
    }
  }

  lemma {:induction false} RunKeeps(s: State, steps: seq<Step>, steady: Key -> set<int>)
    requires Inv(s, steady) && Runs(s, steps, steady)
    ensures Inv(Ends(s, steps, steady), steady)
    decreases |steps|
  {
    if steps != [] {
      StepKeeps(s, steps[0], steady);
      RunKeeps(Next(s, steps[0], steady), steps[1..], steady);
    }
  }

  const Start := State(map[], map[], {})

  /** Over every run of rounds, failures at any request, evictions and restarts: an event is acknowledged only
      when every waiter that existed throughout has been woken for it. */
  lemma PublishedMeansCovered(steps: seq<Step>, steady: Key -> set<int>, key: Key)
    requires Runs(Start, steps, steady) && key in Ends(Start, steps, steady).published
    ensures steady(key) <= WokenFor(Ends(Start, steps, steady), key)
  {
    RunKeeps(Start, steps, steady);
    assert KeyOk(Ends(Start, steps, steady), key, steady);
  }

  // ----- an attended event is acknowledged soon -----

  /** The waiters an event still has to reach. */
  ghost function Remaining(s: State, key: Key, steady: Key -> set<int>): set<int>
  {
    set x | x in steady(key) && Past(x, After(s, key))
  }

  /** With a fixed list of waiters, an answered page either acknowledges the event or leaves fewer of them. */
  lemma PageProgress(s: State, key: Key, r: Reply, steady: Key -> set<int>)
    requires Honest(s, key, r, steady) && r.present == steady(key) && r.fate == Woken(PublishOk)
    ensures var s' := Process(s, key, r).0;
            key in s'.published || Remaining(s', key, steady) < Remaining(s, key, steady)
  {
    var next := PageNext(r.page, r.checked);
    if next.Some? {
      var s' := Process(s, key, r).0;
      assert next.value in Remaining(s, key, steady) && next.value !in Remaining(s', key, steady);
    }
  }

  predicate AllAnswered(replies: seq<Reply>)
  {
    forall i :: 0 <= i < |replies| ==> replies[i].fate == Woken(PublishOk)
  }

  /** In a round that answers everything, an event that is not acknowledged gets strictly closer to it. */
  lemma {:induction false} RoundProgress(s: State, events: seq<Key>, replies: seq<Reply>, i: nat, steady: Key -> set<int>)
    requires Usable(replies) && CanRound(s, events, replies, steady) && AllAnswered(replies)
    requires i < |events| && replies[i].present == steady(events[i])
    requires forall j :: 0 <= j < |events| && j != i ==> events[j] != events[i]
    ensures var (s', ok) := Events(s, events, replies);
            ok && (events[i] in s'.published || Remaining(s', events[i], steady) < Remaining(s, events[i], steady))
    decreases |events|
  {
    var key := events[i];
    var (s1, ok) := Process(s, events[0], replies[0]);
    HonestPageAccepted(s, events[0], replies[0], steady);
    if i == 0 {
      PageProgress(s, key, replies[0], steady);
      UntouchedKey(s1, events[1..], replies[1..], key, steady);
    } else {
      OtherKeysSame(s, events[0], replies[0], key);
      RoundProgress(s1, events[1..], replies[1..], i - 1, steady);
    }
  }

  lemma {:induction false} UntouchedKey(s: State, events: seq<Key>, replies: seq<Reply>, key: Key, steady: Key -> set<int>)
    requires Usable(replies) && CanRound(s, events, replies, steady) && AllAnswered(replies)
    requires forall j :: 0 <= j < |events| ==> events[j] != key
    ensures var (s', ok) := Events(s, events, replies);
            ok && After(s', key) == After(s, key) && (key in s'.published <==> key in s.published)
    decreases |events|
  {
    if events != [] {
      HonestPageAccepted(s, events[0], replies[0], steady);
      OtherKeysSame(s, events[0], replies[0], key);
      UntouchedKey(Process(s, events[0], replies[0]).0, events[1..], replies[1..], key, steady);
    }
  }

  /** Until it is acknowledged, every step is a round that shows the event once, with its fixed list of
      waiters, and answers everything. */
  ghost predicate Attended(s: State, steps: seq<Step>, key: Key, steady: Key -> set<int>)
    requires Runs(s, steps, steady)
    decreases |steps|
  {
    steps == [] || key in s.published ||
    (&& steps[0].Control? && AllAnswered(steps[0].replies)
     && (exists i :: 0 <= i < |steps[0].events| && Shown(steps[0].events, steps[0].replies, i, key, steady))
     && Attended(Next(s, steps[0], steady), steps[1..], key, steady))
  }

  ghost predicate Shown(events: seq<Key>, replies: seq<Reply>, i: nat, key: Key, steady: Key -> set<int>)
  {
    && i < |events| == |replies| && events[i] == key && replies[i].present == steady(key)
    && forall j :: 0 <= j < |events| && j != i ==> events[j] != key
  }

  /** Such an event is acknowledged within one round more than it has waiters left. */
  lemma {:induction false} PublishedSoon(s: State, steps: seq<Step>, key: Key, steady: Key -> set<int>)
    requires Runs(s, steps, steady) && Attended(s, steps, key, steady) && Inv(s, steady)
    requires |Remaining(s, key, steady)| < |steps|
    ensures key in Ends(s, steps, steady).published
    decreases |steps|
  {
    var s' := Next(s, steps[0], steady);
    StepKeeps(s, steps[0], steady);
    if key in s.published || key in s'.published {
      StaysPublished(s', steps[1..], key, steady);
    } else {
      var i :| 0 <= i < |steps[0].events| && Shown(steps[0].events, steps[0].replies, i, key, steady);
      RoundProgress(s, steps[0].events, steps[0].replies, i, steady);
      var s1 := Events(s, steps[0].events, steps[0].replies).0;
      assert After(s', key) == After(s1, key);
      assert Remaining(s', key, steady) == Remaining(s1, key, steady);
      Smaller(Remaining(s', key, steady), Remaining(s, key, steady));
      PublishedSoon(s', steps[1..], key, steady);
    }
  }

  lemma Smaller(a: set<int>, b: set<int>)
    requires a < b
    ensures |a| < |b|
  {
    assert b == a + (b - a);
    assert b - a == {} ==> b == a;
  }

  lemma {:induction false} StaysPublished(s: State, steps: seq<Step>, key: Key, steady: Key -> set<int>)
    requires Runs(s, steps, steady) && Inv(s, steady) && key in s.published
    ensures key in Ends(s, steps, steady).published
    decreases |steps|
  {
    if steps != [] {
      StepKeeps(s, steps[0], steady);
      StaysPublished(Next(s, steps[0], steady), steps[1..], key, steady);
    }
  }
}
