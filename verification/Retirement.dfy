/** Retiring one environment instance under one operation id.

    The client keeps the exact request body and replays it; it takes a new body only when the server answers
    that the expected epoch is wrong, which proves that nothing was accepted. Everything in a body but the
    expected controller epoch is fixed by the instance, so a body is its epoch. */
module Retirement {
  import opened Common

  const ATTEMPTS := 3

  /** What the server answers to a body: `Refused` when its record holds another one, `Rejected` for any other
      reason, such as an allocation that is missing or does not match. */
  datatype Answer = Accepted | EpochConflict | Refused | Rejected

  /** What the client remembers of the operation. */
  datatype Client = Client(request: Option<nat>, accepted: bool)

  /** The client's reaction: the body is dropped only for an epoch conflict that no acceptance preceded. */
  predicate Drops(c: Client, a: Answer)
  {
    a.EpochConflict? && !c.accepted
  }

  function Answered(c: Client, a: Answer): Client
  {
    if a.Accepted? then c.(accepted := true) else if Drops(c, a) then c.(request := None) else c
  }

  // ----- one call against scripted answers -----

  /** What the server would show if observed in a round, and what it, or a broken transport, would answer. */
  datatype Observation = Mismatch | Gone | Epoch(epoch: nat)

  datatype Round = Round(seen: Observation, reply: Option<Answer>)

  datatype Result = Returned | Raised

  datatype Call = Call(client: Client, sends: seq<nat>, result: Result)

  /** One round: the bodies it posts, and whether another one follows. */
  datatype Attempt = Attempt(client: Client, sends: seq<nat>, again: bool, result: Result)

  function Tried(c: Client, round: Round): Attempt
  {
    if c.request.None? && round.seen.Mismatch? then Attempt(c, [], false, Raised)
    else if c.request.None? && round.seen.Gone? then Attempt(c, [], false, Returned)
    else
      var body := if c.request.Some? then c.request.value else round.seen.epoch;
      var kept := Client(Some(body), c.accepted);
      match round.reply
      case None => Attempt(kept, [body], false, Raised)
      case Some(a) => Attempt(Answered(kept, a), [body], Drops(kept, a), if a.Accepted? then Returned else Raised)
  }

  function Retire(c: Client, script: nat -> Round, attempt: nat): Call
    requires attempt < ATTEMPTS
    decreases ATTEMPTS - attempt
  {
    var t := Tried(c, script(attempt));
    if t.again && attempt + 1 < ATTEMPTS then
      var rest := Retire(t.client, script, attempt + 1);
      Call(rest.client, t.sends + rest.sends, rest.result)
    else Call(t.client, t.sends, t.result)
  }

  class Provisioner {
    var request: Option<nat>
    var accepted: bool

    function View(): Client
      reads this
    {
      Client(request, accepted)
    }

    constructor ()
      ensures View() == Client(None, false)
    {
      request, accepted := None, false;
    }

    method Try(round: Round) returns (sends: seq<nat>, again: bool, result: Result)
      modifies this
      ensures Attempt(View(), sends, again, result) == Tried(old(View()), round)
    {
      sends, again, result := [], false, Raised;
      if request.None? {
        match round.seen {
          case Mismatch => return;
          case Gone => result := Returned; return;
          case Epoch(epoch) => request := Some(epoch);
        }
      }
      sends := [request.value];
      if round.reply.None? { return; }
      match round.reply.value {
        case Accepted =>
          accepted := true;
          result := Returned;
        case EpochConflict =>
          if !accepted {
            request := None;
            again := true;
          }
        case Refused =>
        case Rejected =>
      }
    }

    /** The bounded retry loop; `sends` are the bodies it posted. */
    method RetireInstance(script: nat -> Round) returns (sends: seq<nat>, result: Result)
      modifies this
      ensures Call(View(), sends, result) == Retire(old(View()), script, 0)
    {
      sends, result := [], Raised;
      var attempt := 0;
      while attempt < ATTEMPTS
        invariant attempt < ATTEMPTS
        invariant var rest := Retire(View(), script, attempt);
                  Retire(old(View()), script, 0) == Call(rest.client, sends + rest.sends, rest.result)
        decreases ATTEMPTS - attempt
      {
        ghost var before := sends;
        ghost var rest := Retire(View(), script, attempt);
        var posted, again, outcome := Try(script(attempt));
        sends := sends + posted;
        if !again || attempt + 1 == ATTEMPTS {
          result := outcome;
          return;
        }
        attempt := attempt + 1;
        assert before + rest.sends == sends + Retire(View(), script, attempt).sends;
      }
    }
  }

  /** A call posts at most three times; it posts again only after an epoch conflict; what it posts first is
      the body it kept; and an accepted operation posts only that body and keeps it. */
  lemma {:induction false} CallBounds(c: Client, script: nat -> Round, attempt: nat)
    requires attempt < ATTEMPTS
    ensures var r := Retire(c, script, attempt);
            && |r.sends| <= ATTEMPTS - attempt
            && (forall k :: attempt <= k < attempt + |r.sends| - 1 ==> script(k).reply == Some(EpochConflict))
            && (c.request.Some? ==> r.sends != [] && r.sends[0] == c.request.value)
            && (c.request.Some? && c.accepted ==> r.sends == [c.request.value] && r.client == c)
            && (r.client.request.Some? && r.sends != [] ==> r.client.request.value == r.sends[|r.sends| - 1])
    decreases ATTEMPTS - attempt
  {
    var t := Tried(c, script(attempt));
    if t.again && attempt + 1 < ATTEMPTS {
      CallBounds(t.client, script, attempt + 1);
    }
  }

  // ----- the client against the server -----

  /** The server's current controller epoch and its immutable record of the operation. */
  datatype Server = Server(epoch: nat, record: Option<nat>, destroyed: bool)

  function Handled(s: Server, body: nat, rejects: bool): Server
  {
    if !rejects && s.record.None? && s.epoch == body then s.(record := Some(body)) else s
  }

  /** A rejection may come at any point and records nothing. */
  function AnswerTo(s: Server, body: nat, rejects: bool): Answer
  {
    if rejects then Rejected
    else if s.record.Some? then (if s.record.value == body then Accepted else Refused)
    else if s.epoch == body then Accepted else EpochConflict
  }

  /** Where the current call stands; `floor` is the epoch when its observation began. */
  datatype At =
    | Idle
    | Choosing(attempt: nat)
    | Observing(attempt: nat, floor: nat)
    | Posting(attempt: nat)
    | Waiting(attempt: nat, answer: Option<Answer>)

  /** `sent` holds every body ever posted: each may still arrive, late and more than once. `acks` holds the
      bodies the server ever accepted; `done` counts calls that returned normally. */
  datatype World = World(client: Client, at: At, sent: set<nat>, server: Server, acks: set<nat>, posts: nat, done: nat)

  datatype Step =
    | Begin
    | Keep
    | StartObserving
    | Observe(epoch: nat)
    | SeeDestroyed
    | Post
    | Arrive(body: nat, mine: bool, rejects: bool)
    | Reply
    | Lose
    | Advance
    | Destroy
    | Restart

  predicate Can(w: World, step: Step)
  {
    match step
    case Begin => w.at.Idle?
    case Keep => w.at.Choosing? && w.client.request.Some?
    case StartObserving => w.at.Choosing? && w.client.request.None?
    case Observe(epoch) => w.at.Observing? && w.at.floor <= epoch <= w.server.epoch
    case SeeDestroyed => w.at.Observing? && w.server.destroyed
    case Post => w.at.Posting? && w.client.request.Some?
    case Arrive(body, mine, _) => body in w.sent && (mine ==> w.at.Waiting? && w.at.answer.None? && w.client.request == Some(body))
    case Reply => w.at.Waiting? && w.at.answer.Some?
    case Lose => w.at.Waiting?
    case Advance => true
    case Destroy => w.server.record.Some?
    case Restart => true
  }

  function Replied(w: World): World
    requires w.at.Waiting? && w.at.answer.Some?
  {
    var a := w.at.answer.value;
    w.(client := Answered(w.client, a),
       at := if Drops(w.client, a) && w.at.attempt + 1 < ATTEMPTS then Choosing(w.at.attempt + 1) else Idle,
       done := if a.Accepted? then w.done + 1 else w.done)
  }

  function Next(w: World, step: Step): World
    requires Can(w, step)
  {
    match step
    case Begin => w.(at := Choosing(0), posts := 0)
    case Keep => w.(at := Posting(w.at.attempt))
    case StartObserving => w.(at := Observing(w.at.attempt, w.server.epoch))
    case Observe(epoch) => w.(at := Posting(w.at.attempt), client := w.client.(request := Some(epoch)))
    case SeeDestroyed => w.(at := Idle, done := w.done + 1)
    case Post => w.(at := Waiting(w.at.attempt, None), sent := w.sent + {w.client.request.value}, posts := w.posts + 1)
    case Arrive(body, mine, rejects) =>
      w.(server := Handled(w.server, body, rejects),
         acks := if AnswerTo(w.server, body, rejects).Accepted? then w.acks + {body} else w.acks,
         at := if mine then Waiting(w.at.attempt, Some(AnswerTo(w.server, body, rejects))) else w.at)
    case Reply => Replied(w)
    case Lose => w.(at := Idle)
    case Advance => w.(server := w.server.(epoch := w.server.epoch + 1))
    case Destroy => w.(server := w.server.(destroyed := true))
    case Restart => w.(client := Client(None, false), at := Idle)
  }

  ghost predicate Runs(w: World, steps: seq<Step>)
    decreases |steps|
  {
    steps != [] ==> Can(w, steps[0]) && Runs(Next(w, steps[0]), steps[1..])
  }

  ghost function After(w: World, steps: seq<Step>): World
    requires Runs(w, steps)
    decreases |steps|
  {
    if steps == [] then w else After(Next(w, steps[0]), steps[1..])
  }

  function Fresh(epoch: nat): World
  {
    World(Client(None, false), Idle, {}, Server(epoch, None, false), {}, 0, 0)
  }

  // ----- at most one body is ever accepted -----

  ghost predicate OneBody(w: World)
  {
    w.acks == (if w.server.record.Some? then {w.server.record.value} else {})
  }

  lemma {:induction false} AcceptedBodyIsUnique(w: World, steps: seq<Step>)
    requires OneBody(w) && Runs(w, steps)
    ensures OneBody(After(w, steps))
    ensures w.server.record.Some? ==> After(w, steps).server.record == w.server.record
    decreases |steps|
  {
    if steps != [] {
      AcceptedBodyIsUnique(Next(w, steps[0]), steps[1..]);
    }
  }

  // ----- the client's body is the accepted one -----

  /** Every posted body but the kept one is below the epoch, so it can never be accepted any more. */
  ghost predicate Tracked(w: World)
  {
    && (forall b | b in w.sent :: b <= w.server.epoch && (Some(b) != w.client.request ==> b < w.server.epoch))
    && (w.client.request.Some? ==> w.client.request.value <= w.server.epoch)
    && (w.server.record.Some? ==> w.server.record == w.client.request)
    && (w.client.accepted ==> w.server.record.Some?)
  }

  ghost predicate AtOk(w: World)
  {
    match w.at
    case Idle => w.posts <= ATTEMPTS
    case Choosing(attempt) => attempt < ATTEMPTS && w.posts == attempt
    case Observing(attempt, floor) => attempt < ATTEMPTS && w.posts == attempt && w.client.request.None?
    case Posting(attempt) => attempt < ATTEMPTS && w.posts == attempt && w.client.request.Some?
    case Waiting(attempt, answer) =>
      && attempt < ATTEMPTS && w.posts == attempt + 1 && w.client.request.Some? && answer != Some(Refused)
      && (answer == Some(Accepted) ==> w.server.record == w.client.request)
      && (answer == Some(EpochConflict) ==> w.server.record.None? && w.client.request.value < w.server.epoch)
  }

  lemma StepKeeps(w: World, step: Step)
    requires Tracked(w) && AtOk(w) && Can(w, step) && !step.Restart?
    ensures Tracked(Next(w, step)) && AtOk(Next(w, step))
    ensures w.client.request.Some? && Next(w, step).client.request != w.client.request ==>
              step.Reply? && w.at.answer == Some(EpochConflict) && w.server.record.None?
  {
  }

  /** While the client process lives, whatever is lost, delayed or repeated: an accepted body is the one the
      client keeps, so no replay of it ever conflicts with the record; the body is never changed once one was accepted; and
      a call posts at most three times. */
  lemma {:induction false} ReplayStaysImmutable(w: World, steps: seq<Step>)
    requires Tracked(w) && AtOk(w) && Runs(w, steps) && forall i :: 0 <= i < |steps| ==> !steps[i].Restart?
    ensures var w' := After(w, steps);
            && Tracked(w') && AtOk(w') && w'.posts <= ATTEMPTS
            && (w'.at.Waiting? ==> w'.at.answer != Some(Refused))
            && (w.server.record.Some? ==> w'.client.request == w.client.request == w.server.record)
    decreases |steps|
  {
    if steps != [] {
      StepKeeps(w, steps[0]);
      ReplayStaysImmutable(Next(w, steps[0]), steps[1..]);
    }
  }

  /** From the start, in every run: at most one body is ever accepted; and while the process lives, a recorded
      body is the one the client keeps. */
  lemma RetirementRuns(epoch: nat, steps: seq<Step>)
    requires Runs(Fresh(epoch), steps)
    ensures var w := After(Fresh(epoch), steps);
            && |w.acks| <= 1
            && ((forall i :: 0 <= i < |steps| ==> !steps[i].Restart?) ==>
                  w.posts <= ATTEMPTS && (w.server.record.Some? ==> w.client.request == w.server.record))
  {
    AcceptedBodyIsUnique(Fresh(epoch), steps);
    if forall i :: 0 <= i < |steps| ==> !steps[i].Restart? {
      ReplayStaysImmutable(Fresh(epoch), steps);
    }
  }

  // ----- after the client process restarts -----

  /** The client keeps a body other than the accepted one. */
  ghost predicate Wedged(w: World)
  {
    && w.server.record.Some? && w.client.request.Some? && w.client.request != w.server.record
    && !w.client.accepted && !w.at.Observing?
    && (w.at.Waiting? ==> w.at.answer.None? || w.at.answer == Some(Refused) || w.at.answer == Some(Rejected))
  }

  /** Then no call of this process ever returns normally again, whatever the server does. */
  lemma {:induction false} WedgedForever(w: World, steps: seq<Step>)
    requires Wedged(w) && Runs(w, steps) && forall i :: 0 <= i < |steps| ==> !steps[i].Restart?
    ensures Wedged(After(w, steps)) && After(w, steps).done == w.done
    decreases |steps|
  {
    if steps != [] {
      WedgedForever(Next(w, steps[0]), steps[1..]);
    }
  }

  ghost predicate WithoutRestart(steps: seq<Step>)
  {
    forall i :: 0 <= i < |steps| ==> !steps[i].Restart?
  }

  /** In some continuation of this process a call returns normally. */
  ghost predicate CanReturn(w: World)
  {
    exists steps :: ReturnsBy(w, steps)
  }

  ghost predicate ReturnsBy(w: World, steps: seq<Step>)
  {
    WithoutRestart(steps) && Runs(w, steps) && After(w, steps).done > w.done
  }

  lemma Then(w: World, step: Step)
    requires Can(w, step) && !step.Restart?
    requires Next(w, step).done > w.done || (Next(w, step).done == w.done && CanReturn(Next(w, step)))
    ensures CanReturn(w)
  {
    var w' := Next(w, step);
    var rest: seq<Step> := [];
    if w'.done == w.done { rest :| ReturnsBy(w', rest); }
    Prefixed(w, step, rest);
    assert ReturnsBy(w, [step] + rest);
  }

  lemma Prefixed(w: World, step: Step, rest: seq<Step>)
    requires Can(w, step) && !step.Restart? && Runs(Next(w, step), rest) && WithoutRestart(rest)
    ensures WithoutRestart([step] + rest) && Runs(w, [step] + rest)
    ensures After(w, [step] + rest) == After(Next(w, step), rest)
  {
    var steps := [step] + rest;
    assert steps[1..] == rest;
    assert forall i :: 0 < i < |steps| ==> steps[i] == rest[i - 1];
  }

  /** A body that is the recorded one is accepted when it is posted. */
  lemma PostReturns(w: World)
    requires w.at.Posting? && w.client.request.Some? && w.client.request == w.server.record
    ensures CanReturn(w)
  {
    var body := w.client.request.value;
    var w1 := Next(w, Post);
    var w2 := Next(w1, Arrive(body, true, false));
    Then(w2, Reply);
    Then(w1, Arrive(body, true, false));
    Then(w, Post);
  }

  /** Once a body was accepted, a call of this process can still return exactly when it keeps no body, so that
      it looks again, or keeps the accepted one. */
  lemma CanReturnExact(w: World)
    requires w.at.Idle? && w.server.record.Some? && (w.client.accepted ==> w.client.request == w.server.record)
    ensures CanReturn(w) <==> w.client.request.None? || w.client.request == w.server.record
  {
    var w1 := Next(w, Begin);
    if w.client.request.None? {
      var w2 := Next(w1, StartObserving);
      var w3 := Next(w2, Destroy);
      Then(w3, SeeDestroyed);
      Then(w2, Destroy);
      Then(w1, StartObserving);
      Then(w, Begin);
    } else if w.client.request == w.server.record {
      PostReturns(Next(w1, Keep));
      Then(w1, Keep);
      Then(w, Begin);
    } else {
      forall steps | WithoutRestart(steps) && Runs(w, steps) ensures After(w, steps).done == w.done {
        WedgedForever(w, steps);
      }
    }
  }

  /** So a client that lost its memory after the acceptance can still return after observing an epoch exactly
      when that epoch is the accepted one. */
  lemma ObservationDecides(w: World, epoch: nat)
    requires w.at.Observing? && w.server.record.Some? && w.client == Client(None, false) && Can(w, Observe(epoch))
    ensures CanReturn(Next(w, Observe(epoch))) <==> epoch == w.server.record.value
  {
    var w' := Next(w, Observe(epoch));
    if epoch == w.server.record.value {
      PostReturns(w');
    } else {
      forall steps | WithoutRestart(steps) && Runs(w', steps) ensures After(w', steps).done == w'.done {
        WedgedForever(w', steps);
      }
    }
  }

  ghost predicate Reachable(epoch: nat, w: World)
  {
    exists steps :: Runs(Fresh(epoch), steps) && After(Fresh(epoch), steps) == w
  }

  lemma {:induction false} Extend(w: World, steps: seq<Step>, step: Step)
    requires Runs(w, steps) && Can(After(w, steps), step)
    ensures Runs(w, steps + [step]) && After(w, steps + [step]) == Next(After(w, steps), step)
    decreases |steps|
  {
    if steps == [] {
      assert ([] + [step])[1..] == [];
    } else {
      assert (steps + [step])[1..] == steps[1..] + [step];
      Extend(Next(w, steps[0]), steps[1..], step);
    }
  }

  lemma Onward(epoch: nat, w: World, step: Step) returns (w': World)
    requires Reachable(epoch, w) && Can(w, step)
    ensures w' == Next(w, step) && Reachable(epoch, w')
  {
    var steps :| Runs(Fresh(epoch), steps) && After(Fresh(epoch), steps) == w;
    Extend(Fresh(epoch), steps, step);
    w' := Next(w, step);
  }

  /** It can happen: accepted, answer lost, process restarted, epoch moved on, called again. */
  lemma RestartWedges(epoch: nat) returns (w: World)
    ensures Reachable(epoch, w) && Wedged(w)
  {
    var none: seq<Step> := [];
    assert Runs(Fresh(epoch), none) && After(Fresh(epoch), none) == Fresh(epoch);
    w := Onward(epoch, Fresh(epoch), Begin);
    w := Onward(epoch, w, StartObserving);
    w := Onward(epoch, w, Observe(epoch));
    w := Onward(epoch, w, Post);
    w := Onward(epoch, w, Arrive(epoch, false, false));
    w := Onward(epoch, w, Restart);
    w := Onward(epoch, w, Advance);
    w := Onward(epoch, w, Begin);
    w := Onward(epoch, w, StartObserving);
    w := Onward(epoch, w, Observe(epoch + 1));
  }
}
