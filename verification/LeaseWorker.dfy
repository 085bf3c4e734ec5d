/** One worker that has claimed a job: its renewal thread and its executing thread around the lease guard, and
    whole operations of the two as runs of their critical sections. */
module LeaseWorker {
  import opened Common
  import opened LeaseGuard

  datatype Renewer =
    | Idle
    | Sampled(started: real)                              // clock read, lock not yet taken
    | InFlight(started: real, previous: Option<real>)     // request sent
    | Settling(again: bool)                               // outcome recorded, flag still raised
    | Exited

  datatype Caller = Entering | Executing | Stopping | HandedOff | Leaving(handed: bool) | Left

  datatype Worker = Worker(clock: real, shared: Shared, renewer: Renewer, caller: Caller)

  /** The execution has stopped using the guard, so a complete, yield or fail may be on its way. */
  predicate Released(w: Worker)
  {
    w.caller == HandedOff || w.caller == Left || w.caller == Leaving(true)
  }

  datatype Move =
    | Ack | Drop | Refuse            // the answer to a heartbeat, as the renewal thread sees it
    | Settle | Wake | Enter          // the rest of the renewal loop
    | Health                         // the executing thread asks
    | HandoffGate | HandoffCommit    // the executing thread hands off
    | Leave | Closed                 // the executing thread leaves the guard

  predicate CanMove(w: Worker, m: Move)
  {
    match m
    case Ack => w.renewer.InFlight?
    case Drop => w.renewer.InFlight?
    case Refuse => w.renewer.InFlight?
    case Settle => w.renewer.Settling?
    case Wake => w.renewer.Idle?
    case Enter => w.renewer.Sampled?
    case Health => w.caller != Entering
    case HandoffGate => w.caller == Executing || w.caller == HandedOff
    case HandoffCommit => w.caller == Stopping && w.renewer.Exited?
    case Leave => w.caller == Executing || w.caller == HandedOff
    case Closed => w.caller.Leaving? && w.renewer.Exited?
  }

  function Answered(w: Worker, r: (Shared, bool)): Worker
  {
    w.(shared := r.0, renewer := Settling(r.1))
  }

  function Moved(lease: real, w: Worker, m: Move): Worker
    requires CanMove(w, m)
  {
    match m
    case Ack => Answered(w, Acked(lease, w.shared, w.renewer.started, w.renewer.previous, w.clock))
    case Drop => Answered(w, TransportFailed(w.shared, w.renewer.previous.None?, w.clock))
    case Refuse => Answered(w, (Lose(w.shared), false))
    case Settle =>
      var again := w.renewer.again;
      w.(shared := Settled(w.shared), renewer := if again then Idle else Exited,
         caller := if w.caller != Entering then w.caller else if again then Executing else Left)
    case Wake => w.(renewer := if w.shared.stopped then Exited else Sampled(w.clock))
    case Enter =>
      var r := Begin(w.shared, w.renewer.started, false);
      w.(shared := r.0, renewer := if r.1 then InFlight(w.renewer.started, Some(w.shared.deadline)) else Exited)
    case Health => w.(shared := Check(w.shared, w.clock).0)
    case HandoffGate =>
      var r := Gate(w.shared, w.clock);
      w.(shared := r.0, caller := if r.1 == Cleared then Stopping else w.caller)
    case HandoffCommit =>
      var r := Commit(w.shared, w.clock);
      w.(shared := r.0, caller := if r.1 == Cleared then HandedOff else Executing)
    case Leave => w.(shared := Stop(w.shared), caller := Leaving(w.caller == HandedOff))
    case Closed => w.(shared := Close(w.shared), caller := Left)
  }

  function Opened(clock: real): Worker
  {
    Worker(clock, Begin(Fresh, clock, true).0, InFlight(clock, None), Entering)
  }

  ghost predicate WorkerOk(w: Worker)
  {
    && 0.0 <= w.clock
    && (w.shared.renewing <==> w.renewer.InFlight? || w.renewer.Settling?)
    && (w.renewer.Sampled? || w.renewer.InFlight? ==> w.renewer.started <= w.clock)
    && (w.renewer.InFlight? ==>
          match w.renewer.previous
          case Some(d) => d == w.shared.deadline && (w.caller == Executing || w.caller == Leaving(false))
          case None => w.caller == Entering && w.shared.status == Unconfirmed && w.shared.deadline == 0.0)
    && (w.caller == Entering ==> w.shared.renewing && !w.shared.stopped)
    && (w.caller == Entering && w.renewer.Settling? ==>
          if w.renewer.again then w.shared.status == Healthy else w.shared.status == Lost || w.shared.deadline <= w.clock)
    // A loss found while a request is out was a missed deadline.
    && (w.renewer.InFlight? && w.shared.status == Lost ==> w.shared.deadline <= w.clock)
    && (w.shared.status == GracefulStop ==> w.renewer.Exited?)
    && (w.caller == Stopping ==> w.shared.stopped && !w.shared.renewing)
    && (w.caller.Leaving? ==> w.shared.stopped)
    && (Released(w) ==> w.renewer.Exited? && (Dead(w.shared) || w.shared.deadline <= w.clock))
  }

  lemma MoveKeepsWorker(lease: real, w: Worker, m: Move)
    requires WorkerOk(w) && CanMove(w, m)
    ensures WorkerOk(Moved(lease, w, m))
  {
  }

  lemma MovedFacts(lease: real, w: Worker, m: Move)
    requires WorkerOk(w) && CanMove(w, m)
    ensures Moved(lease, w, m).clock == w.clock
    ensures Moved(lease, w, m).shared.attempt == w.shared.attempt + if m == Enter && Moved(lease, w, m).renewer.InFlight? then 1 else 0
    ensures Released(w) ==> Released(Moved(lease, w, m))
  {
  }

  // ----- runs of one worker -----

  /** Time passes, or one of the threads makes a move. */
  datatype Turn = Pass(elapsed: real) | Make(move: Move)

  predicate CanTurn(w: Worker, t: Turn)
  {
    match t
    case Pass(elapsed) => elapsed >= 0.0
    case Make(move) => CanMove(w, move)
  }

  function Turned(lease: real, w: Worker, t: Turn): Worker
    requires CanTurn(w, t)
  {
    match t
    case Pass(elapsed) => w.(clock := w.clock + elapsed)
    case Make(move) => Moved(lease, w, move)
  }

  ghost predicate Turns(lease: real, w: Worker, ts: seq<Turn>)
    decreases |ts|
  {
    ts != [] ==> CanTurn(w, ts[0]) && Turns(lease, Turned(lease, w, ts[0]), ts[1..])
  }

  ghost function AfterTurns(lease: real, w: Worker, ts: seq<Turn>): Worker
    requires Turns(lease, w, ts)
    decreases |ts|
  {
    if ts == [] then w else AfterTurns(lease, Turned(lease, w, ts[0]), ts[1..])
  }

  /** The guard is past helping: every check and every handoff raises. */
  predicate Refuses(w: Worker)
  {
    w.caller != Entering && (Dead(w.shared) || w.shared.deadline <= w.clock)
  }

  lemma TurnKeepsWorker(lease: real, w: Worker, t: Turn)
    requires WorkerOk(w) && CanTurn(w, t)
    ensures WorkerOk(Turned(lease, w, t))
  {
    if t.Make? { MoveKeepsWorker(lease, w, t.move); }
  }

  /** Nothing either thread does, and no answer that is still to come, opens a guard that refuses: an answer to
      a request that was out when the deadline passed is too late. */
  lemma RefusesKept(lease: real, w: Worker, t: Turn)
    requires WorkerOk(w) && Refuses(w) && CanTurn(w, t)
    ensures WorkerOk(Turned(lease, w, t)) && Refuses(Turned(lease, w, t))
  {
    TurnKeepsWorker(lease, w, t);
  }

  lemma {:induction false} WorkerRuns(lease: real, w: Worker, ts: seq<Turn>)
    requires WorkerOk(w) && Turns(lease, w, ts)
    ensures WorkerOk(AfterTurns(lease, w, ts))
    ensures Refuses(w) ==> Refuses(AfterTurns(lease, w, ts))
    decreases |ts|
  {
    if ts != [] {
      TurnKeepsWorker(lease, w, ts[0]);
      if Refuses(w) { RefusesKept(lease, w, ts[0]); }
      WorkerRuns(lease, Turned(lease, w, ts[0]), ts[1..]);
    }
  }

  // ----- whole operations of the executing thread -----

  /** What the clock and the renewal thread do on their own. */
  predicate ByOthers(t: Turn)
  {
    t.Pass? || t.move == Ack || t.move == Drop || t.move == Refuse || t.move == Settle || t.move == Wake || t.move == Enter
  }

  /** The others act for a while; what cannot happen does not. */
  function Others(lease: real, w: Worker, ts: seq<Turn>): Worker
    decreases |ts|
  {
    if ts == [] then w
    else if ByOthers(ts[0]) && CanTurn(w, ts[0]) then Others(lease, Turned(lease, w, ts[0]), ts[1..])
    else Others(lease, w, ts[1..])
  }

  datatype Answer = Yes | No | NotYet

  /** `require_healthy_lease`: `waiting` is what happens while it waits, up to the turn that decides. */
  function AskHealth(lease: real, w: Worker, waiting: seq<Turn>): (Worker, Answer)
  {
    var w1 := Others(lease, w, waiting);
    if w1.caller == Entering then (w1, NotYet)
    else
      match Check(w1.shared, w1.clock).1
      case Cleared => (Moved(lease, w1, Health), Yes)
      case Raised => (Moved(lease, w1, Health), No)
      case Waits => (w1, NotYet)
  }

  /** `terminal_handoff`: `waiting` is what happens while it waits for a quiet guard, `joining` while it waits
      for the renewal thread to end. */
  function AskHandoff(lease: real, w: Worker, waiting: seq<Turn>, joining: seq<Turn>): (Worker, Answer)
  {
    var w1 := Others(lease, w, waiting);
    if !CanMove(w1, HandoffGate) then (w1, NotYet)
    else
      var w2 := Moved(lease, w1, HandoffGate);
      match Gate(w1.shared, w1.clock).1
      case Waits => (w1, NotYet)
      case Raised => (w2, No)
      case Cleared =>
        var w3 := Others(lease, w2, joining);
        if !CanMove(w3, HandoffCommit) then (w3, NotYet)
        else
          var w4 := Moved(lease, w3, HandoffCommit);
          (w4, if w4.caller == HandedOff then Yes else No)
  }

  lemma {:induction false} OthersRun(lease: real, w: Worker, ts: seq<Turn>)
    requires WorkerOk(w)
    ensures WorkerOk(Others(lease, w, ts))
    ensures Refuses(w) ==> Refuses(Others(lease, w, ts))
    ensures w.caller != Entering ==> Others(lease, w, ts).caller == w.caller
    ensures w.renewer.Exited? ==> Others(lease, w, ts).shared == w.shared && Others(lease, w, ts).renewer.Exited?
    decreases |ts|
  {
    if ts != [] {
      if ByOthers(ts[0]) && CanTurn(w, ts[0]) {
        TurnKeepsWorker(lease, w, ts[0]);
        if Refuses(w) { RefusesKept(lease, w, ts[0]); }
        OthersRun(lease, Turned(lease, w, ts[0]), ts[1..]);
      } else {
        OthersRun(lease, w, ts[1..]);
      }
    }
  }

  /** A guard that refuses answers no, as soon as it answers. */
  lemma RefusedAsk(lease: real, w: Worker, waiting: seq<Turn>, joining: seq<Turn>)
    requires WorkerOk(w) && Refuses(w)
    ensures AskHealth(lease, w, waiting).1 == No
    ensures AskHandoff(lease, w, waiting, joining).1 != Yes
    ensures WorkerOk(AskHealth(lease, w, waiting).0) && Refuses(AskHealth(lease, w, waiting).0)
    ensures w.renewer.Exited? ==> AskHealth(lease, w, waiting).0.shared.deadline == w.shared.deadline
  {
    OthersRun(lease, w, waiting);
    var w1 := Others(lease, w, waiting);
    RefusesKept(lease, w1, Make(Health));
  }

  lemma HealthAsked(lease: real, w: Worker, waiting: seq<Turn>)
    requires WorkerOk(w) && w.caller == Executing
    ensures var (w', answer) := AskHealth(lease, w, waiting);
            && WorkerOk(w') && w'.caller == Executing
            && (answer == Yes ==> w'.shared.status == Healthy && w'.clock < w'.shared.deadline)
            && (answer == No ==> Refuses(w'))
  {
    OthersRun(lease, w, waiting);
    MoveKeepsWorker(lease, Others(lease, w, waiting), Health);
  }

  /** Once a handoff has answered, yes or no, the guard refuses for ever: it is spent. A granted one has ended
      the renewal thread, and its deadline is still ahead. */
  lemma HandoffSpends(lease: real, w: Worker, waiting: seq<Turn>, joining: seq<Turn>)
    requires WorkerOk(w) && w.caller == Executing
    ensures var (w', answer) := AskHandoff(lease, w, waiting, joining);
            && WorkerOk(w') && (answer != NotYet ==> Refuses(w'))
            && (answer == Yes ==> w'.renewer.Exited? && w'.clock < w'.shared.deadline)
  {
    OthersRun(lease, w, waiting);
    var w1 := Others(lease, w, waiting);
    if CanMove(w1, HandoffGate) {
      MoveKeepsWorker(lease, w1, HandoffGate);
      var w2 := Moved(lease, w1, HandoffGate);
      OthersRun(lease, w2, joining);
      var w3 := Others(lease, w2, joining);
      if CanMove(w3, HandoffCommit) { MoveKeepsWorker(lease, w3, HandoffCommit); }
    }
  }

  // ----- the guard's own code -----

  lemma {:induction false} ExtendTurns(lease: real, w: Worker, ts: seq<Turn>, t: Turn)
    requires Turns(lease, w, ts) && CanTurn(AfterTurns(lease, w, ts), t)
    ensures Turns(lease, w, ts + [t]) && AfterTurns(lease, w, ts + [t]) == Turned(lease, AfterTurns(lease, w, ts), t)
    decreases |ts|
  {
    if ts == [] {
      assert ([] + [t])[1..] == [];
    } else {
      assert (ts + [t])[1..] == ts[1..] + [t];
      ExtendTurns(lease, Turned(lease, w, ts[0]), ts[1..], t);
    }
  }

  /** What becomes of one heartbeat request. */
  datatype Reply = Acknowledged | Unknown | Rejected

  /** The guard with both its threads, whole operations of each, section by section as they are written. While one thread is
      outside the lock, waits for its request, waits on the condition or joins the other, the clock and the
      other thread act; the object keeps the turns taken, so that `Valid` says they are a run from the start. */
  class LeaseHeartbeats {
    const lease: real
    const began: real
    var clock: real
    var deadline: real
    var status: Status
    var attempt: nat
    var renewing: bool
    var stopped: bool
    var renewer: Renewer
    var caller: Caller
    ghost var turns: seq<Turn>

    function View(): Worker
      reads this
    {
      Worker(clock, Shared(deadline, status, attempt, renewing, stopped), renewer, caller)
    }

    ghost predicate Valid()
      reads this
    {
      began >= 0.0 && Turns(lease, Opened(began), turns) && AfterTurns(lease, Opened(began), turns) == View()
    }

    /** The first heartbeat is out; the executing thread waits for it. */
    constructor (lease: real, now: real)
      requires now >= 0.0
      ensures Valid() && View() == Opened(now) && this.lease == lease
    {
      this.lease, began, clock := lease, now, now;
      deadline, status, attempt, renewing, stopped := 0.0, Unconfirmed, 1, true, false;
      renewer, caller, turns := InFlight(now, None), Entering, [];
    }

    /** Whatever was done so far, the guard's invariant holds, and a guard that refuses refuses for good. */
    lemma Facts()
      requires Valid()
      ensures WorkerOk(View())
    {
      WorkerRuns(lease, Opened(began), turns);
    }

    ghost method Did(before: Worker, t: Turn)
      requires began >= 0.0 && Turns(lease, Opened(began), turns) && AfterTurns(lease, Opened(began), turns) == before
      requires CanTurn(before, t) && Turned(lease, before, t) == View()
      modifies this`turns
      ensures Valid() && turns == old(turns) + [t]
    {
      ExtendTurns(lease, Opened(began), turns, t);
      turns := turns + [t];
    }

    method Take(t: Turn)
      requires Valid() && CanTurn(View(), t)
      modifies this
      ensures Valid() && View() == Turned(lease, old(View()), t)
    {
      ghost var before := View();
      var w := Turned(lease, View(), t);
      clock, renewer, caller := w.clock, w.renewer, w.caller;
      deadline, status, attempt := w.shared.deadline, w.shared.status, w.shared.attempt;
      renewing, stopped := w.shared.renewing, w.shared.stopped;
      Did(before, t);
    }

    /** The clock and the renewal thread act while the executing thread is outside the lock. */
    method Meanwhile(others: seq<Turn>)
      requires Valid()
      modifies this
      ensures Valid() && View() == Others(lease, old(View()), others)
    {
      for i := 0 to |others|
        invariant Valid() && Others(lease, View(), others[i..]) == Others(lease, old(View()), others)
      {
        assert others[i..][0] == others[i] && others[i..][1..] == others[i + 1..];
        if ByOthers(others[i]) && CanTurn(View(), others[i]) { Take(others[i]); }
      }
    }

    /** Returns only for a confirmed owner before its deadline; raises only for good. */
    method RequireHealthyLease(others: nat -> seq<Turn>, limit: nat) returns (answer: Answer)
      requires Valid() && caller != Entering
      modifies this
      ensures Valid() && caller == old(caller)
      ensures answer == Yes ==> status == Healthy && clock < deadline
      ensures answer == No ==> Refuses(View())
      ensures old(Refuses(View())) && limit > 0 ==> answer == No
    {
      answer := NotYet;
      var i := 0;
      while i < limit && answer == NotYet
        invariant Valid() && caller == old(caller)
        invariant answer == Yes ==> status == Healthy && clock < deadline
        invariant answer == No ==> Refuses(View())
        invariant answer != NotYet ==> i > 0
        invariant old(Refuses(View())) ==> Refuses(View()) && answer != Yes && (i > 0 ==> answer == No)
      {
        answer := CheckOnce();
        if answer == NotYet {
          Facts();
          OthersRun(lease, View(), others(i));
          Meanwhile(others(i));
        }
        i := i + 1;
      }
    }

    /** One turn of the check, under the lock. */
    method CheckOnce() returns (answer: Answer)
      requires Valid() && caller != Entering
      modifies this`status, this`turns
      ensures Valid()
      ensures answer == Yes <==> old(status) == Healthy && clock < deadline
      ensures answer == No <==> old(Refuses(View()))
      ensures answer == No ==> Refuses(View())
      ensures answer != No ==> status == old(status)
    {
      ghost var before := View();
      var remaining := deadline - clock;
      if status == Lost || status == GracefulStop || remaining <= 0.0 {
        status := Lost;
        answer := No;
      } else {
        answer := if status == Healthy then Yes else NotYet;
      }
      Did(before, Make(Health));
    }

    /** One turn of the handoff's waiting section: only a confirmed, quiet owner may stop its verifier. */
    method GateOnce() returns (answer: Answer)
      requires Valid() && caller == Executing
      modifies this`status, this`stopped, this`caller, this`turns
      ensures Valid()
      ensures answer == Yes ==> caller == Stopping
      ensures answer == No ==> Refuses(View())
      ensures answer == NotYet ==> caller == Executing
      ensures old(Refuses(View())) ==> answer == No
    {
      ghost var before := View();
      var remaining := deadline - clock;
      if status == Lost || status == GracefulStop || remaining <= 0.0 {
        status := Lost;
        answer := No;
      } else if status == Healthy && !renewing {
        stopped, caller := true, Stopping;
        answer := Yes;
      } else {
        answer := NotYet;
      }
      Did(before, Make(HandoffGate));
    }

    /** The handoff's last section, after the renewal thread is gone. */
    method CommitOnce() returns (granted: bool)
      requires Valid() && caller == Stopping && renewer.Exited?
      modifies this`status, this`caller, this`turns
      ensures Valid() && Refuses(View())
      ensures granted <==> caller == HandedOff
      ensures granted ==> clock < deadline
    {
      ghost var before := View();
      granted := status == Healthy && clock < deadline;
      status := if granted then GracefulStop else Lost;
      caller := if granted then HandedOff else Executing;
      Did(before, Make(HandoffCommit));
    }

    /** A handoff that answers, yes or no, spends the guard: from then on every check and every handoff raises.
        Granted, it returns the confirmed deadline, still ahead, with the renewal thread gone. */
    method TerminalHandoff(others: nat -> seq<Turn>, joining: seq<Turn>, limit: nat)
      returns (answer: Answer, confirmed: real)
      requires Valid() && caller == Executing
      modifies this
      ensures Valid() && (answer != NotYet ==> Refuses(View()))
      ensures answer == Yes ==> confirmed == deadline && clock < deadline && renewer.Exited? && caller == HandedOff
      ensures old(Refuses(View())) && limit > 0 ==> answer == No
    {
      answer, confirmed := NotYet, 0.0;
      var i := 0;
      while i < limit && answer == NotYet
        invariant Valid() && (answer == NotYet ==> caller == Executing)
        invariant answer == Yes ==> caller == Stopping
        invariant answer == No ==> Refuses(View())
        invariant old(Refuses(View())) ==> answer != Yes && (answer == NotYet ==> Refuses(View()) && i == 0)
      {
        answer := GateOnce();
        if answer == NotYet {
          Facts();
          OthersRun(lease, View(), others(i));
          Meanwhile(others(i));
        }
        i := i + 1;
      }
      if answer == Yes {
        Facts();
        OthersRun(lease, View(), joining);
        Meanwhile(joining);
        if !renewer.Exited? { return NotYet, 0.0; }
        var granted := CommitOnce();
        answer, confirmed := if granted then Yes else No, deadline;
        if granted { Facts(); }
      }
    }

    /** The renewal thread's wait is over: it ends if it was stopped, and otherwise reads the clock. */
    method WaitOver() returns (ends: bool)
      requires Valid() && renewer.Idle?
      modifies this`renewer, this`turns
      ensures Valid() && ends == stopped && renewer == if ends then Exited else Sampled(clock)
    {
      ghost var before := View();
      ends := stopped;
      renewer := if ends then Exited else Sampled(clock);
      Did(before, Make(Wake));
    }

    /** Opening section of an attempt: a request goes out only for an owner that is neither stopped nor lost and
        whose deadline was ahead when the clock was read. */
    method BeginAttempt() returns (goes: bool)
      requires Valid() && renewer.Sampled?
      modifies this`status, this`attempt, this`renewing, this`renewer, this`turns
      ensures Valid()
      ensures goes <==> !stopped && old(status) != Lost && old(renewer).started < deadline
      ensures renewer == if goes then InFlight(old(renewer).started, Some(deadline)) else Exited
      ensures old(Refuses(View())) ==> Refuses(View())
    {
      ghost var before := View();
      Facts();
      if Refuses(before) { RefusesKept(lease, before, Make(Enter)); }
      var started := renewer.started;
      goes := false;
      if stopped || status == Lost {
        renewer := Exited;
      } else if started >= deadline {
        status, renewer := Lost, Exited;
      } else {
        attempt, renewing, renewer := attempt + 1, true, InFlight(started, Some(deadline));
        goes := true;
      }
      Did(before, Make(Enter));
    }

    /** The section that takes the answer: an acknowledgement in time moves the deadline to the request's start
        plus the window, an unknown fate in time leaves the owner unconfirmed, anything else loses it. */
    method TakeAnswer(reply: Reply) returns (again: bool)
      requires Valid() && renewer.InFlight? && renewer.previous.Some?
      modifies this`deadline, this`status, this`renewer, this`turns
      ensures Valid() && renewer == Settling(again)
      ensures again && reply == Acknowledged ==>
                status == Healthy && deadline == old(renewer).started + Window(lease) && clock < deadline
      ensures again && reply != Acknowledged ==> status == Unconfirmed
      ensures old(Refuses(View())) || reply == Rejected ==> !again
      ensures !again ==> status == Lost
    {
      ghost var before := View();
      Facts();
      var started, previous := renewer.started, renewer.previous.value;
      again := false;
      match reply {
        case Unknown =>
          if clock >= deadline { status := Lost; } else { status, again := Unconfirmed, true; }
        case Rejected =>
          status := Lost;
        case Acknowledged =>
          if status != Lost {
            var granted := started + Window(lease);
            if clock >= previous || clock >= granted {
              status := Lost;
            } else {
              deadline, status, again := granted, Healthy, true;
            }
          }
      }
      renewer := Settling(again);
      Did(before, Make(match reply case Acknowledged => Ack case Unknown => Drop case Rejected => Refuse));
    }

    /** Closing section of an attempt. */
    method EndAttempt()
      requires Valid() && renewer.Settling? && caller != Entering
      modifies this`renewing, this`renewer, this`turns
      ensures Valid() && !renewing && renewer == if old(renewer).again then Idle else Exited
    {
      ghost var before := View();
      renewing, renewer := false, if renewer.again then Idle else Exited;
      Did(before, Make(Settle));
    }

    /** The renewal thread's attempt after its wait: the opening section, the request with whatever happens
        meanwhile, the answer and the closing section. It says no exactly when the thread ends; an acknowledged
        answer that was in time moves the deadline to the clock reading at its start plus the window. */
    method Attempt(entering: seq<Turn>, during: seq<Turn>, reply: Reply) returns (again: bool)
      requires Valid() && renewer.Idle?
      modifies this
      ensures Valid() && (if again then renewer.Idle? else renewer.Exited?)
      ensures again && reply == Acknowledged ==> status == Healthy && deadline == old(clock) + Window(lease) && clock < deadline
      ensures again && reply != Acknowledged ==> status == Unconfirmed
      ensures old(Refuses(View())) ==> !again
    {
      var ends := WaitOver();
      if ends { return false; }
      MeanwhileCaller(entering);
      var goes := BeginAttempt();
      if !goes { return false; }
      MeanwhileCaller(during);
      Facts();
      again := TakeAnswer(reply);
      EndAttempt();
    }

    /** The clock and the executing thread act while a heartbeat is out. */
    method MeanwhileCaller(others: seq<Turn>)
      requires Valid()
      modifies this
      ensures Valid() && renewer == old(renewer)
      ensures old(Refuses(View())) ==> Refuses(View())
    {
      for i := 0 to |others|
        invariant Valid() && renewer == old(renewer)
        invariant old(Refuses(View())) ==> Refuses(View())
      {
        var t := others[i];
        if (t.Pass? || !ByOthers(t)) && CanTurn(View(), t) {
          Facts();
          if Refuses(View()) { RefusesKept(lease, View(), t); }
          Take(t);
        }
      }
    }

    /** The renewal thread's loop, over as many waits as it lives for. */
    method Renew(waits: nat -> seq<Turn>, entering: nat -> seq<Turn>, during: nat -> seq<Turn>, replies: nat -> Reply, limit: nat)
      requires Valid() && renewer.Idle?
      modifies this
      ensures Valid() && (renewer.Exited? || renewer.Idle?)
      ensures old(Refuses(View())) && limit > 0 ==> renewer.Exited?
    {
      var i := 0;
      while i < limit && renewer.Idle?
        invariant Valid() && (renewer.Exited? || renewer.Idle?)
        invariant old(Refuses(View())) ==> (if i == 0 then Refuses(View()) else renewer.Exited?)
      {
        MeanwhileCaller(waits(i));
        var again := Attempt(entering(i), during(i), replies(i));
        i := i + 1;
      }
    }
  }
}
