/** The monitor's projection: what one decoded event does to the state a viewer sees, with the checks that
    refuse an event. Text redaction and the metrics field are not part of this model. */
module Projection {
  import opened Common
  import opened EventTail

  const STATUSES: set<string> := {"queued", "running", "completed", "failed", "cancelled", "unknown"}
  const PHASES: set<string> := {"queued", "preparing", "admitting", "agent", "verifier", "artifacts", "cleanup", "finished"}
  const LEVELS: set<string> := {"info", "warning", "error"}
  const FINAL: set<string> := {"completed", "failed", "cancelled"}
  const LOG_RING := 100
  const MAX_SEQUENCE := 0x7fff_ffff_ffff_ffff
  const CLOCK_SLACK := 60

  /** The frozen job: memory per task, attempts per task, slots, and the number of trials. */
  datatype Manifest = Manifest(tasks: map<string, int>, attempts: int, maxConcurrent: int, trialCount: nat)

  /** A field that an update may leave out, clear, or set. */
  datatype Field = Absent | Null | Is(value: int)

  datatype Payload =
    | Job(status: string)
    | Log(level: string, message: string)
    | Trial(task: string, attempt: int, status: string, phase: string, slot: Field, holding: Field)
    | Unsupported

  datatype Event = Event(sequence: int, observed: int, trial: Option<string>, payload: Payload)

  datatype Entry = Entry(sequence: int, observed: int, trial: Option<string>, level: string, message: string)

  datatype Row = Row(task: string, attempt: int, status: string, phase: string, slot: Field, holding: Field,
                     memory: int, observed: int, started: Option<int>, finished: Option<int>)

  datatype State = State(sequence: int, last: Option<int>, job: string, logs: seq<Entry>, trials: map<string, Row>)

  const Empty := State(0, None, "unknown", [], map[])

  predicate Text(s: string, maximum: nat)
  {
    s != "" && |s| <= maximum
  }

  predicate InRange(f: Field, low: int, high: int)
  {
    f.Is? ==> low <= f.value <= high
  }

  function Merge(prior: Field, given: Field): Field
  {
    if given.Absent? then prior else given
  }

  function Ring(logs: seq<Entry>, e: Entry): seq<Entry>
  {
    if |logs| < LOG_RING then logs + [e] else logs[1..] + [e]
  }

  predicate Taken(trials: map<string, Row>, id: string, task: string, attempt: int)
  {
    exists other :: other in trials && other != id && trials[other].task == task && trials[other].attempt == attempt
  }

  predicate TrialAccepted(m: Manifest, trials: map<string, Row>, id: string, p: Payload)
    requires p.Trial?
  {
    && Text(id, 256)
    && p.task in m.tasks && 1 <= p.attempt <= m.attempts
    && p.status in STATUSES && p.phase in PHASES
    && InRange(p.slot, 1, m.maxConcurrent) && InRange(p.holding, 0, 1)
    && (if id in trials then trials[id].task == p.task && trials[id].attempt == p.attempt else |trials| < m.trialCount)
    && !Taken(trials, id, p.task, p.attempt)
  }

  function Updated(m: Manifest, trials: map<string, Row>, id: string, p: Payload, observed: int): Row
    requires p.Trial? && p.task in m.tasks
  {
    var row := if id in trials then trials[id]
               else Row(p.task, p.attempt, p.status, p.phase, Absent, Absent, 0, observed, None, None);
    Row(p.task, p.attempt, p.status, p.phase, Merge(row.slot, p.slot), Merge(row.holding, p.holding),
        m.tasks[p.task], observed,
        if row.started == None && p.status == "running" then Some(observed) else row.started,
        if row.finished == None && p.status in FINAL then Some(observed) else row.finished)
  }

  /** One event at a clock reading: the next state, or None when the stream is refused. */
  function Accept(m: Manifest, s: State, e: Event, clock: int): Option<State>
  {
    if !(1 <= e.sequence <= MAX_SEQUENCE) || e.sequence != s.sequence + 1 || e.observed > clock + CLOCK_SLACK then None
    else
      var s' := s.(sequence := e.sequence, last := Some(e.observed));
      match e.payload
      case Job(status) => if status in STATUSES then Some(s'.(job := status)) else None
      case Log(level, message) =>
        if level in LEVELS && Text(message, 4096) && (e.trial.Some? ==> Text(e.trial.value, 256))
        then Some(s'.(logs := Ring(s.logs, Entry(e.sequence, e.observed, e.trial, level, message)))) else None
      case Trial(_, _, _, _, _, _) =>
        if e.trial.Some? && TrialAccepted(m, s.trials, e.trial.value, e.payload)
        then Some(s'.(trials := s.trials[e.trial.value := Updated(m, s.trials, e.trial.value, e.payload, e.observed)])) else None
      case Unsupported => None
  }

  // ----- what the projection keeps -----

  ghost predicate RowOk(m: Manifest, r: Row)
  {
    && r.task in m.tasks && r.memory == m.tasks[r.task] && 1 <= r.attempt <= m.attempts
    && InRange(r.slot, 1, m.maxConcurrent) && InRange(r.holding, 0, 1)
    && (r.status in FINAL ==> r.finished.Some?) && (r.status == "running" ==> r.started.Some?)
  }

  /** At most one trial per task and attempt, no more trials than planned, valid rows. */
  ghost predicate TrialsOk(m: Manifest, trials: map<string, Row>)
  {
    && |trials| <= m.trialCount
    && (forall id | id in trials :: RowOk(m, trials[id]))
    && OnePerAttempt(trials)
  }

  ghost predicate Coherent(m: Manifest, s: State)
  {
    TrialsOk(m, s.trials) && |s.logs| <= LOG_RING
  }

  /** What an update may not change about a row: whose it is, when it first ran, when it first ended. */
  ghost predicate RowExtends(r: Row, r': Row)
  {
    && r'.task == r.task && r'.attempt == r.attempt
    && (r.started.Some? ==> r'.started == r.started) && (r.finished.Some? ==> r'.finished == r.finished)
  }

  ghost predicate Extends(trials: map<string, Row>, trials': map<string, Row>)
  {
    && trials.Keys <= trials'.Keys
    && forall id | id in trials :: RowExtends(trials[id], trials'[id])
  }

  lemma UpdatedRow(m: Manifest, trials: map<string, Row>, id: string, p: Payload, observed: int)
    requires TrialsOk(m, trials) && p.Trial? && TrialAccepted(m, trials, id, p)
    ensures RowOk(m, Updated(m, trials, id, p, observed))
    ensures id in trials ==> RowExtends(trials[id], Updated(m, trials, id, p, observed))
  {
    if id in trials { assert RowOk(m, trials[id]); }
  }

  ghost predicate OnePerAttempt(trials: map<string, Row>)
  {
    forall a, b | a in trials && b in trials && a != b ::
      trials[a].task != trials[b].task || trials[a].attempt != trials[b].attempt
  }

  lemma PutDistinct(trials: map<string, Row>, id: string, row: Row)
    requires OnePerAttempt(trials) && !Taken(trials, id, row.task, row.attempt)
    ensures OnePerAttempt(trials[id := row])
  {
    var trials' := trials[id := row];
    forall a, b | a in trials' && b in trials' && a != b
      ensures trials'[a].task != trials'[b].task || trials'[a].attempt != trials'[b].attempt
    {
      if b == id { assert trials[a].task != row.task || trials[a].attempt != row.attempt; }
      if a == id { assert trials[b].task != row.task || trials[b].attempt != row.attempt; }
    }
  }

  lemma PutTrial(m: Manifest, trials: map<string, Row>, id: string, row: Row)
    requires TrialsOk(m, trials) && RowOk(m, row)
    requires !Taken(trials, id, row.task, row.attempt) && (id !in trials ==> |trials| < m.trialCount)
    requires id in trials ==> RowExtends(trials[id], row)
    ensures TrialsOk(m, trials[id := row]) && Extends(trials, trials[id := row])
  {
    var trials' := trials[id := row];
    assert trials'.Keys == trials.Keys + {id};
    assert |trials'| == |trials'.Keys| && |trials| == |trials.Keys|;
    PutDistinct(trials, id, row);
  }

  lemma AcceptKeeps(m: Manifest, s: State, e: Event, clock: int)
    requires Coherent(m, s) && Accept(m, s, e, clock).Some?
    ensures var s' := Accept(m, s, e, clock).value;
            Coherent(m, s') && Extends(s.trials, s'.trials) && s'.sequence == s.sequence + 1
  {
    if e.payload.Trial? {
      var id := e.trial.value;
      UpdatedRow(m, s.trials, id, e.payload, e.observed);
      PutTrial(m, s.trials, id, Updated(m, s.trials, id, e.payload, e.observed));
    }
  }

  function Accepts(m: Manifest, s: State, events: seq<Event>, clock: int): Option<State>
    decreases |events|
  {
    if events == [] then Some(s)
    else match Accept(m, s, events[0], clock) case None => None case Some(s') => Accepts(m, s', events[1..], clock)
  }

  /** Over every accepted stream: the sequence counts the events, the projection is coherent, and what was
      known about a trial stays known: its task, its attempt, when it first ran and when it first ended. */
  lemma {:induction false} StreamCoherent(m: Manifest, s: State, events: seq<Event>, clock: int)
    requires Coherent(m, s) && Accepts(m, s, events, clock).Some?
    ensures var s' := Accepts(m, s, events, clock).value;
            Coherent(m, s') && Extends(s.trials, s'.trials) && s'.sequence == s.sequence + |events|
    decreases |events|
  {
    if events != [] {
      AcceptKeeps(m, s, events[0], clock);
      StreamCoherent(m, Accept(m, s, events[0], clock).value, events[1..], clock);
    }
  }

  /** The reader's fold: decode a line, then accept the event. */
  function LineFold(m: Manifest, decode: Bytes -> Option<Event>): Fold<State>
  {
    (s: State, line: Bytes, clock: int) =>
      match decode(line) case None => None case Some(e) => Accept(m, s, e, clock)
  }

  lemma AcceptLater(m: Manifest, s: State, e: Event, c: int, c': int)
    requires c <= c' && Accept(m, s, e, c).Some?
    ensures Accept(m, s, e, c') == Accept(m, s, e, c)
  {
  }

  /** A later clock never takes an accepted event back. */
  lemma LineFoldSteady(m: Manifest, decode: Bytes -> Option<Event>)
    ensures Steady(LineFold(m, decode))
  {
    var f := LineFold(m, decode);
    forall s, line, c, c' | c <= c' && f(s, line, c).Some? ensures f(s, line, c') == f(s, line, c) {
      AcceptLater(m, s, decode(line).value, c, c');
    }
  }

  // ----- the object the reader and the writer share -----

  class JobProjection {
    const manifest: Manifest
    var sequence: int
    var last: Option<int>
    var job: string
    var logs: seq<Entry>
    var trials: map<string, Row>

    function View(): State
      reads this
    {
      State(sequence, last, job, logs, trials)
    }

    constructor (m: Manifest)
      ensures manifest == m && View() == Empty
    {
      manifest, sequence, last, job, logs, trials := m, 0, None, "unknown", [], map[];
    }

    /** Looks through the known trials for another one of the same task and attempt. */
    method Duplicate(id: string, task: string, attempt: int) returns (found: bool)
      ensures found == Taken(trials, id, task, attempt)
    {
      var rest := trials.Keys;
      while rest != {}
        invariant rest <= trials.Keys
        invariant forall other | other in trials.Keys - rest ::
                    other == id || trials[other].task != task || trials[other].attempt != attempt
        decreases |rest|
      {
        var other :| other in rest;
        if other != id && trials[other].task == task && trials[other].attempt == attempt {
          return true;
        }
        rest := rest - {other};
      }
      found := false;
    }

    /** One decoded event; a refused one leaves the projection as it was. */
    method Event(e: Event, clock: int) returns (ok: bool)
      modifies this
      ensures ok == Accept(manifest, old(View()), e, clock).Some?
      ensures View() == if ok then Accept(manifest, old(View()), e, clock).value else old(View())
    {
      if !(1 <= e.sequence <= MAX_SEQUENCE) || e.sequence != sequence + 1 || e.observed > clock + CLOCK_SLACK {
        return false;
      }
      match e.payload {
        case Job(status) =>
          if status !in STATUSES { return false; }
          job := status;
        case Log(level, message) =>
          if level !in LEVELS || !Text(message, 4096) || (e.trial.Some? && !Text(e.trial.value, 256)) { return false; }
          logs := Ring(logs, Entry(e.sequence, e.observed, e.trial, level, message));
        case Trial(task, attempt, status, phase, slot, holding) =>
          if e.trial.None? || !Text(e.trial.value, 256) { return false; }
          var id := e.trial.value;
          if task !in manifest.tasks || !(1 <= attempt <= manifest.attempts) { return false; }
          if status !in STATUSES || phase !in PHASES { return false; }
          if !InRange(slot, 1, manifest.maxConcurrent) || !InRange(holding, 0, 1) { return false; }
          if id in trials {
            if trials[id].task != task || trials[id].attempt != attempt { return false; }
          } else if |trials| >= manifest.trialCount {
            return false;
          }
          var duplicate := Duplicate(id, task, attempt);
          if duplicate { return false; }
          trials := trials[id := Updated(manifest, trials, id, e.payload, e.observed)];
        case Unsupported =>
          return false;
      }
      sequence := e.sequence;
      last := Some(e.observed);
      ok := true;
    }
  }
}
