/** From `submit` to the screen: the queue, the event writer behind it and a reader that tails the file.

    The queue's consumer hands each record to the writer; the writer redacts it, numbers it and appends a line;
    the reader looks at the file at any time. The three run together, step by step. */
module Delivery {
  import opened Common
  import opened EventTail
  import opened EventWriter
  import opened Projection
  import Telemetry

  /** What a caller submits. */
  datatype Record = Record(trial: Option<string>, payload: Payload)

  datatype System = System(pipe: Telemetry.Pipe<Record>, live: Live)

  datatype Step =
    | Queues(step: Telemetry.Step<Record>)                // anything on the queue but the fate of a held record
    | Writes(now: int, clock: int, outcome: Write)        // the consumer hands its record to the writer
    | Malformed                                           // the consumer cannot make a call of its record
    | CloseWriter                                         // the consumer has left its loop
    | Looks(at: int)

  /** The job as it is configured; `clean` is the writer's redaction. */
  datatype Job = Job(manifest: Manifest, codec: Codec, clean: Record -> Record)

  predicate Can(s: System, step: Step)
  {
    match step
    case Queues(q) => !q.WriteOk? && !q.WriteFails? && Telemetry.Can(s.pipe, q)
    case Writes(_, _, _) => s.pipe.consumer.Holding?
    case Malformed => s.pipe.consumer.Holding?
    case CloseWriter => s.pipe.consumer.Draining?
    case Looks(_) => true
  }

  function CallOf(j: Job, record: Record, now: int, clock: int, outcome: Write): Call
  {
    var r := j.clean(record);
    Emit(r.trial, r.payload, now, clock, outcome)
  }

  /** The append returned instead of raising. */
  predicate Took(before: Writer, after: Writer)
  {
    after.sequence == before.sequence + 1
  }

  function Next(j: Job, s: System, step: Step): System
    requires Can(s, step)
  {
    match step
    case Queues(q) => s.(pipe := Telemetry.Next(s.pipe, q))
    case Writes(now, clock, outcome) =>
      var call := CallOf(j, s.pipe.consumer.record, now, clock, outcome);
      var live := Happens(j.manifest, j.codec, s.live, Calls(call));
      System(Telemetry.Next(s.pipe, if Took(s.live.writer, live.writer) then Telemetry.WriteOk else Telemetry.WriteFails), live)
    case Malformed => s.(pipe := Telemetry.Next(s.pipe, Telemetry.WriteFails))
    case CloseWriter => s.(live := Happens(j.manifest, j.codec, s.live, Calls(Close)))
    case Looks(at) => s.(live := Happens(j.manifest, j.codec, s.live, Happening.Looks(at)))
  }

  ghost predicate Runs(j: Job, s: System, steps: seq<Step>)
    decreases |steps|
  {
    steps != [] ==> Can(s, steps[0]) && Runs(j, Next(j, s, steps[0]), steps[1..])
  }

  ghost function After(j: Job, s: System, steps: seq<Step>): System
    requires Runs(j, s, steps)
    decreases |steps|
  {
    if steps == [] then s else After(j, Next(j, s, steps[0]), steps[1..])
  }

  function Start(bound: nat, limit: nat, clock: int): System
  {
    System(Telemetry.Fresh(bound), Live(Fresh(limit, clock), Reader(Empty, 0, false), clock))
  }

  /** The consumer is still in its loop, or has left it with nothing failed. */
  predicate Sound(p: Telemetry.Pipe<Record>)
  {
    (!p.consumer.Draining? && !p.consumer.Stopped?) || !p.degraded
  }

  /** The i-th event is the i-th record, redacted and numbered. */
  ghost predicate Renders(j: Job, events: seq<Event>, records: seq<Record>)
  {
    && |events| <= |records|
    && forall i :: 0 <= i < |events| ==>
         events[i].sequence == i + 1 && Record(events[i].trial, events[i].payload) == j.clean(records[i])
  }

  /** Until a record fails the writer has taken exactly what the queue counts as written. */
  ghost predicate Together(s: System)
  {
    Sound(s.pipe) ==>
      && !s.live.writer.failed && |s.live.writer.accepted| == |s.pipe.written|
      && s.live.writer.sequence == |s.live.writer.accepted|
  }

  ghost predicate Linked(j: Job, s: System)
  {
    && Telemetry.Inv(s.pipe) && LiveOk(j.manifest, j.codec, s.live)
    && Renders(j, s.live.writer.accepted, s.pipe.submitted) && Together(s)
  }

  lemma QueuesLinked(j: Job, s: System, q: Telemetry.Step<Record>)
    requires Linked(j, s) && Can(s, Queues(q))
    ensures Linked(j, Next(j, s, Queues(q)))
  {
    Telemetry.InvKept(s.pipe, q);
  }

  /** What an append does to the accepted events. */
  lemma AppendedIs(m: Manifest, c: Codec, w: Writer, call: Call)
    requires call.Emit?
    ensures var w' := Called(m, c, w, call);
            var e := Event(w.sequence + 1, call.now, call.trial, call.payload);
            && (w'.accepted == w.accepted || w'.accepted == w.accepted + [e])
            && (Took(w, w') ==> w'.accepted == w.accepted + [e] && w'.failed == w.failed)
  {
  }

  /** The held record is the next one in the order of the queue. */
  lemma NextRendered(j: Job, w: Writer, p: Telemetry.Pipe<Record>, call: Call)
    requires Telemetry.Inv(p) && p.consumer.Holding? && call.Emit? && Record(call.trial, call.payload) == j.clean(p.consumer.record)
    requires Renders(j, w.accepted, p.submitted) && |w.accepted| == |p.written| && w.sequence == |w.accepted|
    ensures Renders(j, w.accepted + [Event(w.sequence + 1, call.now, call.trial, call.payload)], p.submitted)
  {
    assert p.submitted[|p.written|] == p.consumer.record;
  }

  lemma WritesLinked(j: Job, s: System, now: int, clock: int, outcome: Write)
    requires Lawful(j.codec) && Linked(j, s) && Can(s, Writes(now, clock, outcome))
    ensures Linked(j, Next(j, s, Writes(now, clock, outcome)))
  {
    var p, w := s.pipe, s.live.writer;
    var call := CallOf(j, p.consumer.record, now, clock, outcome);
    CallsKeepLive(j.manifest, j.codec, s.live, call);
    AppendedIs(j.manifest, j.codec, w, call);
    NextRendered(j, w, p, call);
    Telemetry.InvKept(p, if Took(w, Called(j.manifest, j.codec, w, call)) then Telemetry.WriteOk else Telemetry.WriteFails);
  }

  lemma StepLinked(j: Job, s: System, step: Step)
    requires Lawful(j.codec) && Linked(j, s) && Can(s, step)
    ensures Linked(j, Next(j, s, step))
  {
    match step
    case Queues(q) => QueuesLinked(j, s, q);
    case Writes(now, clock, outcome) => WritesLinked(j, s, now, clock, outcome);
    case Malformed => Telemetry.InvKept(s.pipe, Telemetry.WriteFails);
    case CloseWriter => CallsKeepLive(j.manifest, j.codec, s.live, Close);
    case Looks(at) => LooksKeep(j.manifest, j.codec, s.live, at);
  }

  lemma {:induction false} RunLinked(j: Job, s: System, steps: seq<Step>)
    requires Lawful(j.codec) && Linked(j, s) && Runs(j, s, steps)
    ensures Linked(j, After(j, s, steps))
    decreases |steps|
  {
    if steps != [] {
      StepLinked(j, s, steps[0]);
      RunLinked(j, Next(j, s, steps[0]), steps[1..]);
    }
  }

  lemma {:induction false} WiresGrow(c: Codec, events: seq<Event>, k: nat)
    requires k <= |events| && |Wires(c, events[..k])| == |Wires(c, events)|
    ensures k == |events|
    decreases |events|
  {
    if events != [] {
      if k > 0 {
        assert events[..k][1..] == events[1..][..k - 1];
        WiresGrow(c, events[1..], k - 1);
      }
    }
  }

  /** The reader's projection is that of these events. */
  ghost predicate Displays(j: Job, s: System, events: seq<Event>)
  {
    Accepts(j.manifest, Empty, events, s.live.clock) == Some(s.live.reader.state)
  }

  /** End to end, in every interleaving of submits, the consumer, torn appends, the close and looks: the reader
      is never refused, and what it displays is the first records that submit accepted, in their order, each
      redacted and numbered, with none left out. A reader at the end of the file displays every record that
      was written, as long as none has failed. */
  lemma DisplayedWasSubmitted(j: Job, bound: nat, limit: nat, clock: int, steps: seq<Step>) returns (events: seq<Event>)
    requires Lawful(j.codec) && Runs(j, Start(bound, limit, clock), steps)
    ensures var s := After(j, Start(bound, limit, clock), steps);
            && !s.live.reader.failed && Displays(j, s, events) && Renders(j, events, s.pipe.submitted)
            && (Sound(s.pipe) && s.live.reader.offset == |s.live.writer.disk| ==> |events| == |s.pipe.written|)
  {
    var s0 := Start(bound, limit, clock);
    assert s0.live.writer.disk[..0] == [];
    RunLinked(j, s0, steps);
    var s := After(j, s0, steps);
    var k := ReaderShows(j.manifest, j.codec, s.live);
    events := s.live.writer.accepted[..k];
    if Sound(s.pipe) && s.live.reader.offset == |s.live.writer.disk| {
      WiresGrow(j.codec, s.live.writer.accepted, k);
    }
  }
}
