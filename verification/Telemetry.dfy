/** The bounded best-effort queue in front of the event writer.

    Any number of threads submit; one consumer thread takes records off the queue and writes them. A submit
    reads the two flags first and puts its record later, so both threads interleave between any two of these
    steps. */
module Telemetry {
  import opened Common

  /** Where the consumer's loop stands. */
  datatype Consumer<T> = AtTest | AtGet | AtEmpty | Holding(record: T) | Draining | Stopped

  /** `entered` counts submits that have passed the flags and not yet put; `submitted` holds the records for
      which submit answered yes, in the order of the queue; `written` those the writer took. */
  datatype Pipe<T> = Pipe(queue: seq<T>, bound: nat, degraded: bool, closed: bool, entered: nat,
                          consumer: Consumer<T>, submitted: seq<T>, written: seq<T>)

  datatype Step<T> =
    | Enter
    | Put(record: T)
    | PutOversized
    | Test
    | Get
    | Look
    | WriteOk
    | WriteFails
    | Drain
    | Close

  predicate Can<T>(p: Pipe<T>, step: Step<T>)
  {
    match step
    case Enter => !p.closed && !p.degraded
    case Put(_) => p.entered > 0
    case PutOversized => p.entered > 0
    case Test => p.consumer.AtTest?
    case Get => p.consumer.AtGet?
    case Look => p.consumer.AtEmpty?
    case WriteOk => p.consumer.Holding?
    case WriteFails => p.consumer.Holding?
    case Drain => p.consumer.Draining?
    case Close => true
  }

  function Next<T>(p: Pipe<T>, step: Step<T>): Pipe<T>
    requires Can(p, step)
  {
    match step
    case Enter => p.(entered := p.entered + 1)
    case Put(record) =>
      if |p.queue| < p.bound
      then p.(entered := p.entered - 1, queue := p.queue + [record], submitted := p.submitted + [record])
      else p.(entered := p.entered - 1, degraded := true)
    case PutOversized => p.(entered := p.entered - 1, degraded := true)
    case Test => p.(consumer := if p.degraded then Draining else AtGet)
    case Get =>
      if p.queue != [] then p.(consumer := Holding(p.queue[0]), queue := p.queue[1..])
      else p.(consumer := AtEmpty)
    case Look => p.(consumer := if p.closed then Draining else AtTest)
    case WriteOk => p.(consumer := AtTest, written := p.written + [p.consumer.record])
    case WriteFails => p.(consumer := Draining, degraded := true)
    case Drain => if p.queue != [] then p.(queue := p.queue[1..]) else p.(consumer := Stopped)
    case Close => p.(closed := true)
  }

  ghost predicate Runs<T>(p: Pipe<T>, steps: seq<Step<T>>)
    decreases |steps|
  {
    steps != [] ==> Can(p, steps[0]) && Runs(Next(p, steps[0]), steps[1..])
  }

  ghost function After<T>(p: Pipe<T>, steps: seq<Step<T>>): Pipe<T>
    requires Runs(p, steps)
    decreases |steps|
  {
    if steps == [] then p else After(Next(p, steps[0]), steps[1..])
  }

  function Fresh<T>(bound: nat): Pipe<T>
  {
    Pipe([], bound, false, false, 0, AtTest, [], [])
  }

  /** While the consumer runs nothing is missing; afterwards what was written is still a prefix. */
  ghost predicate Inv<T>(p: Pipe<T>)
  {
    && |p.queue| <= p.bound
    && match p.consumer
       case AtTest => p.submitted == p.written + p.queue
       case AtGet => p.submitted == p.written + p.queue
       case AtEmpty => p.submitted == p.written + p.queue
       case Holding(record) => p.submitted == p.written + [record] + p.queue
       case _ => p.written <= p.submitted && |p.written| + |p.queue| <= |p.submitted|
  }

  lemma InvKept<T>(p: Pipe<T>, step: Step<T>)
    requires Inv(p) && Can(p, step)
    ensures Inv(Next(p, step))
    ensures p.written <= Next(p, step).written && p.submitted <= Next(p, step).submitted
  {
    var p' := Next(p, step);
    match step
    case Put(record) =>
      if |p.queue| < p.bound {
        if p.consumer.Holding? {
          assert p'.submitted == p.written + [p.consumer.record] + p'.queue;
        } else if p.consumer.AtTest? || p.consumer.AtGet? || p.consumer.AtEmpty? {
          assert p'.submitted == p.written + p'.queue;
        }
      }
    case Get =>
      if p.queue != [] { assert p.queue == [p.queue[0]] + p'.queue; }
    case _ =>
  }

  lemma {:induction false} RunKeeps<T>(p: Pipe<T>, steps: seq<Step<T>>)
    requires Inv(p) && Runs(p, steps)
    ensures Inv(After(p, steps))
    ensures p.written <= After(p, steps).written && p.submitted <= After(p, steps).submitted
    decreases |steps|
  {
    if steps != [] {
      InvKept(p, steps[0]);
      RunKeeps(Next(p, steps[0]), steps[1..]);
    }
  }

  /** In every interleaving what the writer took is a prefix, without a gap, of what submit accepted, and the
      queue stays within its bound. */
  lemma WrittenIsPrefix<T>(bound: nat, steps: seq<Step<T>>)
    requires Runs(Fresh(bound), steps)
    ensures var p := After(Fresh(bound), steps);
            Inv(p) && p.written <= p.submitted && |p.queue| <= bound
  {
    RunKeeps(Fresh(bound), steps);
    BoundKept(Fresh(bound), steps);
  }

  lemma {:induction false} BoundKept<T>(p: Pipe<T>, steps: seq<Step<T>>)
    requires Runs(p, steps)
    ensures After(p, steps).bound == p.bound
    decreases |steps|
  {
    if steps != [] { BoundKept(Next(p, steps[0]), steps[1..]); }
  }

  // ----- closing -----

  /** Closed with no submit under way and no record behind an empty answer: the consumer leaves its loop
      only with nothing left, or degraded. */
  ghost predicate Closing<T>(p: Pipe<T>)
  {
    && Inv(p) && p.closed && p.entered == 0
    && (p.consumer.AtEmpty? ==> p.queue == [])
    && ((p.consumer.Draining? || p.consumer.Stopped?) && !p.degraded ==> p.written == p.submitted)
  }

  lemma {:induction false} ClosingKept<T>(p: Pipe<T>, steps: seq<Step<T>>)
    requires Closing(p) && Runs(p, steps)
    ensures Closing(After(p, steps))
    decreases |steps|
  {
    if steps != [] {
      InvKept(p, steps[0]);
      ClosingKept(Next(p, steps[0]), steps[1..]);
    }
  }

  ghost predicate Loses<T>(p: Pipe<T>, steps: seq<Step<T>>)
  {
    && Runs(p, steps) && After(p, steps).consumer.Stopped? && !After(p, steps).degraded
    && After(p, steps).written != After(p, steps).submitted
  }

  /** Some run from `p` stops without being degraded and yet never writes a record that submit accepted. */
  ghost predicate CanLose<T(!new)>(p: Pipe<T>)
  {
    exists steps :: Loses(p, steps)
  }

  lemma Before<T(!new)>(p: Pipe<T>, step: Step<T>)
    requires Can(p, step) && CanLose(Next(p, step))
    ensures CanLose(p)
  {
    var steps :| Loses(Next(p, step), steps);
    assert ([step] + steps)[1..] == steps;
    assert Loses(p, [step] + steps);
  }

  /** Once the loop is left with an accepted record unwritten, nobody will write it. */
  lemma {:induction false} LeftBehind<T(!new)>(p: Pipe<T>)
    requires p.consumer.Draining? && !p.degraded && p.written != p.submitted
    ensures CanLose(p)
    decreases |p.queue|
  {
    if p.queue != [] {
      LeftBehind(Next(p, Drain));
    } else {
      var none: seq<Step<T>> := [];
      assert Loses(Next(p, Drain), none);
    }
    Before(p, Drain);
  }

  /** A submit that has passed the flags can put its record after the consumer has left its loop. */
  lemma {:induction false} LateSubmit<T(!new)>(p: Pipe<T>, record: T)
    requires Inv(p) && p.closed && !p.degraded && p.bound > 0 && p.entered > 0
    ensures CanLose(p)
    decreases |p.queue|, match p.consumer case Holding(_) => 3 case AtTest => 2 case AtGet => 1 case _ => 0
  {
    match p.consumer
    case Draining =>
      if p.written == p.submitted {
        var p' := Next(p, Put(record));
        LeftBehind(p');
        Before(p, Put(record));
      } else {
        LeftBehind(p);
      }
    case Stopped =>
      var none: seq<Step<T>> := [];
      if p.written == p.submitted {
        assert Loses(Next(p, Put(record)), none);
        Before(p, Put(record));
      } else {
        assert Loses(p, none);
      }
    case AtTest =>
      LateSubmit(Next(p, Test), record);
      Before(p, Test);
    case AtGet =>
      InvKept(p, Get);
      if p.queue == [] { PutBehind(Next(p, Get), record); } else { LateSubmit(Next(p, Get), record); }
      Before(p, Get);
    case AtEmpty =>
      PutBehind(p, record);
    case Holding(x) =>
      InvKept(p, WriteOk);
      LateSubmit(Next(p, WriteOk), record);
      Before(p, WriteOk);
  }

  lemma PutBehind<T(!new)>(p: Pipe<T>, record: T)
    requires Inv(p) && p.closed && !p.degraded && p.bound > 0 && p.entered > 0 && p.consumer.AtEmpty?
    ensures CanLose(p)
  {
    if p.queue == [] {
      var p' := Next(p, Put(record));
      assert p'.submitted != p'.written;
      LeftBehind(Next(p', Look));
      Before(p', Look);
      Before(p, Put(record));
    } else {
      LeftBehind(Next(p, Look));
      Before(p, Look);
    }
  }

  /** A record the consumer will not see: put behind its empty answer, or unwritten when it left its loop. */
  predicate Missed<T(==)>(p: Pipe<T>)
  {
    match p.consumer
    case AtEmpty => p.queue != []
    case Draining => p.written != p.submitted
    case Stopped => p.written != p.submitted
    case _ => false
  }

  lemma MissedIsLost<T(!new)>(p: Pipe<T>)
    requires Inv(p) && p.closed && !p.degraded && Missed(p)
    ensures CanLose(p)
  {
    if p.consumer.AtEmpty? {
      LeftBehind(Next(p, Look));
      Before(p, Look);
    } else if p.consumer.Draining? {
      LeftBehind(p);
    } else {
      var none: seq<Step<T>> := [];
      assert Loses(p, none);
    }
  }

  lemma {:induction false} DegradedStays<T>(p: Pipe<T>, steps: seq<Step<T>>)
    requires p.degraded && Runs(p, steps)
    ensures After(p, steps).degraded
    decreases |steps|
  {
    if steps != [] { DegradedStays(Next(p, steps[0]), steps[1..]); }
  }

  /** An accepted record can be lost without the queue ever being marked degraded exactly when it is not
      degraded yet and is still open, or a submit has passed the flags but not put yet, or a record was put
      behind the consumer's empty answer or left behind when the consumer left its loop. */
  lemma SilentLoss<T(!new)>(p: Pipe<T>, record: T)
    requires Inv(p) && p.bound > 0
    ensures CanLose(p) <==> !p.degraded && (!p.closed || p.entered > 0 || Missed(p))
  {
    if p.degraded {
      forall steps ensures !Loses(p, steps) {
        if Runs(p, steps) { DegradedStays(p, steps); }
      }
    } else if !p.closed {
      var p' := Next(p, Enter);
      LateSubmit(Next(p', Close), record);
      Before(p', Close);
      Before(p, Enter);
    } else if p.entered > 0 {
      LateSubmit(p, record);
    } else if Missed(p) {
      MissedIsLost(p);
    } else {
      forall steps ensures !Loses(p, steps) {
        if Runs(p, steps) { ClosingKept(p, steps); }
      }
    }
  }

  /** It does happen, in a run from the start: a submit passes the flags, the queue is closed, the consumer
      leaves its loop, the record is put. */
  lemma LossFromStart<T(!new)>(bound: nat, record: T)
    requires bound > 0
    ensures CanLose(Fresh<T>(bound))
  {
    SilentLoss(Fresh<T>(bound), record);
  }

  // ----- the queue object -----

  /** Steps that are not the consumer's. */
  predicate BySubmitters<T>(step: Step<T>)
  {
    step.Enter? || step.Put? || step.PutOversized? || step.Close?
  }

  /** The queue as it is written, with whole calls of `submit` and the consumer's loop. Between any two of
      their critical sections anything may happen that the other threads can do. The object keeps the steps
      taken so far, so that `Valid` says that they are a run of the machine above. */
  class FailOpenProjection<T(!new)> {
    const bound: nat
    var queue: seq<T>
    var degraded: bool
    var closed: bool
    var consumer: Consumer<T>
    var entered: nat
    var submitted: seq<T>
    var written: seq<T>
    ghost var steps: seq<Step<T>>

    function View(): Pipe<T>
      reads this
    {
      Pipe(queue, bound, degraded, closed, entered, consumer, submitted, written)
    }

    ghost predicate Valid()
      reads this
    {
      Runs(Fresh(bound), steps) && After(Fresh(bound), steps) == View()
    }

    constructor (maxPending: nat)
      ensures Valid() && bound == maxPending && View() == Fresh(maxPending)
    {
      bound, queue, degraded, closed, consumer := maxPending, [], false, false, AtTest;
      entered, submitted, written, steps := 0, [], [], [];
    }

    ghost method Did(before: Pipe<T>, step: Step<T>)
      requires Runs(Fresh(bound), steps) && After(Fresh(bound), steps) == before
      requires Can(before, step) && Next(before, step) == View()
      modifies this`steps
      ensures Valid() && steps == old(steps) + [step]
    {
      Extend(Fresh(bound), steps, step);
      steps := steps + [step];
    }

    /** The other threads act; the `mine` submits that are under way elsewhere stay under way. */
    method Interfere(others: seq<Step<T>>, mine: nat, submitters: bool)
      requires Valid() && mine <= entered
      modifies this
      ensures Valid() && old(steps) <= steps && mine <= entered
      ensures submitters ==> consumer == old(consumer)
      ensures old(closed) ==> closed
    {
      for i := 0 to |others|
        invariant Valid() && old(steps) <= steps && mine <= entered
        invariant submitters ==> consumer == old(consumer)
        invariant old(closed) ==> closed
      {
        var step := others[i];
        if Can(View(), step) && (submitters ==> BySubmitters(step)) && (step.Put? || step.PutOversized? ==> mine < entered) {
          OtherStep(step);
        }
      }
    }

    method OtherStep(step: Step<T>)
      requires Valid() && Can(View(), step)
      modifies this
      ensures Valid() && old(steps) <= steps && View() == Next(old(View()), step)
    {
      ghost var before := View();
      var p := Next(View(), step);
      queue, degraded, closed, consumer := p.queue, p.degraded, p.closed, p.consumer;
      entered, submitted, written := p.entered, p.submitted, p.written;
      Did(before, step);
    }

    /** A whole submit; `others` is what happens between its flag test and its put. A yes means the record is
        queued behind everything accepted before it, a no that this submit has left nothing behind. */
    method Submit(record: T, fits: bool, others: seq<Step<T>>) returns (accepted: bool)
      requires Valid()
      modifies this
      ensures Valid() && old(steps) <= steps
      ensures accepted ==> submitted != [] && submitted[|submitted| - 1] == record
      ensures old(closed) || old(degraded) ==> !accepted && View() == old(View())
      ensures !accepted ==> degraded || View() == old(View())
    {
      if closed || degraded { return false; }
      ghost var before := View();
      entered := entered + 1;
      Did(before, Enter);
      Interfere(others, 1, false);
      accepted := PutRecord(record, fits);
    }

    method PutRecord(record: T, fits: bool) returns (accepted: bool)
      requires Valid() && entered > 0
      modifies this
      ensures Valid() && old(steps) <= steps
      ensures accepted <==> fits && |old(queue)| < bound
      ensures accepted ==> submitted == old(submitted) + [record]
      ensures !accepted ==> degraded
    {
      ghost var before := View();
      entered := entered - 1;
      accepted := fits && |queue| < bound;
      if accepted {
        queue, submitted := queue + [record], submitted + [record];
        Did(before, Put(record));
      } else {
        degraded := true;
        Did(before, if fits then Put(record) else PutOversized);
      }
    }

    /** Takes the head of the queue, or sees that it is empty and looks at the closed flag. */
    method GetRecord(others: seq<Step<T>>) returns (record: Option<T>)
      requires Valid() && consumer == AtGet
      modifies this
      ensures Valid() && old(steps) <= steps
      ensures record.Some? ==> consumer == Holding(record.value)
      ensures record.None? ==> consumer == AtTest || (consumer == Draining && closed)
    {
      ghost var before := View();
      if queue != [] {
        record := Some(queue[0]);
        consumer, queue := Holding(queue[0]), queue[1..];
        Did(before, Get);
        return;
      }
      consumer := AtEmpty;
      Did(before, Get);
      Interfere(others, 0, true);
      before := View();
      consumer := if closed then Draining else AtTest;
      Did(before, Look);
      record := None;
    }

    /** Hands a held record to the writer; `ok` is the writer's answer. */
    method WriteRecord(ok: bool)
      requires Valid() && consumer.Holding?
      modifies this
      ensures Valid() && old(steps) <= steps
      ensures if ok then consumer == AtTest && written == old(written) + [old(consumer).record]
              else consumer == Draining && degraded && written == old(written)
    {
      ghost var before := View();
      if ok {
        written, consumer := written + [consumer.record], AtTest;
        Did(before, WriteOk);
      } else {
        degraded, consumer := true, Draining;
        Did(before, WriteFails);
      }
    }

    /** One turn of the loop's body. */
    method Turn(others: nat -> seq<Step<T>>, i: nat, ok: bool)
      requires Valid() && consumer == AtTest
      modifies this
      ensures Valid() && old(steps) <= steps && (consumer == AtTest || consumer == Draining)
    {
      ghost var before := View();
      consumer := if degraded then Draining else AtGet;
      Did(before, Test);
      if consumer == Draining { return; }
      Interfere(others(i), 0, true);
      var record := GetRecord(others(i + 1));
      if record.Some? {
        Interfere(others(i + 2), 0, true);
        WriteRecord(ok);
      }
    }

    /** The consumer thread over as many turns and drained records as it lives for; `ok` are the writer's
        answers. Whatever the submitters do meanwhile, what was written is a prefix of what was accepted. */
    method Run(others: nat -> seq<Step<T>>, ok: nat -> bool, turns: nat)
      requires Valid() && consumer == AtTest
      modifies this
      ensures Valid() && old(steps) <= steps
      ensures written <= submitted && |queue| <= bound
      ensures consumer == AtTest || consumer == Draining || consumer == Stopped
    {
      var i := 0;
      while i < turns && consumer != Draining
        invariant Valid() && old(steps) <= steps && (consumer == AtTest || consumer == Draining)
      {
        Turn(others, 4 * i, ok(i));
        Interfere(others(4 * i + 3), 0, true);
        i := i + 1;
      }
      while i < turns && consumer == Draining
        invariant Valid() && old(steps) <= steps && (consumer == AtTest || consumer == Draining || consumer == Stopped)
      {
        DrainOne();
        Interfere(others(4 * i + 3), 0, true);
        i := i + 1;
      }
      WrittenIsPrefix(bound, steps);
    }

    method DrainOne()
      requires Valid() && consumer == Draining
      modifies this
      ensures Valid() && old(steps) <= steps
      ensures consumer == if old(queue) == [] then Stopped else Draining
    {
      ghost var before := View();
      if queue != [] { queue := queue[1..]; } else { consumer := Stopped; }
      Did(before, Drain);
    }
  }

  lemma {:induction false} Extend<T>(p: Pipe<T>, steps: seq<Step<T>>, step: Step<T>)
    requires Runs(p, steps) && Can(After(p, steps), step)
    ensures Runs(p, steps + [step]) && After(p, steps + [step]) == Next(After(p, steps), step)
    decreases |steps|
  {
    if steps == [] {
      assert ([] + [step])[1..] == [];
    } else {
      assert (steps + [step])[1..] == steps[1..] + [step];
      Extend(Next(p, steps[0]), steps[1..], step);
    }
  }
}
