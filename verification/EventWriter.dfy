/** The job's event writer, and its agreement with the monitor's reader.

    The writer validates an event with its own projection, then appends one line. An append may fail after
    any number of bytes; the writer then refuses everything else. */
module EventWriter {
  import opened Common
  import opened CatchUp
  import opened EarlyRefusal
  import opened EventTail
  import opened Projection

  /** JSON text of an event, and back. */
  datatype Codec = Codec(encode: Event -> Bytes, decode: Bytes -> Option<Event>)

  /** JSON escapes line breaks, and an event is read back as it was written. */
  ghost predicate Lawful(c: Codec)
  {
    forall e :: Plain(c.encode(e)) && c.decode(c.encode(e)) == Some(e)
  }

  function Wire(c: Codec, e: Event): Bytes
  {
    c.encode(e) + [LF]
  }

  function Wires(c: Codec, events: seq<Event>): Bytes
  {
    if events == [] then [] else Wire(c, events[0]) + Wires(c, events[1..])
  }

  /** What the file system did with a line: all of it, or only the first `n` bytes with an error. */
  datatype Write = Full | Torn(n: nat)

  datatype Writer = Writer(projection: State, sequence: int, bytes: nat, limit: nat, failed: bool, closed: bool,
                           disk: Bytes, accepted: seq<Event>, clock: int)

  function Fresh(limit: nat, clock: int): Writer
  {
    Writer(Empty, 0, 0, limit, false, false, [], [], clock)
  }

  function Later(a: int, b: int): int
  {
    if a <= b then b else a
  }

  /** One append: refused with nothing changed, written whole, or torn. */
  function Appended(m: Manifest, c: Codec, w: Writer, trial: Option<string>, payload: Payload, now: int, clock: int,
                  outcome: Write): Writer
  {
    var e := Event(w.sequence + 1, now, trial, payload);
    var wire := Wire(c, e);
    if w.closed || w.failed || |wire| > LINE_LIMIT || w.bytes + |wire| > w.limit then w
    else
      match Accept(m, w.projection, e, clock)
      case None => w
      case Some(s) =>
        var w' := w.(projection := s, accepted := w.accepted + [e], clock := Later(w.clock, clock));
        match outcome
        case Full => w'.(disk := w.disk + wire, sequence := w.sequence + 1, bytes := w.bytes + |wire|)
        case Torn(n) => w'.(disk := w.disk + (if n <= |wire| then wire[..n] else wire), failed := true)
  }

  datatype Call =
    | Emit(trial: Option<string>, payload: Payload, now: int, clock: int, outcome: Write)
    | Close

  function Called(m: Manifest, c: Codec, w: Writer, call: Call): Writer
  {
    match call
    case Emit(trial, payload, now, clock, outcome) => Appended(m, c, w, trial, payload, now, clock, outcome)
    case Close => w.(closed := true)
  }

  function AfterCalls(m: Manifest, c: Codec, w: Writer, calls: seq<Call>): Writer
    decreases |calls|
  {
    if calls == [] then w else AfterCalls(m, c, Called(m, c, w, calls[0]), calls[1..])
  }

  // ----- what every call keeps -----

  ghost predicate ShortWires(c: Codec, events: seq<Event>)
  {
    forall i :: 0 <= i < |events| ==> |Wire(c, events[i])| <= LINE_LIMIT
  }

  /** The file is a prefix of the lines of the accepted events, and all of them until an append fails. */
  ghost predicate WriterOk(m: Manifest, c: Codec, w: Writer)
  {
    && Accepts(m, Empty, w.accepted, w.clock) == Some(w.projection)
    && ShortWires(c, w.accepted)
    && w.disk <= Wires(c, w.accepted) && |w.disk| <= w.limit
    && (!w.failed ==> w.disk == Wires(c, w.accepted) && w.bytes == |w.disk| && w.sequence == w.projection.sequence)
  }

  lemma {:induction false} AcceptsAppend(m: Manifest, s: State, events: seq<Event>, e: Event, clock: int)
    ensures Accepts(m, s, events + [e], clock) ==
            match Accepts(m, s, events, clock) case None => None case Some(s') => Accept(m, s', e, clock)
    decreases |events|
  {
    if events == [] {
      assert ([] + [e])[1..] == [];
    } else if Accept(m, s, events[0], clock).Some? {
      assert (events + [e])[1..] == events[1..] + [e];
      AcceptsAppend(m, Accept(m, s, events[0], clock).value, events[1..], e, clock);
    }
  }

  lemma {:induction false} AcceptsLater(m: Manifest, s: State, events: seq<Event>, c: int, c': int)
    requires c <= c' && Accepts(m, s, events, c).Some?
    ensures Accepts(m, s, events, c') == Accepts(m, s, events, c)
    decreases |events|
  {
    if events != [] {
      AcceptLater(m, s, events[0], c, c');
      AcceptsLater(m, Accept(m, s, events[0], c).value, events[1..], c, c');
    }
  }

  lemma {:induction false} WiresAppend(c: Codec, events: seq<Event>, e: Event)
    ensures Wires(c, events + [e]) == Wires(c, events) + Wire(c, e)
    decreases |events|
  {
    if events == [] {
      assert ([] + [e])[1..] == [];
    } else {
      assert (events + [e])[1..] == events[1..] + [e];
      WiresAppend(c, events[1..], e);
    }
  }

  lemma CallKeeps(m: Manifest, c: Codec, w: Writer, call: Call)
    requires WriterOk(m, c, w)
    ensures WriterOk(m, c, Called(m, c, w, call))
  {
    var w' := Called(m, c, w, call);
    if call.Emit? && w'.accepted != w.accepted {
      var e := Event(w.sequence + 1, call.now, call.trial, call.payload);
      AcceptsLater(m, Empty, w.accepted, w.clock, w'.clock);
      AcceptLater(m, w.projection, e, call.clock, w'.clock);
      AcceptsAppend(m, Empty, w.accepted, e, w'.clock);
      WiresAppend(c, w.accepted, e);
    }
  }

  lemma {:induction false} CallsKeep(m: Manifest, c: Codec, w: Writer, calls: seq<Call>)
    requires WriterOk(m, c, w)
    ensures WriterOk(m, c, AfterCalls(m, c, w, calls))
    decreases |calls|
  {
    if calls != [] {
      CallKeeps(m, c, w, calls[0]);
      CallsKeep(m, c, Called(m, c, w, calls[0]), calls[1..]);
    }
  }

  // ----- what the reader makes of the file -----

  lemma WireStripped(a: Bytes)
    requires Plain(a)
    ensures Stripped(a + [LF]) == a
  {
    assert (a + [LF])[..|a|] == a;
  }

  /** Lines written one after the other are split where they were joined. */
  lemma FirstWire(c: Codec, e: Event, rest: Bytes)
    requires Lawful(c)
    ensures SplitLines(Wire(c, e) + rest) == [Wire(c, e)] + SplitLines(rest)
  {
    var s := Wire(c, e) + rest;
    assert s == c.encode(e) + ([LF] + rest);
    PlainFirst(c.encode(e), [LF] + rest);
    assert s[..FirstLine(s)] == Wire(c, e) && s[FirstLine(s)..] == rest;
  }

  /** Replaying the lines of some events is accepting those events. */
  lemma {:induction false} ReplayWires(m: Manifest, c: Codec, s: State, events: seq<Event>, clock: int)
    requires Lawful(c) && ShortWires(c, events)
    ensures Replay(LineFold(m, c.decode), s, Wires(c, events), clock) == Accepts(m, s, events, clock)
    decreases |events|
  {
    if events != [] {
      var rest := events[1..];
      FirstWire(c, events[0], Wires(c, rest));
      WireStripped(c.encode(events[0]));
      assert ([Wire(c, events[0])] + SplitLines(Wires(c, rest)))[1..] == SplitLines(Wires(c, rest));
      assert Line(LineFold(m, c.decode), s, Wire(c, events[0]), clock) == Accept(m, s, events[0], clock);
      if Accept(m, s, events[0], clock).Some? {
        ReplayWires(m, c, Accept(m, s, events[0], clock).value, rest, clock);
      }
    }
  }

  /** What is on disk of some events: whole lines of the first `k`, then a torn line. */
  ghost predicate CutInto(c: Codec, events: seq<Event>, d: Bytes, k: nat)
  {
    && k <= |events| && d[..Complete(d)] == Wires(c, events[..k])
    && NoCR(d) && |d| - Complete(d) <= LINE_LIMIT
  }

  lemma CutFirst(c: Codec, events: seq<Event>, d: Bytes)
    requires Lawful(c) && events != [] && |Wire(c, events[0])| <= LINE_LIMIT
    requires |d| < |Wire(c, events[0])| && d == Wire(c, events[0])[..|d|]
    ensures CutInto(c, events, d, 0)
  {
    assert d == c.encode(events[0])[..|d|];
  }

  lemma CutLater(c: Codec, events: seq<Event>, d: Bytes, k: nat)
    requires Lawful(c) && events != [] && CutInto(c, events[1..], d, k)
    ensures CutInto(c, events, Wire(c, events[0]) + d, k + 1)
  {
    var wire := Wire(c, events[0]);
    var d' := wire + d;
    CompleteAfter(wire, d);
    assert d'[..Complete(d')] == wire + d[..Complete(d)];
    assert events[..k + 1][1..] == events[1..][..k];
    assert NoCR(wire);
  }

  /** However the lines of some events are cut off, what is complete is the lines of the first `k` of them,
      and what is torn is shorter than a line may be. */
  lemma {:induction false} CutOff(c: Codec, events: seq<Event>, d: Bytes) returns (k: nat)
    requires Lawful(c) && ShortWires(c, events) && d <= Wires(c, events)
    ensures CutInto(c, events, d, k) && (d == Wires(c, events) ==> k == |events|)
    decreases |events|
  {
    k := 0;
    if events != [] {
      var wire := Wire(c, events[0]);
      if |d| < |wire| {
        CutFirst(c, events, d);
      } else {
        var rest := d[|wire|..];
        assert d == wire + rest && rest <= Wires(c, events[1..]);
        k := CutOff(c, events[1..], rest);
        CutLater(c, events, rest, k);
        k := k + 1;
      }
    }
  }

  /** A cut-off file is one a reader never refuses: its complete lines replay, each within one read, and its
      torn line is within the limit. */
  lemma CutReadable(m: Manifest, c: Codec, events: seq<Event>, d: Bytes, k: nat, clock: int)
    requires Lawful(c) && ShortWires(c, events) && CutInto(c, events, d, k) && Accepts(m, Empty, events, clock).Some?
    ensures Replay(LineFold(m, c.decode), Empty, d[..Complete(d)], clock) == Accepts(m, Empty, events[..k], clock)
    ensures Accepted(LineFold(m, c.decode), Empty, d, clock) && WithinReads(d, 0) && ShortTail(d)
  {
    AcceptsPrefix(m, Empty, events, k, clock);
    ReplayWires(m, c, Empty, events[..k], clock);
    PlainFileWithinReads(LineFold(m, c.decode), Empty, d, clock, 0);
  }

  /** For every run of the writer and every byte prefix `d` of the file it can leave behind, a fresh reader
      accepts `d`, reaches its last complete line, and shows exactly a prefix of the events the writer's own
      projection accepted; on the whole file of a writer that never failed, it shows what the writer shows. */
  lemma WriterReaderAgree(m: Manifest, c: Codec, limit: nat, start: int, calls: seq<Call>, d: Bytes, clock: int)
    requires Lawful(c)
    requires d <= AfterCalls(m, c, Fresh(limit, start), calls).disk
    requires AfterCalls(m, c, Fresh(limit, start), calls).clock <= clock
    ensures var w := AfterCalls(m, c, Fresh(limit, start), calls);
            var f, r0 := LineFold(m, c.decode), Reader(Empty, 0, false);
            var r := Snapshots(f, r0, d, clock, |d|);
            && NeverRefused(f, r0, d, clock) && CaughtUp(r, d)
            && (exists k: nat :: k <= |w.accepted| && Accepts(m, Empty, w.accepted[..k], clock) == Some(r.state))
            && (d == w.disk && !w.failed ==> r.state == w.projection)
  {
    var w := AfterCalls(m, c, Fresh(limit, start), calls);
    var f, r0 := LineFold(m, c.decode), Reader(Empty, 0, false);
    CallsKeep(m, c, Fresh(limit, start), calls);
    AcceptsLater(m, Empty, w.accepted, w.clock, clock);
    var k := CutOff(c, w.accepted, d);
    CutReadable(m, c, w.accepted, d, k, clock);
    assert w.accepted[..|w.accepted|] == w.accepted;
    NeverRefusedExact(f, Empty, d, clock, r0);
    ReadsAll(f, Empty, d, clock, r0, |d|);
    SnapshotsFaithful(f, Empty, d, clock, r0, |d|);
  }

  lemma {:induction false} AcceptsPrefix(m: Manifest, s: State, events: seq<Event>, k: nat, clock: int)
    requires k <= |events| && Accepts(m, s, events, clock).Some?
    ensures Accepts(m, s, events[..k], clock).Some?
    decreases |events|
  {
    if k > 0 {
      assert events[..k][1..] == events[1..][..k - 1];
      AcceptsPrefix(m, Accept(m, s, events[0], clock).value, events[1..], k - 1, clock);
    }
  }

  // ----- a reader that looks while the writer writes -----

  /** The writer, a tailing reader of its file, and the time. */
  datatype Live = Live(writer: Writer, reader: Reader<State>, clock: int)

  /** A call of the writer, or a look of the reader at a reading of the clock. */
  datatype Happening = Calls(call: Call) | Looks(at: int)

  function TimeOf(clock: int, call: Call): int
  {
    if call.Emit? then Later(clock, call.clock) else clock
  }

  function Happens(m: Manifest, c: Codec, l: Live, h: Happening): Live
  {
    if h.Calls? then Live(Called(m, c, l.writer, h.call), l.reader, TimeOf(l.clock, h.call))
    else Live(l.writer, Looked(m, c, l.writer.disk, l.reader, Later(l.clock, h.at)), Later(l.clock, h.at))
  }

  function Looked(m: Manifest, c: Codec, disk: Bytes, r: Reader<State>, clock: int): Reader<State>
  {
    if r.offset <= |disk| then Snapshot(LineFold(m, c.decode), r, disk, clock) else r
  }

  function AfterAll(m: Manifest, c: Codec, l: Live, hs: seq<Happening>): Live
    decreases |hs|
  {
    if hs == [] then l else AfterAll(m, c, Happens(m, c, l, hs[0]), hs[1..])
  }

  /** The reader shows exactly the first `k` of the accepted events, and has read exactly their lines. */
  ghost predicate Shows(m: Manifest, c: Codec, l: Live, k: nat)
  {
    && k <= |l.writer.accepted| && Accepts(m, Empty, l.writer.accepted[..k], l.clock) == Some(l.reader.state)
    && l.reader.offset == |Wires(c, l.writer.accepted[..k])|
  }

  ghost predicate LiveOk(m: Manifest, c: Codec, l: Live)
  {
    && WriterOk(m, c, l.writer) && l.writer.clock <= l.clock && !l.reader.failed
    && Faithful(LineFold(m, c.decode), Empty, l.writer.disk, l.clock, l.reader)
  }

  /** A call only adds bytes. */
  lemma CallAdds(m: Manifest, c: Codec, w: Writer, call: Call) returns (bytes: Bytes)
    ensures Called(m, c, w, call).disk == w.disk + bytes
    ensures Called(m, c, w, call).clock <= TimeOf(w.clock, call)
  {
    bytes := Called(m, c, w, call).disk[|w.disk|..];
  }

  lemma LookKeeps(m: Manifest, c: Codec, w: Writer, r: Reader<State>, clock: int)
    requires Lawful(c) && WriterOk(m, c, w) && w.clock <= clock && !r.failed
    requires Faithful(LineFold(m, c.decode), Empty, w.disk, clock, r)
    ensures !Looked(m, c, w.disk, r, clock).failed
  {
    var f := LineFold(m, c.decode);
    AcceptsLater(m, Empty, w.accepted, w.clock, clock);
    var k := CutOff(c, w.accepted, w.disk);
    CutReadable(m, c, w.accepted, w.disk, k, clock);
    if r.offset > 0 { CompletePast(w.disk, r.offset - 1); }
    if r.offset < Complete(w.disk) {
      assert Boundary(w.disk, r.offset);
      SnapshotAdvances(f, Empty, w.disk, clock, r);
    } else {
      SnapshotAtEnd(f, w.disk, clock, r);
    }
  }

  lemma LookFaithful(m: Manifest, c: Codec, disk: Bytes, r: Reader<State>, before: int, clock: int)
    requires Faithful(LineFold(m, c.decode), Empty, disk, before, r) && before <= clock
    ensures Faithful(LineFold(m, c.decode), Empty, disk, clock, r)
    ensures Faithful(LineFold(m, c.decode), Empty, disk, clock, Looked(m, c, disk, r, clock))
  {
    LineFoldSteady(m, c.decode);
    FaithfulLater(LineFold(m, c.decode), Empty, disk, before, clock, r);
    SnapshotFaithful(LineFold(m, c.decode), Empty, disk, clock, r);
  }

  lemma CallFaithful(m: Manifest, c: Codec, disk: Bytes, bytes: Bytes, r: Reader<State>, before: int, clock: int)
    requires Faithful(LineFold(m, c.decode), Empty, disk, before, r) && before <= clock
    ensures Faithful(LineFold(m, c.decode), Empty, disk + bytes, clock, r)
  {
    LineFoldSteady(m, c.decode);
    FaithfulLater(LineFold(m, c.decode), Empty, disk, before, clock, r);
    FaithfulAppend(LineFold(m, c.decode), Empty, disk, bytes, clock, r);
  }

  lemma LooksKeep(m: Manifest, c: Codec, l: Live, at: int)
    requires Lawful(c) && LiveOk(m, c, l)
    ensures LiveOk(m, c, Happens(m, c, l, Looks(at)))
  {
    var clock := Later(l.clock, at);
    LookFaithful(m, c, l.writer.disk, l.reader, l.clock, clock);
    LookKeeps(m, c, l.writer, l.reader, clock);
  }

  lemma CallsKeepLive(m: Manifest, c: Codec, l: Live, call: Call)
    requires Lawful(c) && LiveOk(m, c, l)
    ensures LiveOk(m, c, Happens(m, c, l, Calls(call)))
  {
    CallKeeps(m, c, l.writer, call);
    var bytes := CallAdds(m, c, l.writer, call);
    CallFaithful(m, c, l.writer.disk, bytes, l.reader, l.clock, TimeOf(l.clock, call));
  }

  lemma {:induction false} HappeningsKeep(m: Manifest, c: Codec, l: Live, hs: seq<Happening>)
    requires Lawful(c) && LiveOk(m, c, l)
    ensures LiveOk(m, c, AfterAll(m, c, l, hs))
    decreases |hs|
  {
    if hs != [] {
      if hs[0].Calls? { CallsKeepLive(m, c, l, hs[0].call); } else { LooksKeep(m, c, l, hs[0].at); }
      HappeningsKeep(m, c, Happens(m, c, l, hs[0]), hs[1..]);
    }
  }

  /** A faithful reader that was not refused shows a prefix of the accepted events. */
  lemma ReaderShows(m: Manifest, c: Codec, l: Live) returns (k: nat)
    requires Lawful(c) && LiveOk(m, c, l)
    ensures Shows(m, c, l, k)
  {
    var d := l.writer.disk[..l.reader.offset];
    if d != [] { CompleteIs(d, |d|); } else { CompleteIs(d, 0); }
    assert d[..|d|] == d;
    k := CutOff(c, l.writer.accepted, d);
    AcceptsLater(m, Empty, l.writer.accepted, l.writer.clock, l.clock);
    CutReadable(m, c, l.writer.accepted, d, k, l.clock);
  }

  /** In every interleaving of appends, torn ones included, a close and snapshots, the tailing reader is never
      refused and always shows exactly a prefix of the events the writer accepted. */
  lemma TailShowsPrefix(m: Manifest, c: Codec, limit: nat, start: int, hs: seq<Happening>)
    requires Lawful(c)
    ensures var l := AfterAll(m, c, Live(Fresh(limit, start), Reader(Empty, 0, false), start), hs);
            !l.reader.failed && exists k: nat :: Shows(m, c, l, k)
  {
    var l0 := Live(Fresh(limit, start), Reader(Empty, 0, false), start);
    assert l0.writer.disk[..0] == [];
    HappeningsKeep(m, c, l0, hs);
    var k := ReaderShows(m, c, AfterAll(m, c, l0, hs));
  }

  // ----- events ended by carriage returns -----

  /** The same events, each ended by a carriage return. */
  function Returns(c: Codec, events: seq<Event>): Bytes
  {
    if events == [] then [] else (c.encode(events[0]) + [CR]) + Returns(c, events[1..])
  }

  lemma {:induction false} ReturnsUnended(c: Codec, events: seq<Event>)
    requires Lawful(c)
    ensures forall i :: 0 <= i < |Returns(c, events)| ==> Returns(c, events)[i] != LF
    ensures events != [] ==> Returns(c, events) != []
    decreases |events|
  {
    if events != [] { ReturnsUnended(c, events[1..]); }
  }

  /** With a line feed at the end they replay as the same events. */
  lemma {:induction false} ReplayReturns(m: Manifest, c: Codec, s: State, events: seq<Event>, clock: int)
    requires Lawful(c) && ShortWires(c, events) && events != []
    ensures Replay(LineFold(m, c.decode), s, Returns(c, events) + [LF], clock) == Accepts(m, s, events, clock)
    decreases |events|
  {
    var f, e, rest := LineFold(m, c.decode), events[0], events[1..];
    var q := c.encode(e);
    var tail := Returns(c, rest) + [LF];
    ReturnsUnended(c, rest);
    if rest == [] {
      LastReturn(m, c, s, e, clock);
      assert Returns(c, events) + [LF] == q + [CR, LF];
      assert events == [e];
    } else {
      ReturnedLine(m, c, s, e, tail, clock);
      assert Returns(c, events) + [LF] == (q + [CR]) + tail;
      if Accept(m, s, e, clock).Some? { ReplayReturns(m, c, Accept(m, s, e, clock).value, rest, clock); }
    }
  }

  lemma LastReturn(m: Manifest, c: Codec, s: State, e: Event, clock: int)
    requires Lawful(c) && |Wire(c, e)| <= LINE_LIMIT
    ensures Replay(LineFold(m, c.decode), s, c.encode(e) + [CR, LF], clock) == Accept(m, s, e, clock)
    ensures Accepts(m, s, [e], clock) == Accept(m, s, e, clock)
  {
    var q := c.encode(e);
    PlainFirst(q, [CR, LF]);
    StrippedPlain(q, [CR, LF]);
    SingleLine(LineFold(m, c.decode), s, q + [CR, LF], clock);
    AcceptsAppend(m, s, [], e, clock);
    assert [] + [e] == [e];
  }

  lemma ReturnedLine(m: Manifest, c: Codec, s: State, e: Event, tail: Bytes, clock: int)
    requires Lawful(c) && |Wire(c, e)| <= LINE_LIMIT && tail != [] && tail[0] != LF
    ensures Replay(LineFold(m, c.decode), s, (c.encode(e) + [CR]) + tail, clock) ==
            match Accept(m, s, e, clock) case None => None case Some(s') => Replay(LineFold(m, c.decode), s', tail, clock)
  {
    var f, q := LineFold(m, c.decode), c.encode(e);
    PlainFirst(q, [CR]);
    StrippedPlain(q, [CR]);
    SingleLine(f, s, q + [CR], clock);
    ReplayCut(f, s, q + [CR], tail, clock);
  }

  /** Any accepted events ended by carriage returns, once they are longer than a line may be: the monitor's own
      reader refuses them, before the line feed arrives, and even with it on disk when it lies past the first
      read, although the file replays as exactly those events. */
  lemma ReturnsRefused(m: Manifest, c: Codec, events: seq<Event>, clock: int)
    requires Lawful(c) && ShortWires(c, events) && Accepts(m, Empty, events, clock).Some?
    requires |Returns(c, events)| > LINE_LIMIT
    ensures var f, r, file := LineFold(m, c.decode), Reader(Empty, 0, false), Returns(c, events);
            && Snapshot(f, r, file, clock).failed
            && (|file| >= READ_BUDGET ==> Snapshot(f, r, file + [LF], clock).failed)
            && Replay(f, Empty, file + [LF], clock) == Accepts(m, Empty, events, clock)
  {
    ReturnsUnended(c, events);
    ReplayReturns(m, c, Empty, events, clock);
    LongRead(LineFold(m, c.decode), Empty, Returns(c, events), [], clock);
    assert Returns(c, events) + [] == Returns(c, events);
    if |Returns(c, events)| >= READ_BUDGET { LongRead(LineFold(m, c.decode), Empty, Returns(c, events), [LF], clock); }
  }

  lemma LongRead(f: Fold<State>, init: State, c: Bytes, more: Bytes, clock: int)
    requires |c| > LINE_LIMIT && (forall i :: 0 <= i < |c| ==> c[i] != LF) && (more == [] || |c| >= READ_BUDGET)
    ensures Snapshot(f, Reader(init, 0, false), c + more, clock).failed
  {
    var chunk := Chunk(c + more, 0);
    assert |chunk| > LINE_LIMIT && forall i :: 0 <= i < |chunk| ==> chunk[i] == c[i];
    CompleteIs(chunk, 0);
  }

  // ----- the writer object -----

  class JobEvents {
    const codec: Codec
    const projection: JobProjection
    const limit: nat
    var sequence: int
    var bytes: nat
    var failed: bool
    var closed: bool
    var disk: Bytes
    ghost var accepted: seq<Event>
    ghost var clock: int

    ghost function View(): Writer
      reads this, projection
    {
      Writer(projection.View(), sequence, bytes, limit, failed, closed, disk, accepted, clock)
    }

    constructor (m: Manifest, c: Codec, quota: nat, now: int)
      ensures codec == c && limit == quota && fresh(projection) && projection.manifest == m
      ensures View() == Fresh(quota, now)
    {
      codec, limit := c, quota;
      projection := new JobProjection(m);
      sequence, bytes, failed, closed, disk, accepted, clock := 0, 0, false, false, [], [], now;
    }

    /** `outcome` is what the file system does if it is asked to write. */
    method AppendEvent(trial: Option<string>, payload: Payload, now: int, at: int, outcome: Write) returns (ok: bool)
      modifies this, projection
      ensures View() == Appended(projection.manifest, codec, old(View()), trial, payload, now, at, outcome)
      ensures ok <==> sequence == old(sequence) + 1
      ensures !ok ==> sequence == old(sequence) && bytes == old(bytes)
    {
      if closed || failed { return false; }
      var e := Event(sequence + 1, now, trial, payload);
      var wire := Wire(codec, e);
      if |wire| > LINE_LIMIT || bytes + |wire| > limit { return false; }
      var valid := projection.Event(e, at);
      if !valid { return false; }
      accepted, clock := accepted + [e], Later(clock, at);
      ok := WriteLine(wire, outcome);
    }

    /** Hands a line to the file system; the counters advance only when all of it is there. */
    method WriteLine(wire: Bytes, outcome: Write) returns (ok: bool)
      modifies this`disk, this`failed, this`sequence, this`bytes
      ensures ok <==> outcome.Full?
      ensures disk == old(disk) + (if outcome.Full? || outcome.n > |wire| then wire else wire[..outcome.n])
      ensures if ok then sequence == old(sequence) + 1 && bytes == old(bytes) + |wire| && failed == old(failed)
              else sequence == old(sequence) && bytes == old(bytes) && failed
    {
      match outcome {
        case Full =>
          disk := disk + wire;
        case Torn(n) =>
          disk := disk + (if n <= |wire| then wire[..n] else wire);
          failed := true;
          return false;
      }
      sequence := sequence + 1;
      bytes := bytes + |wire|;
      ok := true;
    }

    /** Closing leaves the file as it is, and from then on no call changes anything. */
    method CloseFile()
      modifies this`closed
      ensures disk == old(disk) && accepted == old(accepted)
      ensures forall call :: Called(projection.manifest, codec, View(), call) == View()
    {
      closed := true;
    }
  }
}
