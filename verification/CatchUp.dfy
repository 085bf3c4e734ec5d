/** When repeated snapshots read a file to its end, and when they are never refused. */
module CatchUp {
  import opened Common
  import opened EventTail

  /** One snapshot as a step from reader to reader. */
  function Look<S>(f: Fold<S>, file: Bytes, clock: int): Reader<S> -> Reader<S>
  {
    (r: Reader<S>) => if r.offset <= |file| then Snapshot(f, r, file, clock) else r
  }

  function Iterate<S>(step: Reader<S> -> Reader<S>, r: Reader<S>, k: nat): Reader<S>
    decreases k
  {
    if k == 0 then r else Iterate(step, step(r), k - 1)
  }

  /** `k` snapshots of the same file. */
  function Snapshots<S>(f: Fold<S>, r: Reader<S>, file: Bytes, clock: int, k: nat): Reader<S>
  {
    Iterate(Look(f, file, clock), r, k)
  }

  /** The start of the file, or the byte after a line feed. */
  ghost predicate Boundary(file: Bytes, o: nat)
  {
    o <= |file| && (o == 0 || file[o - 1] == LF)
  }

  /** From every line-feed boundary past `start`, the next line feed lies within one read. */
  ghost predicate WithinReads(file: Bytes, start: nat)
  {
    forall o: nat :: Boundary(file, o) && start <= o < Complete(file) ==> HasLine(file, o)
  }

  ghost predicate HasLine(file: Bytes, o: nat)
    requires o <= |file|
  {
    Complete(Chunk(file, o)) > 0
  }

  /** The complete lines replay. */
  ghost predicate Accepted<S>(f: Fold<S>, init: S, file: Bytes, clock: int)
  {
    Replay(f, init, file[..Complete(file)], clock).Some?
  }

  /** What is left after the last line feed is no longer than a line may be. */
  ghost predicate ShortTail(file: Bytes)
  {
    |file| - Complete(file) <= LINE_LIMIT
  }

  ghost predicate CaughtUp<S>(r: Reader<S>, file: Bytes)
  {
    !r.failed && r.offset == Complete(file)
  }

  /** Some number of snapshots reaches the last complete line without a refusal. */
  ghost predicate Reaches<S>(f: Fold<S>, r: Reader<S>, file: Bytes, clock: int)
  {
    exists k: nat :: CaughtUp(Snapshots(f, r, file, clock, k), file)
  }

  ghost predicate NeverRefused<S>(f: Fold<S>, r: Reader<S>, file: Bytes, clock: int)
  {
    forall k: nat :: !Snapshots(f, r, file, clock, k).failed
  }

  // ----- one snapshot -----

  lemma {:induction false} ConsumeAll<S>(f: Fold<S>, r: Reader<S>, lines: seq<Bytes>, clock: int)
    requires !r.failed && FoldLines(f, r.state, lines, clock).Some?
    ensures Consume(f, r, lines, clock) == Reader(FoldLines(f, r.state, lines, clock).value, r.offset + Size(lines), false)
    decreases |lines|
  {
    if lines != [] {
      var next := Line(f, r.state, lines[0], clock).value;
      ConsumeAll(f, Reader(next, r.offset + |lines[0]|, false), lines[1..], clock);
    }
  }

  /** Of three pieces cut at line ends, replayed together, the second is accepted after the first. */
  lemma MiddleAccepted<S>(f: Fold<S>, init: S, a: Bytes, b: Bytes, c: Bytes, state: S, clock: int)
    requires Cut(a, b) && Cut(a + b, c) && Replay(f, init, a, clock) == Some(state)
    requires Replay(f, init, (a + b) + c, clock).Some?
    ensures Replay(f, init, a + b, clock).Some? && Replay(f, state, b, clock) == Replay(f, init, a + b, clock)
  {
    ReplayCut(f, init, a, b, clock);
    ReplayCut(f, init, a + b, c, clock);
  }

  /** The rest of the complete lines is accepted from a faithful reader's state. */
  lemma RestAccepted<S>(f: Fold<S>, init: S, file: Bytes, clock: int, r: Reader<S>, m: nat)
    requires Faithful(f, init, file, clock, r) && !r.failed && Accepted(f, init, file, clock)
    requires r.offset <= m <= Complete(file) && (m == 0 || file[m - 1] == LF)
    ensures Replay(f, r.state, file[r.offset..m], clock).Some?
    ensures Replay(f, r.state, file[r.offset..m], clock) == Replay(f, init, file[..m], clock)
  {
    var n := Complete(file);
    var a, b, c := file[..r.offset], file[r.offset..m], file[m..n];
    assert a + b == file[..m] && (a + b) + c == file[..n];
    MiddleAccepted(f, init, a, b, c, r.state, clock);
  }

  /** A stretch of a read that ends with a line feed is a stretch of the file that does. */
  lemma StretchEnds(file: Bytes, o: nat, chunk: Bytes, end: nat, m: nat)
    requires o + |chunk| <= |file| && chunk == file[o..o + |chunk|]
    requires end <= |chunk| && (end > 0 ==> chunk[end - 1] == LF) && m == o + end
    ensures chunk[..end] == file[o..m] && (m == o || file[m - 1] == LF)
  {
  }

  lemma CompletePast(s: Bytes, i: nat)
    requires i < |s| && s[i] == LF
    ensures i < Complete(s)
  {
  }

  lemma ConsumeRest<S>(f: Fold<S>, r: Reader<S>, s: Bytes, clock: int)
    requires !r.failed && Replay(f, r.state, s, clock).Some?
    ensures Consume(f, r, SplitLines(s), clock).offset == r.offset + |s| && !Consume(f, r, SplitLines(s), clock).failed
  {
    ConsumeAll(f, r, SplitLines(s), clock);
    SplitSize(s);
  }

  /** While a complete line is left, a snapshot of accepted lines within reads goes past at least one. */
  lemma SnapshotAdvances<S>(f: Fold<S>, init: S, file: Bytes, clock: int, r: Reader<S>)
    requires Faithful(f, init, file, clock, r) && !r.failed && r.offset < Complete(file)
    requires Accepted(f, init, file, clock) && HasLine(file, r.offset)
    ensures var r' := Snapshot(f, r, file, clock);
            !r'.failed && r.offset < r'.offset <= Complete(file)
  {
    var chunk := Chunk(file, r.offset);
    var m := r.offset + Complete(chunk);
    StretchEnds(file, r.offset, chunk, Complete(chunk), m);
    CompletePast(file, m - 1);
    RestAccepted(f, init, file, clock, r, m);
    ConsumeRest(f, r, file[r.offset..m], clock);
  }

  lemma ReadMoves<S>(f: Fold<S>, file: Bytes, clock: int, r: Reader<S>, chunk: Bytes, end: nat)
    requires !r.failed && r.offset + |chunk| <= |file| && chunk == file[r.offset..r.offset + |chunk|]
    requires 0 < end <= |chunk| && chunk[end - 1] == LF
    requires !Consume(f, r, SplitLines(chunk[..end]), clock).failed
    ensures r.offset < Consume(f, r, SplitLines(chunk[..end]), clock).offset <= Complete(file)
  {
    StretchEnds(file, r.offset, chunk, end, r.offset + end);
    CompletePast(file, r.offset + end - 1);
    Unrefused(f, r, SplitLines(chunk[..end]), clock);
    SplitSize(chunk[..end]);
  }

  lemma NoLineRefused<S>(f: Fold<S>, file: Bytes, clock: int, r: Reader<S>)
    requires !r.failed && r.offset < Complete(file) && !HasLine(file, r.offset)
    ensures Snapshot(f, r, file, clock).failed
  {
    NoLineMeansFull(file, r.offset);
  }

  lemma ChunkIs(file: Bytes, o: nat)
    requires o <= |file|
    ensures o + |Chunk(file, o)| <= |file| && Chunk(file, o) == file[o..o + |Chunk(file, o)|]
  {
  }

  lemma SnapshotReads<S>(f: Fold<S>, file: Bytes, clock: int, r: Reader<S>, chunk: Bytes, end: nat)
    requires !r.failed && r.offset <= |file| && chunk == Chunk(file, r.offset) && end == Complete(chunk) && end > 0
    ensures Snapshot(f, r, file, clock) == Consume(f, r, SplitLines(chunk[..end]), clock) && chunk[end - 1] == LF
  {
  }

  lemma LineMoves<S>(f: Fold<S>, file: Bytes, clock: int, r: Reader<S>, chunk: Bytes, end: nat)
    requires !r.failed && r.offset <= |file| && chunk == Chunk(file, r.offset) && end == Complete(chunk) && end > 0
    requires !Snapshot(f, r, file, clock).failed
    ensures r.offset < Snapshot(f, r, file, clock).offset <= Complete(file)
  {
    ChunkIs(file, r.offset);
    SnapshotReads(f, file, clock, r, chunk, end);
    ReadMoves(f, file, clock, r, chunk, end);
  }

  /** Before the end a snapshot goes forward or refuses; it never stands still. */
  lemma ForwardOrRefused<S>(f: Fold<S>, file: Bytes, clock: int, r: Reader<S>)
    requires !r.failed && r.offset < Complete(file)
    ensures var r' := Snapshot(f, r, file, clock);
            r'.failed || (HasLine(file, r.offset) && r.offset < r'.offset <= Complete(file))
  {
    if !HasLine(file, r.offset) {
      NoLineRefused(f, file, clock, r);
    } else if !Snapshot(f, r, file, clock).failed {
      LineMoves(f, file, clock, r, Chunk(file, r.offset), Complete(Chunk(file, r.offset)));
    }
  }

  lemma LineFrom(file: Bytes, o: nat, x: nat)
    requires o < x <= |file| && x - o <= READ_BUDGET && file[x - 1] == LF
    ensures HasLine(file, o)
  {
    assert Chunk(file, o)[x - 1 - o] == LF;
    CompletePast(Chunk(file, o), x - 1 - o);
  }

  /** A read without a line feed, before the last one of the file, is a full read. */
  lemma NoLineMeansFull(file: Bytes, o: nat)
    requires o < Complete(file) && !HasLine(file, o)
    ensures |Chunk(file, o)| == READ_BUDGET
  {
    if |file| - o <= READ_BUDGET { LineFrom(file, o, Complete(file)); }
  }

  lemma {:induction false} Unrefused<S>(f: Fold<S>, r: Reader<S>, lines: seq<Bytes>, clock: int)
    requires !r.failed && !Consume(f, r, lines, clock).failed
    ensures Consume(f, r, lines, clock).offset == r.offset + Size(lines)
    decreases |lines|
  {
    if lines != [] {
      var next := Line(f, r.state, lines[0], clock).value;
      Unrefused(f, Reader(next, r.offset + |lines[0]|, false), lines[1..], clock);
    }
  }

  /** At the end only the torn line matters. */
  lemma SnapshotAtEnd<S>(f: Fold<S>, file: Bytes, clock: int, r: Reader<S>)
    requires CaughtUp(r, file)
    ensures Snapshot(f, r, file, clock) == if ShortTail(file) then r else r.(failed := true)
  {
    var chunk := Chunk(file, r.offset);
    assert forall i :: 0 <= i < |chunk| ==> chunk[i] == file[r.offset + i];
    assert Complete(chunk) == 0;
  }

  // ----- any number of steps -----

  lemma {:induction false} IterateAdd<S>(step: Reader<S> -> Reader<S>, r: Reader<S>, a: nat, b: nat)
    ensures Iterate(step, r, a + b) == Iterate(step, Iterate(step, r, a), b)
    decreases a
  {
    if a > 0 { IterateAdd(step, step(r), a - 1, b); }
  }

  lemma {:induction false} IterateStays<S>(step: Reader<S> -> Reader<S>, r: Reader<S>, k: nat)
    requires step(r) == r
    ensures Iterate(step, r, k) == r
    decreases k
  {
    if k > 0 { IterateStays(step, r, k - 1); }
  }

  /** What every step keeps, any number of them keep. */
  lemma {:induction false} IterateKeeps<S(!new)>(step: Reader<S> -> Reader<S>, good: Reader<S> -> bool, r: Reader<S>, k: nat)
    requires good(r) && forall x :: good(x) ==> good(step(x))
    ensures good(Iterate(step, r, k))
    decreases k
  {
    if k > 0 { IterateKeeps(step, good, step(r), k - 1); }
  }

  /** Steps that go forward before the end arrive there, in no more steps than there are bytes. */
  lemma {:induction false} IterateArrives<S(!new)>(step: Reader<S> -> Reader<S>, good: Reader<S> -> bool, end: nat, r: Reader<S>)
    returns (k: nat)
    requires good(r) && forall x :: good(x) ==> x.offset <= end && (x.offset < end ==> good(step(x)) && x.offset < step(x).offset)
    ensures k <= end - r.offset && good(Iterate(step, r, k)) && Iterate(step, r, k).offset == end
    decreases end - r.offset
  {
    k := 0;
    if r.offset < end {
      k := IterateArrives(step, good, end, step(r));
      k := k + 1;
    }
  }

  /** To get past a place without a refusal, one of the steps went past it. */
  lemma {:induction false} IterateCrosses<S(!new)>(step: Reader<S> -> Reader<S>, good: Reader<S> -> bool, r: Reader<S>, k: nat, o: nat)
    returns (x: Reader<S>)
    requires good(r) && (forall y :: good(y) ==> good(step(y))) && (forall y: Reader<S> :: y.failed ==> step(y) == y)
    requires r.offset <= o < Iterate(step, r, k).offset && !Iterate(step, r, k).failed
    ensures good(x) && !x.failed && !step(x).failed && x.offset <= o < step(x).offset
    decreases k
  {
    if step(r).offset <= o {
      x := IterateCrosses(step, good, step(r), k - 1, o);
    } else {
      x := r;
      if step(r).failed { IterateStays(step, step(r), k - 1); }
    }
  }

  lemma IterateNext<S>(step: Reader<S> -> Reader<S>, r: Reader<S>, j: nat)
    ensures Iterate(step, r, j + 1) == step(Iterate(step, r, j))
  {
    IterateAdd(step, r, j, 1);
    var x := Iterate(step, r, j);
    assert Iterate(step, step(x), 0) == step(x);
  }

  // ----- any number of snapshots -----

  lemma LookFaithful<S>(f: Fold<S>, init: S, file: Bytes, clock: int, r: Reader<S>)
    requires Faithful(f, init, file, clock, r)
    ensures Faithful(f, init, file, clock, Look(f, file, clock)(r)) && r.offset <= Look(f, file, clock)(r).offset
    ensures r.failed ==> Look(f, file, clock)(r) == r
  {
    SnapshotFaithful(f, init, file, clock, r);
  }

  lemma SnapshotsFaithful<S(!new)>(f: Fold<S>, init: S, file: Bytes, clock: int, r: Reader<S>, k: nat)
    requires Faithful(f, init, file, clock, r)
    ensures Faithful(f, init, file, clock, Snapshots(f, r, file, clock, k)) && r.offset <= Snapshots(f, r, file, clock, k).offset
  {
    var good := (x: Reader<S>) => Faithful(f, init, file, clock, x) && r.offset <= x.offset;
    forall x | good(x) ensures good(Look(f, file, clock)(x)) { LookFaithful(f, init, file, clock, x); }
    IterateKeeps(Look(f, file, clock), good, r, k);
  }

  /** A faithful reader, not refused and not past the end. */
  ghost predicate OnTheWay<S>(f: Fold<S>, init: S, file: Bytes, clock: int, r: Reader<S>, end: nat)
  {
    Faithful(f, init, file, clock, r) && !r.failed && r.offset <= end
  }

  lemma Onward<S>(f: Fold<S>, init: S, file: Bytes, clock: int, r: Reader<S>, end: nat)
    requires OnTheWay(f, init, file, clock, r, end) && r.offset < end && end == Complete(file)
    requires Accepted(f, init, file, clock) && HasLine(file, r.offset)
    ensures OnTheWay(f, init, file, clock, Look(f, file, clock)(r), end) && r.offset < Look(f, file, clock)(r).offset
  {
    SnapshotAdvances(f, init, file, clock, r);
    SnapshotFaithful(f, init, file, clock, r);
  }

  lemma AtBoundary<S>(f: Fold<S>, init: S, file: Bytes, clock: int, r: Reader<S>)
    requires Faithful(f, init, file, clock, r) && !r.failed
    ensures Boundary(file, r.offset) && r.offset <= Complete(file)
  {
    if r.offset > 0 { CompletePast(file, r.offset - 1); }
  }

  /** Accepted lines within reads are read to the end, in no more snapshots than bytes are left, and the
      projection is then the replay of every complete line. */
  lemma CatchesUp<S(!new)>(f: Fold<S>, init: S, file: Bytes, clock: int, r: Reader<S>) returns (k: nat)
    requires Faithful(f, init, file, clock, r) && !r.failed
    requires Accepted(f, init, file, clock) && WithinReads(file, r.offset)
    ensures k + r.offset <= Complete(file) && CaughtUp(Snapshots(f, r, file, clock, k), file)
    ensures Replay(f, init, file[..Complete(file)], clock) == Some(Snapshots(f, r, file, clock, k).state)
  {
    var end := Complete(file);
    AtBoundary(f, init, file, clock, r);
    var good := (x: Reader<S>) => OnTheWay(f, init, file, clock, x, end) && r.offset <= x.offset;
    forall x | good(x)
      ensures x.offset < end ==> good(Look(f, file, clock)(x)) && x.offset < Look(f, file, clock)(x).offset
    {
      AtBoundary(f, init, file, clock, x);
      if x.offset < end { Onward(f, init, file, clock, x, end); }
    }
    k := IterateArrives(Look(f, file, clock), good, end, r);
  }

  lemma SnapshotBoundary<S>(f: Fold<S>, file: Bytes, clock: int, r: Reader<S>)
    requires Boundary(file, r.offset) && !r.failed && !Snapshot(f, r, file, clock).failed
    ensures Boundary(file, Snapshot(f, r, file, clock).offset)
  {
    var piece := SnapshotMoves(f, file, clock, r);
  }

  lemma CrossesNow<S>(f: Fold<S>, file: Bytes, clock: int, r: Reader<S>, x: nat, o: nat)
    requires !r.failed && Boundary(file, r.offset) && r.offset <= o < x && Boundary(file, o)
    requires !Snapshot(f, r, file, clock).failed && Snapshot(f, r, file, clock).offset == x
    ensures HasLine(file, o)
  {
    SnapshotBoundary(f, file, clock, r);
    SnapshotWithin(f, file, clock, r);
    LineFrom(file, o, x);
  }

  /** A snapshot never goes further than one read. */
  lemma SnapshotWithin<S>(f: Fold<S>, file: Bytes, clock: int, r: Reader<S>)
    requires !r.failed && r.offset <= |file| && !Snapshot(f, r, file, clock).failed
    ensures Snapshot(f, r, file, clock).offset <= r.offset + READ_BUDGET
  {
    var chunk := Chunk(file, r.offset);
    var s := chunk[..Complete(chunk)];
    Unrefused(f, r, SplitLines(s), clock);
    SplitSize(s);
  }

  /** A refused reader stays refused, so one that ends unrefused was so all along. */
  lemma UnrefusedBefore<S>(f: Fold<S>, file: Bytes, clock: int, r: Reader<S>, j: nat, k: nat)
    requires j <= k && !Snapshots(f, r, file, clock, k).failed
    ensures !Snapshots(f, r, file, clock, j).failed
  {
    var x := Snapshots(f, r, file, clock, j);
    IterateAdd(Look(f, file, clock), r, j, k - j);
    if x.failed { IterateStays(Look(f, file, clock), x, k - j); }
  }

  /** To get past a boundary, some snapshot had to find a line feed within one read of it. */
  lemma Crosses<S(!new)>(f: Fold<S>, init: S, file: Bytes, clock: int, r: Reader<S>, k: nat, o: nat)
    requires Faithful(f, init, file, clock, r) && r.offset <= o < Complete(file) && Boundary(file, o)
    requires CaughtUp(Snapshots(f, r, file, clock, k), file)
    ensures HasLine(file, o)
  {
    var good := (x: Reader<S>) => Faithful(f, init, file, clock, x);
    forall x | good(x) ensures good(Look(f, file, clock)(x)) { LookFaithful(f, init, file, clock, x); }
    var x := IterateCrosses(Look(f, file, clock), good, r, k, o);
    CrossesAt(f, init, file, clock, x, Look(f, file, clock)(x), o);
  }

  lemma CrossesAt<S>(f: Fold<S>, init: S, file: Bytes, clock: int, x: Reader<S>, y: Reader<S>, o: nat)
    requires Faithful(f, init, file, clock, x) && !x.failed && !y.failed && y == Look(f, file, clock)(x)
    requires x.offset <= o < y.offset && Boundary(file, o)
    ensures HasLine(file, o)
  {
    AtBoundary(f, init, file, clock, x);
    CrossesNow(f, file, clock, x, y.offset, o);
  }

  /** Repeated snapshots reach the last complete line without a refusal exactly when the complete lines replay
      and, from every line-feed boundary on the way, the next line feed lies within one read. */
  lemma CatchesUpExact<S(!new)>(f: Fold<S>, init: S, file: Bytes, clock: int, r: Reader<S>)
    requires Faithful(f, init, file, clock, r) && !r.failed
    ensures Reaches(f, r, file, clock) <==> Accepted(f, init, file, clock) && WithinReads(file, r.offset)
  {
    if Accepted(f, init, file, clock) && WithinReads(file, r.offset) {
      var k := CatchesUp(f, init, file, clock, r);
    }
    if k: nat :| CaughtUp(Snapshots(f, r, file, clock, k), file) {
      SnapshotsFaithful(f, init, file, clock, r, k);
      forall o: nat | Boundary(file, o) && r.offset <= o < Complete(file) ensures HasLine(file, o) {
        Crosses(f, init, file, clock, r, k, o);
      }
    }
  }

  lemma LookStays<S>(f: Fold<S>, file: Bytes, clock: int, x: Reader<S>)
    requires CaughtUp(x, file) && ShortTail(file)
    ensures Look(f, file, clock)(x) == x
  {
    SnapshotAtEnd(f, file, clock, x);
  }

  lemma IterateRests<S>(step: Reader<S> -> Reader<S>, r: Reader<S>, j: nat, k: nat)
    requires j <= k && step(Iterate(step, r, j)) == Iterate(step, r, j)
    ensures Iterate(step, r, k) == Iterate(step, r, j)
  {
    IterateAdd(step, r, j, k - j);
    IterateStays(step, Iterate(step, r, j), k - j);
  }

  /** With a torn line within the limit, as many snapshots as bytes are left are enough, and more do no harm. */
  lemma ReadsAll<S(!new)>(f: Fold<S>, init: S, file: Bytes, clock: int, r: Reader<S>, k: nat)
    requires Faithful(f, init, file, clock, r) && !r.failed && Complete(file) <= k + r.offset
    requires Accepted(f, init, file, clock) && WithinReads(file, r.offset) && ShortTail(file)
    ensures CaughtUp(Snapshots(f, r, file, clock, k), file)
  {
    var j := CatchesUp(f, init, file, clock, r);
    LookStays(f, file, clock, Snapshots(f, r, file, clock, j));
    IterateRests(Look(f, file, clock), r, j, k);
  }

  /** A reader that is never refused gets to the end. */
  lemma UnrefusedArrives<S(!new)>(f: Fold<S>, init: S, file: Bytes, clock: int, r: Reader<S>) returns (k: nat)
    requires Faithful(f, init, file, clock, r) && NeverRefused(f, r, file, clock)
    ensures CaughtUp(Snapshots(f, r, file, clock, k), file)
  {
    var step, end := Look(f, file, clock), Complete(file);
    var good := (x: Reader<S>) => Faithful(f, init, file, clock, x) && x.offset <= end && NeverRefused(f, x, file, clock);
    assert !Snapshots(f, r, file, clock, 0).failed;
    AtBoundary(f, init, file, clock, r);
    forall x | good(x) ensures x.offset < end ==> good(step(x)) && x.offset < step(x).offset {
      if x.offset < end { UnrefusedOnward(f, init, file, clock, x); }
    }
    k := IterateArrives(step, good, end, r);
    assert !Snapshots(f, r, file, clock, k).failed;
  }

  lemma UnrefusedOnward<S(!new)>(f: Fold<S>, init: S, file: Bytes, clock: int, x: Reader<S>)
    requires Faithful(f, init, file, clock, x) && x.offset < Complete(file) && NeverRefused(f, x, file, clock)
    ensures var y := Look(f, file, clock)(x);
            Faithful(f, init, file, clock, y) && x.offset < y.offset <= Complete(file) && NeverRefused(f, y, file, clock)
  {
    var y := Look(f, file, clock)(x);
    assert !Snapshots(f, x, file, clock, 0).failed;
    assert Snapshots(f, x, file, clock, 1) == y by { assert Iterate(Look(f, file, clock), y, 0) == y; }
    LookFaithful(f, init, file, clock, x);
    ForwardOrRefused(f, file, clock, x);
    forall k: nat ensures !Snapshots(f, y, file, clock, k).failed {
      assert Snapshots(f, x, file, clock, k + 1) == Snapshots(f, y, file, clock, k);
    }
  }

  /** No snapshot is ever refused exactly when, in addition, the torn last line is within the limit. */
  lemma NeverRefusedExact<S(!new)>(f: Fold<S>, init: S, file: Bytes, clock: int, r: Reader<S>)
    requires Faithful(f, init, file, clock, r) && !r.failed
    ensures NeverRefused(f, r, file, clock) <==>
            Accepted(f, init, file, clock) && WithinReads(file, r.offset) && ShortTail(file)
  {
    if Accepted(f, init, file, clock) && WithinReads(file, r.offset) && ShortTail(file) {
      forall k: nat ensures !Snapshots(f, r, file, clock, k).failed {
        ReadsAll(f, init, file, clock, r, k + Complete(file));
        UnrefusedBefore(f, file, clock, r, k, k + Complete(file));
      }
    }
    if NeverRefused(f, r, file, clock) {
      var k := UnrefusedArrives(f, init, file, clock, r);
      CatchesUpExact(f, init, file, clock, r);
      IterateNext(Look(f, file, clock), r, k);
      SnapshotAtEnd(f, file, clock, Snapshots(f, r, file, clock, k));
      assert !Snapshots(f, r, file, clock, k + 1).failed;
    }
  }

  // ----- files without carriage returns -----

  lemma {:induction false} FirstLineLF(s: Bytes, i: nat)
    requires NoCR(s) && i < |s| && s[i] == LF
    ensures FirstLine(s) <= i + 1 && s[FirstLine(s) - 1] == LF
    ensures forall k :: 0 <= k < FirstLine(s) - 1 ==> s[k] != LF
    decreases |s|
  {
    if s[0] != LF { FirstLineLF(s[1..], i - 1); }
  }

  lemma StrippedShort(line: Bytes)
    requires line != [] && forall i :: 0 <= i < |line| - 1 ==> line[i] != LF && line[i] != CR
    ensures |line| <= |Stripped(line)| + 1
  {
  }

  lemma NextWithin<S>(f: Fold<S>, init: S, whole: Bytes, a: Bytes, b: Bytes, clock: int) returns (k: nat)
    requires whole == a + b && Cut(a, b) && Replay(f, init, whole, clock).Some? && NoCR(b) && b != [] && b[|b| - 1] == LF
    ensures 0 < k <= |b| && k <= LINE_LIMIT + 1 && b[k - 1] == LF
  {
    ReplayCut(f, init, a, b, clock);
    k := FirstWithin(f, Replay(f, init, a, clock).value, b, clock);
  }

  lemma StretchOf(file: Bytes, o: nat, n: nat)
    requires Boundary(file, o) && o < n <= |file| && file[n - 1] == LF && NoCR(file)
    ensures file[..n] == file[..o] + file[o..n] && Cut(file[..o], file[o..n])
    ensures NoCR(file[o..n]) && file[o..n][n - o - 1] == LF
  {
  }

  /** Without carriage returns an accepted line is within the limit. */
  lemma NextFeed<S>(f: Fold<S>, init: S, file: Bytes, clock: int, o: nat, n: nat) returns (x: nat)
    requires NoCR(file) && o < n <= |file| && file[n - 1] == LF && Boundary(file, o) && Replay(f, init, file[..n], clock).Some?
    ensures o < x <= n && x <= o + LINE_LIMIT + 1 && file[x - 1] == LF
  {
    StretchOf(file, o, n);
    var b := file[o..n];
    var k := NextWithin(f, init, file[..n], file[..o], b, clock);
    x := o + k;
    assert file[x - 1] == b[k - 1];
  }

  /** A file without carriage returns whose complete lines replay is within reads from every boundary. */
  lemma PlainFileWithinReads<S>(f: Fold<S>, init: S, file: Bytes, clock: int, start: nat)
    requires NoCR(file) && Accepted(f, init, file, clock)
    ensures WithinReads(file, start)
  {
    forall o: nat | Boundary(file, o) && start <= o < Complete(file) ensures HasLine(file, o) {
      var x := NextFeed(f, init, file, clock, o, Complete(file));
      LineFrom(file, o, x);
    }
  }

  lemma FirstWithin<S>(f: Fold<S>, state: S, rest: Bytes, clock: int) returns (k: nat)
    requires NoCR(rest) && rest != [] && rest[|rest| - 1] == LF && Replay(f, state, rest, clock).Some?
    ensures 0 < k <= |rest| && k <= LINE_LIMIT + 1 && rest[k - 1] == LF
  {
    FirstLineLF(rest, |rest| - 1);
    k := FirstLine(rest);
    StrippedShort(rest[..k]);
    assert SplitLines(rest)[0] == rest[..k];
  }
}
