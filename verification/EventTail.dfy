/** The monitor's tailing reader of an append-only event file.

    A snapshot reads at most a fixed number of bytes from its last validated offset, keeps only what ends
    in a line feed, splits it into lines and folds each line into the projection. Bytes and newlines are
    concrete; what a line does to the projection is a parameter. */
module EventTail {
  import opened Common

  const READ_BUDGET := 262144
  const LINE_LIMIT := 65536

  /** Folds one stripped line at a clock reading, or refuses it. */
  type Fold<!S> = (S, Bytes, int) -> Option<S>

  /** What is accepted stays accepted, with the same effect, as the clock moves on. */
  ghost predicate Steady<S(!new)>(f: Fold<S>)
  {
    forall s, line, c, c' | c <= c' && f(s, line, c).Some? :: f(s, line, c') == f(s, line, c)
  }

  // ----- lines -----

  /** Length of the first line with its terminator: a line feed, a carriage return, or the two together. */
  function FirstLine(s: Bytes): (n: nat)
    ensures n <= |s| && (s != [] ==> n > 0)
  {
    if s == [] then 0
    else if s[0] == LF then 1
    else if s[0] == CR then (if |s| > 1 && s[1] == LF then 2 else 1)
    else 1 + FirstLine(s[1..])
  }

  function SplitLines(s: Bytes): seq<Bytes>
    decreases |s|
  {
    if s == [] then [] else [s[..FirstLine(s)]] + SplitLines(s[FirstLine(s)..])
  }

  function Size(lines: seq<Bytes>): nat
  {
    if lines == [] then 0 else |lines[0]| + Size(lines[1..])
  }

  function Stripped(line: Bytes): (t: Bytes)
    ensures t <= line
  {
    if line != [] && (line[|line| - 1] == LF || line[|line| - 1] == CR) then Stripped(line[..|line| - 1]) else line
  }

  /** Length of the longest prefix of `s` that ends in a line feed. */
  function Complete(s: Bytes): (n: nat)
    ensures n <= |s|
    ensures n > 0 ==> s[n - 1] == LF
    ensures forall i :: n <= i < |s| ==> s[i] != LF
  {
    if s == [] then 0 else if s[|s| - 1] == LF then |s| else Complete(s[..|s| - 1])
  }

  /** One line: too long, refused, or folded. */
  function Line<S>(f: Fold<S>, state: S, wire: Bytes, clock: int): Option<S>
  {
    if |Stripped(wire)| > LINE_LIMIT then None else f(state, Stripped(wire), clock)
  }

  function FoldLines<S>(f: Fold<S>, state: S, lines: seq<Bytes>, clock: int): Option<S>
  {
    if lines == [] then Some(state)
    else
      match Line(f, state, lines[0], clock)
      case None => None
      case Some(state') => FoldLines(f, state', lines[1..], clock)
  }

  /** The reference: fold every line of the bytes. */
  function Replay<S>(f: Fold<S>, state: S, s: Bytes, clock: int): Option<S>
  {
    FoldLines(f, state, SplitLines(s), clock)
  }

  // ----- the reader -----

  datatype Reader<S> = Reader(state: S, offset: nat, failed: bool)

  function Consume<S>(f: Fold<S>, r: Reader<S>, lines: seq<Bytes>, clock: int): Reader<S>
    decreases |lines|
  {
    if lines == [] then r
    else
      match Line(f, r.state, lines[0], clock)
      case None => r.(failed := true)
      case Some(state') => Consume(f, Reader(state', r.offset + |lines[0]|, r.failed), lines[1..], clock)
  }

  /** The loop of a snapshot over the complete lines it read; stops at the first refused line. */
  method ReadLines<S>(f: Fold<S>, r: Reader<S>, lines: seq<Bytes>, clock: int) returns (r': Reader<S>)
    ensures r' == Consume(f, r, lines, clock)
  {
    r' := r;
    for i := 0 to |lines|
      invariant Consume(f, r', lines[i..], clock) == Consume(f, r, lines, clock)
    {
      var wire := lines[i];
      var line := Stripped(wire);
      assert lines[i..][0] == wire && lines[i..][1..] == lines[i + 1..];
      if |line| > LINE_LIMIT {
        return r'.(failed := true);
      }
      var next := f(r'.state, line, clock);
      if next.None? {
        return r'.(failed := true);
      }
      r' := Reader(next.value, r'.offset + |wire|, r'.failed);
    }
  }

  function Chunk(file: Bytes, offset: nat): Bytes
    requires offset <= |file|
  {
    if |file| - offset <= READ_BUDGET then file[offset..] else file[offset..offset + READ_BUDGET]
  }

  /** One snapshot. A refused stream stays refused. */
  function Snapshot<S>(f: Fold<S>, r: Reader<S>, file: Bytes, clock: int): Reader<S>
    requires r.offset <= |file|
  {
    if r.failed then r
    else
      var chunk := Chunk(file, r.offset);
      var end := Complete(chunk);
      if end == 0 && |chunk| > LINE_LIMIT then r.(failed := true)
      else Consume(f, r, SplitLines(chunk[..end]), clock)
  }

  // ----- splitting -----

  /** `a` ends where a line of `a + b` ends. */
  ghost predicate Cut(a: Bytes, b: Bytes)
  {
    a == [] || a[|a| - 1] == LF || (a[|a| - 1] == CR && (b == [] || b[0] != LF))
  }

  lemma {:induction false} FirstLineCut(a: Bytes, b: Bytes)
    requires a != [] && Cut(a, b)
    ensures FirstLine(a + b) == FirstLine(a) && Cut(a[FirstLine(a)..], b)
    decreases |a|
  {
    if a[0] != LF && a[0] != CR {
      assert (a + b)[1..] == a[1..] + b;
      FirstLineCut(a[1..], b);
      assert a[FirstLine(a)..] == a[1..][FirstLine(a[1..])..];
    }
  }

  lemma SplitHead(s: Bytes, n: nat)
    requires s != [] && n == FirstLine(s)
    ensures SplitLines(s) == [s[..n]] + SplitLines(s[n..])
  {
  }

  lemma {:induction false} SplitCut(a: Bytes, b: Bytes)
    requires Cut(a, b)
    ensures SplitLines(a + b) == SplitLines(a) + SplitLines(b)
    decreases |a|
  {
    if a == [] {
      assert a + b == b;
    } else {
      var n := FirstLine(a);
      var rest := a[n..];
      FirstLineCut(a, b);
      assert (a + b)[..n] == a[..n] && (a + b)[n..] == rest + b;
      SplitHead(a + b, n);
      SplitHead(a, n);
      SplitCut(rest, b);
      Associates([a[..n]], SplitLines(rest), SplitLines(b));
    }
  }

  lemma Associates(a: seq<Bytes>, b: seq<Bytes>, c: seq<Bytes>)
    ensures a + (b + c) == (a + b) + c
  {
  }

  /** A complete piece: empty or ending in a line feed. */
  ghost predicate Whole(s: Bytes)
  {
    s == [] || s[|s| - 1] == LF
  }

  /** Position `n` is the end of a line of the file, however the file grows. */
  ghost predicate CutAt(file: Bytes, n: nat)
  {
    n <= |file| && (n == 0 || file[n - 1] == LF || (file[n - 1] == CR && n < |file| && file[n] != LF))
  }

  lemma {:induction false} FirstLineEnds(s: Bytes)
    requires s != [] && Whole(s)
    ensures CutAt(s, FirstLine(s)) && Whole(s[FirstLine(s)..])
    decreases |s|
  {
    if s[0] != LF && s[0] != CR {
      FirstLineEnds(s[1..]);
    }
  }

  /** The first line, on its own, is one line. */
  lemma {:induction false} OneLine(s: Bytes, n: nat)
    requires s != [] && n == FirstLine(s)
    ensures FirstLine(s[..n]) == n && SplitLines(s[..n]) == [s[..n]]
    decreases |s|
  {
    if s[0] != LF && s[0] != CR && |s| > 1 {
      assert s[..n][1..] == s[1..][..n - 1];
      OneLine(s[1..], n - 1);
    }
    assert s[..n][..n] == s[..n] && s[..n][n..] == [];
  }

  lemma {:induction false} SplitSize(s: Bytes)
    ensures Size(SplitLines(s)) == |s|
    ensures forall i :: 0 <= i < |SplitLines(s)| ==> SplitLines(s)[i] != []
    decreases |s|
  {
    if s != [] { SplitSize(s[FirstLine(s)..]); }
  }

  lemma {:induction false} SizeGrows(lines: seq<Bytes>, i: nat, j: nat)
    requires i <= j <= |lines| && forall k :: 0 <= k < |lines| ==> lines[k] != []
    ensures Size(lines[..i]) <= Size(lines[..j]) && (i < j ==> Size(lines[..i]) < Size(lines[..j]))
    decreases j
  {
    if i > 0 {
      assert lines[..i][1..] == lines[1..][..i - 1] && lines[..j][1..] == lines[1..][..j - 1];
      SizeGrows(lines[1..], i - 1, j - 1);
    }
  }

  lemma CutAtShift(s: Bytes, n: nat, k: nat)
    requires n <= |s| && CutAt(s, n) && CutAt(s[n..], k)
    ensures CutAt(s, n + k)
  {
    if k > 0 {
      assert s[n..][k - 1] == s[n + k - 1];
      assert n + k < |s| ==> s[n..][k] == s[n + k];
    }
  }

  lemma PrefixSize(s: Bytes, j: nat, n: nat)
    requires s != [] && n == FirstLine(s) && 0 < j <= |SplitLines(s)|
    ensures j - 1 <= |SplitLines(s[n..])| && Size(SplitLines(s)[..j]) == n + Size(SplitLines(s[n..])[..j - 1])
  {
    SplitHead(s, n);
    var lines := SplitLines(s)[..j];
    assert lines[0] == s[..n] && lines[1..] == SplitLines(s[n..])[..j - 1];
  }

  /** The bytes of the first j lines of a whole piece are cut at a line end. */
  lemma {:induction false} PrefixCut(s: Bytes, j: nat, m: nat)
    requires Whole(s) && j <= |SplitLines(s)| && m == Size(SplitLines(s)[..j])
    ensures CutAt(s, m)
    decreases |s|
  {
    if j > 0 {
      var n := FirstLine(s);
      PrefixSize(s, j, n);
      FirstLineEnds(s);
      PrefixCut(s[n..], j - 1, m - n);
      CutAtShift(s, n, m - n);
    }
  }

  lemma SameSize(lines: seq<Bytes>, i: nat, j: nat)
    requires i <= |lines| && j <= |lines| && forall k :: 0 <= k < |lines| ==> lines[k] != []
    requires Size(lines[..i]) == Size(lines[..j])
    ensures i == j
  {
    if i < j { SizeGrows(lines, i, j); } else { SizeGrows(lines, j, i); }
  }

  /** They split back into those lines. */
  lemma SplitPrefix(s: Bytes, j: nat, m: nat)
    requires Whole(s) && j <= |SplitLines(s)| && m == Size(SplitLines(s)[..j]) && CutAt(s, m)
    ensures SplitLines(s[..m]) == SplitLines(s)[..j]
  {
    var lines, head := SplitLines(s), SplitLines(s[..m]);
    assert s == s[..m] + s[m..];
    SplitCut(s[..m], s[m..]);
    assert lines[..|head|] == head;
    SplitSize(s);
    SplitSize(s[..m]);
    SameSize(lines, |head|, j);
  }

  // ----- folding -----

  lemma {:induction false} FoldAppend<S>(f: Fold<S>, state: S, a: seq<Bytes>, b: seq<Bytes>, clock: int)
    ensures FoldLines(f, state, a + b, clock) ==
            match FoldLines(f, state, a, clock) case None => None case Some(state') => FoldLines(f, state', b, clock)
    decreases |a|
  {
    if a == [] {
      assert a + b == b;
    } else {
      assert (a + b)[1..] == a[1..] + b;
      var next := Line(f, state, a[0], clock);
      if next.Some? { FoldAppend(f, next.value, a[1..], b, clock); }
    }
  }

  lemma {:induction false} FoldLater<S(!new)>(f: Fold<S>, state: S, lines: seq<Bytes>, c: int, c': int)
    requires Steady(f) && c <= c' && FoldLines(f, state, lines, c).Some?
    ensures FoldLines(f, state, lines, c') == FoldLines(f, state, lines, c)
    decreases |lines|
  {
    if lines != [] {
      assert f(state, Stripped(lines[0]), c') == f(state, Stripped(lines[0]), c);
      FoldLater(f, Line(f, state, lines[0], c).value, lines[1..], c, c');
    }
  }

  /** The loop folds some first lines and moves the offset past exactly those. */
  lemma {:induction false} ConsumePrefix<S>(f: Fold<S>, r: Reader<S>, lines: seq<Bytes>, clock: int) returns (j: nat)
    requires !r.failed
    ensures j <= |lines|
    ensures var r' := Consume(f, r, lines, clock);
            && r'.offset == r.offset + Size(lines[..j])
            && FoldLines(f, r.state, lines[..j], clock) == Some(r'.state)
            && (r'.failed <==> j < |lines|)
            && (r'.failed ==> Line(f, r'.state, lines[j], clock).None?)
    decreases |lines|
  {
    j := 0;
    if lines != [] {
      var next := Line(f, r.state, lines[0], clock);
      if next.Some? {
        var i := ConsumePrefix(f, Reader(next.value, r.offset + |lines[0]|, r.failed), lines[1..], clock);
        j := i + 1;
        assert lines[..j][0] == lines[0] && lines[..j][1..] == lines[1..][..i];
      }
    }
  }

  // ----- refinement -----

  /** The projection is the replay of the bytes before the offset, which is the end of a line; while the
      stream is not refused it is the end of a line feed. */
  ghost predicate Faithful<S>(f: Fold<S>, init: S, file: Bytes, clock: int, r: Reader<S>)
  {
    && CutAt(file, r.offset)
    && Replay(f, init, file[..r.offset], clock) == Some(r.state)
    && (!r.failed ==> r.offset == 0 || file[r.offset - 1] == LF)
  }

  /** Replaying two pieces cut at a line end is replaying the first and then the second. */
  lemma ReplayCut<S>(f: Fold<S>, state: S, a: Bytes, b: Bytes, clock: int)
    requires Cut(a, b)
    ensures Replay(f, state, a + b, clock) ==
            match Replay(f, state, a, clock) case None => None case Some(state') => Replay(f, state', b, clock)
  {
    SplitCut(a, b);
    FoldAppend(f, state, SplitLines(a), SplitLines(b), clock);
  }

  lemma PieceCut(file: Bytes, o: nat, s: Bytes, m: nat, next: nat)
    requires CutAt(file, o) && o + |s| <= |file| && s == file[o..o + |s|] && Whole(s) && CutAt(s, m) && next == o + m
    ensures CutAt(file, next) && file[..next] == file[..o] + s[..m]
    ensures (o == 0 || file[o - 1] == LF) && m == |s| ==> next == 0 || file[next - 1] == LF
  {
    assert m > 0 ==> file[o + m - 1] == s[m - 1];
    assert m < |s| ==> file[o + m] == s[m];
  }

  /** The bytes of the first `j` lines of a whole piece, which end at `next`. */
  lemma PieceText(file: Bytes, o: nat, s: Bytes, lines: seq<Bytes>, j: nat, m: nat, next: nat) returns (piece: Bytes)
    requires CutAt(file, o) && o + |s| <= |file| && s == file[o..o + |s|] && Whole(s) && lines == SplitLines(s)
    requires (o == 0 || file[o - 1] == LF) && j <= |lines| && m == Size(lines[..j]) && next == o + m
    ensures |piece| == m && SplitLines(piece) == lines[..j]
    ensures CutAt(file, next) && file[..next] == file[..o] + piece
    ensures j == |lines| ==> next == 0 || file[next - 1] == LF
  {
    PrefixCut(s, j, m);
    SplitPrefix(s, j, m);
    PieceCut(file, o, s, m, next);
    piece := s[..m];
    if j == |lines| {
      assert lines[..j] == lines;
      SplitSize(s);
    }
  }

  /** The reader moved over `piece`, which it folded line by line, and stands at the end of a line. */
  ghost predicate Moved<S>(f: Fold<S>, file: Bytes, clock: int, r: Reader<S>, r': Reader<S>, piece: Bytes)
  {
    && r'.offset == r.offset + |piece| && CutAt(file, r'.offset) && file[..r'.offset] == file[..r.offset] + piece
    && (!r'.failed ==> r'.offset == 0 || file[r'.offset - 1] == LF)
    && Replay(f, r.state, piece, clock) == Some(r'.state)
  }

  lemma ConsumeMoves<S>(f: Fold<S>, file: Bytes, clock: int, r: Reader<S>, s: Bytes) returns (piece: Bytes)
    requires CutAt(file, r.offset) && (r.offset == 0 || file[r.offset - 1] == LF) && !r.failed
    requires r.offset + |s| <= |file| && s == file[r.offset..r.offset + |s|] && Whole(s)
    ensures Moved(f, file, clock, r, Consume(f, r, SplitLines(s), clock), piece)
  {
    var lines := SplitLines(s);
    var r' := Consume(f, r, lines, clock);
    var j := ConsumePrefix(f, r, lines, clock);
    piece := PieceText(file, r.offset, s, lines, j, Size(lines[..j]), r'.offset);
    MovedBy(f, file, clock, r, r', piece, lines[..j]);
  }

  lemma MovedBy<S>(f: Fold<S>, file: Bytes, clock: int, r: Reader<S>, r': Reader<S>, piece: Bytes, lines: seq<Bytes>)
    requires r'.offset == r.offset + |piece| && CutAt(file, r'.offset) && file[..r'.offset] == file[..r.offset] + piece
    requires !r'.failed ==> r'.offset == 0 || file[r'.offset - 1] == LF
    requires SplitLines(piece) == lines && FoldLines(f, r.state, lines, clock) == Some(r'.state)
    ensures Moved(f, file, clock, r, r', piece)
  {
  }

  /** A reader that folded one more piece, cut at line ends, is faithful again. */
  lemma MovedFaithful<S>(f: Fold<S>, init: S, file: Bytes, clock: int, r: Reader<S>, r': Reader<S>, piece: Bytes)
    requires Faithful(f, init, file, clock, r) && !r.failed && Moved(f, file, clock, r, r', piece)
    ensures Faithful(f, init, file, clock, r')
  {
    ReplayCut(f, init, file[..r.offset], piece, clock);
  }

  lemma SnapshotFaithful<S>(f: Fold<S>, init: S, file: Bytes, clock: int, r: Reader<S>)
    requires Faithful(f, init, file, clock, r)
    ensures Faithful(f, init, file, clock, Snapshot(f, r, file, clock))
    ensures r.offset <= Snapshot(f, r, file, clock).offset
  {
    var r' := Snapshot(f, r, file, clock);
    if !r.failed && r' != r.(failed := true) {
      var piece := SnapshotMoves(f, file, clock, r);
      MovedFaithful(f, init, file, clock, r, r', piece);
    }
  }

  lemma SnapshotMoves<S>(f: Fold<S>, file: Bytes, clock: int, r: Reader<S>) returns (piece: Bytes)
    requires CutAt(file, r.offset) && (r.offset == 0 || file[r.offset - 1] == LF) && !r.failed
    requires Snapshot(f, r, file, clock) != r.(failed := true)
    ensures Moved(f, file, clock, r, Snapshot(f, r, file, clock), piece)
  {
    var chunk := Chunk(file, r.offset);
    var s := chunk[..Complete(chunk)];
    assert s == file[r.offset..r.offset + |s|];
    piece := ConsumeMoves(f, file, clock, r, s);
  }

  // ----- runs of appends and snapshots -----

  datatype Tail<S> = Tail(file: Bytes, clock: int, reader: Reader<S>)

  datatype Step = Append(bytes: Bytes) | Look(elapsed: nat)

  function Next<S>(f: Fold<S>, t: Tail<S>, step: Step): Tail<S>
    requires t.reader.offset <= |t.file|
  {
    match step
    case Append(bytes) => t.(file := t.file + bytes)
    case Look(elapsed) => t.(clock := t.clock + elapsed, reader := Snapshot(f, t.reader, t.file, t.clock + elapsed))
  }

  ghost predicate Sound<S>(f: Fold<S>, init: S, t: Tail<S>)
  {
    Faithful(f, init, t.file, t.clock, t.reader)
  }

  lemma FaithfulLater<S(!new)>(f: Fold<S>, init: S, file: Bytes, c: int, c': int, r: Reader<S>)
    requires Steady(f) && c <= c' && Faithful(f, init, file, c, r)
    ensures Faithful(f, init, file, c', r)
  {
    FoldLater(f, init, SplitLines(file[..r.offset]), c, c');
  }

  lemma FaithfulAppend<S>(f: Fold<S>, init: S, file: Bytes, bytes: Bytes, clock: int, r: Reader<S>)
    requires Faithful(f, init, file, clock, r)
    ensures Faithful(f, init, file + bytes, clock, r)
  {
    assert (file + bytes)[..r.offset] == file[..r.offset];
  }

  lemma NextSound<S(!new)>(f: Fold<S>, init: S, t: Tail<S>, step: Step)
    requires Steady(f) && Sound(f, init, t)
    ensures Sound(f, init, Next(f, t, step))
  {
    match step
    case Append(bytes) =>
      FaithfulAppend(f, init, t.file, bytes, t.clock, t.reader);
    case Look(elapsed) =>
      FaithfulLater(f, init, t.file, t.clock, t.clock + elapsed, t.reader);
      SnapshotFaithful(f, init, t.file, t.clock + elapsed, t.reader);
  }

  ghost function After<S(!new)>(f: Fold<S>, init: S, t: Tail<S>, steps: seq<Step>): Tail<S>
    requires Steady(f) && Sound(f, init, t)
    decreases |steps|
  {
    if steps == [] then t else
      NextSound(f, init, t, steps[0]);
      After(f, init, Next(f, t, steps[0]), steps[1..])
  }

  /** Whatever is appended and whenever the monitor looks: its projection is the plain replay of the lines
      before its offset, and the offset is the end of a line. */
  lemma {:induction false} TailRefinesReplay<S(!new)>(f: Fold<S>, init: S, t: Tail<S>, steps: seq<Step>)
    requires Steady(f) && Sound(f, init, t)
    ensures Sound(f, init, After(f, init, t, steps))
    decreases |steps|
  {
    if steps != [] {
      NextSound(f, init, t, steps[0]);
      TailRefinesReplay(f, init, Next(f, t, steps[0]), steps[1..]);
    }
  }

  // ----- plain text -----

  ghost predicate NoCR(s: Bytes)
  {
    forall i :: 0 <= i < |s| ==> s[i] != CR
  }

  ghost predicate Plain(s: Bytes)
  {
    forall i :: 0 <= i < |s| ==> s[i] != LF && s[i] != CR
  }

  lemma {:induction false} PlainFirst(a: Bytes, b: Bytes)
    requires Plain(a)
    ensures FirstLine(a + b) == |a| + FirstLine(b)
    decreases |a|
  {
    if a == [] {
      assert a + b == b;
    } else {
      assert (a + b)[1..] == a[1..] + b;
      PlainFirst(a[1..], b);
    }
  }

  lemma {:induction false} StrippedKeeps(a: Bytes, b: Bytes)
    requires Plain(a)
    ensures |Stripped(a + b)| >= |a|
    decreases |b|
  {
    if b != [] && (b[|b| - 1] == LF || b[|b| - 1] == CR) {
      assert (a + b)[..|a + b| - 1] == a + b[..|b| - 1];
      StrippedKeeps(a, b[..|b| - 1]);
    } else if b == [] {
      assert a + b == a;
    }
  }

  // ----- the complete part -----

  lemma CompleteIs(s: Bytes, n: nat)
    requires n <= |s| && (n > 0 ==> s[n - 1] == LF) && forall i :: n <= i < |s| ==> s[i] != LF
    ensures Complete(s) == n
  {
  }

  /** Where the last line feed of two pieces is. */
  lemma LastFeed(a: Bytes, s: Bytes, m: nat, n: nat)
    requires Whole(a) && m <= |s| && (m > 0 ==> s[m - 1] == LF) && (forall i :: m <= i < |s| ==> s[i] != LF) && n == |a| + m
    ensures (n > 0 ==> (a + s)[n - 1] == LF) && (forall i :: n <= i < |a + s| ==> (a + s)[i] != LF)
    ensures (a + s)[..n] == a + s[..m]
  {
    var t := a + s;
    assert forall i :: n <= i < |t| ==> t[i] == s[i - |a|];
  }

  /** After whole lines the complete part goes on. */
  lemma CompleteAfter(a: Bytes, s: Bytes)
    requires Whole(a)
    ensures Complete(a + s) == |a| + Complete(s)
    ensures (a + s)[..Complete(a + s)] == a + s[..Complete(s)]
  {
    var m := Complete(s);
    LastFeed(a, s, m, |a| + m);
    CompleteIs(a + s, |a| + m);
  }
}
