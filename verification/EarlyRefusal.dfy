/** The reader's refusal of a read that is longer than a line may be and holds no line feed.

    Carriage returns end lines too, so such a read can still consist of short lines. This module says exactly
    when the refusal is right: when nothing that could follow what was read would be accepted. */
module EarlyRefusal {
  import opened Common
  import opened EventTail

  /** No continuation of `c` that reaches a line feed replays from `state`. */
  ghost predicate Doomed<S>(f: Fold<S>, state: S, c: Bytes, clock: int)
  {
    forall more: Bytes :: Complete(c + more) > 0 ==> Replay(f, state, (c + more)[..Complete(c + more)], clock).None?
  }

  ghost predicate Unended(c: Bytes)
  {
    forall i :: 0 <= i < |c| ==> c[i] != LF
  }

  /** The bytes after the last line end inside `c`: the whole of it, or what follows a carriage return that is
      not its last byte. */
  function LastStart(c: Bytes): (n: nat)
    requires c != []
    ensures n < |c| && (n == 0 || c[n - 1] == CR)
    ensures forall i :: n <= i < |c| - 1 ==> c[i] != CR
  {
    if |c| == 1 || c[|c| - 2] == CR then |c| - 1
    else
      var n := LastStart(c[..|c| - 1]);
      n
  }

  predicate EndsCR(p: Bytes)
  {
    p != [] && p[|p| - 1] == CR
  }

  /** However the last piece is ended, it is too long or refused. */
  ghost predicate NoEnding<S>(f: Fold<S>, state: S, p: Bytes, clock: int)
  {
    if EndsCR(p) then Line(f, state, p, clock).None?
    else forall tail: Bytes :: Plain(tail) ==> Line(f, state, p + tail, clock).None?
  }

  /** One of the lines already ended inside `c` is too long or refused, or the last piece has no ending. */
  ghost predicate Hopeless<S>(f: Fold<S>, state: S, c: Bytes, clock: int)
    requires c != []
  {
    var n := LastStart(c);
    match Replay(f, state, c[..n], clock)
    case None => true
    case Some(state') => NoEnding(f, state', c[n..], clock)
  }

  // ----- how a line ends -----

  lemma {:induction false} StrippedPlain(a: Bytes, b: Bytes)
    requires Plain(a) && forall i :: 0 <= i < |b| ==> b[i] == LF || b[i] == CR
    ensures Stripped(a + b) == a
    decreases |b|
  {
    if b == [] {
      assert a + b == a;
    } else {
      assert (a + b)[..|a + b| - 1] == a + b[..|b| - 1];
      StrippedPlain(a, b[..|b| - 1]);
    }
  }

  /** The first line of bytes that end in a line feed is plain text and then one line end. */
  lemma {:induction false} FirstEnds(m: Bytes) returns (k: nat)
    requires m != [] && m[|m| - 1] == LF
    ensures k < FirstLine(m) <= |m| && Plain(m[..k])
    ensures forall i :: k <= i < FirstLine(m) ==> m[i] == LF || m[i] == CR
    decreases |m|
  {
    k := 0;
    if m[0] != LF && m[0] != CR {
      k := FirstEnds(m[1..]);
      k := k + 1;
      assert m[..k][1..] == m[1..][..k - 1];
      assert forall i :: 0 < i < k ==> m[..k][i] == m[1..][..k - 1][i - 1];
      assert forall i :: k <= i < FirstLine(m) ==> m[i] == m[1..][i - 1];
    }
  }

  /** A plain piece, continued to a line feed: its line is the piece with some plain tail. */
  lemma PlainContinues<S>(f: Fold<S>, state: S, p: Bytes, m: Bytes, clock: int) returns (tail: Bytes)
    requires Plain(p) && m != [] && m[|m| - 1] == LF
    ensures Plain(tail) && Line(f, state, (p + m)[..FirstLine(p + m)], clock) == Line(f, state, p + tail, clock)
  {
    PlainFirst(p, m);
    var k := FirstEnds(m);
    tail := m[..k];
    var n := FirstLine(m);
    assert (p + m)[..|p| + n] == (p + tail) + m[k..n];
    StrippedPlain(p + tail, m[k..n]);
    StrippedPlain(p + tail, []);
    assert (p + tail) + [] == p + tail;
  }

  /** A piece ended by a carriage return is that line, whether or not a line feed follows at once. */
  lemma EndedContinues<S>(f: Fold<S>, state: S, q: Bytes, m: Bytes, clock: int)
    requires Plain(q) && m != []
    ensures var s := (q + [CR]) + m;
            Line(f, state, s[..FirstLine(s)], clock) == Line(f, state, q + [CR], clock)
  {
    var s := (q + [CR]) + m;
    assert s == q + ([CR] + m);
    PlainFirst(q, [CR] + m);
    StrippedPlain(q, [CR]);
    if m[0] == LF {
      assert s[..|q| + 2] == q + [CR, LF];
      StrippedPlain(q, [CR, LF]);
    } else {
      assert s[..|q| + 1] == q + [CR];
    }
  }

  lemma RefusedFirst<S>(f: Fold<S>, state: S, s: Bytes, clock: int)
    requires s != [] && Line(f, state, s[..FirstLine(s)], clock).None?
    ensures Replay(f, state, s, clock).None?
  {
    assert SplitLines(s)[0] == s[..FirstLine(s)];
  }

  /** A last piece is plain text, perhaps with one carriage return at its end. */
  lemma PieceShape(p: Bytes) returns (q: Bytes)
    requires p != [] && Unended(p) && forall i :: 0 <= i < |p| - 1 ==> p[i] != CR
    ensures Plain(q) && p == if EndsCR(p) then q + [CR] else q
  {
    q := if EndsCR(p) then p[..|p| - 1] else p;
  }

  lemma PieceRefused<S>(f: Fold<S>, state: S, p: Bytes, m: Bytes, clock: int)
    requires p != [] && Unended(p) && (forall i :: 0 <= i < |p| - 1 ==> p[i] != CR)
    requires m != [] && m[|m| - 1] == LF && NoEnding(f, state, p, clock)
    ensures Replay(f, state, p + m, clock).None?
  {
    var q := PieceShape(p);
    if EndsCR(p) {
      EndedContinues(f, state, q, m, clock);
    } else {
      var tail := PlainContinues(f, state, p, m, clock);
    }
    RefusedFirst(f, state, p + m, clock);
  }

  lemma FoldOne<S>(f: Fold<S>, state: S, line: Bytes, clock: int)
    ensures FoldLines(f, state, [line], clock) == Line(f, state, line, clock)
  {
    var none: seq<Bytes> := [];
    assert [line][1..] == none;
    var next := Line(f, state, line, clock);
    if next.Some? { assert FoldLines(f, next.value, none, clock) == Some(next.value); }
  }

  lemma SingleLine<S>(f: Fold<S>, state: S, s: Bytes, clock: int)
    requires s != [] && FirstLine(s) == |s|
    ensures Replay(f, state, s, clock) == Line(f, state, s, clock)
  {
    SplitHead(s, |s|);
    assert s[..|s|] == s && s[|s|..] == [];
    assert SplitLines(s) == [s];
    FoldOne(f, state, s, clock);
  }

  lemma OneLineAccepted<S>(f: Fold<S>, state: S, q: Bytes, end: Bytes, clock: int)
    requires Plain(q) && (end == [LF] || end == [CR, LF]) && |q| <= LINE_LIMIT && f(state, q, clock).Some?
    ensures Replay(f, state, q + end, clock).Some?
  {
    PlainFirst(q, end);
    assert FirstLine(end) == |end|;
    StrippedPlain(q, end);
    SingleLine(f, state, q + end, clock);
  }

  /** The other way: an ending that is accepted makes the piece one accepted line. */
  lemma PieceAccepted<S>(f: Fold<S>, state: S, p: Bytes, clock: int) returns (more: Bytes)
    requires p != [] && Unended(p) && (forall i :: 0 <= i < |p| - 1 ==> p[i] != CR)
    requires !NoEnding(f, state, p, clock)
    ensures more != [] && more[|more| - 1] == LF && Replay(f, state, p + more, clock).Some?
  {
    var q := PieceShape(p);
    if EndsCR(p) {
      more := [LF];
      StrippedPlain(q, [CR]);
      OneLineAccepted(f, state, q, [CR, LF], clock);
      assert p + more == q + [CR, LF];
    } else {
      var tail: Bytes :| Plain(tail) && Line(f, state, p + tail, clock).Some?;
      more := tail + [LF];
      StrippedPlain(p + tail, []);
      assert (p + tail) + [] == p + tail;
      OneLineAccepted(f, state, p + tail, [LF], clock);
      assert p + more == (p + tail) + [LF];
    }
  }

  // ----- exactly when nothing can follow -----

  lemma CompleteWithin(c: Bytes, more: Bytes)
    requires Unended(c) && Complete(c + more) > 0
    ensures Complete(c + more) > |c|
  {
    var n := Complete(c + more);
    assert (c + more)[n - 1] == LF;
  }

  lemma RefusedTogether<S>(f: Fold<S>, state: S, h: Bytes, p: Bytes, m: Bytes, clock: int)
    requires Cut(h, p + m) && p != [] && Unended(p) && (forall i :: 0 <= i < |p| - 1 ==> p[i] != CR)
    requires m != [] && m[|m| - 1] == LF
    requires Replay(f, state, h, clock).Some? ==> NoEnding(f, Replay(f, state, h, clock).value, p, clock)
    ensures Replay(f, state, h + (p + m), clock).None?
  {
    ReplayCut(f, state, h, p + m, clock);
    if Replay(f, state, h, clock).Some? {
      PieceRefused(f, Replay(f, state, h, clock).value, p, m, clock);
    }
  }

  /** Cut where the last piece begins and where the line feed comes. */
  lemma Pieces(c: Bytes, more: Bytes, n: nat, total: nat)
    requires n < |c| && Unended(c) && (n == 0 || c[n - 1] == CR) && (forall i :: n <= i < |c| - 1 ==> c[i] != CR)
    requires |c| < total <= |c + more| && (c + more)[total - 1] == LF
    ensures var h, p, m := c[..n], c[n..], more[..total - |c|];
            && (c + more)[..total] == h + (p + m) && Cut(h, p + m)
            && Unended(p) && (forall i :: 0 <= i < |p| - 1 ==> p[i] != CR) && m[|m| - 1] == LF
  {
    assert c[n..][0] == c[n];
  }

  lemma HopelessUntil<S>(f: Fold<S>, state: S, c: Bytes, more: Bytes, total: nat, clock: int)
    requires c != [] && Unended(c) && Hopeless(f, state, c, clock)
    requires |c| < total <= |c + more| && (c + more)[total - 1] == LF
    ensures Replay(f, state, (c + more)[..total], clock).None?
  {
    var n := LastStart(c);
    Pieces(c, more, n, total);
    RefusedTogether(f, state, c[..n], c[n..], more[..total - |c|], clock);
  }

  lemma HopelessIsDoomed<S>(f: Fold<S>, state: S, c: Bytes, more: Bytes, clock: int)
    requires c != [] && Unended(c) && Hopeless(f, state, c, clock) && Complete(c + more) > 0
    ensures Replay(f, state, (c + more)[..Complete(c + more)], clock).None?
  {
    CompleteWithin(c, more);
    HopelessUntil(f, state, c, more, Complete(c + more), clock);
  }

  lemma AcceptedTogether<S>(f: Fold<S>, state: S, h: Bytes, state': S, s: Bytes, clock: int)
    requires Cut(h, s) && Replay(f, state, h, clock) == Some(state') && Replay(f, state', s, clock).Some?
    ensures Replay(f, state, h + s, clock).Some?
  {
    ReplayCut(f, state, h, s, clock);
  }

  lemma HopefulIsNotDoomed<S>(f: Fold<S>, state: S, c: Bytes, clock: int) returns (more: Bytes)
    requires c != [] && Unended(c) && !Hopeless(f, state, c, clock)
    ensures more != [] && more[|more| - 1] == LF && Replay(f, state, c + more, clock).Some?
  {
    var n := LastStart(c);
    var h, p := c[..n], c[n..];
    var state' := Replay(f, state, h, clock).value;
    more := PieceAccepted(f, state', p, clock);
    Pieces(c, more, n, |c + more|);
    assert (c + more)[..|c + more|] == c + more && more[..|more|] == more;
    AcceptedTogether(f, state, h, state', p + more, clock);
  }

  lemma DoomedExact<S>(f: Fold<S>, state: S, c: Bytes, clock: int)
    requires c != [] && Unended(c)
    ensures Doomed(f, state, c, clock) <==> Hopeless(f, state, c, clock)
  {
    if Hopeless(f, state, c, clock) {
      forall more: Bytes | Complete(c + more) > 0
        ensures Replay(f, state, (c + more)[..Complete(c + more)], clock).None?
      {
        HopelessIsDoomed(f, state, c, more, clock);
      }
    } else {
      var more := HopefulIsNotDoomed(f, state, c, clock);
      WholeComplete(c + more);
    }
  }

  lemma WholeComplete(s: Bytes)
    requires s != [] && s[|s| - 1] == LF
    ensures Complete(s) == |s| && s[..|s|] == s
  {
  }

  // ----- the reader -----

  /** Nothing that begins with what the reader has read so far, up to the end of this read, replays past its
      offset. */
  ghost predicate ReadDoomed<S>(f: Fold<S>, init: S, file: Bytes, clock: int, r: Reader<S>)
    requires r.offset <= |file|
  {
    forall more: Bytes :: ContinuationRefused(f, init, file[..r.offset], Chunk(file, r.offset) + more, clock)
  }

  ghost predicate ContinuationRefused<S>(f: Fold<S>, init: S, a: Bytes, s: Bytes, clock: int)
  {
    Complete(a + s) > |a| ==> Replay(f, init, (a + s)[..Complete(a + s)], clock).None?
  }

  lemma ContinuationFrom<S>(f: Fold<S>, init: S, a: Bytes, s: Bytes, state: S, clock: int)
    requires (a == [] || a[|a| - 1] == LF) && Replay(f, init, a, clock) == Some(state)
    ensures ContinuationRefused(f, init, a, s, clock) <==>
            (Complete(s) > 0 ==> Replay(f, state, s[..Complete(s)], clock).None?)
  {
    CompleteAfter(a, s);
    ReplayCut(f, init, a, s[..Complete(s)], clock);
  }

  /** Any reader, any fold, any read over the limit without a line feed, whether or not one follows on disk: it
      is refused, and the refusal is right exactly when one of the lines already ended in it is too long or
      refused, or its last piece has no acceptable ending. */
  lemma EarlyRefusalExact<S>(f: Fold<S>, init: S, file: Bytes, clock: int, r: Reader<S>)
    requires Faithful(f, init, file, clock, r) && !r.failed
    requires Unended(Chunk(file, r.offset)) && |Chunk(file, r.offset)| > LINE_LIMIT
    ensures Snapshot(f, r, file, clock) == r.(failed := true)
    ensures ReadDoomed(f, init, file, clock, r) <==> Hopeless(f, r.state, Chunk(file, r.offset), clock)
  {
    var a, c := file[..r.offset], Chunk(file, r.offset);
    DoomedExact(f, r.state, c, clock);
    forall more: Bytes
      ensures ContinuationRefused(f, init, a, c + more, clock) <==>
              (Complete(c + more) > 0 ==> Replay(f, r.state, (c + more)[..Complete(c + more)], clock).None?)
    {
      ContinuationFrom(f, init, a, c + more, r.state, clock);
    }
  }

  // ----- whatever the fold -----

  ghost predicate AllShort(lines: seq<Bytes>)
  {
    forall i :: 0 <= i < |lines| ==> |Stripped(lines[i])| <= LINE_LIMIT
  }

  lemma {:induction false} FoldedShort<S>(f: Fold<S>, state: S, lines: seq<Bytes>, clock: int)
    ensures FoldLines(f, state, lines, clock).Some? ==> AllShort(lines)
    ensures (forall s, line, c :: f(s, line, c).Some?) && AllShort(lines) ==> FoldLines(f, state, lines, clock).Some?
    decreases |lines|
  {
    if lines != [] {
      assert AllShort(lines) <==> |Stripped(lines[0])| <= LINE_LIMIT && AllShort(lines[1..]) by {
        assert forall i :: 0 < i < |lines| ==> lines[1..][i - 1] == lines[i];
      }
      if Line(f, state, lines[0], clock).Some? {
        FoldedShort(f, Line(f, state, lines[0], clock).value, lines[1..], clock);
      }
    }
  }

  /** A read splits into its ended lines and its last piece. */
  lemma LastPiece(c: Bytes, n: nat)
    requires c != [] && Unended(c) && n == LastStart(c)
    ensures SplitLines(c) == SplitLines(c[..n]) + [c[n..]]
    ensures AllShort(SplitLines(c)) <==> AllShort(SplitLines(c[..n])) && |Stripped(c[n..])| <= LINE_LIMIT
  {
    var h, p := c[..n], c[n..];
    assert c == h + p && p[0] == c[n];
    SplitCut(h, p);
    OnePiece(p);
    ShortAppend(SplitLines(h), p);
  }

  lemma ShortAppend(front: seq<Bytes>, p: Bytes)
    ensures AllShort(front + [p]) <==> AllShort(front) && |Stripped(p)| <= LINE_LIMIT
  {
    var all := front + [p];
    assert all[|front|] == p && forall i :: 0 <= i < |front| ==> all[i] == front[i];
  }

  lemma OnePiece(p: Bytes)
    requires p != [] && Unended(p) && forall i :: 0 <= i < |p| - 1 ==> p[i] != CR
    ensures SplitLines(p) == [p]
  {
    var q := PieceShape(p);
    if EndsCR(p) {
      PlainFirst(q, [CR]);
    } else {
      PlainFirst(q, []);
      assert q + [] == q;
    }
    SplitHead(p, |p|);
    assert p[..|p|] == p && p[|p|..] == [];
  }

  lemma LongPiece<S>(f: Fold<S>, state: S, p: Bytes, clock: int)
    requires p != [] && Unended(p) && forall i :: 0 <= i < |p| - 1 ==> p[i] != CR
    ensures |Stripped(p)| > LINE_LIMIT ==> NoEnding(f, state, p, clock)
    ensures (forall s, line, c :: f(s, line, c).Some?) && |Stripped(p)| <= LINE_LIMIT ==> !NoEnding(f, state, p, clock)
  {
    var q := PieceShape(p);
    if !EndsCR(p) {
      StrippedPlain(p, []);
      assert p + [] == p;
      assert Plain([]) && Line(f, state, p + [], clock) == Line(f, state, p, clock);
      forall tail: Bytes | Plain(tail) ensures |Stripped(p + tail)| >= |Stripped(p)| {
        StrippedKeeps(p, tail);
      }
    }
  }

  lemma FrontShort<S>(f: Fold<S>, state: S, h: Bytes, lines: seq<Bytes>, clock: int)
    requires lines == SplitLines(h)
    ensures Replay(f, state, h, clock).Some? ==> AllShort(lines)
    ensures (forall s, line, k :: f(s, line, k).Some?) && AllShort(lines) ==> Replay(f, state, h, clock).Some?
  {
    FoldedShort(f, state, lines, clock);
  }

  lemma HopelessIfLong<S>(f: Fold<S>, state: S, c: Bytes, clock: int)
    requires c != [] && Unended(c) && !AllShort(SplitLines(c))
    ensures Hopeless(f, state, c, clock)
  {
    var n := LastStart(c);
    LastPiece(c, n);
    FrontShort(f, state, c[..n], SplitLines(c[..n]), clock);
    if Replay(f, state, c[..n], clock).Some? {
      LongPiece(f, Replay(f, state, c[..n], clock).value, c[n..], clock);
    }
  }

  lemma HopefulIfShort<S>(f: Fold<S>, state: S, c: Bytes, clock: int)
    requires c != [] && Unended(c) && AllShort(SplitLines(c)) && forall s, line, k :: f(s, line, k).Some?
    ensures !Hopeless(f, state, c, clock)
  {
    var n := LastStart(c);
    LastPiece(c, n);
    FrontShort(f, state, c[..n], SplitLines(c[..n]), clock);
    LongPiece(f, Replay(f, state, c[..n], clock).value, c[n..], clock);
  }

  lemma LongIsDoomed<S>(f: Fold<S>, state: S, c: Bytes, clock: int)
    requires c != [] && Unended(c) && !AllShort(SplitLines(c))
    ensures Doomed(f, state, c, clock)
  {
    HopelessIfLong(f, state, c, clock);
    DoomedExact(f, state, c, clock);
  }

  lemma ShortIsNotDoomed<S>(f: Fold<S>, state: S, c: Bytes, clock: int)
    requires c != [] && Unended(c) && AllShort(SplitLines(c)) && forall s, line, k :: f(s, line, k).Some?
    ensures !Doomed(f, state, c, clock)
  {
    HopefulIfShort(f, state, c, clock);
    DoomedExact(f, state, c, clock);
  }

  /** The refusal is right whatever a line means exactly when one of the lines of the read is too long. */
  lemma RightForEveryFold<S(!new)>(state: S, c: Bytes, clock: int)
    requires c != [] && Unended(c)
    ensures (forall f: Fold<S> :: Doomed(f, state, c, clock)) <==> !AllShort(SplitLines(c))
  {
    if AllShort(SplitLines(c)) {
      var accepting: Fold<S> := (s, line, k) => Some(s);
      ShortIsNotDoomed(accepting, state, c, clock);
    } else {
      forall f: Fold<S> ensures Doomed(f, state, c, clock) {
        LongIsDoomed(f, state, c, clock);
      }
    }
  }

  /** So it always is when the read holds no carriage return. */
  lemma PlainReadIsLong(c: Bytes)
    requires Plain(c) && |c| > LINE_LIMIT
    ensures !AllShort(SplitLines(c))
  {
    OnePiece(c);
    StrippedPlain(c, []);
    assert c + [] == c;
    assert SplitLines(c)[0] == c;
  }
}
