/** How much time a list of intervals covers.

    Times are whole multiples of some unit, which a finite list of floating-point times always has. The
    reference is the set of unit cells inside at least one interval, so overlap counts once. */
module Coverage {
  import opened Common

  /** An observation that ended at `at` after `elapsed`. */
  datatype Row = Row(at: int, elapsed: int)

  datatype Interval = Interval(low: int, end: int)

  predicate Inside(k: int, low: int, end: int)
  {
    low <= k < end
  }

  function Range(low: int, end: int): (cells: set<int>)
    ensures forall k :: k in cells <==> low <= k < end
  {
    set k | low <= k < end && Inside(k, low, end)
  }

  function Max(a: int, b: int): int
  {
    if a >= b then a else b
  }

  function Min(a: int, b: int): int
  {
    if a <= b then a else b
  }

  function OfRow(r: Row): Interval
  {
    Interval(r.at - r.elapsed, r.at)
  }

  function Cells(points: seq<Interval>): set<int>
  {
    if points == [] then {} else Range(points[0].low, points[0].end) + Cells(points[1..])
  }

  function RowCells(rows: seq<Row>): set<int>
  {
    if rows == [] then {} else Range(rows[0].at - rows[0].elapsed, rows[0].at) + RowCells(rows[1..])
  }

  predicate Ordered(points: seq<Interval>)
  {
    forall i, j :: 0 <= i < j < |points| ==> points[i].low <= points[j].low
  }

  // ----- sizes and unions -----

  lemma {:induction false} RangeSize(low: int, end: int)
    ensures |Range(low, end)| == Max(0, end - low)
    decreases Max(0, end - low)
  {
    if low < end {
      RangeSize(low, end - 1);
      assert Range(low, end) == Range(low, end - 1) + {end - 1};
    } else {
      assert Range(low, end) == {};
    }
  }

  lemma {:induction false} CellsAppend(points: seq<Interval>, p: Interval)
    ensures Cells(points + [p]) == Cells(points) + Range(p.low, p.end)
    decreases |points|
  {
    if points == [] {
      assert ([] + [p])[1..] == [];
    } else {
      assert (points + [p])[1..] == points[1..] + [p];
      CellsAppend(points[1..], p);
    }
  }

  lemma {:induction false} InCells(points: seq<Interval>, k: int)
    ensures k in Cells(points) <==> exists i :: 0 <= i < |points| && points[i].low <= k < points[i].end
    decreases |points|
  {
    if points != [] {
      InCells(points[1..], k);
      if i :| 0 <= i < |points| && points[i].low <= k < points[i].end {
        if i > 0 { assert points[1..][i - 1] == points[i]; }
      }
      if i :| 0 <= i < |points[1..]| && points[1..][i].low <= k < points[1..][i].end {
        assert points[i + 1] == points[1..][i];
      }
    }
  }

  // ----- sorting the intervals -----

  predicate Before(a: Interval, b: Interval)
  {
    a.low < b.low || (a.low == b.low && a.end <= b.end)
  }

  function Insert(p: Interval, points: seq<Interval>): seq<Interval>
  {
    if points == [] || Before(p, points[0]) then [p] + points else [points[0]] + Insert(p, points[1..])
  }

  function Sorted(rows: seq<Row>): seq<Interval>
  {
    if rows == [] then [] else Insert(OfRow(rows[0]), Sorted(rows[1..]))
  }

  ghost predicate Above(low: int, points: seq<Interval>)
  {
    forall i :: 0 <= i < |points| ==> low <= points[i].low
  }

  lemma {:induction false} InsertKeeps(p: Interval, points: seq<Interval>, low: int)
    requires Ordered(points)
    ensures Ordered(Insert(p, points)) && Cells(Insert(p, points)) == Cells(points) + Range(p.low, p.end)
    ensures Above(low, points) && low <= p.low ==> Above(low, Insert(p, points))
    decreases |points|
  {
    if points == [] || Before(p, points[0]) {
      assert ([p] + points)[1..] == points;
    } else {
      var rest := points[1..];
      InsertKeeps(p, rest, points[0].low);
      InsertKeeps(p, rest, low);
      assert ([points[0]] + Insert(p, rest))[1..] == Insert(p, rest);
    }
  }

  lemma {:induction false} SortedKeeps(rows: seq<Row>)
    ensures Ordered(Sorted(rows)) && Cells(Sorted(rows)) == RowCells(rows)
    decreases |rows|
  {
    if rows != [] {
      SortedKeeps(rows[1..]);
      InsertKeeps(OfRow(rows[0]), Sorted(rows[1..]), 0);
    }
  }

  // ----- the sweep -----

  /** `high` is the latest end of the list, if it has any. */
  ghost predicate Latest(points: seq<Interval>, high: Option<int>)
  {
    && (high.None? <==> points == [])
    && (high.Some? ==> (exists j :: 0 <= j < |points| && points[j].end == high.value)
                       && forall j :: 0 <= j < |points| ==> points[j].end <= high.value)
  }

  function Later(high: Option<int>, end: int): Option<int>
  {
    Some(if high.None? then end else Max(high.value, end))
  }

  lemma LatestNext(points: seq<Interval>, p: Interval, high: Option<int>)
    requires Latest(points, high)
    ensures Latest(points + [p], Later(high, p.end))
  {
    var more := points + [p];
    assert more[|points|] == p;
    if high.Some? {
      var j :| 0 <= j < |points| && points[j].end == high.value;
      assert more[j] == points[j];
    }
  }

  /** In a list ordered by start, whose latest end is `high`, a later start makes exactly `high` the limit
      of what is already covered. */
  lemma CoveredBelowHigh(points: seq<Interval>, p: Interval, high: int, k: int)
    requires Ordered(points + [p]) && p.low <= k && Latest(points, Some(high))
    ensures k in Cells(points) <==> k < high
  {
    InCells(points, k);
    var j :| 0 <= j < |points| && points[j].end == high;
    assert (points + [p])[j] == points[j] && (points + [p])[|points|] == p;
    assert points[j].low <= p.low;
  }

  function Added(p: Interval, high: Option<int>): nat
  {
    Max(0, p.end - Max(p.low, if high.Some? then high.value else p.low))
  }

  lemma SweepStep(points: seq<Interval>, p: Interval, high: Option<int>)
    requires Ordered(points + [p]) && Latest(points, high)
    ensures |Cells(points + [p])| == |Cells(points)| + Added(p, high)
  {
    var from := Max(p.low, if high.Some? then high.value else p.low);
    CellsAppend(points, p);
    if high.Some? {
      forall k | p.low <= k < p.end ensures k in Cells(points) <==> k < high.value {
        CoveredBelowHigh(points, p, high.value, k);
      }
    }
    assert Cells(points) + Range(p.low, p.end) == Cells(points) + Range(from, p.end);
    assert Cells(points) !! Range(from, p.end);
    RangeSize(from, p.end);
  }

  method Sweep(points: seq<Interval>) returns (total: nat)
    requires Ordered(points)
    ensures total == |Cells(points)|
  {
    var high: Option<int> := None;
    total := 0;
    for i := 0 to |points|
      invariant total == |Cells(points[..i])| && Latest(points[..i], high)
    {
      var p := points[i];
      assert points[..i + 1] == points[..i] + [p];
      SweepStep(points[..i], p, high);
      LatestNext(points[..i], p, high);
      total := total + Added(p, high);
      high := Later(high, p.end);
    }
    assert points[..|points|] == points;
  }

  /** The total is the size of the union of the intervals, whatever their order, overlap or emptiness. */
  method Covered(rows: seq<Row>) returns (total: nat)
    ensures total == |RowCells(rows)|
  {
    SortedKeeps(rows);
    total := Sweep(Sorted(rows));
  }

  // ----- what follows about the measure -----

  function Durations(rows: seq<Row>): nat
  {
    if rows == [] then 0 else Max(0, rows[0].elapsed) + Durations(rows[1..])
  }

  /** Never more than the durations added up. */
  lemma {:induction false} CoveredAtMostSum(rows: seq<Row>)
    ensures |RowCells(rows)| <= Durations(rows)
    decreases |rows|
  {
    if rows != [] {
      CoveredAtMostSum(rows[1..]);
      RangeSize(rows[0].at - rows[0].elapsed, rows[0].at);
      UnionSize(Range(rows[0].at - rows[0].elapsed, rows[0].at), RowCells(rows[1..]));
    }
  }

  lemma UnionSize(a: set<int>, b: set<int>)
    ensures |a + b| <= |a| + |b|
  {
    assert a + b == a + (b - a);
    assert b == (b - a) + (b * a);
  }

  /** Independent of the order of the rows: any rows with the same members cover the same cells. */
  lemma SameRowsSameCells(rows: seq<Row>, other: seq<Row>)
    requires forall r :: r in rows <==> r in other
    ensures RowCells(rows) == RowCells(other)
  {
    forall k ensures k in RowCells(rows) <==> k in RowCells(other) {
      InRowCells(rows, k);
      InRowCells(other, k);
    }
  }

  lemma {:induction false} InRowCells(rows: seq<Row>, k: int)
    ensures k in RowCells(rows) <==> exists r :: r in rows && r.at - r.elapsed <= k < r.at
    decreases |rows|
  {
    if rows != [] {
      InRowCells(rows[1..], k);
      assert rows == [rows[0]] + rows[1..];
    }
  }

  // ----- clipping to the first request -----

  ghost predicate StartsFirst(rows: seq<Row>, first: nat)
  {
    && first < |rows|
    && (forall j :: 0 <= j < |rows| ==> OfRow(rows[first]).low <= OfRow(rows[j]).low)
    && (forall j :: 0 <= j < first ==> OfRow(rows[first]).low < OfRow(rows[j]).low)
  }

  /** The part of the probes' union inside one request. */
  ghost function InsideOf(probes: seq<Row>, request: Row): nat
  {
    |RowCells(probes) * Range(request.at - request.elapsed, request.at)|
  }

  /** The request that starts first, the earliest in the list among equals. */
  method FirstRequest(rows: seq<Row>) returns (first: nat)
    requires rows != []
    ensures StartsFirst(rows, first)
  {
    first := 0;
    for i := 1 to |rows|
      invariant first < i
      invariant forall j :: 0 <= j < i ==> OfRow(rows[first]).low <= OfRow(rows[j]).low
      invariant forall j :: 0 <= j < first ==> OfRow(rows[first]).low < OfRow(rows[j]).low
    {
      if OfRow(rows[i]).low < OfRow(rows[first]).low { first := i; }
    }
  }

  function Clip(window: Interval, r: Row): seq<Row>
  {
    var start, end := Max(window.low, OfRow(r).low), Min(window.end, OfRow(r).end);
    if end > start then [Row(end, end - start)] else []
  }

  function Clipped(window: Interval, rows: seq<Row>): seq<Row>
  {
    if rows == [] then [] else Clipped(window, rows[..|rows| - 1]) + Clip(window, rows[|rows| - 1])
  }

  lemma {:induction false} RowCellsAppend(a: seq<Row>, b: seq<Row>)
    ensures RowCells(a + b) == RowCells(a) + RowCells(b)
    decreases |a|
  {
    if a == [] {
      assert a + b == b;
    } else {
      assert (a + b)[1..] == a[1..] + b;
      RowCellsAppend(a[1..], b);
    }
  }

  lemma ClipCells(window: Interval, r: Row)
    ensures RowCells(Clip(window, r)) == Range(OfRow(r).low, OfRow(r).end) * Range(window.low, window.end)
  {
    var c := Clip(window, r);
    if c != [] {
      assert c[1..] == [];
      assert RowCells(c[1..]) == {};
    }
  }

  lemma LastCells(front: seq<Row>, last: Row)
    ensures RowCells(front + [last]) == RowCells(front) + Range(OfRow(last).low, OfRow(last).end)
  {
    RowCellsAppend(front, [last]);
    assert [last][1..] == [];
    assert RowCells([last][1..]) == {};
  }

  lemma Distribute(a: set<int>, b: set<int>, window: set<int>)
    ensures a * window + b * window == (a + b) * window
  {
  }

  lemma {:induction false} ClippedCells(window: Interval, rows: seq<Row>)
    ensures RowCells(Clipped(window, rows)) == RowCells(rows) * Range(window.low, window.end)
    decreases |rows|
  {
    if rows != [] {
      var front, last := rows[..|rows| - 1], rows[|rows| - 1];
      assert rows == front + [last];
      ClippedCells(window, front);
      ClipCells(window, last);
      RowCellsAppend(Clipped(window, front), Clip(window, last));
      LastCells(front, last);
      Distribute(RowCells(front), Range(OfRow(last).low, OfRow(last).end), Range(window.low, window.end));
    }
  }

  method ClipProbes(window: Interval, probes: seq<Row>) returns (clipped: seq<Row>)
    ensures clipped == Clipped(window, probes)
  {
    clipped := [];
    for i := 0 to |probes|
      invariant clipped == Clipped(window, probes[..i])
    {
      var start, end := Max(window.low, OfRow(probes[i]).low), Min(window.end, OfRow(probes[i]).end);
      assert probes[..i + 1][..i] == probes[..i];
      if end > start { clipped := clipped + [Row(end, end - start)]; }
    }
    assert probes[..|probes|] == probes;
  }

  /** Clipping each probe to the first request and measuring the result measures exactly the part of the
      probes' union that lies inside that request. */
  method StartupOverlap(requests: seq<Row>, probes: seq<Row>) returns (overlap: Option<nat>)
    ensures overlap.None? <==> requests == [] || probes == []
    ensures overlap.Some? ==> exists i: nat :: StartsFirst(requests, i) && overlap.value == InsideOf(probes, requests[i])
  {
    if requests == [] || probes == [] { return None; }
    var first := FirstRequest(requests);
    var window := OfRow(requests[first]);
    var clipped := ClipProbes(window, probes);
    ClippedCells(window, probes);
    var total := Covered(clipped);
    return Some(total);
  }
}
