/** Provider usage of one run, folded page by page from its committed rows, and the monitor's validator for
    what is shown of it. */
module Usage {
  import opened Common

  const SAFE_INTEGER := 0x1f_ffff_ffff_ffff
  const PAGE_LIMIT := 32

  /** Input, output, prompt cache hit and prompt cache miss tokens. */
  const FIELDS := 4
  const HIT := 2
  const MISS := 3

  /** One reported row. `scoped` says it has exactly the expected fields, this session and run, and a valid
      turn; `order` is the session's own sequence. */
  datatype Row = Row(scoped: bool, sequence: int, order: int, values: seq<Option<int>>)

  predicate InRange(v: int, minimum: int)
  {
    minimum <= v <= SAFE_INTEGER
  }

  predicate RowOk(row: Row, previous: int)
  {
    && row.scoped && |row.values| == FIELDS && InRange(row.sequence, 1) && InRange(row.order, 1) && row.sequence > previous
    && forall k :: 0 <= k < FIELDS ==> (row.values[k].Some? ==> InRange(row.values[k].value, 0))
  }

  /** Valid rows in strictly increasing sequence, all past `previous`. */
  predicate RowsOk(rows: seq<Row>, previous: int)
    decreases |rows|
  {
    rows == [] || (RowOk(rows[0], previous) && RowsOk(rows[1..], rows[0].sequence))
  }

  predicate PageOk(rows: seq<Row>)
  {
    |rows| <= PAGE_LIMIT && RowsOk(rows, 0)
  }

  datatype Cell = Cell(total: nat, known: bool)

  datatype Totals = Totals(cursor: int, requests: nat, cells: seq<Cell>)

  const Zero := Totals(0, 0, seq(FIELDS, _ => Cell(0, true)))

  function AddValue(c: Cell, v: Option<int>): Cell
    requires v.Some? ==> v.value >= 0
  {
    if v.None? then c.(known := false)
    else if !c.known then c
    else if c.total + v.value > SAFE_INTEGER then c.(known := false)
    else Cell(c.total + v.value, true)
  }

  predicate Shaped(t: Totals)
  {
    |t.cells| == FIELDS
  }

  predicate ValuesOk(row: Row)
  {
    |row.values| == FIELDS && forall k :: 0 <= k < FIELDS ==> (row.values[k].Some? ==> row.values[k].value >= 0)
  }

  /** One row; a row at or before the cursor was counted already. */
  function AddRow(t: Totals, row: Row): (t': Totals)
    requires Shaped(t) && ValuesOk(row)
    ensures Shaped(t')
  {
    if row.sequence <= t.cursor then t
    else Totals(row.sequence, t.requests + 1,
                seq(FIELDS, k requires 0 <= k < FIELDS => AddValue(t.cells[k], row.values[k])))
  }

  predicate AllValuesOk(rows: seq<Row>)
  {
    forall i :: 0 <= i < |rows| ==> ValuesOk(rows[i])
  }

  function AddRows(t: Totals, rows: seq<Row>): (t': Totals)
    requires Shaped(t) && AllValuesOk(rows)
    ensures Shaped(t')
    decreases |rows|
  {
    if rows == [] then t else AddRows(AddRow(t, rows[0]), rows[1..])
  }

  lemma {:induction false} RowsOkValues(rows: seq<Row>, previous: int)
    requires RowsOk(rows, previous)
    ensures AllValuesOk(rows)
    decreases |rows|
  {
    if rows != [] {
      RowsOkValues(rows[1..], rows[0].sequence);
      forall i | 0 <= i < |rows| ensures ValuesOk(rows[i]) {
        if i > 0 { assert rows[i] == rows[1..][i - 1]; }
      }
    }
  }

  // ----- the accumulator -----

  datatype State = State(totals: Totals, observed: bool, caughtUp: bool)

  const Fresh := State(Zero, false, false)

  ghost function Applied(s: State, rows: seq<Row>): State
    requires Shaped(s.totals)
  {
    if PageOk(rows) then
      RowsOkValues(rows, 0);
      State(AddRows(s.totals, rows), true, |rows| < PAGE_LIMIT)
    else s
  }

  class ProviderUsageAccumulator {
    var cursor: int
    var requests: nat
    var cells: seq<Cell>
    var observed: bool
    var caughtUp: bool

    function View(): State
      reads this
    {
      State(Totals(cursor, requests, cells), observed, caughtUp)
    }

    predicate Valid()
      reads this
    {
      |cells| == FIELDS
    }

    constructor ()
      ensures Valid() && View() == Fresh
    {
      cursor, requests, observed, caughtUp := 0, 0, false, false;
      cells := seq(FIELDS, _ => Cell(0, true));
    }

    /** Checks every row before any of them counts. */
    method Check(rows: seq<Row>) returns (ok: bool)
      ensures ok <==> PageOk(rows)
    {
      if |rows| > PAGE_LIMIT { return false; }
      var previous := 0;
      for i := 0 to |rows|
        invariant RowsOk(rows, 0) <==> RowsOk(rows[i..], previous)
      {
        assert rows[i..][0] == rows[i] && rows[i..][1..] == rows[i + 1..];
        var row := rows[i];
        if !row.scoped || |row.values| != FIELDS || !InRange(row.sequence, 1) || !InRange(row.order, 1) { return false; }
        if row.sequence <= previous { return false; }
        for k := 0 to FIELDS
          invariant forall j :: 0 <= j < k ==> (row.values[j].Some? ==> InRange(row.values[j].value, 0))
        {
          if row.values[k].Some? && !InRange(row.values[k].value, 0) { return false; }
        }
        previous := row.sequence;
      }
      ok := true;
    }

    method AddOne(row: Row)
      requires Valid() && ValuesOk(row)
      modifies this`cursor, this`requests, this`cells
      ensures Valid() && Totals(cursor, requests, cells) == AddRow(Totals(old(cursor), old(requests), old(cells)), row)
    {
      if row.sequence <= cursor { return; }
      cursor := row.sequence;
      requests := requests + 1;
      for k := 0 to FIELDS
        invariant |cells| == FIELDS && cursor == row.sequence && requests == old(requests) + 1
        invariant forall j :: 0 <= j < k ==> cells[j] == AddValue(old(cells)[j], row.values[j])
        invariant forall j :: k <= j < FIELDS ==> cells[j] == old(cells)[j]
      {
        var c := cells[k];
        if row.values[k].None? {
          cells := cells[k := Cell(c.total, false)];
        } else if c.known {
          var total := c.total + row.values[k].value;
          cells := cells[k := if total > SAFE_INTEGER then Cell(c.total, false) else Cell(total, true)];
        }
      }
      assert cells == AddRow(Totals(old(cursor), old(requests), old(cells)), row).cells;
    }

    /** A refused page changes nothing. */
    method ApplyPage(rows: seq<Row>) returns (ok: bool)
      requires Valid()
      modifies this
      ensures Valid() && View() == Applied(old(View()), rows)
      ensures ok <==> PageOk(rows)
    {
      ok := Check(rows);
      if !ok { return; }
      RowsOkValues(rows, 0);
      for i := 0 to |rows|
        invariant Valid() && observed == old(observed) && caughtUp == old(caughtUp)
        invariant AddRows(Totals(cursor, requests, cells), rows[i..]) == AddRows(old(View()).totals, rows)
      {
        assert rows[i..][0] == rows[i] && rows[i..][1..] == rows[i + 1..];
        AddOne(rows[i]);
      }
      observed := true;
      caughtUp := |rows| < PAGE_LIMIT;
    }
  }

  // ----- what the fold over rows means -----

  function Sum(rows: seq<Row>, k: nat): int
    requires k < FIELDS && AllValuesOk(rows)
  {
    if rows == [] then 0
    else Sum(rows[..|rows| - 1], k) + (if rows[|rows| - 1].values[k].Some? then rows[|rows| - 1].values[k].value else 0)
  }

  predicate Supplied(rows: seq<Row>, k: nat)
    requires k < FIELDS && AllValuesOk(rows)
  {
    forall i :: 0 <= i < |rows| ==> rows[i].values[k].Some?
  }

  predicate Increasing(rows: seq<Row>)
  {
    && (forall i :: 0 <= i < |rows| ==> InRange(rows[i].sequence, 1))
    && (forall i, j :: 0 <= i < j < |rows| ==> rows[i].sequence < rows[j].sequence)
  }

  /** The totals of the whole of `rows`: a field is known exactly when every row supplied it and the sum is in
      range, and then it is that sum. */
  ghost predicate TotalsOf(t: Totals, rows: seq<Row>)
    requires AllValuesOk(rows)
  {
    && Shaped(t) && t.requests == |rows|
    && t.cursor == (if rows == [] then 0 else rows[|rows| - 1].sequence)
    && forall k :: 0 <= k < FIELDS ==> CellOf(t.cells[k], rows, k)
  }

  ghost predicate CellOf(c: Cell, rows: seq<Row>, k: nat)
    requires k < FIELDS && AllValuesOk(rows)
  {
    && (c.known <==> Supplied(rows, k) && Sum(rows, k) <= SAFE_INTEGER)
    && (c.known ==> c.total == Sum(rows, k)) && c.total <= SAFE_INTEGER && Sum(rows, k) >= 0
  }

  lemma CellNext(c: Cell, rows: seq<Row>, row: Row, k: nat)
    requires k < FIELDS && AllValuesOk(rows) && ValuesOk(row) && CellOf(c, rows, k)
    ensures AllValuesOk(rows + [row]) && CellOf(AddValue(c, row.values[k]), rows + [row], k)
  {
    var more := rows + [row];
    assert more[..|more| - 1] == rows;
    assert Supplied(more, k) <==> Supplied(rows, k) && row.values[k].Some? by {
      assert forall i :: 0 <= i < |rows| ==> more[i] == rows[i];
      assert more[|rows|] == row;
    }
  }

  lemma TotalsNext(t: Totals, rows: seq<Row>, row: Row)
    requires AllValuesOk(rows) && ValuesOk(row) && TotalsOf(t, rows) && row.sequence > t.cursor
    ensures AllValuesOk(rows + [row]) && TotalsOf(AddRow(t, row), rows + [row])
  {
    forall k | 0 <= k < FIELDS ensures CellOf(AddRow(t, row).cells[k], rows + [row], k) {
      CellNext(t.cells[k], rows, row, k);
    }
  }

  // ----- any polling schedule -----

  /** The committed log so far, the accumulator, how many rows it has counted, and how long the log was when
      the last accepted page was read. */
  datatype World = World(log: seq<Row>, state: State, counted: nat, seen: nat)

  datatype Step = Commit(row: Row) | Poll(start: nat, stop: nat) | Refuse(rows: seq<Row>)

  /** A page is a stretch of the log that starts no later than the first row not counted yet, and is short
      only at the end of the log. */
  predicate Can(w: World, step: Step)
  {
    match step
    case Commit(row) => InRange(row.sequence, 1) && (w.log != [] ==> row.sequence > w.log[|w.log| - 1].sequence)
    case Poll(start, stop) => start <= w.counted && start <= stop <= |w.log| && (stop - start < PAGE_LIMIT ==> stop == |w.log|)
    case Refuse(rows) => !PageOk(rows)
  }

  ghost function Next(w: World, step: Step): World
    requires Can(w, step) && Shaped(w.state.totals)
  {
    match step
    case Commit(row) => w.(log := w.log + [row])
    case Poll(start, stop) =>
      var page := w.log[start..stop];
      World(w.log, Applied(w.state, page),
            if PageOk(page) && stop > w.counted then stop else w.counted, if PageOk(page) then |w.log| else w.seen)
    case Refuse(rows) => w.(state := Applied(w.state, rows))
  }

  ghost predicate Inv(w: World)
  {
    && w.seen <= |w.log| && w.counted <= |w.log| && Increasing(w.log)
    && AllValuesOk(w.log[..w.counted]) && TotalsOf(w.state.totals, w.log[..w.counted])
    && (w.state.observed && w.state.caughtUp ==> w.counted >= w.seen)
    && (!w.state.observed ==> w.counted == 0)
  }

  /** Rows at or before the cursor are skipped; the others extend the counted prefix one by one. */
  lemma {:induction false} PageExtends(t: Totals, log: seq<Row>, counted: nat, start: nat, stop: nat)
    requires Increasing(log) && start <= counted <= |log| && start <= stop <= |log|
    requires AllValuesOk(log[..counted]) && TotalsOf(t, log[..counted]) && AllValuesOk(log[start..stop])
    ensures var n := if stop > counted then stop else counted;
            AllValuesOk(log[..n]) && TotalsOf(AddRows(t, log[start..stop]), log[..n])
    decreases stop - start
  {
    if start < stop {
      var row := log[start];
      assert log[start..stop][0] == row && log[start..stop][1..] == log[start + 1..stop];
      if start < counted {
        assert log[..counted][|log[..counted]| - 1] == log[counted - 1];
        PageExtends(t, log, counted, start + 1, stop);
      } else {
        assert counted > 0 ==> log[..counted][|log[..counted]| - 1] == log[counted - 1];
        assert log[..counted + 1] == log[..counted] + [row];
        TotalsNext(t, log[..counted], row);
        PageExtends(AddRow(t, row), log, counted + 1, start + 1, stop);
      }
    }
  }

  lemma StepKeeps(w: World, step: Step)
    requires Inv(w) && Can(w, step)
    ensures Inv(Next(w, step)) && w.counted <= Next(w, step).counted
  {
    match step
    case Commit(row) =>
      assert (w.log + [row])[..w.counted] == w.log[..w.counted];
    case Poll(start, stop) =>
      var page := w.log[start..stop];
      if PageOk(page) {
        RowsOkValues(page, 0);
        PageExtends(w.state.totals, w.log, w.counted, start, stop);
      }
    case Refuse(rows) =>
  }

  ghost predicate Runs(w: World, steps: seq<Step>)
    requires Shaped(w.state.totals)
    decreases |steps|
  {
    steps != [] ==> Can(w, steps[0]) && Shaped(Next(w, steps[0]).state.totals) && Runs(Next(w, steps[0]), steps[1..])
  }

  ghost function After(w: World, steps: seq<Step>): World
    requires Shaped(w.state.totals) && Runs(w, steps)
    decreases |steps|
  {
    if steps == [] then w else After(Next(w, steps[0]), steps[1..])
  }

  const Start := World([], Fresh, 0, 0)

  /** For every schedule of polls, repeated and refused pages and concurrent commits, the accumulator holds
      exactly the totals of the log's counted prefix; when it says it caught up, that prefix is at least all
      that was committed when it last looked. */
  lemma {:induction false} PagedFoldIsWholeFold(w: World, steps: seq<Step>)
    requires Inv(w) && Runs(w, steps)
    ensures Inv(After(w, steps)) && w.counted <= After(w, steps).counted
    decreases |steps|
  {
    if steps != [] {
      StepKeeps(w, steps[0]);
      PagedFoldIsWholeFold(Next(w, steps[0]), steps[1..]);
    }
  }

  // ----- the snapshot and its validator -----

  datatype Shown = Shown(requests: Option<int>, values: seq<Option<int>>, rate: Option<real>, complete: bool)

  function OrZero(v: Option<int>): int
  {
    if v.Some? then v.value else 0
  }

  predicate AllKnown(t: Totals)
  {
    forall k :: 0 <= k < |t.cells| ==> t.cells[k].known
  }

  function Snapshot(s: State): Shown
    requires Shaped(s.totals)
  {
    if !s.observed then Shown(None, seq(FIELDS, _ => None), None, false)
    else
      var t := s.totals;
      var values := seq(FIELDS, k requires 0 <= k < FIELDS =>
                          if t.requests > 0 && t.cells[k].known then Some(t.cells[k].total) else None);
      var complete := t.requests > 0 && s.caughtUp && AllKnown(t);
      var denominator := OrZero(values[HIT]) + OrZero(values[MISS]);
      Shown(Some(t.requests), values,
            if complete && denominator != 0 then Some(OrZero(values[HIT]) as real / denominator as real) else None, complete)
  }

  predicate CountOk(v: Option<int>)
  {
    v.Some? ==> InRange(v.value, 0)
  }

  /** The monitor's check of a shown usage; equality of the rate stands for closeness of two floats. */
  predicate Accepted(u: Shown)
  {
    && |u.values| == FIELDS && CountOk(u.requests) && (forall k :: 0 <= k < FIELDS ==> CountOk(u.values[k]))
    && (u.rate.Some? ==>
          && u.complete && u.requests.Some? && (forall k :: 0 <= k < FIELDS ==> u.values[k].Some?)
          && u.values[HIT].value + u.values[MISS].value > 0
          && u.rate.value == u.values[HIT].value as real / (u.values[HIT].value + u.values[MISS].value) as real)
  }

  /** Distinct positive sequences: there are no more rows than the last one's number. */
  lemma {:induction false} CountAtMostCursor(rows: seq<Row>)
    requires Increasing(rows) && rows != []
    ensures |rows| <= rows[|rows| - 1].sequence
    decreases |rows|
  {
    if |rows| > 1 { CountAtMostCursor(rows[..|rows| - 1]); }
  }

  lemma RequestsInRange(w: World)
    requires Inv(w)
    ensures InRange(w.state.totals.requests, 0)
  {
    var rows := w.log[..w.counted];
    if rows != [] { CountAtMostCursor(rows); }
  }

  /** Every snapshot the accumulator can show passes the monitor's check, shows a field exactly when every
      counted row supplied it and the sum is in range, and is complete only if nothing was left unread. */
  lemma SnapshotAccepted(w: World)
    requires Inv(w)
    ensures var u, rows := Snapshot(w.state), w.log[..w.counted];
            && Accepted(u)
            && (forall k :: 0 <= k < FIELDS ==>
                  && (u.values[k].Some? <==> rows != [] && Supplied(rows, k) && Sum(rows, k) <= SAFE_INTEGER)
                  && (u.values[k].Some? ==> u.values[k].value == Sum(rows, k)))
            && (u.complete ==> w.counted >= w.seen && forall k :: 0 <= k < FIELDS ==> u.values[k].Some?)
  {
    RequestsInRange(w);
    var u, rows := Snapshot(w.state), w.log[..w.counted];
    forall k | 0 <= k < FIELDS ensures CellOf(w.state.totals.cells[k], rows, k) {
    }
    if u.complete {
      assert forall k :: 0 <= k < FIELDS ==> w.state.totals.cells[k].known;
    }
  }

  /** From a fresh accumulator and an empty log, at the end of every run. */
  lemma UsageRuns(steps: seq<Step>)
    requires Runs(Start, steps)
    ensures var w := After(Start, steps);
            && w.counted <= |w.log| && AllValuesOk(w.log[..w.counted])
            && TotalsOf(w.state.totals, w.log[..w.counted]) && Accepted(Snapshot(w.state))
            && (Snapshot(w.state).complete ==> w.counted >= w.seen)
  {
    assert Inv(Start);
    PagedFoldIsWholeFold(Start, steps);
    SnapshotAccepted(After(Start, steps));
  }
}
