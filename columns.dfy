/** What the sheet handler of xlsx_to_arrow.rs does to its two parallel
    vectors, as functions on their values: `table` (one column of values
    per sheet column) and `type_range_start_idx` (one list of type-run
    start rows per column). */
module Columns {
  import opened Cells

  /** The handler's state: `table` and `type_range_start_idx`. */
  datatype Store = Store(table: seq<seq<DataType>>, runs: seq<seq<nat>>)

  /** The state after a callback, and whether the callback returned
      (`false`: it panicked, and `store` is the state at the panic). */
  datatype Step = Step(store: Store, ok: bool)

  /** `std::any::TypeId`. The handler asks `Any::type_id` of two
      `DataType` values, which is the id of the type `DataType` itself,
      whatever the variant. */
  datatype TypeId = DataTypeId

  function TypeIdOf(v: DataType): TypeId
  {
    DataTypeId
  }

  /** `n` freshly pushed, empty columns. */
  function NoColumns<T>(n: nat): (cs: seq<seq<T>>)
    ensures |cs| == n
    ensures forall i | 0 <= i < n :: cs[i] == []
  {
    seq(n, i => [])
  }

  /** `n` padding values. */
  function Blanks(n: nat): (bs: seq<DataType>)
    ensures |bs| == n
    ensures forall i | 0 <= i < n :: bs[i] == Empty
  {
    seq(n, i => Empty)
  }

  /** The growth loop of `cell`: when `col` is past the last column, both
      vectors gain `col - len + 1` empty columns, so `col` becomes the last
      column of `table`; otherwise nothing changes. */
  function Grow(s: Store, col: nat): (g: Store)
    ensures |g.table| == if col < |s.table| then |s.table| else col + 1
    ensures |g.runs| == |s.runs| + (|g.table| - |s.table|)
    ensures g.table[..|s.table|] == s.table && g.runs[..|s.runs|] == s.runs
    ensures forall i | |s.table| <= i < |g.table| :: g.table[i] == []
    ensures forall i | |s.runs| <= i < |g.runs| :: g.runs[i] == []
  {
    if col < |s.table| then s
    else
      var k := col - |s.table| + 1;
      Store(s.table + NoColumns(k), s.runs + NoColumns(k))
  }

  /** The padding loop and the push of `cell`: `Empty` up to `row`, then
      the value, which therefore lands at `row` only when the column was
      not already longer. */
  function Pad(column: seq<DataType>, row: nat, v: DataType): (c: seq<DataType>)
    ensures |c| == (if row > |column| then row else |column|) + 1
    ensures c[..|column|] == column
    ensures forall i | |column| <= i < |c| - 1 :: c[i] == Empty
    ensures c[|c| - 1] == v
  {
    column + Blanks(if row > |column| then row - |column| else 0) + [v]
  }

  /** `SheetCallbacks::cell`, step by step as the program takes it. */
  function CellStep(s: Store, pos: CellPos, v: DataType): Step
  {
    var g := Grow(s, pos.col);
    var c := Pad(g.table[pos.col], pos.row, v);
    var t := g.table[pos.col := c];
    if pos.row == 0 || TypeIdOf(c[pos.row - 1]) != TypeIdOf(v) then
      if pos.col < |g.runs| then Step(Store(t, g.runs[pos.col := g.runs[pos.col] + [pos.row]]), true)
      else Step(Store(t, g.runs), false)
    else Step(Store(t, g.runs), true)
  }

  /** `SheetCallbacks::dimension`: one more column in `table`, none in
      `type_range_start_idx`. */
  function DimensionStep(s: Store): Store
  {
    Store(s.table + [[]], s.runs)
  }

  /** The column a callback sees at `col` before any growth. */
  function ColumnAt(s: Store, col: nat): seq<DataType>
  {
    if col < |s.table| then s.table[col] else []
  }

  function RunsAt(s: Store, col: nat): seq<nat>
  {
    if col < |s.runs| then s.runs[col] else []
  }

  /** How many more columns `table` has than `type_range_start_idx`. */
  function Lag(s: Store): int
  {
    |s.table| - |s.runs|
  }

  /** Growth: a cell past the last column makes it the last column, and
      both vectors grow by the same amount; a cell in an existing column
      grows neither. */
  lemma CellGrowth(s: Store, pos: CellPos, v: DataType)
    ensures var r := CellStep(s, pos, v).store;
      && |r.table| == (if pos.col < |s.table| then |s.table| else pos.col + 1)
      && |r.runs| - |s.runs| == |r.table| - |s.table|
      && (pos.col < |s.table| ==> |r.table| == |s.table| && |r.runs| == |s.runs|)
  {
  }

  /** The target column becomes the old column, padded with `Empty` to
      `pos.row` and followed by the value; every other column keeps its
      contents, and a column that did not exist before is empty. */
  lemma CellColumns(s: Store, pos: CellPos, v: DataType)
    ensures var r := CellStep(s, pos, v).store;
      && r.table[pos.col] == ColumnAt(s, pos.col) + Blanks(|r.table[pos.col]| - 1 - |ColumnAt(s, pos.col)|) + [v]
      && (forall c | 0 <= c < |r.table| && c != pos.col :: r.table[c] == ColumnAt(s, c))
  {
    var g := Grow(s, pos.col);
    assert g.table[pos.col] == ColumnAt(s, pos.col) by {
      if pos.col < |s.table| {
        assert g.table[..|s.table|][pos.col] == s.table[pos.col];
      }
    }
    var r := CellStep(s, pos, v).store;
    forall c | 0 <= c < |r.table| && c != pos.col
      ensures r.table[c] == ColumnAt(s, c)
    {
      if c < |s.table| {
        assert g.table[..|s.table|][c] == s.table[c];
      }
    }
  }

  /** Where the value lands: at `pos.row` when the column was no longer
      than that (the column is then `pos.row + 1` long), otherwise at the
      old end of the column, after the values already there. */
  lemma CellLandsAt(s: Store, pos: CellPos, v: DataType)
    ensures var col := CellStep(s, pos, v).store.table[pos.col];
      var old_ := ColumnAt(s, pos.col);
      && col[..|old_|] == old_
      && (pos.row >= |old_| ==> |col| == pos.row + 1 && col[pos.row] == v)
      && (pos.row < |old_| ==> |col| == |old_| + 1 && col[|old_|] == v)
  {
    CellColumns(s, pos, v);
  }

  /** A type-run start is recorded only for a cell in row 0, as row 0:
      both `type_id` calls give the id of `DataType`, so the comparison of
      the previous value with the new one never differs. No other column's
      run list changes. */
  lemma CellRuns(s: Store, pos: CellPos, v: DataType)
    ensures var r := CellStep(s, pos, v);
      && (forall c | 0 <= c < |r.store.runs| && c != pos.col :: r.store.runs[c] == RunsAt(s, c))
      && (r.ok && pos.col < |r.store.runs| ==>
            r.store.runs[pos.col] == RunsAt(s, pos.col) + (if pos.row == 0 then [0] else []))
  {
    var g := Grow(s, pos.col);
    var r := CellStep(s, pos, v).store;
    forall c | 0 <= c < |g.runs|
      ensures g.runs[c] == RunsAt(s, c)
    {
      if c < |s.runs| {
        assert g.runs[..|s.runs|][c] == s.runs[c];
      }
    }
  }

  /** The `expect` on `type_range_start_idx` panics exactly for a row-0 cell
      whose column has no run list even after the growth loop, which
      happens once `dimension` has put `table` ahead. */
  lemma CellPanicsIff(s: Store, pos: CellPos, v: DataType)
    ensures !CellStep(s, pos, v).ok <==>
      pos.row == 0 && pos.col + Lag(s) >= (if pos.col < |s.table| then |s.table| else pos.col + 1)
  {
  }

  /** `cell` keeps the gap between the two vectors (also when it panics);
      `dimension` widens it by one. */
  lemma LagAfterCallbacks(s: Store, pos: CellPos, v: DataType)
    ensures Lag(CellStep(s, pos, v).store) == Lag(s)
    ensures Lag(DimensionStep(s)) == Lag(s) + 1
  {
    CellGrowth(s, pos, v);
  }

  /** A reader that announces the dimension first makes the first cell of
      the sheet panic. */
  lemma DimensionThenFirstCellPanics(v: DataType)
    ensures !CellStep(DimensionStep(Store([], [])), CellPos(0, 0), v).ok
  {
    CellPanicsIff(DimensionStep(Store([], [])), CellPos(0, 0), v);
  }

  /** The same cell delivered twice never grows either vector the second time. */
  lemma RepeatedCellDoesNotGrow(s: Store, pos: CellPos, v: DataType, w: DataType)
    ensures var r1 := CellStep(s, pos, v).store;
      var r2 := CellStep(r1, pos, w).store;
      |r2.table| == |r1.table| && |r2.runs| == |r1.runs|
  {
    var r1 := CellStep(s, pos, v).store;
    CellGrowth(s, pos, v);
    CellGrowth(r1, pos, w);
  }

  /** A cell as a reader delivers it. */
  datatype Delivery = Delivery(pos: CellPos, v: DataType)

  /** The cells fed to the handler one `cell` call after the other, stopping
      at the first panic. */
  function Feed(s: Store, ds: seq<Delivery>): Step
  {
    if ds == [] then Step(s, true)
    else
      var p := Feed(s, ds[..|ds| - 1]);
      if p.ok then CellStep(p.store, ds[|ds| - 1].pos, ds[|ds| - 1].v) else p
  }

  /** Row-major order: `a` comes strictly before `b`. */
  predicate Before(a: CellPos, b: CellPos)
  {
    a.row < b.row || (a.row == b.row && a.col < b.col)
  }

  predicate RowMajor(ds: seq<Delivery>)
  {
    forall i, j | 0 <= i < j < |ds| :: Before(ds[i].pos, ds[j].pos)
  }

  /** The grid the cells describe, independently of the handler: its width,
      the height of each column, the value at each place and whether a cell
      was delivered there. */
  function Width(ds: seq<Delivery>): nat
  {
    if ds == [] then 0
    else
      var w := Width(ds[..|ds| - 1]);
      if ds[|ds| - 1].pos.col + 1 > w then ds[|ds| - 1].pos.col + 1 else w
  }

  function Height(ds: seq<Delivery>, col: nat): nat
  {
    if ds == [] then 0
    else
      var h := Height(ds[..|ds| - 1], col);
      var p := ds[|ds| - 1].pos;
      if p.col == col && p.row + 1 > h then p.row + 1 else h
  }

  /** `p` is the place in `row` and `col`. */
  predicate At(p: CellPos, row: nat, col: nat)
  {
    p.row == row && p.col == col
  }

  predicate Delivered(ds: seq<Delivery>, row: nat, col: nat)
  {
    exists i | 0 <= i < |ds| :: At(ds[i].pos, row, col)
  }

  function ValueAt(ds: seq<Delivery>, row: nat, col: nat): DataType
  {
    if ds == [] then Empty
    else if At(ds[|ds| - 1].pos, row, col) then ds[|ds| - 1].v
    else ValueAt(ds[..|ds| - 1], row, col)
  }

  /** The handler's state holds exactly the grid of `ds`. */
  ghost predicate Mirrors(s: Store, ds: seq<Delivery>)
  {
    && |s.table| == Width(ds) && |s.runs| == Width(ds)
    && (forall c | 0 <= c < |s.table| :: |s.table[c]| == Height(ds, c))
    && (forall c, r | 0 <= c < |s.table| && 0 <= r < |s.table[c]| :: s.table[c][r] == ValueAt(ds, r, c))
    && (forall c | 0 <= c < |s.runs| :: s.runs[c] == if Delivered(ds, 0, c) then [0] else [])
  }

  /** A column that no cell reaches has height zero. */
  lemma {:induction false} HeightBeyondWidth(ds: seq<Delivery>, col: nat)
    requires col >= Width(ds)
    ensures Height(ds, col) == 0
  {
    if ds != [] {
      HeightBeyondWidth(ds[..|ds| - 1], col);
    }
  }

  /** Below every delivered cell of a column there is nothing: no cell and
      the value `Empty`. */
  lemma {:induction false} BeyondHeight(ds: seq<Delivery>, row: nat, col: nat)
    requires row >= Height(ds, col)
    ensures !Delivered(ds, row, col) && ValueAt(ds, row, col) == Empty
  {
    if ds != [] {
      var init := ds[..|ds| - 1];
      BeyondHeight(init, row, col);
      assert forall i | 0 <= i < |init| :: init[i] == ds[i];
    }
  }

  /** A column's height is at most the row of a cell that comes after all
      of its cells in row-major order. */
  lemma {:induction false} HeightBelow(ds: seq<Delivery>, pos: CellPos)
    requires forall i | 0 <= i < |ds| :: Before(ds[i].pos, pos)
    ensures Height(ds, pos.col) <= pos.row
  {
    if ds != [] {
      HeightBelow(ds[..|ds| - 1], pos);
    }
  }

  lemma DeliveredSnoc(ds: seq<Delivery>, d: Delivery, row: nat, col: nat)
    ensures Delivered(ds + [d], row, col) <==> Delivered(ds, row, col) || At(d.pos, row, col)
  {
    assert forall i | 0 <= i < |ds| :: (ds + [d])[i] == ds[i];
    assert (ds + [d])[|ds|] == d;
  }

  /** One more cell, later than all before it, keeps the state in step
      with the grid. */
  lemma FeedOneMore(s: Store, ds: seq<Delivery>, d: Delivery)
    requires Mirrors(s, ds)
    requires forall i | 0 <= i < |ds| :: Before(ds[i].pos, d.pos)
    ensures CellStep(s, d.pos, d.v).ok
    ensures Mirrors(CellStep(s, d.pos, d.v).store, ds + [d])
  {
    var ds' := ds + [d];
    assert ds'[..|ds'| - 1] == ds;
    var pos := d.pos;
    var r := CellStep(s, pos, d.v).store;
    CellPanicsIff(s, pos, d.v);
    CellGrowth(s, pos, d.v);
    CellColumns(s, pos, d.v);
    CellRuns(s, pos, d.v);
    HeightBelow(ds, pos);
    if pos.col >= |s.table| {
      HeightBeyondWidth(ds, pos.col);
    }
    assert |ColumnAt(s, pos.col)| == Height(ds, pos.col);
    forall c | 0 <= c < |r.table|
      ensures |r.table[c]| == Height(ds', c)
    {
      if c != pos.col && c >= |s.table| {
        HeightBeyondWidth(ds, c);
      }
    }
    forall c, row | 0 <= c < |r.table| && 0 <= row < |r.table[c]|
      ensures r.table[c][row] == ValueAt(ds', row, c)
    {
      if c == pos.col {
        var old_ := ColumnAt(s, pos.col);
        if row >= |old_| && row != pos.row {
          BeyondHeight(ds, row, c);
        }
      }
    }
    forall c | 0 <= c < |r.runs|
      ensures r.runs[c] == if Delivered(ds', 0, c) then [0] else []
    {
      DeliveredSnoc(ds, d, 0, c);
      if c >= |s.runs| {
        HeightBeyondWidth(ds, c);
        BeyondHeight(ds, 0, c);
      } else if c == pos.col && pos.row == 0 {
        BeyondHeight(ds, 0, c);
      }
    }
  }

  /** Fed from the empty state (no `dimension` call) with cells in row-major
      order, the handler never panics and its table is exactly the grid the
      cells describe: one column per column reached, each as long as its
      lowest cell, the delivered values in place and `Empty` in the gaps;
      each column's run list is `[0]` when it has a row-0 cell and empty
      otherwise. */
  lemma {:induction false} FeedRowMajor(ds: seq<Delivery>)
    requires RowMajor(ds)
    ensures Feed(Store([], []), ds).ok
    ensures Mirrors(Feed(Store([], []), ds).store, ds)
  {
    if ds == [] {
      assert forall c :: !Delivered(ds, 0, c);
    } else {
      var init := ds[..|ds| - 1];
      FeedRowMajor(init);
      FeedOneMore(Feed(Store([], []), init).store, init, ds[|ds| - 1]);
      assert init + [ds[|ds| - 1]] == ds;
    }
  }

  /** The example sheet (0, 0), (0, 1), (1, 1), fed to a fresh handler
      whatever the values: the cell of row 1 lands in column 1 only, so
      column 0 is not padded and stays one value long, and each column
      records a single run start, at row 0. */
  lemma ScenarioColumns(a: DataType, w: DataType, x: DataType)
    ensures var r0 := CellStep(Store([], []), CellPos(0, 0), a);
      var r1 := CellStep(r0.store, CellPos(0, 1), w);
      var r2 := CellStep(r1.store, CellPos(1, 1), x);
      r0.ok && r1.ok && r2 == Step(Store([[a], [w, x]], [[0], [0]]), true)
  {
    FirstCell(a);
    SecondColumn(a, w);
    BelowInSecondColumn(a, w, x);
  }

  lemma FirstCell(v: DataType)
    ensures CellStep(Store([], []), CellPos(0, 0), v) == Step(Store([[v]], [[0]]), true)
  {
    var g := Grow(Store([], []), 0);
    assert g == Store([[]], [[]]) by {
      assert NoColumns<DataType>(1) == [[]] && NoColumns<nat>(1) == [[]];
    }
    assert Pad([], 0, v) == [v];
    assert g.runs[0] + [0] == [0];
    assert g.table[0 := [v]] == [[v]] && g.runs[0 := [0]] == [[0]];
  }

  lemma SecondColumn(a: DataType, w: DataType)
    ensures CellStep(Store([[a]], [[0]]), CellPos(0, 1), w) == Step(Store([[a], [w]], [[0], [0]]), true)
  {
    var g := Grow(Store([[a]], [[0]]), 1);
    assert g == Store([[a], []], [[0], []]) by {
      assert NoColumns<DataType>(1) == [[]] && NoColumns<nat>(1) == [[]];
    }
    assert Pad([], 0, w) == [w];
    assert g.runs[1] + [0] == [0];
    assert g.table[1 := [w]] == [[a], [w]] && g.runs[1 := [0]] == [[0], [0]];
  }

  lemma BelowInSecondColumn(a: DataType, w: DataType, x: DataType)
    ensures CellStep(Store([[a], [w]], [[0], [0]]), CellPos(1, 1), x) == Step(Store([[a], [w, x]], [[0], [0]]), true)
  {
    assert Pad([w], 1, x) == [w, x];
  }
}
