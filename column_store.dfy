/** The sheet handler of xlsx_to_arrow.rs as an object: the callbacks a
    sheet reader drives (`dimension`, `cell`, `row_end`), the statistics
    and dumps it prints, and `write_range`, which writes its table out. */
module ColumnStore {
  import opened Text
  import opened Sink
  import opened Cells
  import opened TypeCounts
  import opened Columns
  import opened SheetStats
  import opened SheetWrites

  /** `struct SheetHandler`. `cells` is declared by the program and never
      read or written after construction. */
  class SheetHandler {
    var table: seq<seq<DataType>>
    var typeRangeStartIdx: seq<seq<nat>>
    var cells: seq<Delivery>

    function State(): Store
      reads this
    {
      Store(table, typeRangeStartIdx)
    }

    /** The handler `main` builds: every vector empty. */
    constructor ()
      ensures State() == Store([], []) && cells == []
    {
      table := [];
      typeRangeStartIdx := [];
      cells := [];
    }

    /** `dimension`: pushes one empty column onto `table` and nothing onto
        `type_range_start_idx`; the dimension itself is not looked at. */
    method Dimension(dim: Dimension)
      modifies this
      ensures State() == DimensionStep(old(State()))
      ensures cells == old(cells)
    {
      table := table + [[]];
    }

    /** `cell`: grow both vectors up to the column, pad the column with
        `Empty` up to the row, push the value, and record a type-run start
        when the previous value has a different `type_id`. `ok` is false
        when the `expect` on `type_range_start_idx` panics. */
    method Cell(pos: CellPos, v: DataType) returns (ok: bool)
      modifies this
      ensures Step(State(), ok) == CellStep(old(State()), pos, v)
      ensures cells == old(cells)
    {
      var pRow: nat := pos.row;
      var pCol: nat := pos.col;
      GrowTo(pCol);
      var col := PadColumn(table[pCol], pRow, v);
      table := table[pCol := col];
      if pRow == 0 || TypeIdOf(col[pRow - 1]) != TypeIdOf(v) {
        if pCol < |typeRangeStartIdx| {
          typeRangeStartIdx := typeRangeStartIdx[pCol := typeRangeStartIdx[pCol] + [pRow]];
          ok := true;
        } else {
          ok := false;
        }
      } else {
        ok := true;
      }
    }

    /** The growth loop of `cell`: when `pCol` is past the last column,
        push `pCol - len + 1` empty columns onto both vectors. */
    method GrowTo(pCol: nat)
      modifies this
      ensures State() == Grow(old(State()), pCol)
      ensures cells == old(cells)
    {
      var tLen := |table|;
      if pCol >= tLen {
        var k := 0;
        while k <= pCol - tLen
          invariant 0 <= k <= pCol - tLen + 1
          invariant table == old(table) + NoColumns(k)
          invariant typeRangeStartIdx == old(typeRangeStartIdx) + NoColumns(k)
          invariant cells == old(cells)
        {
          assert NoColumns<DataType>(k + 1) == NoColumns(k) + [[]];
          assert NoColumns<nat>(k + 1) == NoColumns(k) + [[]];
          table := table + [[]];
          typeRangeStartIdx := typeRangeStartIdx + [[]];
          k := k + 1;
        }
      }
    }

    /** `row_end` does nothing. */
    method RowEnd(pos: CellPos)
      ensures State() == old(State())
    {
    }

    /** The row dump shared by `get_stats` and `find_headers`: for each row
        below `num_rows`, the texts of all columns joined by tabs. */
    method DumpRows(show: DataType -> string) returns (lines: seq<string>)
      ensures lines == DumpLines(table, show)
    {
      var cols := |table|;
      var rows := RowCount(table);
      lines := [];
      var row := 0;
      while row < rows
        invariant 0 <= row <= rows
        invariant |lines| == row
        invariant forall r | 0 <= r < row :: lines[r] == DumpLine(table, r, show)
      {
        ghost var texts := RowTexts(table, row, show);
        var stri := "";
        var col := 0;
        while col < cols
          invariant 0 <= col <= cols
          invariant stri == Join(texts[..col], "\t") + (if 0 < col < cols then "\t" else "")
        {
          var text := if row < |table[col]| then show(table[col][row]) else "";
          assert text == texts[col];
          assert texts[..col + 1] == texts[..col] + [text];
          if col > 0 {
            JoinSnoc(texts[..col], text, "\t");
          }
          stri := stri + text;
          if col < cols - 1 {
            stri := stri + "\t";
          }
          col := col + 1;
        }
        assert texts[..cols] == texts;
        lines := lines + [stri];
        row := row + 1;
      }
    }

    /** `get_stats`: one fresh counter set per column and a running total,
        every stored value counted in both; the line printed per column;
        then the row dump. Counters are `u32`, so the method needs every
        kind to occur fewer than 2^32 times. */
    method GetStats(show: DataType -> string) returns (total: Types, columnLines: seq<string>, rowLines: seq<string>)
      requires Fits(TallyOf(Flatten(table)))
      ensures fresh(total)
      ensures total.Snapshot() == TallyOf(Flatten(table))
      ensures columnLines == ColumnLines(table, show)
      ensures rowLines == DumpLines(table, show)
    {
      total, columnLines := ColumnStats(show);
      rowLines := DumpRows(show);
    }

    /** The column loop of `get_stats`: the running total and the line
        printed per column. */
    method ColumnStats(show: DataType -> string) returns (total: Types, columnLines: seq<string>)
      requires Fits(TallyOf(Flatten(table)))
      ensures fresh(total)
      ensures total.Snapshot() == TallyOf(Flatten(table))
      ensures columnLines == ColumnLines(table, show)
    {
      total := new Types();
      columnLines := [];
      ghost var t := table;
      var c := 0;
      while c < |table|
        invariant 0 <= c <= |table| && table == t
        invariant fresh(total)
        invariant total.Snapshot() == TallyOf(Flatten(t[..c]))
        invariant columnLines == ColumnLines(t[..c], show)
      {
        var line := ColumnStat(c, total, show);
        ColumnLinesStep(t, show, c);
        columnLines := columnLines + [line];
        c := c + 1;
      }
      assert table[..|table|] == table;
    }

    /** One turn of that loop, for column `c`: count its values in fresh
        counters and in `total`, and build the column's line. */
    method ColumnStat(c: nat, total: Types, show: DataType -> string) returns (line: string)
      requires c < |table| && Fits(TallyOf(Flatten(table)))
      requires total.Snapshot() == TallyOf(Flatten(table[..c]))
      modifies total
      ensures total.Snapshot() == TallyOf(Flatten(table[..c + 1]))
      ensures line == ColumnLine(table[c], show)
    {
      var col := table[c];
      ColumnTotal(table, c);
      var types := CountColumn(col, total);
      var header := if |col| > 0 then col[0] else String("Unknown");
      line := "Column " + show(header) + ": " + types.Snapshot().Report();
    }

    /** The inner loop of `get_stats` over one column: a fresh counter set
        for the column, and every value counted in it and in `total`. No
        counter can overflow as long as `total` plus the column's count fits. */
    method CountColumn(col: seq<DataType>, total: Types) returns (types: Types)
      requires Fits(total.Snapshot().Plus(TallyOf(col)))
      modifies total
      ensures fresh(types)
      ensures types.Snapshot() == TallyOf(col)
      ensures total.Snapshot() == old(total.Snapshot()).Plus(TallyOf(col))
    {
      ghost var base := total.Snapshot();
      types := new Types();
      PlusZero(base);
      assert col[..0] == [];
      var j := 0;
      while j < |col|
        invariant 0 <= j <= |col|
        invariant fresh(types) && types != total
        invariant types.Snapshot() == TallyOf(col[..j])
        invariant total.Snapshot() == base.Plus(TallyOf(col[..j]))
      {
        CountNext(col, j, types, total, base);
        j := j + 1;
      }
      assert col[..|col|] == col;
    }

    /** The body of that loop for value `j`: `inc` on the column's
        counters, then on the running total, which started at `base`. */
    method CountNext(col: seq<DataType>, j: nat, types: Types, total: Types, ghost base: Tally)
      requires j < |col| && types != total
      requires Fits(base.Plus(TallyOf(col)))
      requires types.Snapshot() == TallyOf(col[..j])
      requires total.Snapshot() == base.Plus(TallyOf(col[..j]))
      modifies types, total
      ensures types.Snapshot() == TallyOf(col[..j + 1])
      ensures total.Snapshot() == base.Plus(TallyOf(col[..j + 1]))
    {
      CountStep(base, col, j);
      types.Inc(col[j]);
      total.Inc(col[j]);
    }

    /** `find_headers`: panics on a handler without columns (the `unwrap`
        of the first column); otherwise prints the row dump and returns 0. */
    method FindHeaders(show: DataType -> string) returns (r: Outcome<nat>, lines: seq<string>)
      ensures r == Panicked <==> table == []
      ensures r.Returned? ==> r.value == 0 && lines == DumpLines(table, show)
      ensures r == Panicked ==> lines == []
    {
      if table == [] {
        return Panicked, [];
      }
      lines := DumpRows(show);
      r := Returned(0);
    }
  }

  /** The padding loop of `cell` and the push after it: `Empty` up to
      row `pRow`, then the value. */
  method PadColumn(column: seq<DataType>, pRow: nat, v: DataType) returns (col: seq<DataType>)
    ensures col == Pad(column, pRow, v)
  {
    col := column;
    var j := |col|;
    while j < pRow
      invariant |column| <= j && (j <= pRow || j == |column|)
      invariant col == column + Blanks(j - |column|)
    {
      assert Blanks(j + 1 - |column|) == Blanks(j - |column|) + [Empty];
      col := col + [Empty];
      j := j + 1;
    }
    col := col + [v];
  }

  /** The body of `write_range`'s column loop for column `i` of `row`,
      on the way to writing `full`: the value and a `;` where the column
      has the row, then a line end, each write stopping at an error. */
  method WriteCell(dest: Writer, t: seq<seq<DataType>>, row: nat, i: nat, ghost full: seq<Piece>,
                   ghost from: nat, ghost oldText: string, ghost done: seq<Piece>)
    returns (r: IoResult)
    requires i < |t|
    requires Progress(dest, from, oldText, done)
    requires done + CellPieces(t, row, i) <= full
    modifies dest
    ensures r.Ok? ==> Progress(dest, from, oldText, done + CellPieces(t, row, i))
    ensures r.Err? ==> StoppedAtFirstError(full, from, dest.failing, oldText, dest.text, dest.calls, r)
  {
    ghost var sofar := done;
    ghost var cell := CellPieces(t, row, i);
    if row < |t[i]| {
      var v := t[i][row];
      assert cell == ValuePieces(v) + [Semicolon] + [LineEnd];
      if !v.Empty? {
        var p := Piece(Field, PlainText(v));
        assert sofar + [p] + [Semicolon, LineEnd] == done + cell;
        r := Emit(dest, p, [Semicolon, LineEnd], full, from, oldText, sofar);
        if r.Err? {
          return;
        }
        sofar := sofar + [p];
      }
      assert sofar + [Semicolon] + [LineEnd] == done + cell;
      if i != |t| {
        r := Emit(dest, Semicolon, [LineEnd], full, from, oldText, sofar);
        if r.Err? {
          return;
        }
        sofar := sofar + [Semicolon];
      }
    }
    assert sofar + [LineEnd] + [] == done + cell;
    r := Emit(dest, LineEnd, [], full, from, oldText, sofar);
  }

  /** `write_range` of xlsx_to_arrow.rs: for each row below `num_rows` and
      each column, the value and a `;` where the column has the row, then
      a line end; the first failing write ends it with that error. */
  method WriteRange(dest: Writer, handler: SheetHandler) returns (r: IoResult)
    modifies dest
    ensures StoppedAtFirstError(WriteRangePieces(handler.table), old(dest.calls), dest.failing,
                                old(dest.text), dest.text, dest.calls, r)
  {
    var t := handler.table;
    var numCols := |t|;
    var numRows := RowCount(t);
    ghost var full := WriteRangePieces(t);
    ghost var from := dest.calls;
    ghost var oldText := dest.text;
    ghost var rows := TableRows(t);
    ghost var done: seq<Piece> := [];
    var row := 0;
    while row < numRows
      invariant 0 <= row <= numRows
      invariant done == Flat(rows[..row])
      invariant Progress(dest, from, oldText, done)
    {
      ghost var cells := RowCells(t, row);
      var i := 0;
      while i < |t|
        invariant 0 <= i <= |t|
        invariant done == Flat(rows[..row]) + Flat(cells[..i])
        invariant Progress(dest, from, oldText, done)
      {
        IssuedPrefix(t, row, i);
        r := WriteCell(dest, t, row, i, full, from, oldText, done);
        if r.Err? {
          return;
        }
        FlatStep(cells, i);
        Assoc(Flat(rows[..row]), Flat(cells[..i]), cells[i]);
        done := done + cells[i];
        i := i + 1;
      }
      assert cells[..|t|] == cells;
      FlatStep(rows, row);
      row := row + 1;
    }
    assert rows[..numRows] == rows;
    Finished(dest, from, oldText, full);
    r := Ok;
  }

  /** Fed from a fresh handler with cells in row-major order, `num_cols`
      is the number of columns reached and `num_rows` the height of the
      first column, not of the tallest one. */
  lemma ShapeOfFeed(ds: seq<Delivery>)
    requires RowMajor(ds)
    ensures var t := Feed(Store([], []), ds).store.table;
      && |t| == Width(ds)
      && RowCount(t) == (if Width(ds) == 0 then 0 else Height(ds, 0))
  {
    FeedRowMajor(ds);
  }
}
