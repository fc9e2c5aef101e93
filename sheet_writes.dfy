/** What `write_range` of xlsx_to_arrow.rs writes for the handler's
    `table`, as runs of pieces, one piece per `write!`. */
module SheetWrites {
  import opened Sink
  import opened Cells
  import opened SheetStats

  /** The writes of `write_range` for column `i` of `row`: the value
      (nothing for `Empty`) and `;` when the column has the row, since
      `i != num_cols` holds for every column index; then a line end, which
      sits inside the column loop. */
  function CellPieces(t: seq<seq<DataType>>, row: nat, i: nat): seq<Piece>
    requires i < |t|
  {
    (if row < |t[i]| then ValuePieces(t[i][row]) + (if i != |t| then [Semicolon] else []) else [])
    + [LineEnd]
  }

  /** The writes for each column of a row. */
  function RowCells(t: seq<seq<DataType>>, row: nat): (cs: seq<seq<Piece>>)
    ensures |cs| == |t|
    ensures forall i | 0 <= i < |t| :: cs[i] == CellPieces(t, row, i)
  {
    seq(|t|, i requires 0 <= i < |t| => CellPieces(t, row, i))
  }

  /** The writes for each row below `num_rows`. */
  function TableRows(t: seq<seq<DataType>>): (rs: seq<seq<Piece>>)
    ensures |rs| == RowCount(t)
    ensures forall r | 0 <= r < RowCount(t) :: rs[r] == Flat(RowCells(t, r))
  {
    seq(RowCount(t), r requires 0 <= r < RowCount(t) => Flat(RowCells(t, r)))
  }

  /** Everything `write_range` writes when no write fails. */
  function WriteRangePieces(t: seq<seq<DataType>>): seq<Piece>
  {
    Flat(TableRows(t))
  }

  /** The writes already issued for rows before `row` and columns before
      `i`, followed by those for column `i`, begin what `write_range` writes. */
  lemma IssuedPrefix(t: seq<seq<DataType>>, row: nat, i: nat)
    requires row < RowCount(t) && i < |t|
    ensures Flat(TableRows(t)[..row]) + Flat(RowCells(t, row)[..i]) + CellPieces(t, row, i) <= WriteRangePieces(t)
  {
    NextRunPrefix(RowCells(t, row), i);
    NextRunPrefix(TableRows(t), row);
    PrefixChain(Flat(TableRows(t)[..row]), Flat(RowCells(t, row)[..i]), CellPieces(t, row, i),
                Flat(RowCells(t, row)), WriteRangePieces(t));
  }

  /** One column of one row: a single line end, and a `;` exactly when
      the column has the row. */
  lemma CellPiecesCounts(t: seq<seq<DataType>>, row: nat, i: nat)
    requires i < |t|
    ensures CountRole(CellPieces(t, row, i), Terminator) == 1
    ensures CountRole(CellPieces(t, row, i), Delimiter) == if row < |t[i]| then 1 else 0
  {
    var head := if row < |t[i]| then ValuePieces(t[i][row]) + [Semicolon] else [];
    CountSplit(CellPieces(t, row, i), head, [LineEnd], Terminator);
    CountSplit(CellPieces(t, row, i), head, [LineEnd], Delimiter);
    if row < |t[i]| {
      ValuePiecesText(t[i][row]);
      CountSplit(head, ValuePieces(t[i][row]), [Semicolon], Terminator);
      CountSplit(head, ValuePieces(t[i][row]), [Semicolon], Delimiter);
    }
  }

  /** Every column gets a line end in every row. */
  lemma RowLineEnds(t: seq<seq<DataType>>, row: nat)
    ensures CountRole(Flat(RowCells(t, row)), Terminator) == |t|
  {
    forall i | 0 <= i < |t|
      ensures CountRole(RowCells(t, row)[i], Terminator) == 1
    {
      CellPiecesCounts(t, row, i);
    }
    CountFlatUniform(RowCells(t, row), Terminator, 1);
  }

  /** `write_range` writes exactly `num_rows * num_cols` line ends. */
  lemma WriteRangeLineEnds(t: seq<seq<DataType>>)
    ensures CountRole(WriteRangePieces(t), Terminator) == RowCount(t) * |t|
  {
    forall r | 0 <= r < RowCount(t)
      ensures CountRole(TableRows(t)[r], Terminator) == |t|
    {
      RowLineEnds(t, r);
    }
    CountFlatUniform(TableRows(t), Terminator, |t|);
  }

  /** How many of columns `0..n` have a value at `row`. */
  function ColumnsReaching(t: seq<seq<DataType>>, row: nat, n: nat): nat
    requires n <= |t|
  {
    if n == 0 then 0 else ColumnsReaching(t, row, n - 1) + (if row < |t[n - 1]| then 1 else 0)
  }

  lemma {:induction false} SemicolonsUpTo(t: seq<seq<DataType>>, row: nat, n: nat)
    requires n <= |t|
    ensures CountRole(Flat(RowCells(t, row)[..n]), Delimiter) == ColumnsReaching(t, row, n)
  {
    if n > 0 {
      SemicolonsUpTo(t, row, n - 1);
      CountFlatStep(RowCells(t, row), n - 1, Delimiter);
      CellPiecesCounts(t, row, n - 1);
    }
  }

  /** In every row, each column that has the row writes one `;`, the last
      column included: the separator test never fails. */
  lemma RowSemicolons(t: seq<seq<DataType>>, row: nat)
    ensures CountRole(Flat(RowCells(t, row)), Delimiter) == ColumnsReaching(t, row, |t|)
  {
    SemicolonsUpTo(t, row, |t|);
    assert RowCells(t, row)[..|t|] == RowCells(t, row);
  }

  /** Columns `0..n` all have `row`, so all of them reach it. */
  lemma {:induction false} AllColumnsReaching(t: seq<seq<DataType>>, row: nat, n: nat)
    requires n <= |t|
    requires forall c | 0 <= c < n :: row < |t[c]|
    ensures ColumnsReaching(t, row, n) == n
  {
    if n > 0 {
      AllColumnsReaching(t, row, n - 1);
    }
  }

  /** In a row every column has, there is a `;` after every value,
      including the one in the last column: one per column. */
  lemma FullRowSemicolons(t: seq<seq<DataType>>, row: nat)
    requires forall c | 0 <= c < |t| :: row < |t[c]|
    ensures CountRole(Flat(RowCells(t, row)), Delimiter) == |t|
  {
    RowSemicolons(t, row);
    AllColumnsReaching(t, row, |t|);
  }
}
