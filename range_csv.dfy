/** `write_range` of excel_to_csv.rs: every row of a decoded range, its
    values separated by `;` and each row ended by CRLF, stopping at the
    first failing write. */
module RangeCsv {
  import opened Text
  import opened Sink
  import opened Cells

  /** A `Range<DataType>` as `write_range` sees it: the rows `rows()`
      yields and the width, the second component of `get_size()`. */
  datatype Range = Range(rows: seq<seq<DataType>>, width: nat)

  /** The writes for value `i` of a row: the value (nothing for `Empty`),
      then `;` unless `i` is `n`, the width minus one. */
  function FieldRun(row: seq<DataType>, n: nat, i: nat): seq<Piece>
    requires i < |row|
  {
    ValuePieces(row[i]) + (if i != n then [Semicolon] else [])
  }

  function RowRuns(row: seq<DataType>, n: nat): (rs: seq<seq<Piece>>)
    ensures |rs| == |row|
    ensures forall i | 0 <= i < |row| :: rs[i] == FieldRun(row, n, i)
  {
    seq(|row|, i requires 0 <= i < |row| => FieldRun(row, n, i))
  }

  /** The writes for one row: its values, then CRLF. */
  function RowPieces(row: seq<DataType>, n: nat): seq<Piece>
  {
    Flat(RowRuns(row, n)) + [LineEnd]
  }

  function RangeRows(rows: seq<seq<DataType>>, n: nat): (rs: seq<seq<Piece>>)
    ensures |rs| == |rows|
    ensures forall r | 0 <= r < |rows| :: rs[r] == RowPieces(rows[r], n)
  {
    seq(|rows|, r requires 0 <= r < |rows| => RowPieces(rows[r], n))
  }

  /** Everything `write_range` writes when no write fails. */
  function RangePieces(rows: seq<seq<DataType>>, n: nat): seq<Piece>
  {
    Flat(RangeRows(rows, n))
  }

  /** The writes issued before value `i` of row `r`, then those for value
      `i`, begin what `write_range` writes. */
  lemma IssuedField(rows: seq<seq<DataType>>, n: nat, r: nat, i: nat)
    requires r < |rows| && i < |rows[r]|
    ensures Flat(RangeRows(rows, n)[..r]) + Flat(RowRuns(rows[r], n)[..i]) + FieldRun(rows[r], n, i)
            <= RangePieces(rows, n)
  {
    var runs := RowRuns(rows[r], n);
    NextRunPrefix(runs, i);
    PrefixOfSum(RowPieces(rows[r], n), Flat(runs), [LineEnd]);
    PrefixTrans(Flat(runs[..i]) + runs[i], Flat(runs), RowPieces(rows[r], n));
    NextRunPrefix(RangeRows(rows, n), r);
    PrefixChain(Flat(RangeRows(rows, n)[..r]), Flat(runs[..i]), runs[i],
                RowPieces(rows[r], n), RangePieces(rows, n));
  }

  /** The writes of the rows before `r` and of row `r`'s values, then its
      CRLF, begin what `write_range` writes. */
  lemma IssuedLineEnd(rows: seq<seq<DataType>>, n: nat, r: nat)
    requires r < |rows|
    ensures Flat(RangeRows(rows, n)[..r]) + Flat(RowRuns(rows[r], n)) + [LineEnd] <= RangePieces(rows, n)
  {
    NextRunPrefix(RangeRows(rows, n), r);
    Assoc(Flat(RangeRows(rows, n)[..r]), Flat(RowRuns(rows[r], n)), [LineEnd]);
  }

  /** The body of the inner loop for value `i` of `row`: the value's
      `write!` and then, unless `i` is `n`, the `;`, each with `?`. */
  method WriteField(dest: Writer, row: seq<DataType>, n: nat, i: nat, ghost full: seq<Piece>,
                    ghost from: nat, ghost oldText: string, ghost done: seq<Piece>)
    returns (res: IoResult)
    requires i < |row|
    requires Progress(dest, from, oldText, done)
    requires done + FieldRun(row, n, i) <= full
    modifies dest
    ensures res.Ok? ==> Progress(dest, from, oldText, done + FieldRun(row, n, i))
    ensures res.Err? ==> StoppedAtFirstError(full, from, dest.failing, oldText, dest.text, dest.calls, res)
  {
    ghost var sofar := done;
    ghost var field := FieldRun(row, n, i);
    var v := row[i];
    var tail := if i != n then [Semicolon] else [];
    assert field == ValuePieces(v) + tail;
    if !v.Empty? {
      var p := Piece(Field, PlainText(v));
      assert sofar + [p] + tail == done + field;
      res := Emit(dest, p, tail, full, from, oldText, sofar);
      if res.Err? {
        return;
      }
      sofar := sofar + [p];
    }
    assert sofar + tail == done + field;
    if i != n {
      assert sofar + [Semicolon] + [] == done + field;
      res := Emit(dest, Semicolon, [], full, from, oldText, sofar);
      if res.Err? {
        return;
      }
      sofar := sofar + [Semicolon];
    }
    assert sofar == done + field;
    res := Ok;
  }

  /** The inner loop for row `k`: each value in turn, stopping at the
      first failing write. */
  method WriteValues(dest: Writer, rows: seq<seq<DataType>>, n: nat, k: nat, ghost full: seq<Piece>,
                     ghost from: nat, ghost oldText: string, ghost done: seq<Piece>)
    returns (res: IoResult)
    requires k < |rows| && full == RangePieces(rows, n)
    requires done == Flat(RangeRows(rows, n)[..k])
    requires Progress(dest, from, oldText, done)
    modifies dest
    ensures res.Ok? ==> Progress(dest, from, oldText, done + Flat(RowRuns(rows[k], n)))
    ensures res.Err? ==> StoppedAtFirstError(full, from, dest.failing, oldText, dest.text, dest.calls, res)
  {
    var row := rows[k];
    ghost var runs := RowRuns(row, n);
    ghost var sofar := done;
    var i := 0;
    while i < |row|
      invariant 0 <= i <= |row|
      invariant sofar == done + Flat(runs[..i])
      invariant Progress(dest, from, oldText, sofar)
    {
      IssuedField(rows, n, k, i);
      res := WriteField(dest, row, n, i, full, from, oldText, sofar);
      if res.Err? {
        return;
      }
      FlatStep(runs, i);
      Assoc(done, Flat(runs[..i]), runs[i]);
      sofar := sofar + runs[i];
      i := i + 1;
    }
    assert runs[..|row|] == runs;
    res := Ok;
  }

  /** The body of the row loop for row `k`: its values, then CRLF. */
  method WriteRow(dest: Writer, rows: seq<seq<DataType>>, n: nat, k: nat, ghost full: seq<Piece>,
                  ghost from: nat, ghost oldText: string, ghost done: seq<Piece>)
    returns (res: IoResult)
    requires k < |rows| && full == RangePieces(rows, n)
    requires done == Flat(RangeRows(rows, n)[..k])
    requires Progress(dest, from, oldText, done)
    modifies dest
    ensures res.Ok? ==> Progress(dest, from, oldText, Flat(RangeRows(rows, n)[..k + 1]))
    ensures res.Err? ==> StoppedAtFirstError(full, from, dest.failing, oldText, dest.text, dest.calls, res)
  {
    ghost var values := Flat(RowRuns(rows[k], n));
    res := WriteValues(dest, rows, n, k, full, from, oldText, done);
    if res.Err? {
      return;
    }
    IssuedLineEnd(rows, n, k);
    res := Emit(dest, LineEnd, [], full, from, oldText, done + values);
    if res.Err? {
      return;
    }
    FlatStep(RangeRows(rows, n), k);
    Assoc(done, values, [LineEnd]);
  }

  /** `write_range`: `n` is the width minus one, which panics (`usize`
      underflow) for a range without columns; then every row's values,
      `;` after each one whose index is not `n`, and CRLF. The first
      failing write ends it with that error. */
  method WriteRange(dest: Writer, range: Range) returns (r: Outcome<IoResult>)
    modifies dest
    ensures r == Panicked <==> range.width == 0
    ensures r == Panicked ==> dest.text == old(dest.text) && dest.calls == old(dest.calls)
    ensures r.Returned? ==> StoppedAtFirstError(RangePieces(range.rows, range.width - 1), old(dest.calls),
                                                dest.failing, old(dest.text), dest.text, dest.calls, r.value)
  {
    if range.width == 0 {
      return Panicked;
    }
    var n := range.width - 1;
    var rows := range.rows;
    ghost var full := RangePieces(rows, n);
    ghost var from := dest.calls;
    ghost var oldText := dest.text;
    ghost var lines := RangeRows(rows, n);
    var k := 0;
    while k < |rows|
      invariant 0 <= k <= |rows|
      invariant Progress(dest, from, oldText, Flat(lines[..k]))
    {
      var res := WriteRow(dest, rows, n, k, full, from, oldText, Flat(lines[..k]));
      if res.Err? {
        return Returned(res);
      }
      k := k + 1;
    }
    assert lines[..|rows|] == lines;
    Finished(dest, from, oldText, full);
    r := Returned(Ok);
  }

  /** A value's writes hold one `;` exactly when its index is not `n`,
      and never a line end. */
  lemma FieldRunCounts(row: seq<DataType>, n: nat, i: nat)
    requires i < |row|
    ensures CountRole(FieldRun(row, n, i), Delimiter) == if i != n then 1 else 0
    ensures CountRole(FieldRun(row, n, i), Terminator) == 0
  {
    var tail := if i != n then [Semicolon] else [];
    ValuePiecesText(row[i]);
    CountSplit(FieldRun(row, n, i), ValuePieces(row[i]), tail, Delimiter);
    CountSplit(FieldRun(row, n, i), ValuePieces(row[i]), tail, Terminator);
  }

  /** Every row, an all-`Empty` or empty one included, ends in exactly
      one CRLF. */
  lemma RowLineEnd(row: seq<DataType>, n: nat)
    ensures CountRole(RowPieces(row, n), Terminator) == 1
  {
    forall i | 0 <= i < |row|
      ensures CountRole(RowRuns(row, n)[i], Terminator) == 0
    {
      FieldRunCounts(row, n, i);
    }
    CountFlatUniform(RowRuns(row, n), Terminator, 0);
    CountRoleAppend(Flat(RowRuns(row, n)), [LineEnd], Terminator);
  }

  /** `write_range` writes one CRLF per row. */
  lemma RangeLineEnds(rows: seq<seq<DataType>>, n: nat)
    ensures CountRole(RangePieces(rows, n), Terminator) == |rows|
  {
    forall r | 0 <= r < |rows|
      ensures CountRole(RangeRows(rows, n)[r], Terminator) == 1
    {
      RowLineEnd(rows[r], n);
    }
    CountFlatUniform(RangeRows(rows, n), Terminator, 1);
  }

  lemma {:induction false} DelimitersUpTo(runs: seq<seq<Piece>>, n: nat, k: nat)
    requires k <= |runs|
    requires forall i {:trigger runs[i]} | 0 <= i < |runs| :: CountRole(runs[i], Delimiter) == if i != n then 1 else 0
    ensures CountRole(Flat(runs[..k]), Delimiter) == if n < k then k - 1 else k
  {
    if k > 0 {
      DelimitersUpTo(runs, n, k - 1);
      CountFlatStep(runs, k - 1, Delimiter);
    }
  }

  lemma SemicolonsBefore(row: seq<DataType>, n: nat, k: nat)
    requires k <= |row|
    ensures CountRole(Flat(RowRuns(row, n)[..k]), Delimiter) == if n < k then k - 1 else k
  {
    var runs := RowRuns(row, n);
    forall i | 0 <= i < |runs|
      ensures CountRole(runs[i], Delimiter) == if i != n then 1 else 0
    {
      FieldRunCounts(row, n, i);
    }
    DelimitersUpTo(runs, n, k);
  }

  /** A row as wide as the range has a `;` after every value but the
      last: `width - 1` of them. */
  lemma FullRowSemicolons(row: seq<DataType>, width: nat)
    requires width > 0 && |row| == width
    ensures CountRole(RowPieces(row, width - 1), Delimiter) == width - 1
  {
    SemicolonsBefore(row, width - 1, |row|);
    assert RowRuns(row, width - 1)[..|row|] == RowRuns(row, width - 1);
    CountRoleAppend(Flat(RowRuns(row, width - 1)), [LineEnd], Delimiter);
  }

  /** The plain texts of a row's values. */
  function Texts(row: seq<DataType>): (ts: seq<string>)
    ensures |ts| == |row|
    ensures forall i | 0 <= i < |row| :: ts[i] == PlainText(row[i])
  {
    seq(|row|, i requires 0 <= i < |row| => PlainText(row[i]))
  }

  lemma FieldRunText(row: seq<DataType>, n: nat, i: nat)
    requires i < |row|
    ensures Concat(FieldRun(row, n, i)) == PlainText(row[i]) + (if i != n then ";" else "")
  {
    var tail := if i != n then [Semicolon] else [];
    ValuePiecesText(row[i]);
    ConcatAppend(ValuePieces(row[i]), tail);
    if i != n {
      assert Concat(tail) == Concat([]) + ";";
    }
  }

  /** A row as wide as the range reads as its values' texts joined by
      `;`, with none after the last, then CRLF; values are written as
      they are, so a `;` or a `"` inside a text is not escaped. */
  lemma FullRowText(row: seq<DataType>)
    requires |row| > 0
    ensures Concat(RowPieces(row, |row| - 1)) == Join(Texts(row), ";") + "\r\n"
  {
    var n := |row| - 1;
    var runs := RowRuns(row, n);
    var ts := Texts(row);
    assert Concat(Flat(runs)) == Join(ts, ";") by {
      forall i | 0 <= i < |ts|
        ensures Concat(runs[i]) == ts[i] + (if i < |ts| - 1 then ";" else "")
      {
        FieldRunText(row, n, i);
      }
      ConcatJoin(runs, ts, ";");
    }
    ConcatAppend(Flat(runs), [LineEnd]);
  }
}
