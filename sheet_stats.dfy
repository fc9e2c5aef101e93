/** What `get_stats`, `find_headers` and `write_range` of xlsx_to_arrow.rs
    compute from the handler's `table`, as functions of the table. */
module SheetStats {
  import opened Text
  import opened Sink
  import opened Cells
  import opened TypeCounts

  /** All stored values, column after column, in the order `get_stats`
      visits them. */
  function Flatten(t: seq<seq<DataType>>): seq<DataType>
  {
    if t == [] then [] else Flatten(t[..|t| - 1]) + t[|t| - 1]
  }

  /** How many values the table stores, padding `Empty`s included. */
  function StoredCells(t: seq<seq<DataType>>): nat
  {
    if t == [] then 0 else StoredCells(t[..|t| - 1]) + |t[|t| - 1]|
  }

  /** The per-column tallies added up counter by counter. */
  function ColumnTallies(t: seq<seq<DataType>>): Tally
  {
    if t == [] then Zero else ColumnTallies(t[..|t| - 1]).Plus(TallyOf(t[|t| - 1]))
  }

  /** The running total `get_stats` returns is, for every kind, the sum of
      the counts of the columns. */
  lemma {:induction false} TotalIsSumOfColumns(t: seq<seq<DataType>>)
    ensures TallyOf(Flatten(t)) == ColumnTallies(t)
  {
    if t != [] {
      var init := t[..|t| - 1];
      TotalIsSumOfColumns(init);
      TallyAppend(Flatten(init), t[|t| - 1]);
    }
  }

  lemma {:induction false} FlattenLength(t: seq<seq<DataType>>)
    ensures |Flatten(t)| == StoredCells(t)
  {
    if t != [] {
      FlattenLength(t[..|t| - 1]);
    }
  }

  /** Every stored value is counted once in the total. */
  lemma GrandTotal(t: seq<seq<DataType>>)
    ensures TallyOf(Flatten(t)).Total() == StoredCells(t)
  {
    TallyTotal(Flatten(t));
    FlattenLength(t);
  }

  /** Taking one more column into the running total. */
  lemma FlattenStep(t: seq<seq<DataType>>, c: nat)
    requires c < |t|
    ensures Flatten(t[..c + 1]) == Flatten(t[..c]) + t[c]
  {
    assert t[..c + 1][..c] == t[..c];
  }

  lemma {:induction false} FlattenPrefix(t: seq<seq<DataType>>, c: nat)
    requires c <= |t|
    ensures Flatten(t[..c]) <= Flatten(t)
  {
    if c < |t| {
      var init := t[..|t| - 1];
      FlattenPrefix(init, c);
      assert init[..c] == t[..c];
      PrefixOfSum(Flatten(t), Flatten(init), t[|t| - 1]);
      PrefixTrans(Flatten(t[..c]), Flatten(init), Flatten(t));
    } else {
      assert t[..c] == t;
    }
  }

  /** Counts that fit for all the values fit for a prefix of them. */
  lemma FitsPrefix(a: seq<DataType>, w: seq<DataType>)
    requires a <= w && Fits(TallyOf(w))
    ensures Fits(TallyOf(a))
  {
    assert w == a + w[|a|..];
    TallyAppend(a, w[|a|..]);
    FitsPlus(TallyOf(a), TallyOf(w[|a|..]));
  }

  /** Value `j` of `col` bumps the count of the values before it. */
  lemma CountAt(col: seq<DataType>, j: nat)
    requires j < |col|
    ensures TallyOf(col[..j + 1]) == TallyOf(col[..j]).Bump(KindOf(col[j]))
  {
    var init, v := col[..j], col[j];
    assert col[..j + 1] == init + [v];
    TallySnoc(init, v);
  }

  /** The whole column counts as the values up to `j` plus the rest. */
  lemma SplitAt(col: seq<DataType>, j: nat)
    requires j < |col|
    ensures TallyOf(col) == TallyOf(col[..j + 1]).Plus(TallyOf(col[j + 1..]))
  {
    var head, rest := col[..j + 1], col[j + 1..];
    assert col == head + rest;
    TallyAppend(head, rest);
  }

  /** Counts that fit with `b` added fit without it, in a running total
      and on their own. */
  lemma FitsWithout(base: Tally, a: Tally, b: Tally)
    requires Fits(base.Plus(a.Plus(b)))
    ensures Fits(a) && Fits(base.Plus(a))
  {
    PlusAssoc(base, a, b);
    FitsPlus(base.Plus(a), b);
    FitsPlus(base, a);
  }

  /** Counting value `j` of `col` on top of the values before it, in the
      column's own counters and in a running total that started at `base`:
      both bump the value's counter by one, and neither overflows as long
      as `base` plus the whole column fits. */
  lemma CountStep(base: Tally, col: seq<DataType>, j: nat)
    requires j < |col| && Fits(base.Plus(TallyOf(col)))
    ensures TallyOf(col[..j + 1]) == TallyOf(col[..j]).Bump(KindOf(col[j]))
    ensures base.Plus(TallyOf(col[..j + 1])) == base.Plus(TallyOf(col[..j])).Bump(KindOf(col[j]))
    ensures Fits(TallyOf(col[..j + 1])) && Fits(base.Plus(TallyOf(col[..j + 1])))
  {
    CountAt(col, j);
    SplitAt(col, j);
    PlusBump(base, TallyOf(col[..j]), KindOf(col[j]));
    FitsWithout(base, TallyOf(col[..j + 1]), TallyOf(col[j + 1..]));
  }

  /** The running total after column `c` of `get_stats`: the total before
      it plus the column's own count; it fits when the final total does. */
  lemma ColumnTotal(t: seq<seq<DataType>>, c: nat)
    requires c < |t|
    ensures TallyOf(Flatten(t[..c])).Plus(TallyOf(t[c])) == TallyOf(Flatten(t[..c + 1]))
    ensures Fits(TallyOf(Flatten(t))) ==> Fits(TallyOf(Flatten(t[..c + 1])))
  {
    FlattenStep(t, c);
    TallyAppend(Flatten(t[..c]), t[c]);
    FlattenPrefix(t, c + 1);
    if Fits(TallyOf(Flatten(t))) {
      FitsPrefix(Flatten(t[..c + 1]), Flatten(t));
    }
  }

  /** The header `get_stats` prints for a column: its first value, or the
      string "Unknown" for an empty column. */
  function Header(col: seq<DataType>): DataType
  {
    if col == [] then String("Unknown") else col[0]
  }

  /** The line `get_stats` prints for one column; `show` is `DataType`'s
      `Display`. */
  function ColumnLine(col: seq<DataType>, show: DataType -> string): string
  {
    "Column " + show(Header(col)) + ": " + TallyOf(col).Report()
  }

  /** The column lines of `get_stats`, one per column in order. */
  function ColumnLines(t: seq<seq<DataType>>, show: DataType -> string): (ls: seq<string>)
    ensures |ls| == |t|
  {
    if t == [] then [] else ColumnLines(t[..|t| - 1], show) + [ColumnLine(t[|t| - 1], show)]
  }

  /** Taking one more column adds that column's line at the end. */
  lemma ColumnLinesStep(t: seq<seq<DataType>>, show: DataType -> string, c: nat)
    requires c < |t|
    ensures ColumnLines(t[..c + 1], show) == ColumnLines(t[..c], show) + [ColumnLine(t[c], show)]
  {
    assert t[..c + 1][..c] == t[..c];
  }

  /** Line `i` describes column `i`. */
  lemma {:induction false} ColumnLinesAt(t: seq<seq<DataType>>, show: DataType -> string, i: nat)
    requires i < |t|
    ensures ColumnLines(t, show)[i] == ColumnLine(t[i], show)
  {
    if i < |t| - 1 {
      ColumnLinesAt(t[..|t| - 1], show, i);
    }
  }

  /** `num_rows`: the length of the first column, or zero without columns. */
  function RowCount(t: seq<seq<DataType>>): nat
  {
    if t == [] then 0 else |t[0]|
  }

  /** The text of one place in the row dump: nothing where the column is
      too short. */
  function CellText(col: seq<DataType>, row: nat, show: DataType -> string): string
  {
    if row < |col| then show(col[row]) else ""
  }

  function RowTexts(t: seq<seq<DataType>>, row: nat, show: DataType -> string): (ts: seq<string>)
    ensures |ts| == |t|
  {
    seq(|t|, c requires 0 <= c < |t| => CellText(t[c], row, show))
  }

  /** One line of the row dump: the texts of a row, tab between columns. */
  function DumpLine(t: seq<seq<DataType>>, row: nat, show: DataType -> string): string
  {
    Join(RowTexts(t, row, show), "\t")
  }

  /** The lines of the dump: rows `0..num_rows`, so values of longer
      columns below the first column's end are never shown. */
  function DumpLines(t: seq<seq<DataType>>, show: DataType -> string): (ls: seq<string>)
    ensures |ls| == RowCount(t)
  {
    seq(RowCount(t), r requires 0 <= r < RowCount(t) => DumpLine(t, r, show))
  }

  /** A dump line cut at its tabs gives back one text per column: the
      value's text where the column has the row, nothing where it does not
      (as long as no value's text holds a tab itself). */
  lemma DumpLineFields(t: seq<seq<DataType>>, row: nat, show: DataType -> string)
    requires t != []
    requires forall c | 0 <= c < |t| :: '\t' !in CellText(t[c], row, show)
    ensures var fs := Split(DumpLine(t, row, show), '\t');
      && |fs| == |t|
      && forall c | 0 <= c < |t| :: fs[c] == if row < |t[c]| then show(t[c][row]) else ""
  {
    SplitJoin(RowTexts(t, row, show), '\t');
  }
}
