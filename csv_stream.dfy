/** The streaming CSV writer of excel_to_csv2.rs: `format_cell`, and the
    callbacks `dimension`, `cell` and `row_end` of `CsvWriter`, which
    buffer the formatted fields of the current row and write them out,
    comma-separated, when a cell of a later row arrives. */
module CsvStream {
  import opened Text
  import opened Sink
  import opened Cells

  /** A string field is quoted when it holds a comma or a double quote;
      a line break alone does not trigger quoting. */
  predicate NeedsQuotes(s: string)
  {
    ',' in s || '"' in s
  }

  /** `s.replace('"', "\"\"")`: every double quote doubled (rule 7 of
      section 2 of RFC 4180). */
  function Escape(s: string): string
  {
    if s == [] then []
    else (if s[0] == '"' then "\"\"" else [s[0]]) + Escape(s[1..])
  }

  /** The reading side of that rule: a pair of double quotes stands for one. */
  function Unescape(s: string): string
  {
    if s == [] then []
    else if |s| >= 2 && s[0] == '"' && s[1] == '"' then "\"" + Unescape(s[2..])
    else [s[0]] + Unescape(s[1..])
  }

  /** A quoted field: the escaped text between double quotes (rule 6). */
  function Quote(s: string): string
  {
    "\"" + Escape(s) + "\""
  }

  /** What a CSV reader makes of a field: a quoted one loses its quotes
      and its doubled quotes; any other is taken as it is. */
  function Unquote(q: string): string
  {
    if |q| >= 2 && q[0] == '"' && q[|q| - 1] == '"' then Unescape(q[1..|q| - 1]) else q
  }

  /** `format_cell`: only `String` fields are ever quoted; ISO date and
      duration text goes out verbatim, commas and all. */
  function FormatCell(v: DataType): string
  {
    match v
    case Empty => ""
    case String(s) => if NeedsQuotes(s) then Quote(s) else s
    case DateTimeIso(s) => s
    case DurationIso(s) => s
    case Float(f) => f.shown
    case DateTime(f) => f.shown
    case Duration(f) => f.shown
    case Int(i) => IntText(i)
    case Error(e) => e.debug
    case Bool(b) => BoolText(b)
  }

  lemma {:induction false} UnescapeEscape(s: string)
    ensures Unescape(Escape(s)) == s
  {
    if s != [] {
      UnescapeEscape(s[1..]);
      if s[0] == '"' {
        assert Escape(s)[2..] == Escape(s[1..]);
      } else {
        assert Escape(s)[1..] == Escape(s[1..]);
      }
    }
  }

  /** Escaping never shortens a string. */
  lemma {:induction false} EscapeLength(s: string)
    ensures |Escape(s)| >= |s|
  {
    if s != [] {
      EscapeLength(s[1..]);
    }
  }

  /** A string without double quotes is its own escape. */
  lemma {:induction false} EscapeNoQuotes(s: string)
    requires '"' !in s
    ensures Escape(s) == s
  {
    if s != [] {
      assert '"' !in s[1..] by {
        forall i | 0 <= i < |s[1..]| ensures s[1..][i] != '"' {
          assert s[1..][i] == s[i + 1];
        }
      }
      EscapeNoQuotes(s[1..]);
    }
  }

  /** Reading back a formatted string field gives the string, whether or
      not it was quoted. */
  lemma FormatStringRoundTrip(s: string)
    ensures Unquote(FormatCell(String(s))) == s
  {
    if NeedsQuotes(s) {
      var q := Quote(s);
      assert q[1..|q| - 1] == Escape(s);
      UnescapeEscape(s);
    }
  }

  /** `format_cell` departs from the plain text of a value exactly for
      strings that hold a comma or a double quote. */
  lemma FormatCellPlain(v: DataType)
    ensures FormatCell(v) == PlainText(v) <==> !(v.String? && NeedsQuotes(v.s))
  {
    if v.String? && NeedsQuotes(v.s) {
      EscapeLength(v.s);
      assert |FormatCell(v)| > |PlainText(v)|;
    }
  }

  /** The scalar arms: `Empty` is the empty field, integers are decimal
      text that reads back as the number, booleans are `true`/`false`,
      and ISO text is never quoted. */
  lemma FormatCellScalars(i: I64, b: bool, s: string)
    ensures FormatCell(Empty) == ""
    ensures ParseInt(FormatCell(Int(i))) == i
    ensures FormatCell(Bool(b)) == if b then "true" else "false"
    ensures FormatCell(DateTimeIso(s)) == s && FormatCell(DurationIso(s)) == s
  {
    IntTextRoundTrip(i);
  }

  const Comma := Piece(Delimiter, ",")
  const Newline := Piece(Terminator, "\n")

  /** The writes of `row_end` for buffered field `i`: the field, then a
      comma unless it is the last one. */
  function FieldPieces(fields: seq<string>, i: nat): seq<Piece>
    requires i < |fields|
  {
    [Piece(Field, fields[i])] + (if i < |fields| - 1 then [Comma] else [])
  }

  function FieldRuns(fields: seq<string>): (rs: seq<seq<Piece>>)
    ensures |rs| == |fields|
    ensures forall i | 0 <= i < |fields| :: rs[i] == FieldPieces(fields, i)
  {
    seq(|fields|, i requires 0 <= i < |fields| => FieldPieces(fields, i))
  }

  /** Everything `row_end` writes for a buffer, the final newline included. */
  function RowPieces(fields: seq<string>): seq<Piece>
  {
    Flat(FieldRuns(fields)) + [Newline]
  }

  lemma FieldPiecesText(fields: seq<string>, i: nat)
    requires i < |fields|
    ensures Concat(FieldPieces(fields, i)) == fields[i] + (if i < |fields| - 1 then "," else "")
  {
    var f := Piece(Field, fields[i]);
    if i < |fields| - 1 {
      assert [f, Comma][..1] == [f];
      assert Concat([f, Comma]) == Concat([f]) + ",";
    }
    assert Concat([f]) == Concat([]) + fields[i];
  }

  /** The text of a row: the fields joined by commas, with none after the
      last, then a newline; an empty buffer gives a bare newline. */
  lemma RowText(fields: seq<string>)
    ensures Concat(RowPieces(fields)) == Join(fields, ",") + "\n"
  {
    var runs := FieldRuns(fields);
    forall i | 0 <= i < |fields|
      ensures Concat(runs[i]) == fields[i] + (if i < |fields| - 1 then "," else "")
    {
      FieldPiecesText(fields, i);
    }
    ConcatJoin(runs, fields, ",");
    ConcatAppend(Flat(runs), [Newline]);
  }

  /** Write errors are discarded: when none of the calls fails, the
      destination receives the whole line. */
  lemma RowLine(fields: seq<string>, from: nat, failing: set<nat>)
    requires forall j | from <= j < from + |RowPieces(fields)| :: j !in failing
    ensures Kept(RowPieces(fields), from, failing) == Join(fields, ",") + "\n"
  {
    KeptWithoutFailures(RowPieces(fields), from, failing);
    RowText(fields);
  }

  /** The part of a `CsvWriter` that `cell` and `row_end` use: the buffer
      of formatted fields (`table`) and `last_row`. */
  datatype CsvState = CsvState(buffer: seq<string>, lastRow: U32)

  /** A callback's effect: the new state and the writes it issued. */
  datatype Reaction = Reaction(state: CsvState, out: seq<Piece>)

  /** The callbacks that touch the buffer, as a sheet reader issues them. */
  datatype Event = CellEvent(pos: CellPos, v: DataType) | RowEndEvent(pos: CellPos)

  /** `cell`: a cell of a later row writes the buffer out as a line and
      starts a new buffer; any other cell only joins the buffer. The
      column is never looked at. */
  function OnCell(s: CsvState, pos: CellPos, v: DataType): Reaction
  {
    if pos.row > s.lastRow then Reaction(CsvState([FormatCell(v)], pos.row), RowPieces(s.buffer))
    else Reaction(CsvState(s.buffer + [FormatCell(v)], s.lastRow), [])
  }

  /** `row_end`: writes the buffer out as a line and keeps it. */
  function OnRowEnd(s: CsvState): Reaction
  {
    Reaction(s, RowPieces(s.buffer))
  }

  function OnEvent(s: CsvState, e: Event): Reaction
  {
    match e
    case CellEvent(pos, v) => OnCell(s, pos, v)
    case RowEndEvent(_) => OnRowEnd(s)
  }

  /** A run of callbacks from state `s`: the final state and every write. */
  function Run(s: CsvState, evs: seq<Event>): Reaction
  {
    if evs == [] then Reaction(s, [])
    else
      var r := Run(s, evs[..|evs| - 1]);
      var step := OnEvent(r.state, evs[|evs| - 1]);
      Reaction(step.state, r.out + step.out)
  }

  /** The state of a freshly built `CsvWriter`. */
  const Start := CsvState([], 0)

  /** `Dimension::default()`: both corners at the origin. */
  const NoDimension := Dimension(CellPos(0, 0), CellPos(0, 0))

  /** Formatted values of a run of cell events. */
  function Fields(evs: seq<Event>): (fs: seq<string>)
    requires forall i | 0 <= i < |evs| :: evs[i].CellEvent?
    ensures |fs| == |evs|
  {
    seq(|evs|, i requires 0 <= i < |evs| && evs[i].CellEvent? => FormatCell(evs[i].v))
  }

  lemma RunSnoc(s: CsvState, evs: seq<Event>, e: Event)
    ensures Run(s, evs + [e]) == Reaction(OnEvent(Run(s, evs).state, e).state,
                                         Run(s, evs).out + OnEvent(Run(s, evs).state, e).out)
  {
    assert (evs + [e])[..|evs|] == evs;
  }

  /** One callback moves `last_row` to the larger of itself and the cell's
      row; it never goes down. */
  lemma OnEventLastRow(s: CsvState, e: Event)
    ensures OnEvent(s, e).state.lastRow == if e.CellEvent? && e.pos.row > s.lastRow then e.pos.row else s.lastRow
  {
  }

  /** `last_row` never decreases, whatever the callbacks. */
  lemma {:induction false} LastRowNeverDecreases(s: CsvState, evs: seq<Event>)
    ensures Run(s, evs).state.lastRow >= s.lastRow
  {
    if evs != [] {
      LastRowNeverDecreases(s, evs[..|evs| - 1]);
      OnEventLastRow(Run(s, evs[..|evs| - 1]).state, evs[|evs| - 1]);
    }
  }

  /** Cells of rows already reached only join the buffer, in order, and
      write nothing: neither a column gap nor a repeated row makes an
      empty field. */
  lemma {:induction false} SameRowAppends(s: CsvState, evs: seq<Event>)
    requires forall i | 0 <= i < |evs| :: evs[i].CellEvent? && evs[i].pos.row <= s.lastRow
    ensures Run(s, evs) == Reaction(CsvState(s.buffer + Fields(evs), s.lastRow), [])
  {
    if evs != [] {
      var init := evs[..|evs| - 1];
      SameRowAppends(s, init);
      assert Fields(evs) == Fields(init) + [FormatCell(evs[|evs| - 1].v)];
    }
  }

  /** A row's line holds one field per cell received for it, whatever
      their columns, and is written once when the first cell of a later
      row arrives, however many rows later that is. */
  lemma OneLinePerRow(s: CsvState, first: Event, rest: seq<Event>, next: Event)
    requires first.CellEvent? && first.pos.row > s.lastRow
    requires forall i | 0 <= i < |rest| :: rest[i].CellEvent? && rest[i].pos.row == first.pos.row
    requires next.CellEvent? && next.pos.row > first.pos.row
    ensures Run(s, [first] + rest + [next]).out
            == RowPieces(s.buffer) + RowPieces([FormatCell(first.v)] + Fields(rest))
    ensures Run(s, [first] + rest + [next]).state == CsvState([FormatCell(next.v)], next.pos.row)
  {
    var s1 := CsvState([FormatCell(first.v)], first.pos.row);
    var s2 := CsvState(s1.buffer + Fields(rest), s1.lastRow);
    assert Run(s, [first] + rest) == Reaction(s2, RowPieces(s.buffer)) by {
      assert Run(s, [first]) == Reaction(s1, RowPieces(s.buffer)) by {
        RunOne(s, first);
      }
      assert Run(s1, rest) == Reaction(s2, []) by {
        SameRowAppends(s1, rest);
      }
      RunFrom(s, [first], rest);
      assert RowPieces(s.buffer) + [] == RowPieces(s.buffer);
    }
    RunSnoc(s, [first] + rest, next);
  }

  /** A run of one callback is that callback. */
  lemma RunOne(s: CsvState, e: Event)
    ensures Run(s, [e]) == OnEvent(s, e)
  {
    assert [e][..0] == [];
  }

  /** Running two stretches of callbacks one after the other. */
  lemma {:induction false} RunFrom(s: CsvState, a: seq<Event>, b: seq<Event>)
    ensures Run(s, a + b) == Reaction(Run(Run(s, a).state, b).state, Run(s, a).out + Run(Run(s, a).state, b).out)
  {
    if b == [] {
      assert a + b == a;
    } else {
      var init, e := b[..|b| - 1], b[|b| - 1];
      RunFrom(s, a, init);
      assert (a + b)[..|a + b| - 1] == a + init;
      assert (a + b)[|a + b| - 1] == e;
      var ra := Run(s, a);
      var ri := Run(ra.state, init);
      var step := OnEvent(ri.state, e);
      assert Run(s, a + b) == Reaction(step.state, (ra.out + ri.out) + step.out);
      assert Run(ra.state, b) == Reaction(step.state, ri.out + step.out);
      Assoc(ra.out, ri.out, step.out);
    }
  }

  /** `row_end` does not clear the buffer, so when the reader calls it at
      the end of a row and a cell of a later row follows, the row is
      written twice. */
  lemma RowEndThenNewRowRepeats(s: CsvState, p: CellPos, pos: CellPos, v: DataType)
    requires pos.row > s.lastRow
    ensures Run(s, [RowEndEvent(p), CellEvent(pos, v)]).out == RowPieces(s.buffer) + RowPieces(s.buffer)
  {
    RunOne(s, RowEndEvent(p));
    assert Run(s, [RowEndEvent(p)]) == Reaction(s, RowPieces(s.buffer));
    RunSnoc(s, [RowEndEvent(p)], CellEvent(pos, v));
    assert [RowEndEvent(p)] + [CellEvent(pos, v)] == [RowEndEvent(p), CellEvent(pos, v)];
  }

  /** A string with a comma and no double quote is only wrapped in quotes. */
  lemma QuotedComma(s: string)
    requires ',' in s && '"' !in s
    ensures FormatCell(String(s)) == "\"" + s + "\""
  {
    EscapeNoQuotes(s);
  }

  /** The fields of the first row of the example below. */
  lemma ExampleFields(e0: Event, e1: Event, s: string)
    requires ',' in s && '"' !in s
    requires e0 == CellEvent(CellPos(0, 0), Int(1))
    requires e1 == CellEvent(CellPos(0, 1), String(s))
    ensures Fields([e0, e1]) == ["1", "\"" + s + "\""]
  {
    assert Digit(1) == '1';
    QuotedComma(s);
    var fs := Fields([e0, e1]);
    assert fs[0] == FormatCell(e0.v) && fs[1] == FormatCell(e1.v);
  }

  /** The callbacks of the example below. */
  function TwoRowEvents(s: string): seq<Event>
  {
    [CellEvent(CellPos(0, 0), Int(1)), CellEvent(CellPos(0, 1), String(s)), RowEndEvent(CellPos(0, 1)),
     CellEvent(CellPos(1, 1), Bool(true)), RowEndEvent(CellPos(1, 1))]
  }

  /** The writes of the example below: the first row's line twice, then
      the second row's. */
  lemma TwoRowWrites(s: string)
    requires ',' in s && '"' !in s
    ensures Run(Start, TwoRowEvents(s)).out
            == RowPieces(["1", "\"" + s + "\""]) + RowPieces(["1", "\"" + s + "\""]) + RowPieces(["true"])
  {
    var evs := TwoRowEvents(s);
    var e0, e1, e2, e3, e4 := evs[0], evs[1], evs[2], evs[3], evs[4];
    var row := ["1", "\"" + s + "\""];
    var s1 := CsvState(row, 0);
    assert Run(Start, [e0, e1]) == Reaction(s1, []) by {
      ExampleFields(e0, e1, s);
      SameRowAppends(Start, [e0, e1]);
    }
    var s2 := CsvState(["true"], 1);
    var out3 := RowPieces(row) + RowPieces(row);
    assert Run(Start, [e0, e1, e2, e3]) == Reaction(s2, out3) by {
      RowEndThenNewRowRepeats(s1, e2.pos, e3.pos, e3.v);
      assert Run(s1, [e2, e3]).state == s2 by {
        RunSnoc(s1, [e2], e3);
        RunOne(s1, e2);
        assert [e2] + [e3] == [e2, e3];
      }
      RunFrom(Start, [e0, e1], [e2, e3]);
      assert [e0, e1] + [e2, e3] == [e0, e1, e2, e3];
      assert [] + out3 == out3;
    }
    RunSnoc(Start, [e0, e1, e2, e3], e4);
    assert [e0, e1, e2, e3] + [e4] == evs;
  }

  /** A two-row sheet read with a `row_end` after each row, a number and
      a text with a comma in the first row and `true` in the second
      column of the second: the first row comes out twice, the second
      once, and the column gap before `true` gives no empty field. */
  lemma TwoRowExample(s: string)
    requires ',' in s && '"' !in s
    ensures var q := "\"" + s + "\"";
      Concat(Run(Start, TwoRowEvents(s)).out) == "1," + q + "\n1," + q + "\ntrue\n"
  {
    var q := "\"" + s + "\"";
    var row := ["1", q];
    var out3 := RowPieces(row) + RowPieces(row);
    TwoRowWrites(s);
    var line := "1," + q + "\n";
    assert Concat(RowPieces(row)) == line by {
      RowText(row);
      assert Join(row, ",") == "1," + q;
    }
    assert Concat(RowPieces(["true"])) == "true" + "\n" by {
      RowText(["true"]);
    }
    ConcatAppend(RowPieces(row), RowPieces(row));
    ConcatAppend(out3, RowPieces(["true"]));
    ExampleText(q);
  }

  lemma ExampleText(q: string)
    ensures ("1," + q + "\n") + ("1," + q + "\n") + ("true" + "\n") == "1," + q + "\n1," + q + "\ntrue\n"
  {
    assert "\n1," == "\n" + "1,";
    assert "\ntrue\n" == "\n" + ("true" + "\n");
  }

  /** `struct CsvWriter`. `dest` is the boxed writer, never replaced. */
  class CsvWriter {
    var table: seq<string>
    var rows: U32
    var cols: U32
    var dims: Dimension
    const dest: Writer
    var lastRow: U32

    function State(): CsvState
      reads this
    {
      CsvState(table, lastRow)
    }

    /** The writer `main` builds around the output file. */
    constructor (dest: Writer)
      ensures State() == Start && rows == 0 && cols == 0
      ensures dims == NoDimension && this.dest == dest
    {
      table := [];
      rows := 0;
      cols := 0;
      dims := NoDimension;
      this.dest := dest;
      lastRow := 0;
    }

    /** `dimension`: `rows` and `cols` are the `u32` differences of the
        corners (no `+ 1`), and `dims` takes both corners. A corner that
        lies before the start makes the subtraction overflow, which
        panics (`ok` false) with what was assigned before it kept. */
    method Dimension(dim: Dimension) returns (ok: bool)
      modifies this
      ensures ok <==> dim.start.row <= dim.end.row && dim.start.col <= dim.end.col
      ensures rows == if dim.start.row <= dim.end.row then dim.end.row - dim.start.row else old(rows)
      ensures cols == if ok then dim.end.col - dim.start.col else old(cols)
      ensures dims == if ok then dim else old(dims)
      ensures State() == old(State())
    {
      if dim.end.row < dim.start.row {
        return false;
      }
      rows := dim.end.row - dim.start.row;
      if dim.end.col < dim.start.col {
        return false;
      }
      cols := dim.end.col - dim.start.col;
      dims := dims.(start := CellPos(dim.start.row, dim.start.col));
      dims := dims.(end := CellPos(dim.end.row, dim.end.col));
      ok := true;
    }

    /** `cell`: when the row is later than `last_row`, move `last_row`,
        write the buffer out through `row_end` and clear it; then buffer
        the formatted value. */
    method Cell(pos: CellPos, v: DataType)
      modifies this, dest
      ensures var r := OnCell(old(State()), pos, v);
        && State() == r.state
        && dest.text == old(dest.text) + Kept(r.out, old(dest.calls), dest.failing)
        && dest.calls == old(dest.calls) + |r.out|
      ensures rows == old(rows) && cols == old(cols) && dims == old(dims)
    {
      if pos.row > lastRow {
        lastRow := pos.row;
        RowEnd(pos);
        table := [];
      }
      table := table + [FormatCell(v)];
    }

    /** `row_end`: each buffered field, a comma after every field but the
        last, then a newline; failed writes are ignored (`let _ =`), and
        the buffer is left as it is. */
    method RowEnd(pos: CellPos)
      modifies dest
      ensures dest.text == old(dest.text) + Kept(OnRowEnd(State()).out, old(dest.calls), dest.failing)
      ensures dest.calls == old(dest.calls) + |OnRowEnd(State()).out|
    {
      ghost var from := dest.calls;
      ghost var oldText := dest.text;
      ghost var runs := FieldRuns(table);
      ghost var done: seq<Piece> := [];
      var i := 0;
      while i < |table|
        invariant 0 <= i <= |table|
        invariant done == Flat(runs[..i])
        invariant dest.calls == from + |done|
        invariant dest.text == oldText + Kept(done, from, dest.failing)
      {
        Put(dest, Piece(Field, table[i]), from, oldText, done);
        ghost var sofar := done + [Piece(Field, table[i])];
        if i < |table| - 1 {
          Put(dest, Comma, from, oldText, sofar);
          sofar := sofar + [Comma];
        }
        FlatStep(runs, i);
        done := sofar;
        i := i + 1;
      }
      assert runs[..|table|] == runs;
      Put(dest, Newline, from, oldText, done);
    }
  }
}
