# Calamine example programs: column store, streaming CSV writer, range writer

This project models the cell-handling core of three example programs of the
calamine spreadsheet reader, and proves properties of that model.

- `examples/xlsx_to_arrow.rs` has a sheet handler.
  - A sheet reader drives it through the callbacks `dimension`, `cell` and
    `row_end`.
  - It stores the values column by column in `table`.
  - It keeps a list of type-run start rows per column in
    `type_range_start_idx`.
  - It counts values per `DataType` variant in `struct Types` and prints a
    report of the counts (`get_stats`).
  - It dumps the rows with tabs between columns (`get_stats` and
    `find_headers`).
  - Its `write_range` writes the table out.
- `examples/excel_to_csv2.rs` has a streaming CSV writer.
  - `format_cell` formats one value. Only strings are quoted, as in rules 6 and 7
    of section 2 of RFC 4180.
  - The callbacks buffer one row of fields.
  - `row_end` writes the buffered fields comma-separated.
- `examples/excel_to_csv.rs` has `write_range`. It writes a decoded range
  with `;` between values and CRLF after each row.

Modules, one per file:

- `Text` (text.dfy): decimal text of integers, `Join` and `Split`, and line
  counting.
- `Sink` (sink.dfy): the output writer. The class `Writer` holds the text
  received so far and the number of `write!` calls made. The set `failing`
  says which calls fail.
  - Writes are lists of pieces: a value, a separator or a line end.
  - `StoppedAtFirstError` describes a sequence of writes that each use `?`.
  - `Kept` describes writes whose errors are dropped with `let _ =`.
- `Cells` (cells.dfy): the ten-variant `DataType`, `CellPos`, `Dimension`,
  and the text both `write_range` functions write for a value.
- `TypeCounts` (type_counts.dfy): the counters of `struct Types`.
  - The datatype `Tally` holds their value and renders the report.
  - The class `Types` has the ten `u32` fields and `Inc`.
- `Columns` (columns.dfy): the effect of `cell` and `dimension` on the
  handler's two vectors, as functions.
  - It also has an independent description of the grid that a row-major
    stream of cells describes.
- `SheetStats` (sheet_stats.dfy): what `get_stats` and `find_headers`
  compute from the table.
- `SheetWrites` (sheet_writes.dfy): what `write_range` of
  xlsx_to_arrow.rs writes, as pieces.
- `ColumnStore` (column_store.dfy): the class `SheetHandler`, with its
  callbacks, `GetStats` and `FindHeaders`, and `WriteRange` of
  xlsx_to_arrow.rs.
- `CsvStream` (csv_stream.dfy): `FormatCell` and the class `CsvWriter`.
  - It also states the callbacks as a state machine over the field buffer
    and `last_row`.
- `RangeCsv` (range_csv.dfy): `write_range` of excel_to_csv.rs.

How the source's behaviour is represented:

- A panic becomes an outcome: `ok: bool` or `Outcome.Panicked`. The state is
  left as it was when the panic happened.
- Console output from `println!` becomes returned lines.
- The `Display` text of a `DataType` is a function parameter `show`. The
  `f64` payload carries its display text (`F64.shown`). The error payload
  carries its `Debug` text (`CellError.debug`).

The quirks of the code are kept as written:

- `type_id` is the id of the type `DataType`, whatever the variant. So a
  type-run start is recorded only for a cell in row 0.
- `dimension` of the sheet handler adds a column to `table` but not to
  `type_range_start_idx`.
- In `write_range` of xlsx_to_arrow.rs, the separator test `i != num_cols`
  always holds. The CRLF is written inside the column loop.
- `row_end` of the CSV writer does not clear its buffer.

More consequences of the code as written:

- A type-run start is recorded only for a row-0 cell, never when the variant
  changes from the row above (`Columns.CellRuns`).
- For the cells `(0,0,Int(1))`, `(0,1,String("hi,there"))`, row end,
  `(1,1,Bool(true))`, row end:
  - column 0 stays `[Int(1)]`, because only the target column is padded,
    and column 1 becomes `[String("hi,there"), Bool(true)]`
    (`Columns.ScenarioColumns`);
  - the CSV writer writes `1,"hi,there"` twice and then `true`
    (`CsvStream.TwoRowExample`). The row is written twice because
    `row_end` does not clear the buffer, and `true` has no leading comma
    because its column is never looked at.
- Each `dimension` call adds one column to `table` and none to
  `type_range_start_idx` (`Columns.LagAfterCallbacks`). After one
  `dimension` call on a fresh handler, a cell at (0,0) panics at the
  `expect` (`Columns.DimensionThenFirstCellPanics`). In general a row-0 cell
  panics exactly when its column has no run list after the table has grown
  (`Columns.CellPanicsIff`); so after `dimension`, a cell at (1,3) followed
  by one at (0,0) returns both times.

## Model

| member | source | states |
|---|---|---|
| Cells.ValuePiecesText | examples/xlsx_to_arrow.rs:243-256 | the writes for one value spell its plain text and hold no `;` and no line end |
| Cells.PlainTextArms | examples/excel_to_csv.rs:42-53 | `Empty` writes nothing; strings and ISO texts are verbatim, unquoted; float-like values use the float's display text; an integer's text parses back to the integer; booleans are `true`/`false` |
| TypeCounts.Types.constructor | examples/xlsx_to_arrow.rs:12-24 | `Types::default()`: every counter is zero |
| TypeCounts.Types.Inc | examples/xlsx_to_arrow.rs:26-39 | the counters after `inc` are the old counters with the value's variant bumped |
| TypeCounts.BumpCounts | examples/xlsx_to_arrow.rs:26-39 | bumping a variant raises exactly that counter by one and leaves the other nine unchanged; the total grows by one |
| TypeCounts.TallyCountsKinds | examples/xlsx_to_arrow.rs:98-104 | after `inc` over a run of values, each counter equals the number of values of its variant |
| TypeCounts.TallyTotal | examples/xlsx_to_arrow.rs:98-104 | after `inc` over a run of values, the counters add up to its length |
| TypeCounts.TallyAppend | examples/xlsx_to_arrow.rs:98-104 | counting two runs one after the other gives the counter-wise sum of their counts |
| TypeCounts.LineNewlines | examples/xlsx_to_arrow.rs:44-46 | a counter's report line holds one line end when the counter is positive and is empty otherwise |
| TypeCounts.ReportLineCount | examples/xlsx_to_arrow.rs:41-76 | the report has exactly one line per non-zero counter |
| TypeCounts.ReportEmptyIff | examples/xlsx_to_arrow.rs:41-76 | the report is empty if and only if all counters are zero |
| TypeCounts.ReportIsoLabels | examples/xlsx_to_arrow.rs:56-73 | the ISO labels are "ISO Datetimes " without a colon and "ISO Dirations: " |
| Columns.Grow | examples/xlsx_to_arrow.rs:171-177 | a column past the end adds `col - len + 1` empty columns to both vectors, so `col` becomes the last column; otherwise nothing changes |
| Columns.Pad | examples/xlsx_to_arrow.rs:182-186 | the column keeps its values, gets `Empty` up to the row, then the value |
| Columns.CellGrowth | examples/xlsx_to_arrow.rs:171-177 | after `cell` the table is `pos.col + 1` wide when the column was missing and unchanged otherwise; both vectors grow by the same amount |
| Columns.CellColumns | examples/xlsx_to_arrow.rs:178-186 | the target column becomes old ++ `Empty`s ++ [v]; every other column is unchanged |
| Columns.CellLandsAt | examples/xlsx_to_arrow.rs:178-186 | the value lands at `pos.row` in a column no longer than that, and at the old end of a longer column |
| Columns.CellRuns | examples/xlsx_to_arrow.rs:187-194 | a run start is recorded only for a row-0 cell, as row 0; no other column's run list changes |
| Columns.CellPanicsIff | examples/xlsx_to_arrow.rs:187-192 | the `expect` panics if and only if the cell is in row 0 and its column has no run list after growth |
| Columns.LagAfterCallbacks | examples/xlsx_to_arrow.rs:163-177 | `cell` keeps the difference between the lengths of `table` and `type_range_start_idx`; `dimension` widens it by one |
| Columns.DimensionThenFirstCellPanics | examples/xlsx_to_arrow.rs:187-192 | after a `dimension` call on a fresh handler, the first cell at (0, 0) panics |
| Columns.RepeatedCellDoesNotGrow | examples/xlsx_to_arrow.rs:171-177 | the same position delivered again grows neither vector |
| Columns.FeedOneMore | examples/xlsx_to_arrow.rs:167-195 | a cell later in row-major order than all before it keeps the handler's state equal to the grid the cells describe |
| Columns.FeedRowMajor | examples/xlsx_to_arrow.rs:167-195 | cells fed in row-major order to a fresh handler never panic and leave the grid they describe: each column as long as its lowest cell, `Empty` in the gaps, run list `[0]` exactly when row 0 has a cell |
| Columns.ScenarioColumns | examples/xlsx_to_arrow.rs:167-195 | on a fresh handler, cells at (0,0), (0,1) and (1,1) all return and leave columns `[a]` and `[w, x]`, with column 0 not padded, and a run start at row 0 in each |
| SheetStats.TotalIsSumOfColumns | examples/xlsx_to_arrow.rs:98-104 | the total count of each variant is the sum of the per-column counts |
| SheetStats.GrandTotal | examples/xlsx_to_arrow.rs:98-104 | the counters of the total add up to the number of stored values, padding `Empty`s included |
| SheetStats.ColumnLinesAt | examples/xlsx_to_arrow.rs:105-112 | line `i` is "Column ", the column's first value (or "Unknown"), ": ", then the column's report |
| SheetStats.DumpLines | examples/xlsx_to_arrow.rs:114-116 | the dump has one line per row of the first column (`num_rows`) |
| SheetStats.DumpLineFields | examples/xlsx_to_arrow.rs:116-133 | cutting a dump line at its tabs gives one text per column: the value's text, or nothing where the column is shorter |
| SheetWrites.CellPiecesCounts | examples/xlsx_to_arrow.rs:242-261 | each column of a row writes one line end, and a `;` exactly when the column has the row |
| SheetWrites.RowLineEnds | examples/xlsx_to_arrow.rs:241-262 | a row writes one line end per column |
| SheetWrites.WriteRangeLineEnds | examples/xlsx_to_arrow.rs:237-265 | `write_range` writes exactly `num_rows * num_cols` line ends |
| SheetWrites.RowSemicolons | examples/xlsx_to_arrow.rs:257-259 | a row writes one `;` for every column that has the row, the last column included |
| SheetWrites.FullRowSemicolons | examples/xlsx_to_arrow.rs:240-261 | a row that every column has writes exactly `num_cols` semicolons, one after every value, the last column included |
| ColumnStore.SheetHandler.constructor | examples/xlsx_to_arrow.rs:227-231 | the handler starts with all three vectors empty |
| ColumnStore.SheetHandler.Dimension | examples/xlsx_to_arrow.rs:163-165 | `table` gains one empty column; `type_range_start_idx` and `cells` are unchanged |
| ColumnStore.SheetHandler.Cell | examples/xlsx_to_arrow.rs:167-195 | the new state and the panic flag are those of the growth, padding and run-start steps |
| ColumnStore.SheetHandler.GrowTo | examples/xlsx_to_arrow.rs:171-177 | the growth loop leaves the state that `Grow` describes |
| ColumnStore.SheetHandler.RowEnd | examples/xlsx_to_arrow.rs:197 | `row_end` changes nothing |
| ColumnStore.SheetHandler.DumpRows | examples/xlsx_to_arrow.rs:114-133 | the loop builds, for each row below `num_rows`, the column texts joined by tabs |
| ColumnStore.SheetHandler.GetStats | examples/xlsx_to_arrow.rs:94-135 | returns a fresh counter set holding the count of every stored value, the column lines, and the row dump |
| ColumnStore.SheetHandler.ColumnStats | examples/xlsx_to_arrow.rs:98-113 | the column loop ends with the total of all values and one line per column |
| ColumnStore.SheetHandler.ColumnStat | examples/xlsx_to_arrow.rs:98-113 | one column's turn adds its values to the running total and builds its line |
| ColumnStore.SheetHandler.CountColumn | examples/xlsx_to_arrow.rs:99-104 | the column's fresh counters count its values; the running total grows by exactly that count |
| ColumnStore.SheetHandler.CountNext | examples/xlsx_to_arrow.rs:101-104 | one value is counted in both the column's counters and the total |
| ColumnStore.SheetHandler.FindHeaders | examples/xlsx_to_arrow.rs:137-160 | panics if and only if there are no columns; otherwise returns 0 with the row dump |
| ColumnStore.PadColumn | examples/xlsx_to_arrow.rs:182-186 | the padding loop and push give `Pad` |
| ColumnStore.WriteCell | examples/xlsx_to_arrow.rs:242-261 | one column of one row: value, `;` and line end are written in order; the first failing write stops with its error |
| ColumnStore.WriteRange | examples/xlsx_to_arrow.rs:237-265 | writes exactly the pieces of every row and column, stopping at the first failing write with that error, else `Ok` |
| ColumnStore.ShapeOfFeed | examples/xlsx_to_arrow.rs:85-93 | after a row-major feed, `num_cols` is the number of columns reached and `num_rows` is the height of column 0, not of the tallest column |
| CsvStream.UnescapeEscape | examples/excel_to_csv2.rs:23 | collapsing doubled quotes undoes the doubling |
| CsvStream.FormatStringRoundTrip | examples/excel_to_csv2.rs:21-28 | stripping a formatted string's outer quotes, when it has them, and collapsing `""` gives back the string |
| CsvStream.FormatCellPlain | examples/excel_to_csv2.rs:18-39 | `format_cell` differs from the plain text exactly for strings that contain `,` or `"` |
| CsvStream.QuotedComma | examples/excel_to_csv2.rs:21-28 | a string with a comma and no quote is only wrapped in quotes |
| CsvStream.FormatCellScalars | examples/excel_to_csv2.rs:18-39 | `Empty` gives ""; an integer's text parses back to the integer; booleans give `true`/`false`; ISO texts are verbatim |
| CsvStream.FieldPiecesText | examples/excel_to_csv2.rs:68-75 | a buffered field is written followed by `,` unless it is the last |
| CsvStream.RowText | examples/excel_to_csv2.rs:65-77 | `row_end` writes the fields joined by `,` with no trailing comma, then `\n`; an empty buffer gives `\n` |
| CsvStream.RowLine | examples/excel_to_csv2.rs:65-77 | when no write fails, the destination receives that whole line |
| CsvStream.OnEventLastRow | examples/excel_to_csv2.rs:57-59 | a callback sets `last_row` to the larger of itself and the cell's row |
| CsvStream.LastRowNeverDecreases | examples/excel_to_csv2.rs:55-63 | `last_row` never decreases over any run of callbacks |
| CsvStream.SameRowAppends | examples/excel_to_csv2.rs:55-63 | cells of rows already reached only append their formatted values, in order, and write nothing |
| CsvStream.OneLinePerRow | examples/excel_to_csv2.rs:55-63 | a row's line holds one field per cell received for it, whatever the columns; a later row triggers exactly one flush and leaves a buffer of one field |
| CsvStream.RowEndThenNewRowRepeats | examples/excel_to_csv2.rs:55-77 | a `row_end` followed by a cell of a later row writes the same line twice |
| CsvStream.TwoRowWrites | examples/excel_to_csv2.rs:55-77 | the example sheet writes the first row's line twice, then the second row's |
| CsvStream.TwoRowExample | examples/excel_to_csv2.rs:55-77 | the example sheet's output text is `1,"<s>"`, twice, then `true`, each line ended by `\n` |
| CsvStream.CsvWriter.constructor | examples/excel_to_csv2.rs:107-114 | empty buffer, `last_row` 0, zero `rows`, `cols` and `dims` |
| CsvStream.CsvWriter.Dimension | examples/excel_to_csv2.rs:42-53 | `rows` and `cols` become the `u32` differences of the corners with no `+ 1`, and `dims` takes both corners; an underflow panics, keeping what was assigned before it |
| CsvStream.CsvWriter.Cell | examples/excel_to_csv2.rs:55-63 | the buffer, `last_row` and the written text follow `OnCell`; `rows`, `cols` and `dims` are unchanged |
| CsvStream.CsvWriter.RowEnd | examples/excel_to_csv2.rs:65-77 | the destination receives the line's pieces, minus those whose write failed; every write is attempted |
| Sink.Emit | examples/excel_to_csv.rs:53-58 | a `write!(..)?` either succeeds and output moves on by that piece, or fails and writing stops with that call's error |
| Sink.Put | examples/excel_to_csv2.rs:69-76 | a `let _ = write!(..)` appends its piece when the call succeeds, drops the error otherwise, and always counts the call |
| Sink.KeptWithoutFailures | examples/excel_to_csv2.rs:69-76 | with no failing call, ignoring errors loses nothing |
| RangeCsv.WriteField | examples/excel_to_csv.rs:42-56 | one value and its `;`, each written with `?` |
| RangeCsv.WriteValues | examples/excel_to_csv.rs:41-57 | the value loop of one row writes all its values in order, or stops at the first failing write |
| RangeCsv.WriteRow | examples/excel_to_csv.rs:40-58 | one row's values, then CRLF |
| RangeCsv.WriteRange | examples/excel_to_csv.rs:38-61 | panics if and only if the width is zero (`n` underflows), writing nothing; otherwise writes every row's pieces and stops at the first failing write with that error, else `Ok(())` |
| RangeCsv.FieldRunCounts | examples/excel_to_csv.rs:42-56 | a value's writes hold one `;` exactly when its index is not `n`, and no CRLF |
| RangeCsv.RowLineEnd | examples/excel_to_csv.rs:40-58 | every row, including an empty or all-`Empty` one, ends in exactly one CRLF |
| RangeCsv.RangeLineEnds | examples/excel_to_csv.rs:40-59 | the number of CRLFs equals the number of rows |
| RangeCsv.SemicolonsBefore | examples/excel_to_csv.rs:41-56 | the first `k` values of a row write `k` semicolons, or `k - 1` once index `n` is among them |
| RangeCsv.FullRowSemicolons | examples/excel_to_csv.rs:41-56 | a full-width row has `width - 1` semicolons |
| RangeCsv.FieldRunText | examples/excel_to_csv.rs:42-56 | a value is written as its plain text, followed by `;` unless its index is `n` |
| RangeCsv.FullRowText | examples/excel_to_csv.rs:40-58 | a full-width row reads as its values' texts joined by `;`, with none after the last, then CRLF; nothing is escaped |

## Left out

- `main` of each program is not modelled: argument handling, file paths, `File::create`, `BufWriter`, `open_workbook_auto`, `worksheet2` and `worksheet_range_at`. They are I/O and calls into the calamine library.
- examples/bench1.rs is not part of this model. It only iterates rows through the library.
- `println!` is modelled by returning the printed lines from `GetStats` and `FindHeaders`. The `println!` in `CsvWriter::dimension` prints the `Debug` text of `dims`, which is library formatting, so it is dropped.
- `Display` of `DataType` is a function parameter (`show`), because it is library code.
- The display text of `f64` and the `Debug` text of the error payload are carried as strings in the payloads, because `f64` formatting is not modelled.
- `RefCell` and `std::any::Any` are not modelled. The vectors are plain sequences. `type_id` is a constant over `DataType`.
- `std::io::Write` is modelled by `Sink.Writer`. Which calls fail is fixed in advance by the set `failing`. Buffering and flushing are not modelled.
- `Sink.Writer.Write`: a failed call is modelled as writing none of its text. A real `write!` may pass part of the text to the destination before it returns the error; the exact text stated by `Sink.Emit`, `Sink.Put`, `ColumnStore.WriteRange`, `RangeCsv.WriteRange` and `CsvStream.CsvWriter.RowEnd` does not capture that partial write.
- The `cells` field of `SheetHandler` is never used by the program. The model keeps it and proves that no operation changes it.
- `num_rows` and `num_cols` are `SheetStats.RowCount` and the table's length. Their values are stated in `ColumnStore.ShapeOfFeed`.
- TypeCounts.Types.Inc: requires the bumped counter to fit in a `u32`. A `u32` overflow would panic, and that panic is not modelled.
- ColumnStore.SheetHandler.GetStats: requires every total count to fit in a `u32`. This is the precondition of `Inc`, lifted to the whole table.
- ColumnStore.SheetHandler.ColumnStats: the same `u32` precondition as `GetStats`.
- ColumnStore.SheetHandler.ColumnStat: the same `u32` precondition as `GetStats`.
- ColumnStore.SheetHandler.CountColumn: the same `u32` precondition, for the running total plus this column.
- ColumnStore.SheetHandler.CountNext: the same `u32` precondition as `CountColumn`.
- CsvStream.CsvWriter.Dimension: an underflowing subtraction is modelled as the panic of a debug build. The wrap-around of a release build is not modelled.
- RangeCsv.WriteRange: a zero width is modelled as the panic of a debug build. In a release build `n` wraps to `usize::MAX`, so every value would be followed by `;`. That case is not modelled.
- `RangeCsv.Range` does not require the rows to be as wide as the range. The statements about separators in full rows assume a row of full width.
- `SheetHandler::cell` converts `u32` coordinates to `usize`. The model assumes the platform's `usize` holds every `u32`.
