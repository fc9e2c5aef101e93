/** Calamine's cell vocabulary as the examples see it: the ten-variant
    `DataType`, cell positions and the declared dimension of a sheet,
    and the plain text both `write_range` functions give a value. */
module Cells {
  import opened Text
  import opened Sink

  const U32_LIMIT: nat := 0x1_0000_0000

  type U32 = x: nat | x < U32_LIMIT

  type I64 = x: int | -0x8000_0000_0000_0000 <= x < 0x8000_0000_0000_0000

  /** An `f64` payload. Its value is opaque here: the model keeps only the
      text Rust's `Display` gives it, which is library code. */
  datatype F64 = F64(shown: string)

  /** A spreadsheet error payload, opaque but for its `Debug` text. */
  datatype CellError = CellError(debug: string)

  datatype DataType =
    | Empty
    | Bool(b: bool)
    | Int(i: I64)
    | Float(f: F64)
    | String(s: string)
    | DateTime(f: F64)
    | DateTimeIso(s: string)
    | Duration(f: F64)
    | DurationIso(s: string)
    | Error(e: CellError)

  /** The variant of a value, without its payload. */
  datatype Kind =
    | EmptyKind | BoolKind | ErrorKind | DateTimeKind | DateTimeIsoKind
    | StringKind | IntKind | FloatKind | DurationKind | DurationIsoKind

  function KindOf(v: DataType): Kind
  {
    match v
    case Empty => EmptyKind
    case Bool(_) => BoolKind
    case Error(_) => ErrorKind
    case DateTime(_) => DateTimeKind
    case DateTimeIso(_) => DateTimeIsoKind
    case String(_) => StringKind
    case Int(_) => IntKind
    case Float(_) => FloatKind
    case Duration(_) => DurationKind
    case DurationIso(_) => DurationIsoKind
  }

  /** A zero-based cell address; both coordinates are `u32`. */
  datatype CellPos = CellPos(row: U32, col: U32)

  /** The bounding box a sheet reader announces before its cells. */
  datatype Dimension = Dimension(start: CellPos, end: CellPos)

  /** What a panicking Rust function gives back in the model. */
  datatype Outcome<T> = Returned(value: T) | Panicked

  /** The text both `write_range` functions write for a value: text
      payloads verbatim, numbers through `{}`, errors through `{:?}`. */
  function PlainText(v: DataType): string
  {
    match v
    case Empty => ""
    case String(s) => s
    case DateTimeIso(s) => s
    case DurationIso(s) => s
    case Float(f) => f.shown
    case DateTime(f) => f.shown
    case Duration(f) => f.shown
    case Int(i) => IntText(i)
    case Error(e) => e.debug
    case Bool(b) => BoolText(b)
  }

  /** The writes `write_range` issues for one value: none at all for
      `Empty` (its match arm is `Ok(())`), one field write otherwise. */
  function ValuePieces(v: DataType): seq<Piece>
  {
    if v.Empty? then [] else [Piece(Field, PlainText(v))]
  }

  lemma ValuePiecesText(v: DataType)
    ensures Concat(ValuePieces(v)) == PlainText(v)
    ensures CountRole(ValuePieces(v), Delimiter) == 0 && CountRole(ValuePieces(v), Terminator) == 0
  {
  }

  /** The arms of the value match in both `write_range` functions: text
      payloads verbatim (no quoting, no escaping), `f64` payloads through
      their display text, integers as decimal text that reads back as the
      number, booleans as `true`/`false`, and `Empty` as no write at all. */
  lemma PlainTextArms(i: I64, b: bool, s: string, f: F64)
    ensures ValuePieces(Empty) == []
    ensures PlainText(String(s)) == s && PlainText(DateTimeIso(s)) == s && PlainText(DurationIso(s)) == s
    ensures PlainText(Float(f)) == f.shown && PlainText(DateTime(f)) == f.shown && PlainText(Duration(f)) == f.shown
    ensures ParseInt(PlainText(Int(i))) == i
    ensures PlainText(Bool(b)) == if b then "true" else "false"
  {
    IntTextRoundTrip(i);
  }
}
