/** The per-variant counters of xlsx_to_arrow.rs (`struct Types`): one
    counter per `DataType` variant, the increment that bumps the matching
    counter, and the report `Display` renders from them. */
module TypeCounts {
  import opened Text
  import opened Cells

  /** The value of the ten counters, field for field as in `struct Types`. */
  datatype Tally = Tally(bools: nat, emptys: nat, errors: nat, ints: nat, floats: nat,
                         strings: nat, datetimes: nat, isoDatetimes: nat, durs: nat, isoDurs: nat)
  {
    /** The counter that `inc` uses for values of kind `k`. */
    function Count(k: Kind): nat
    {
      match k
      case EmptyKind => emptys
      case BoolKind => bools
      case ErrorKind => errors
      case DateTimeKind => datetimes
      case DateTimeIsoKind => isoDatetimes
      case StringKind => strings
      case IntKind => ints
      case FloatKind => floats
      case DurationKind => durs
      case DurationIsoKind => isoDurs
    }

    function Total(): nat
    {
      bools + emptys + errors + ints + floats + strings + datetimes + isoDatetimes + durs + isoDurs
    }

    /** One more value of kind `k`. */
    function Bump(k: Kind): Tally
    {
      match k
      case EmptyKind => this.(emptys := emptys + 1)
      case BoolKind => this.(bools := bools + 1)
      case ErrorKind => this.(errors := errors + 1)
      case DateTimeKind => this.(datetimes := datetimes + 1)
      case DateTimeIsoKind => this.(isoDatetimes := isoDatetimes + 1)
      case StringKind => this.(strings := strings + 1)
      case IntKind => this.(ints := ints + 1)
      case FloatKind => this.(floats := floats + 1)
      case DurationKind => this.(durs := durs + 1)
      case DurationIsoKind => this.(isoDurs := isoDurs + 1)
    }

    /** Counter-wise sum of two tallies. */
    function Plus(o: Tally): Tally
    {
      Tally(bools + o.bools, emptys + o.emptys, errors + o.errors, ints + o.ints,
            floats + o.floats, strings + o.strings, datetimes + o.datetimes,
            isoDatetimes + o.isoDatetimes, durs + o.durs, isoDurs + o.isoDurs)
    }

    /** `impl Display for Types`: one line per non-zero counter, in a fixed
        order, with the labels exactly as the program spells them. */
    function Report(): string
    {
      Line("Empty: ", emptys)
      + Line("Booleans: ", bools)
      + Line("Errors: ", errors)
      + Line("Datetimes: ", datetimes)
      + Line("ISO Datetimes ", isoDatetimes)
      + Line("Strings: ", strings)
      + Line("Ints: ", ints)
      + Line("Floats: ", floats)
      + Line("Durations: ", durs)
      + Line("ISO Dirations: ", isoDurs)
    }
  }

  function Unit(b: bool): nat
  {
    if b then 1 else 0
  }

  /** `Types::default()`. */
  const Zero := Tally(0, 0, 0, 0, 0, 0, 0, 0, 0, 0)

  /** `format!("<caption>{}\n", n)` when the counter is positive, nothing otherwise. */
  function Line(caption: string, n: nat): string
  {
    if n > 0 then caption + NatText(n) + "\n" else ""
  }

  /** The counters after `inc` has been called on every value, in order. */
  function TallyOf(cells: seq<DataType>): Tally
  {
    if cells == [] then Zero else TallyOf(cells[..|cells| - 1]).Bump(KindOf(cells[|cells| - 1]))
  }

  function KindsOf(cells: seq<DataType>): (ks: seq<Kind>)
    ensures |ks| == |cells|
  {
    seq(|cells|, i requires 0 <= i < |cells| => KindOf(cells[i]))
  }

  /** Each counter holds the number of values of its kind. */
  lemma {:induction false} TallyCountsKinds(cells: seq<DataType>, k: Kind)
    ensures TallyOf(cells).Count(k) == multiset(KindsOf(cells))[k]
  {
    if cells != [] {
      var n := |cells| - 1;
      TallyCountsKinds(cells[..n], k);
      BumpCounts(TallyOf(cells[..n]), KindOf(cells[n]));
      assert KindsOf(cells) == KindsOf(cells[..n]) + [KindOf(cells[n])];
    }
  }

  /** Every value lands in exactly one counter. */
  lemma {:induction false} TallyTotal(cells: seq<DataType>)
    ensures TallyOf(cells).Total() == |cells|
  {
    if cells != [] {
      var n := |cells| - 1;
      TallyTotal(cells[..n]);
      BumpCounts(TallyOf(cells[..n]), KindOf(cells[n]));
    }
  }

  /** Every counter fits in a `u32`. */
  predicate Fits(t: Tally)
  {
    && t.bools < U32_LIMIT && t.emptys < U32_LIMIT && t.errors < U32_LIMIT
    && t.ints < U32_LIMIT && t.floats < U32_LIMIT && t.strings < U32_LIMIT
    && t.datetimes < U32_LIMIT && t.isoDatetimes < U32_LIMIT
    && t.durs < U32_LIMIT && t.isoDurs < U32_LIMIT
  }

  /** One more value of kind `k`: exactly that counter grows, by one. */
  lemma BumpCounts(t: Tally, k: Kind)
    ensures forall j :: t.Bump(k).Count(j) == t.Count(j) + Unit(j == k)
    ensures t.Bump(k).Total() == t.Total() + 1
  {
  }

  /** A sum of tallies sums every counter. */
  lemma PlusCounts(a: Tally, b: Tally)
    ensures forall k :: a.Plus(b).Count(k) == a.Count(k) + b.Count(k)
    ensures a.Plus(b).Total() == a.Total() + b.Total()
  {
  }

  /** Bumping the second of two summed tallies bumps the sum. */
  lemma PlusBump(a: Tally, b: Tally, k: Kind)
    ensures a.Plus(b.Bump(k)) == a.Plus(b).Bump(k)
  {
    SameCounts(a.Plus(b.Bump(k)), a.Plus(b).Bump(k));
  }

  lemma PlusZero(a: Tally)
    ensures a.Plus(Zero) == a
  {
  }

  lemma PlusAssoc(a: Tally, b: Tally, c: Tally)
    ensures a.Plus(b.Plus(c)) == a.Plus(b).Plus(c)
  {
  }

  /** Parts of a sum that fits fit. */
  lemma FitsPlus(a: Tally, b: Tally)
    requires Fits(a.Plus(b))
    ensures Fits(a) && Fits(b)
  {
  }

  /** `inc` on one more value. */
  lemma TallySnoc(cells: seq<DataType>, v: DataType)
    ensures TallyOf(cells + [v]) == TallyOf(cells).Bump(KindOf(v))
  {
    assert (cells + [v])[..|cells|] == cells;
  }

  /** Two tallies with the same counters are the same tally. */
  lemma SameCounts(x: Tally, y: Tally)
    requires forall k :: x.Count(k) == y.Count(k)
    ensures x == y
  {
    assert x.Count(EmptyKind) == y.Count(EmptyKind) && x.Count(BoolKind) == y.Count(BoolKind);
    assert x.Count(ErrorKind) == y.Count(ErrorKind) && x.Count(IntKind) == y.Count(IntKind);
    assert x.Count(FloatKind) == y.Count(FloatKind) && x.Count(StringKind) == y.Count(StringKind);
    assert x.Count(DateTimeKind) == y.Count(DateTimeKind) && x.Count(DurationKind) == y.Count(DurationKind);
    assert x.Count(DateTimeIsoKind) == y.Count(DateTimeIsoKind);
    assert x.Count(DurationIsoKind) == y.Count(DurationIsoKind);
  }

  /** Counting two runs of values one after the other adds their tallies. */
  lemma {:induction false} TallyAppend(a: seq<DataType>, b: seq<DataType>)
    ensures TallyOf(a + b) == TallyOf(a).Plus(TallyOf(b))
  {
    if b == [] {
      assert a + b == a;
      PlusZero(TallyOf(a));
    } else {
      var n := |b| - 1;
      assert (a + b)[..|a + b| - 1] == a + b[..n];
      TallyAppend(a, b[..n]);
      PlusBump(TallyOf(a), TallyOf(b[..n]), KindOf(b[n]));
    }
  }

  /** 1 for a counter that gets a report line, 0 for one that does not. */
  function Shown(n: nat): nat
  {
    if n > 0 then 1 else 0
  }

  /** How many counters are non-zero. */
  function NonZeroCount(t: Tally): nat
  {
    Shown(t.emptys) + Shown(t.bools) + Shown(t.errors) + Shown(t.datetimes) + Shown(t.isoDatetimes)
    + Shown(t.strings) + Shown(t.ints) + Shown(t.floats) + Shown(t.durs) + Shown(t.isoDurs)
  }

  lemma LineNewlines(caption: string, n: nat)
    requires '\n' !in caption
    ensures Newlines(Line(caption, n)) == Shown(n)
  {
    if n > 0 {
      NoNewlines(caption);
      NoNewlines(NatText(n));
      NewlinesAppend(caption, NatText(n));
      NewlinesAppend(caption + NatText(n), "\n");
      assert Newlines("\n") == 1 by { assert "\n"[..0] == []; }
    }
  }

  /** Ten lines in a row, whatever their captions, end in one line end per
      positive counter. */
  lemma TenLines(c0: string, c1: string, c2: string, c3: string, c4: string,
                 c5: string, c6: string, c7: string, c8: string, c9: string,
                 n0: nat, n1: nat, n2: nat, n3: nat, n4: nat,
                 n5: nat, n6: nat, n7: nat, n8: nat, n9: nat)
    requires '\n' !in c0 && '\n' !in c1 && '\n' !in c2 && '\n' !in c3 && '\n' !in c4
    requires '\n' !in c5 && '\n' !in c6 && '\n' !in c7 && '\n' !in c8 && '\n' !in c9
    ensures Newlines(Line(c0, n0) + Line(c1, n1) + Line(c2, n2) + Line(c3, n3) + Line(c4, n4)
                     + Line(c5, n5) + Line(c6, n6) + Line(c7, n7) + Line(c8, n8) + Line(c9, n9))
         == Shown(n0) + Shown(n1) + Shown(n2) + Shown(n3) + Shown(n4)
            + Shown(n5) + Shown(n6) + Shown(n7) + Shown(n8) + Shown(n9)
  {
    var s := Line(c0, n0);
    LineNewlines(c0, n0);
    LineNewlines(c1, n1); NewlinesAppend(s, Line(c1, n1)); s := s + Line(c1, n1);
    LineNewlines(c2, n2); NewlinesAppend(s, Line(c2, n2)); s := s + Line(c2, n2);
    LineNewlines(c3, n3); NewlinesAppend(s, Line(c3, n3)); s := s + Line(c3, n3);
    LineNewlines(c4, n4); NewlinesAppend(s, Line(c4, n4)); s := s + Line(c4, n4);
    LineNewlines(c5, n5); NewlinesAppend(s, Line(c5, n5)); s := s + Line(c5, n5);
    LineNewlines(c6, n6); NewlinesAppend(s, Line(c6, n6)); s := s + Line(c6, n6);
    LineNewlines(c7, n7); NewlinesAppend(s, Line(c7, n7)); s := s + Line(c7, n7);
    LineNewlines(c8, n8); NewlinesAppend(s, Line(c8, n8)); s := s + Line(c8, n8);
    LineNewlines(c9, n9); NewlinesAppend(s, Line(c9, n9));
  }

  /** The report has one line per non-zero counter, and no other line ends. */
  lemma ReportLineCount(t: Tally)
    ensures Newlines(t.Report()) == NonZeroCount(t)
  {
    TenLines("Empty: ", "Booleans: ", "Errors: ", "Datetimes: ", "ISO Datetimes ",
             "Strings: ", "Ints: ", "Floats: ", "Durations: ", "ISO Dirations: ",
             t.emptys, t.bools, t.errors, t.datetimes, t.isoDatetimes,
             t.strings, t.ints, t.floats, t.durs, t.isoDurs);
  }

  /** The report is empty exactly when every counter is zero. */
  lemma ReportEmptyIff(t: Tally)
    ensures t.Report() == "" <==> t == Zero
  {
  }

  /** The two ISO labels as the program spells them: no colon after
      "ISO Datetimes", and "Dirations" for durations. */
  lemma ReportIsoLabels()
    ensures Zero.(isoDatetimes := 3).Report() == "ISO Datetimes 3\n"
    ensures Zero.(isoDurs := 7).Report() == "ISO Dirations: 7\n"
  {
  }

  /** `struct Types`: ten `u32` counters that `inc` updates in place. */
  class Types {
    var bools: U32
    var emptys: U32
    var errors: U32
    var ints: U32
    var floats: U32
    var strings: U32
    var datetimes: U32
    var isoDatetimes: U32
    var durs: U32
    var isoDurs: U32

    function Snapshot(): Tally
      reads this
    {
      Tally(bools, emptys, errors, ints, floats, strings, datetimes, isoDatetimes, durs, isoDurs)
    }

    /** `Types::default()`. */
    constructor ()
      ensures Snapshot() == Zero
    {
      bools, emptys, errors, ints, floats := 0, 0, 0, 0, 0;
      strings, datetimes, isoDatetimes, durs, isoDurs := 0, 0, 0, 0, 0;
    }

    /** `inc`: bump the counter of the value's variant; a `u32` counter
        that would pass its maximum panics, which callers rule out. */
    method Inc(v: DataType)
      requires Fits(Snapshot().Bump(KindOf(v)))
      modifies this
      ensures Snapshot() == old(Snapshot()).Bump(KindOf(v))
    {
      match v
      case Empty => emptys := emptys + 1;
      case Bool(_) => bools := bools + 1;
      case Error(_) => errors := errors + 1;
      case DateTime(_) => datetimes := datetimes + 1;
      case DateTimeIso(_) => isoDatetimes := isoDatetimes + 1;
      case String(_) => strings := strings + 1;
      case Int(_) => ints := ints + 1;
      case Float(_) => floats := floats + 1;
      case Duration(_) => durs := durs + 1;
      case DurationIso(_) => isoDurs := isoDurs + 1;
    }
  }
}
