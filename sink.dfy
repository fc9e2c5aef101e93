/** The destination the writers append to (`W: Write`, `Box<dyn Write>`).
    Every `write!` is one numbered call; the calls whose numbers are in
    `failing` return an I/O error and append nothing. The text a writer
    means to produce is described as a sequence of pieces, one per `write!`. */
module Sink {
  import opened Text

  /** What a `write!` call contributes: a field, a delimiter or a line end. */
  datatype Role = Field | Delimiter | Terminator

  datatype Piece = Piece(role: Role, text: string)

  /** The two separators of the `write_range` functions: `;` after a value
      and CRLF at a line end. */
  const Semicolon := Piece(Delimiter, ";")
  const LineEnd := Piece(Terminator, "\r\n")

  /** The text of a run of pieces when every write succeeds. */
  function Concat(ps: seq<Piece>): string
  {
    if ps == [] then "" else Concat(ps[..|ps| - 1]) + ps[|ps| - 1].text
  }

  lemma {:induction false} ConcatAppend(a: seq<Piece>, b: seq<Piece>)
    ensures Concat(a + b) == Concat(a) + Concat(b)
  {
    if b != [] {
      assert (a + b)[..|a + b| - 1] == a + b[..|b| - 1];
      ConcatAppend(a, b[..|b| - 1]);
    } else {
      assert a + b == a;
    }
  }

  lemma PrefixOfSum<T>(x: seq<T>, a: seq<T>, b: seq<T>)
    requires x == a + b
    ensures a <= x
  {
    assert x[..|a|] == a;
  }

  lemma Assoc<T>(a: seq<T>, b: seq<T>, c: seq<T>)
    ensures a + b + c == a + (b + c)
  {
  }

  lemma PrefixAfter<T>(d: seq<T>, a: seq<T>, b: seq<T>)
    requires a <= b
    ensures d + a <= d + b
  {
    assert (d + b)[..|d + a|] == d + b[..|a|];
  }

  lemma PrefixTrans<T>(a: seq<T>, b: seq<T>, c: seq<T>)
    requires a <= b && b <= c
    ensures a <= c
  {
    assert c[..|b|][..|a|] == c[..|a|];
  }

  /** Pieces `d`, `b`, `c` in a row begin `w` when `b + c` begins a run
      that, after `d`, begins `w`. */
  lemma PrefixChain(d: seq<Piece>, b: seq<Piece>, c: seq<Piece>, q: seq<Piece>, w: seq<Piece>)
    requires b + c <= q && d + q <= w
    ensures d + b + c <= w
  {
    assert d + b + c == d + (b + c);
    PrefixAfter(d, b + c, q);
    PrefixTrans(d + (b + c), d + q, w);
  }

  /** How many of the pieces play `role`. */
  function CountRole(ps: seq<Piece>, role: Role): nat
  {
    if ps == [] then 0
    else CountRole(ps[..|ps| - 1], role) + (if ps[|ps| - 1].role == role then 1 else 0)
  }

  lemma {:induction false} CountRoleAppend(a: seq<Piece>, b: seq<Piece>, role: Role)
    ensures CountRole(a + b, role) == CountRole(a, role) + CountRole(b, role)
  {
    if b != [] {
      assert (a + b)[..|a + b| - 1] == a + b[..|b| - 1];
      CountRoleAppend(a, b[..|b| - 1], role);
    } else {
      assert a + b == a;
    }
  }

  /** Counting over a run that is known to be two runs one after the other. */
  lemma CountSplit(x: seq<Piece>, a: seq<Piece>, b: seq<Piece>, role: Role)
    requires x == a + b
    ensures CountRole(x, role) == CountRole(a, role) + CountRole(b, role)
  {
    CountRoleAppend(a, b, role);
  }

  /** Runs of pieces one after the other. */
  function Flat(xss: seq<seq<Piece>>): seq<Piece>
  {
    if xss == [] then [] else Flat(xss[..|xss| - 1]) + xss[|xss| - 1]
  }

  lemma FlatStep(xss: seq<seq<Piece>>, k: nat)
    requires k < |xss|
    ensures Flat(xss[..k + 1]) == Flat(xss[..k]) + xss[k]
  {
    assert xss[..k + 1][..k] == xss[..k];
  }

  /** The runs before `k` begin the whole. */
  lemma {:induction false} FlatTakePrefix(xss: seq<seq<Piece>>, k: nat)
    requires k <= |xss|
    ensures Flat(xss[..k]) <= Flat(xss)
  {
    if k < |xss| {
      var init := xss[..|xss| - 1];
      FlatTakePrefix(init, k);
      assert init[..k] == xss[..k];
      PrefixOfSum(Flat(xss), Flat(init), xss[|xss| - 1]);
      PrefixTrans(Flat(xss[..k]), Flat(init), Flat(xss));
    } else {
      assert xss[..k] == xss;
    }
  }

  /** The runs before `k`, then run `k`, begin the whole. */
  lemma NextRunPrefix(xss: seq<seq<Piece>>, k: nat)
    requires k < |xss|
    ensures Flat(xss[..k]) + xss[k] <= Flat(xss)
  {
    FlatStep(xss, k);
    FlatTakePrefix(xss, k + 1);
  }

  /** Runs that each hold `c` pieces of a role hold `|xss| * c` together. */
  lemma {:induction false} CountFlatUniform(xss: seq<seq<Piece>>, role: Role, c: nat)
    requires forall i | 0 <= i < |xss| :: CountRole(xss[i], role) == c
    ensures CountRole(Flat(xss), role) == |xss| * c
  {
    if xss != [] {
      var init := xss[..|xss| - 1];
      CountFlatUniform(init, role, c);
      CountRoleAppend(Flat(init), xss[|xss| - 1], role);
      assert (|xss| - 1) * c + c == |xss| * c;
    }
  }

  /** Counting over the runs before `k + 1` adds run `k` to the count
      over the runs before `k`. */
  lemma CountFlatStep(xss: seq<seq<Piece>>, k: nat, role: Role)
    requires k < |xss|
    ensures CountRole(Flat(xss[..k + 1]), role) == CountRole(Flat(xss[..k]), role) + CountRole(xss[k], role)
  {
    FlatStep(xss, k);
    CountRoleAppend(Flat(xss[..k]), xss[k], role);
  }

  /** Runs whose texts are the strings `ts`, each followed by `sep` but
      the last, read as `ts` joined by `sep`: the runs before `k`. */
  lemma TakeSnoc<T>(s: seq<T>, k: nat)
    requires 0 < k <= |s|
    ensures s[..k] == s[..k - 1] + [s[k - 1]]
  {
  }

  lemma {:induction false} ConcatJoinUpTo(runs: seq<seq<Piece>>, ts: seq<string>, sep: string, k: nat)
    requires |runs| == |ts| && k <= |ts|
    requires forall i {:trigger Concat(runs[i])} | 0 <= i < |ts| :: Concat(runs[i]) == ts[i] + (if i < |ts| - 1 then sep else "")
    ensures Concat(Flat(runs[..k])) == Join(ts[..k], sep) + (if 0 < k < |ts| then sep else "")
  {
    if k > 0 {
      ConcatJoinUpTo(runs, ts, sep, k - 1);
      FlatStep(runs, k - 1);
      ConcatAppend(Flat(runs[..k - 1]), runs[k - 1]);
      ghost var head := Join(ts[..k - 1], sep);
      ghost var between := if 0 < k - 1 then sep else "";
      ghost var tail := ts[k - 1] + (if k < |ts| then sep else "");
      assert Concat(Flat(runs[..k])) == head + between + tail;
      if k > 1 {
        TakeSnoc(ts, k);
        JoinSnoc(ts[..k - 1], ts[k - 1], sep);
      } else {
        assert |ts[..k]| == 1 && ts[..k][0] == ts[0];
      }
    }
  }

  lemma ConcatJoin(runs: seq<seq<Piece>>, ts: seq<string>, sep: string)
    requires |runs| == |ts|
    requires forall i {:trigger Concat(runs[i])} | 0 <= i < |ts| :: Concat(runs[i]) == ts[i] + (if i < |ts| - 1 then sep else "")
    ensures Concat(Flat(runs)) == Join(ts, sep)
  {
    ConcatJoinUpTo(runs, ts, sep, |ts|);
    assert runs[..|ts|] == runs && ts[..|ts|] == ts;
  }

  /** The text that reaches the destination when the pieces are written
      from call number `from` on and failed calls are ignored (`let _ = write!`). */
  function Kept(ps: seq<Piece>, from: nat, failing: set<nat>): string
  {
    if ps == [] then ""
    else Kept(ps[..|ps| - 1], from, failing)
         + (if from + |ps| - 1 in failing then "" else ps[|ps| - 1].text)
  }

  /** With no failing call among them, ignoring errors loses nothing. */
  lemma {:induction false} KeptWithoutFailures(ps: seq<Piece>, from: nat, failing: set<nat>)
    requires forall j | from <= j < from + |ps| :: j !in failing
    ensures Kept(ps, from, failing) == Concat(ps)
  {
    if ps != [] {
      KeptWithoutFailures(ps[..|ps| - 1], from, failing);
    }
  }

  /** `std::io::Result<()>`; an error names the call that failed. */
  datatype IoResult = Ok | Err(call: nat)

  /** The outcome of writing `ps` with `?` after every write: the writes go
      out one by one until the first failing call, whose error is returned. */
  ghost predicate StoppedAtFirstError(ps: seq<Piece>, from: nat, failing: set<nat>,
                                      oldText: string, text: string, calls: nat, r: IoResult)
  {
    match r
    case Ok =>
      && (forall j | from <= j < from + |ps| :: j !in failing)
      && text == oldText + Concat(ps)
      && calls == from + |ps|
    case Err(k) =>
      && from <= k < from + |ps|
      && k in failing
      && (forall j | from <= j < k :: j !in failing)
      && text == oldText + Concat(ps[..k - from])
      && calls == k + 1
  }

  class Writer {
    var text: string
    var calls: nat
    const failing: set<nat>

    constructor (failing: set<nat>)
      ensures text == [] && calls == 0 && this.failing == failing
    {
      text := [];
      calls := 0;
      this.failing := failing;
    }

    method Write(s: string) returns (ok: bool)
      modifies this
      ensures ok == (old(calls) !in failing)
      ensures calls == old(calls) + 1
      ensures text == if ok then old(text) + s else old(text)
    {
      ok := calls !in failing;
      if ok {
        text := text + s;
      }
      calls := calls + 1;
    }
  }

  /** The writer has taken the pieces `done`, from call `from` on, without
      a failure: its text is `oldText` followed by all of them. */
  ghost predicate Progress(w: Writer, from: nat, oldText: string, done: seq<Piece>)
    reads w
  {
    && w.calls == from + |done|
    && w.text == oldText + Concat(done)
    && forall j | from <= j < w.calls :: j !in w.failing
  }

  /** One `write!(dest, ...)?` of piece `p` on the way to writing `full`:
      either the write succeeds and the writer moves on by `p`, or it fails
      and the whole writing of `full` stops here with this call's error. */
  method Emit(dest: Writer, p: Piece, ghost more: seq<Piece>, ghost full: seq<Piece>,
              ghost from: nat, ghost oldText: string, ghost done: seq<Piece>)
    returns (r: IoResult)
    requires Progress(dest, from, oldText, done)
    requires done + [p] + more <= full
    modifies dest
    ensures r.Ok? ==> Progress(dest, from, oldText, done + [p])
    ensures r.Err? ==> StoppedAtFirstError(full, from, dest.failing, oldText, dest.text, dest.calls, r)
  {
    PrefixOfSum(done + [p] + more, done + [p], more);
    PrefixTrans(done + [p], done + [p] + more, full);
    var ok := dest.Write(p.text);
    if ok {
      r := Ok;
      assert (done + [p])[..|done|] == done;
    } else {
      r := Err(dest.calls - 1);
      assert full[..|done|] == done;
    }
  }

  /** Appending one piece to what was written with errors ignored. */
  lemma KeptSnoc(done: seq<Piece>, p: Piece, from: nat, failing: set<nat>)
    ensures Kept(done + [p], from, failing)
            == Kept(done, from, failing) + (if from + |done| in failing then "" else p.text)
  {
    assert (done + [p])[..|done|] == done;
  }

  /** One `let _ = write!(dest, ...)` of piece `p` after the pieces
      `done`: the error, if any, is dropped and the writer moves on. */
  method Put(dest: Writer, p: Piece, ghost from: nat, ghost oldText: string, ghost done: seq<Piece>)
    requires dest.calls == from + |done|
    requires dest.text == oldText + Kept(done, from, dest.failing)
    modifies dest
    ensures dest.calls == from + |done + [p]|
    ensures dest.text == oldText + Kept(done + [p], from, dest.failing)
  {
    var written := dest.Write(p.text);
    KeptSnoc(done, p, from, dest.failing);
  }

  /** A writer that got through all of `full` returns `Ok(())`. */
  lemma Finished(w: Writer, from: nat, oldText: string, full: seq<Piece>)
    requires Progress(w, from, oldText, full)
    ensures StoppedAtFirstError(full, from, w.failing, oldText, w.text, w.calls, Ok)
  {
  }
}
