/** The flat, row-major raw field buffer and the per-scanline write cursor
    that fills it (the write_pixels_in lambda of src/NES-CVBS.cpp). A row is
    described by a write plan; Apply gives the plan's meaning on the flat
    buffer, and the methods below perform it cell by cell. */
module Raster {
  import opened Results

  function Max(a: nat, b: nat): nat { if a < b then b else a }

  /** n copies of one dot. */
  function Repeat(v: int, n: nat): (r: seq<int>)
    ensures |r| == n
    ensures forall i | 0 <= i < n :: r[i] == v
  {
    seq(n, _ => v)
  }

  /** One step of a scanline's write plan. */
  datatype Op =
    | Fill(length: nat, dot: int)  // write_pixels_in(length, ..., dot)
    | Copy(cells: seq<int>)        // write successive input codes, one per cell
    | Rewind                       // pixel = pixel_threshold = 0

  /** The cells a step writes, in order. */
  function Cells(op: Op): seq<int> {
    match op
    case Fill(n, v) => Repeat(v, n)
    case Copy(cs) => cs
    case Rewind => []
  }

  /** buf with the cells from lo on replaced by cells. */
  function Splice(buf: seq<int>, lo: nat, cells: seq<int>): (r: seq<int>)
    requires lo + |cells| <= |buf|
    ensures |r| == |buf|
  {
    buf[..lo] + cells + buf[lo + |cells|..]
  }

  /** The row cursor after a plan: each write advances it by its width, a
      rewind resets it to the start of the row. */
  function EndCursor(cursor: nat, ops: seq<Op>): nat
    decreases |ops|
  {
    if ops == [] then cursor
    else if ops[0].Rewind? then EndCursor(0, ops[1..])
    else EndCursor(cursor + |Cells(ops[0])|, ops[1..])
  }

  /** One past the furthest cell of the row that a plan writes, or the
      starting cursor if that is further. */
  function Reach(cursor: nat, ops: seq<Op>): (r: nat)
    ensures r >= cursor && r >= EndCursor(cursor, ops)
    decreases |ops|
  {
    if ops == [] then cursor
    else if ops[0].Rewind? then Max(cursor, Reach(0, ops[1..]))
    else Reach(cursor + |Cells(ops[0])|, ops[1..])
  }

  /** The meaning of a plan run on the row that starts at cell base of the
      flat buffer: each write replaces the cells from base + cursor on;
      None if a write would leave the buffer. */
  function Apply(buf: seq<int>, base: nat, cursor: nat, ops: seq<Op>): (r: Option<seq<int>>)
    ensures r.Some? ==> |r.value| == |buf|
    decreases |ops|
  {
    if ops == [] then Some(buf)
    else if ops[0].Rewind? then Apply(buf, base, 0, ops[1..])
    else
      var cells := Cells(ops[0]);
      if |cells| == 0 then Apply(buf, base, cursor, ops[1..])
      else if base + cursor + |cells| > |buf| then None
      else Apply(Splice(buf, base + cursor, cells), base, cursor + |cells|, ops[1..])
  }

  /** A plan applied to a single row on its own (row-local view); a plan that
      leaves the row changes nothing. */
  function PaintRow(row: seq<int>, ops: seq<Op>): seq<int> {
    var r := Apply(row, 0, 0, ops);
    if r.Some? then r.value else row
  }

  lemma MulLe(a: nat, b: nat, w: nat)
    requires a <= b
    ensures a * w <= b * w
  {
  }

  /** Scanline s of an h-row buffer lies inside it, after every earlier one. */
  lemma RowBounds(w: nat, h: nat, s: nat)
    requires s < h
    ensures s * w + w <= w * h
  {
    MulLe(s + 1, h, w);
  }

  /** Scanline s of a row-major buffer of h rows, w cells each. */
  function Row(buf: seq<int>, w: nat, h: nat, s: nat): (r: seq<int>)
    requires |buf| == w * h && s < h
    ensures |r| == w
  {
    RowBounds(w, h, s);
    buf[s * w .. s * w + w]
  }

  /** A plan runs without leaving the buffer exactly when its reach, measured
      from the row start, stays inside the buffer. */
  lemma {:induction false} ApplyDefinedIff(buf: seq<int>, base: nat, cursor: nat, ops: seq<Op>)
    requires base + cursor <= |buf|
    ensures Apply(buf, base, cursor, ops).Some? <==> base + Reach(cursor, ops) <= |buf|
    decreases |ops|
  {
    if ops == [] {
    } else if ops[0].Rewind? {
      ApplyDefinedIff(buf, base, 0, ops[1..]);
    } else {
      var cells := Cells(ops[0]);
      if |cells| == 0 {
        ApplyDefinedIff(buf, base, cursor, ops[1..]);
      } else if base + cursor + |cells| > |buf| {
      } else {
        ApplyDefinedIff(Splice(buf, base + cursor, cells), base, cursor + |cells|, ops[1..]);
      }
    }
  }

  /** write_pixels_in: raises the threshold by length and writes dot into
      every cell of the row from the pixel index up to the new threshold.
      Returns the buffer, the new pixel index and the new threshold; Err if a
      cell it must write lies outside the buffer. */
  method WritePixelsIn(length: nat, buf: seq<int>, width: nat, scanline: nat,
                       pixel: nat, threshold: nat, dot: int)
    returns (r: Result<(seq<int>, nat, nat)>)
    ensures var hi := threshold + length;
      r.Ok? <==> (pixel >= hi || scanline * width + hi <= |buf|)
    ensures r.Err? ==> r.error.index >= |buf|
    ensures r.Ok? ==>
      var hi := threshold + length;
      var base := scanline * width;
      && r.value.2 == hi
      && r.value.1 == Max(pixel, hi)
      && |r.value.0| == |buf|
      && forall k | 0 <= k < |buf| ::
           r.value.0[k] == (if base + pixel <= k < base + hi then dot else buf[k])
  {
    var hi := threshold + length;
    var out := buf;
    var p := pixel;
    while p < hi
      invariant p == pixel || pixel < p <= hi
      invariant p > pixel ==> scanline * width + p <= |buf|
      invariant |out| == |buf|
      invariant forall k | 0 <= k < |buf| ::
        out[k] == (if scanline * width + pixel <= k < scanline * width + p then dot else buf[k])
    {
      var index := scanline * width + p;
      if index >= |out| {
        return Err(OutOfBounds(index));
      }
      out := out[index := dot];
      p := p + 1;
    }
    assert p == Max(pixel, hi);
    return Ok((out, p, hi));
  }

  /** Writes successive cells of the row from the pixel index on, one value
      of cells per cell; the pixel index ends past the last one written. */
  method CopyPixelsIn(cells: seq<int>, buf: seq<int>, width: nat, scanline: nat, pixel: nat)
    returns (r: Result<(seq<int>, nat)>)
    ensures r.Ok? <==> (|cells| == 0 || scanline * width + pixel + |cells| <= |buf|)
    ensures r.Err? ==> r.error.index >= |buf|
    ensures r.Ok? ==>
      var base := scanline * width;
      && r.value.1 == pixel + |cells|
      && |r.value.0| == |buf|
      && forall k | 0 <= k < |buf| ::
           r.value.0[k] == (if base + pixel <= k < base + pixel + |cells| then cells[k - base - pixel] else buf[k])
  {
    var out := buf;
    var i := 0;
    while i < |cells|
      invariant 0 <= i <= |cells|
      invariant i > 0 ==> scanline * width + pixel + i <= |buf|
      invariant |out| == |buf|
      invariant forall k | 0 <= k < |buf| ::
        out[k] == (if scanline * width + pixel <= k < scanline * width + pixel + i
                   then cells[k - scanline * width - pixel] else buf[k])
    {
      var index := scanline * width + pixel + i;
      if index >= |out| {
        return Err(OutOfBounds(index));
      }
      out := out[index := cells[i]];
      i := i + 1;
    }
    return Ok((out, pixel + |cells|));
  }

  /** The meaning of a single step: the buffer and cursor after it. */
  function Step(buf: seq<int>, base: nat, cursor: nat, op: Op): Option<(seq<int>, nat)> {
    if op.Rewind? then Some((buf, 0))
    else
      var cells := Cells(op);
      if |cells| == 0 then Some((buf, cursor))
      else if base + cursor + |cells| > |buf| then None
      else Some((Splice(buf, base + cursor, cells), cursor + |cells|))
  }

  lemma ApplyFirst(buf: seq<int>, base: nat, cursor: nat, ops: seq<Op>)
    requires ops != []
    ensures Apply(buf, base, cursor, ops) ==
      (var st := Step(buf, base, cursor, ops[0]);
       if st.None? then None else Apply(st.value.0, base, st.value.1, ops[1..]))
    ensures EndCursor(cursor, ops) ==
      (if ops[0].Rewind? then EndCursor(0, ops[1..]) else EndCursor(cursor + |Cells(ops[0])|, ops[1..]))
    ensures Reach(cursor, ops) ==
      (if ops[0].Rewind? then Max(cursor, Reach(0, ops[1..])) else Reach(cursor + |Cells(ops[0])|, ops[1..]))
  {
  }

  /** Carries out one step of a plan at the current pixel index. Between
      writes the builder's pixel index and threshold are equal, so the
      threshold write_pixels_in raises starts at the pixel index. */
  method RunStep(buf: seq<int>, width: nat, scanline: nat, pixel: nat, op: Op)
    returns (r: Result<(seq<int>, nat)>)
    ensures r.Ok? <==> Step(buf, scanline * width, pixel, op).Some?
    ensures r.Ok? ==> r.value == Step(buf, scanline * width, pixel, op).value
  {
    var base := scanline * width;
    match op
    case Rewind =>
      return Ok((buf, 0));
    case Fill(n, v) =>
      var res := WritePixelsIn(n, buf, width, scanline, pixel, pixel, v);
      if res.Err? {
        return Err(res.error);
      }
      if n > 0 {
        assert res.value.0 == Splice(buf, base + pixel, Cells(op));
      } else {
        assert res.value.0 == buf;
      }
      return Ok((res.value.0, res.value.1));
    case Copy(cs) =>
      var res := CopyPixelsIn(cs, buf, width, scanline, pixel);
      if res.Err? {
        return Err(res.error);
      }
      if |cs| > 0 {
        assert res.value.0 == Splice(buf, base + pixel, Cells(op));
      } else {
        assert res.value.0 == buf;
      }
      return res;
  }

  /** Runs one scanline's plan with a pixel index that starts at the row
      start, as the builder's per-scanline loop body does. It succeeds
      exactly when the plan stays inside the buffer, produces the plan's
      meaning and leaves the pixel index where the plan ends. */
  method RunRow(buf: seq<int>, width: nat, scanline: nat, ops: seq<Op>)
    returns (r: Result<(seq<int>, nat)>)
    ensures r.Ok? <==> Apply(buf, scanline * width, 0, ops).Some?
    ensures r.Ok? ==> r.value.0 == Apply(buf, scanline * width, 0, ops).value
    ensures r.Ok? ==> r.value.1 == EndCursor(0, ops)
  {
    var base := scanline * width;
    var out := buf;
    var pixel: nat := 0;
    for i := 0 to |ops|
      invariant Apply(buf, base, 0, ops) == Apply(out, base, pixel, ops[i..])
      invariant EndCursor(0, ops) == EndCursor(pixel, ops[i..])
    {
      assert ops[i..][0] == ops[i] && ops[i..][1..] == ops[i + 1..];
      ApplyFirst(out, base, pixel, ops[i..]);
      var res := RunStep(out, width, scanline, pixel, ops[i]);
      if res.Err? {
        return Err(res.error);
      }
      out, pixel := res.value.0, res.value.1;
    }
    return Ok((out, pixel));
  }

  /** True of a plan that never rewinds the cursor. */
  predicate Straight(ops: seq<Op>) {
    forall i | 0 <= i < |ops| :: !ops[i].Rewind?
  }

  /** All cells a plan writes, in order. */
  function Concat(ops: seq<Op>): seq<int>
    decreases |ops|
  {
    if ops == [] then [] else Cells(ops[0]) + Concat(ops[1..])
  }

  lemma {:induction false} ConcatAppend(a: seq<Op>, b: seq<Op>)
    ensures Concat(a + b) == Concat(a) + Concat(b)
    decreases |a|
  {
    if a == [] {
      assert a + b == b;
    } else {
      assert (a + b)[0] == a[0] && (a + b)[1..] == a[1..] + b;
      ConcatAppend(a[1..], b);
    }
  }

  lemma ConcatCons(op: Op, rest: seq<Op>)
    ensures Concat([op] + rest) == Cells(op) + Concat(rest)
  {
    assert ([op] + rest)[0] == op && ([op] + rest)[1..] == rest;
  }

  lemma Concat1(a: Op)
    ensures Concat([a]) == Cells(a)
  {
    ConcatCons(a, []);
  }

  lemma Concat2(a: Op, b: Op)
    ensures Concat([a, b]) == Cells(a) + Cells(b)
  {
    ConcatCons(b, []);
    assert [a, b] == [a] + [b];
    ConcatCons(a, [b]);
  }

  lemma Concat4(a: Op, b: Op, c: Op, d: Op)
    ensures Concat([a, b, c, d]) == Cells(a) + Cells(b) + Cells(c) + Cells(d)
  {
    Concat2(a, b);
    Concat2(c, d);
    assert [a, b, c, d] == [a, b] + [c, d];
    ConcatAppend([a, b], [c, d]);
    var ca, cb, cc, cd := Cells(a), Cells(b), Cells(c), Cells(d);
    assert (ca + cb) + (cc + cd) == ca + cb + cc + cd;
  }

  /** Three straight plans run one after another, together exactly as long
      as the row, repaint the row with their cells in order. */
  lemma PaintJoined(row: seq<int>, head: seq<Op>, body: seq<Op>, tail: seq<Op>)
    requires Straight(head) && Straight(body) && Straight(tail)
    requires |Concat(head)| + |Concat(body)| + |Concat(tail)| == |row|
    ensures Reach(0, head + body + tail) == EndCursor(0, head + body + tail) == |row|
    ensures PaintRow(row, head + body + tail) == Concat(head) + Concat(body) + Concat(tail)
  {
    ConcatAppend(head, body);
    ConcatAppend(head + body, tail);
    StraightJoin(head, body);
    StraightJoin(head + body, tail);
    PaintStraight(row, head + body + tail);
  }

  lemma SpliceTwice(buf: seq<int>, lo: nat, a: seq<int>, b: seq<int>)
    requires lo + |a| + |b| <= |buf|
    ensures Splice(Splice(buf, lo, a), lo + |a|, b) == Splice(buf, lo, a + b)
  {
    var m := Splice(buf, lo, a);
    assert m[..lo + |a|] == buf[..lo] + a;
    assert m[lo + |a| + |b|..] == buf[lo + |a| + |b|..];
  }

  lemma StraightRest(ops: seq<Op>)
    requires Straight(ops) && ops != []
    ensures Straight(ops[1..]) && !ops[0].Rewind?
  {
    var rest := ops[1..];
    forall i | 0 <= i < |rest| ensures !rest[i].Rewind? {
      assert rest[i] == ops[i + 1];
    }
  }

  /** A straight plan lays its cells down one after another from the cursor:
      the row gets exactly its concatenated cells there, the cursor ends just
      past them, and nothing else changes. */
  lemma {:induction false} ApplyStraight(buf: seq<int>, base: nat, cursor: nat, ops: seq<Op>)
    requires Straight(ops)
    requires base + cursor + |Concat(ops)| <= |buf|
    ensures Apply(buf, base, cursor, ops) == Some(Splice(buf, base + cursor, Concat(ops)))
    ensures EndCursor(cursor, ops) == Reach(cursor, ops) == cursor + |Concat(ops)|
    decreases |ops|
  {
    if ops == [] {
      assert Splice(buf, base + cursor, []) == buf;
    } else {
      StraightRest(ops);
      var cells := Cells(ops[0]);
      var rest := ops[1..];
      if |cells| == 0 {
        ApplyStraight(buf, base, cursor, rest);
        assert Concat(ops) == Concat(rest);
      } else {
        var mid := Splice(buf, base + cursor, cells);
        ApplyStraight(mid, base, cursor + |cells|, rest);
        SpliceTwice(buf, base + cursor, cells, Concat(rest));
      }
    }
  }

  lemma StraightJoin(a: seq<Op>, b: seq<Op>)
    requires Straight(a) && Straight(b)
    ensures Straight(a + b)
  {
    forall i | 0 <= i < |a + b| ensures !(a + b)[i].Rewind? {
      if i < |a| { assert (a + b)[i] == a[i]; } else { assert (a + b)[i] == b[i - |a|]; }
    }
  }

  /** A straight plan exactly as long as the row repaints the whole row with
      its cells, whatever the row held before. */
  lemma PaintStraight(row: seq<int>, ops: seq<Op>)
    requires Straight(ops) && |Concat(ops)| == |row|
    ensures Reach(0, ops) == EndCursor(0, ops) == |row|
    ensures PaintRow(row, ops) == Concat(ops)
  {
    ApplyStraight(row, 0, 0, ops);
    assert Splice(row, 0, Concat(ops)) == Concat(ops);
  }

  /** A straight plan, a rewind and a second straight plan as long as the row:
      the second plan repaints the whole row over the first. */
  lemma PaintRewound(row: seq<int>, head: seq<Op>, tail: seq<Op>)
    requires Straight(head) && Straight(tail)
    requires |Concat(head)| <= |row| && |Concat(tail)| == |row|
    ensures Reach(0, head + ([Rewind] + tail)) == EndCursor(0, head + ([Rewind] + tail)) == |row|
    ensures PaintRow(row, head + ([Rewind] + tail)) == Concat(tail)
  {
    var rest := [Rewind] + tail;
    ApplyStraight(row, 0, 0, head);
    var m := Splice(row, 0, Concat(head));
    ApplyAppend(row, 0, 0, head, rest);
    assert rest[0] == Rewind && rest[1..] == tail;
    ApplyFirst(m, 0, |Concat(head)|, rest);
    ApplyStraight(m, 0, 0, tail);
    assert Splice(m, 0, Concat(tail)) == Concat(tail);
  }

  /** The row with cells written from its start and the rest kept. */
  function Overlay(row: seq<int>, cells: seq<int>): (r: seq<int>)
    ensures |cells| <= |row| ==> |r| == |row| && r[..|cells|] == cells && r[|cells|..] == row[|cells|..]
  {
    if |cells| <= |row| then cells + row[|cells|..] else cells
  }

  /** A straight plan no longer than the row writes its cells from the row
      start and keeps every cell past them. */
  lemma PaintPrefix(row: seq<int>, ops: seq<Op>)
    requires Straight(ops) && |Concat(ops)| <= |row|
    ensures Reach(0, ops) == EndCursor(0, ops) == |Concat(ops)|
    ensures PaintRow(row, ops) == Overlay(row, Concat(ops))
  {
    var cells := Concat(ops);
    ApplyStraight(row, 0, 0, ops);
    assert Splice(row, 0, cells) == cells + row[|cells|..] by {
      assert row[..0] == [];
    }
    assert PaintRow(row, ops) == Splice(row, 0, cells);
    assert Overlay(row, cells) == cells + row[|cells|..];
  }

  lemma {:induction false} ApplyAppend(buf: seq<int>, base: nat, cursor: nat, a: seq<Op>, b: seq<Op>)
    ensures EndCursor(cursor, a + b) == EndCursor(EndCursor(cursor, a), b)
    ensures Reach(cursor, a + b) == Max(Reach(cursor, a), Reach(EndCursor(cursor, a), b))
    ensures Apply(buf, base, cursor, a + b) ==
      (var m := Apply(buf, base, cursor, a);
       if m.None? then None else Apply(m.value, base, EndCursor(cursor, a), b))
    decreases |a|
  {
    if a == [] {
      assert a + b == b;
    } else {
      assert (a + b)[0] == a[0] && (a + b)[1..] == a[1..] + b;
      var cells := Cells(a[0]);
      if a[0].Rewind? {
        ApplyAppend(buf, base, 0, a[1..], b);
      } else if |cells| == 0 {
        ApplyAppend(buf, base, cursor, a[1..], b);
      } else if base + cursor + |cells| > |buf| {
        ApplyAppend(buf, base, cursor + |cells|, a[1..], b);
      } else {
        ApplyAppend(Splice(buf, base + cursor, cells), base, cursor + |cells|, a[1..], b);
      }
    }
  }

  /** Running a plan on a row that sits inside a larger buffer does to that
      row what it does to the row alone, and leaves the rest of the buffer
      untouched, provided the plan stays inside the row. */
  lemma {:induction false} ApplyInRow(pre: seq<int>, row: seq<int>, post: seq<int>, cursor: nat, ops: seq<Op>)
    requires Reach(cursor, ops) <= |row|
    ensures Apply(row, 0, cursor, ops).Some?
    ensures Apply(pre + row + post, |pre|, cursor, ops) == Some(pre + Apply(row, 0, cursor, ops).value + post)
    decreases |ops|
  {
    var buf := pre + row + post;
    if ops == [] {
    } else if ops[0].Rewind? {
      ApplyInRow(pre, row, post, 0, ops[1..]);
    } else {
      var cells := Cells(ops[0]);
      if |cells| == 0 {
        ApplyInRow(pre, row, post, cursor, ops[1..]);
      } else {
        assert cursor + |cells| <= |row|;
        var row' := Splice(row, cursor, cells);
        assert Splice(buf, |pre| + cursor, cells) == pre + row' + post;
        ApplyInRow(pre, row', post, cursor + |cells|, ops[1..]);
      }
    }
  }

  /** Distinct scanlines occupy disjoint cell ranges. */
  lemma RowsApart(w: nat, s: nat, t: nat)
    requires s != t
    ensures t < s ==> t * w + w <= s * w
    ensures s < t ==> s * w + w <= t * w
  {
    if t < s { MulLe(t + 1, s, w); } else { MulLe(s + 1, t, w); }
  }

  lemma SameSlice(a: seq<int>, b: seq<int>, i: nat, j: nat)
    requires i <= j <= |a| && |a| == |b|
    requires forall k | i <= k < j :: a[k] == b[k]
    ensures a[i..j] == b[i..j]
  {
  }

  /** Replacing one row of a buffer leaves every other row as it was. */
  lemma OtherRowsKept(pre: seq<int>, a: seq<int>, b: seq<int>, post: seq<int>,
                      w: nat, h: nat, s: nat, t: nat)
    requires |a| == w && |b| == w && |pre| == s * w
    requires |pre| + w + |post| == w * h
    requires s < h && t < h && t != s
    ensures Row(pre + a + post, w, h, t) == Row(pre + b + post, w, h, t)
  {
    var x, y := pre + a + post, pre + b + post;
    RowBounds(w, h, t);
    RowsApart(w, s, t);
    forall k | t * w <= k < t * w + w ensures x[k] == y[k] {
      if k < |pre| {
        assert x[k] == pre[k] == y[k];
      } else {
        assert x[k] == post[k - |pre| - w] == y[k];
      }
    }
    SameSlice(x, y, t * w, t * w + w);
  }

  lemma RowOfJoin(pre: seq<int>, a: seq<int>, post: seq<int>, w: nat, h: nat, s: nat)
    requires |a| == w && |pre| == s * w && |pre| + w + |post| == w * h && s < h
    ensures Row(pre + a + post, w, h, s) == a
  {
    var x := pre + a + post;
    assert x[s * w .. s * w + w] == a;
  }

  /** Running a plan that stays within its row on scanline s changes that
      row as the plan paints it and no other row. */
  lemma RowStep(buf: seq<int>, w: nat, h: nat, s: nat, ops: seq<Op>)
    requires |buf| == w * h && s < h && Reach(0, ops) <= w
    ensures Apply(buf, s * w, 0, ops).Some?
    ensures var out := Apply(buf, s * w, 0, ops).value;
      && |out| == w * h
      && Row(out, w, h, s) == PaintRow(Row(buf, w, h, s), ops)
      && forall t | 0 <= t < h && t != s :: Row(out, w, h, t) == Row(buf, w, h, t)
  {
    RowBounds(w, h, s);
    var lo := s * w;
    var pre, row, post := buf[..lo], buf[lo .. lo + w], buf[lo + w..];
    assert buf == pre + row + post;
    ApplyInRow(pre, row, post, 0, ops);
    var painted := Apply(row, 0, 0, ops).value;
    RowOfJoin(pre, painted, post, w, h, s);
    RowOfJoin(pre, row, post, w, h, s);
    forall t | 0 <= t < h && t != s
      ensures Row(pre + painted + post, w, h, t) == Row(buf, w, h, t)
    {
      OtherRowsKept(pre, painted, row, post, w, h, s, t);
    }
  }

  /** Scanlines 0 .. n - 1 of a buffer w cells wide, each run in turn with
      its own plan from the start of its row; None once one leaves the
      buffer. A plan that runs past its row end writes into the next row,
      which that row's own plan may then overwrite. */
  function ApplyRows(buf: seq<int>, w: nat, plan: nat -> seq<Op>, n: nat): (r: Option<seq<int>>)
    ensures r.Some? ==> |r.value| == |buf|
  {
    if n == 0 then Some(buf)
    else
      var prev := ApplyRows(buf, w, plan, n - 1);
      if prev.None? then None else Apply(prev.value, (n - 1) * w, 0, plan(n - 1))
  }

  lemma {:induction false} ApplyRowsStaysNone(buf: seq<int>, w: nat, plan: nat -> seq<Op>, n: nat, m: nat)
    requires n <= m && ApplyRows(buf, w, plan, n).None?
    ensures ApplyRows(buf, w, plan, m).None?
    decreases m
  {
    if n < m {
      ApplyRowsStaysNone(buf, w, plan, n, m - 1);
    }
  }

  /** The pass stays inside the buffer exactly when every scanline's plan,
      measured from its row start, does. */
  lemma {:induction false} ApplyRowsDefinedIff(buf: seq<int>, w: nat, h: nat, plan: nat -> seq<Op>, n: nat)
    requires |buf| == w * h && n <= h
    ensures ApplyRows(buf, w, plan, n).Some? <==> forall s | 0 <= s < n :: s * w + Reach(0, plan(s)) <= w * h
  {
    if n > 0 {
      ApplyRowsDefinedIff(buf, w, h, plan, n - 1);
      var prev := ApplyRows(buf, w, plan, n - 1);
      if prev.Some? {
        RowBounds(w, h, n - 1);
        ApplyDefinedIff(prev.value, (n - 1) * w, 0, plan(n - 1));
      }
    }
  }

  /** When every plan stays within its own row, the pass paints each of the
      first n rows as its plan paints it alone and keeps the others. */
  lemma {:induction false} ApplyRowsLocal(buf: seq<int>, w: nat, h: nat, plan: nat -> seq<Op>, n: nat, s: nat)
    requires |buf| == w * h && n <= h && s < h
    requires forall u | 0 <= u < n :: Reach(0, plan(u)) <= w
    ensures ApplyRows(buf, w, plan, n).Some?
    ensures Row(ApplyRows(buf, w, plan, n).value, w, h, s)
      == if s < n then PaintRow(Row(buf, w, h, s), plan(s)) else Row(buf, w, h, s)
  {
    if n > 0 {
      ApplyRowsLocal(buf, w, h, plan, n - 1, s);
      var prev := ApplyRows(buf, w, plan, n - 1).value;
      assert Reach(0, plan(n - 1)) <= w;
      RowStep(prev, w, h, n - 1, plan(n - 1));
    }
  }

  /** Every row of a pass whose plans all stay within their rows. */
  lemma ApplyRowsPaints(init: seq<int>, w: nat, h: nat, plan: nat -> seq<Op>)
    requires |init| == w * h
    requires forall s | 0 <= s < h :: Reach(0, plan(s)) <= w
    ensures ApplyRows(init, w, plan, h).Some?
    ensures forall s | 0 <= s < h ::
      Row(ApplyRows(init, w, plan, h).value, w, h, s) == PaintRow(Row(init, w, h, s), plan(s))
  {
    if h > 0 {
      ApplyRowsLocal(init, w, h, plan, h, 0);
    }
    forall s | 0 <= s < h
      ensures Row(ApplyRows(init, w, plan, h).value, w, h, s) == PaintRow(Row(init, w, h, s), plan(s))
    {
      ApplyRowsLocal(init, w, h, plan, h, s);
    }
  }

  /** A plan run from the row starting at base never changes a cell before
      base. */
  lemma {:induction false} ApplyKeepsBelow(buf: seq<int>, base: nat, cursor: nat, ops: seq<Op>, i: nat)
    requires Apply(buf, base, cursor, ops).Some? && i < base && i < |buf|
    ensures Apply(buf, base, cursor, ops).value[i] == buf[i]
    decreases |ops|
  {
    if ops != [] {
      if ops[0].Rewind? {
        ApplyKeepsBelow(buf, base, 0, ops[1..], i);
      } else {
        var cells := Cells(ops[0]);
        if |cells| == 0 {
          ApplyKeepsBelow(buf, base, cursor, ops[1..], i);
        } else {
          var next := Splice(buf, base + cursor, cells);
          assert next[i] == buf[i];
          ApplyKeepsBelow(next, base, cursor + |cells|, ops[1..], i);
        }
      }
    }
  }

  /** Once the first n plans have run, the cells of rows 0 .. n - 1 are
      final: every later plan starts at or past row n. */
  lemma {:induction false} ApplyRowsKeepsEarlier(buf: seq<int>, w: nat, plan: nat -> seq<Op>, n: nat, m: nat, i: nat)
    requires n <= m && ApplyRows(buf, w, plan, m).Some? && i < n * w && i < |buf|
    ensures ApplyRows(buf, w, plan, n).Some?
    ensures ApplyRows(buf, w, plan, m).value[i] == ApplyRows(buf, w, plan, n).value[i]
    decreases m
  {
    if n < m {
      var prev := ApplyRows(buf, w, plan, m - 1);
      ApplyRowsKeepsEarlier(buf, w, plan, n, m - 1, i);
      MulLe(n, m - 1, w);
      ApplyKeepsBelow(prev.value, (m - 1) * w, 0, plan(m - 1), i);
    }
  }

  /** Row s of the whole pass is row s as it stood after the first n plans,
      for any s below n. */
  lemma ApplyRowsEarlierRow(buf: seq<int>, w: nat, h: nat, plan: nat -> seq<Op>, n: nat, s: nat)
    requires |buf| == w * h && s < n <= h && ApplyRows(buf, w, plan, h).Some?
    ensures ApplyRows(buf, w, plan, n).Some?
    ensures Row(ApplyRows(buf, w, plan, h).value, w, h, s) == Row(ApplyRows(buf, w, plan, n).value, w, h, s)
  {
    if ApplyRows(buf, w, plan, n).None? {
      ApplyRowsStaysNone(buf, w, plan, n, h);
    }
    var all, first := ApplyRows(buf, w, plan, h).value, ApplyRows(buf, w, plan, n).value;
    RowBounds(w, h, s);
    MulLe(s + 1, n, w);
    forall i | 0 <= i < (s + 1) * w && i < |buf| ensures all[i] == first[i] {
      ApplyRowsKeepsEarlier(buf, w, plan, n, h, i);
    }
    SameRow(all, first, w, h, s);
  }

  /** When the first n plans each stay in their own row, those n rows of the
      whole pass are as their plans paint them, whatever the later plans
      do. */
  lemma ApplyRowsFirstRows(buf: seq<int>, w: nat, h: nat, plan: nat -> seq<Op>, n: nat)
    requires |buf| == w * h && n <= h && ApplyRows(buf, w, plan, h).Some?
    requires forall u | 0 <= u < n :: Reach(0, plan(u)) <= w
    ensures forall s | 0 <= s < n ::
      Row(ApplyRows(buf, w, plan, h).value, w, h, s) == PaintRow(Row(buf, w, h, s), plan(s))
  {
    forall s | 0 <= s < n
      ensures Row(ApplyRows(buf, w, plan, h).value, w, h, s) == PaintRow(Row(buf, w, h, s), plan(s))
    {
      ApplyRowsLocal(buf, w, h, plan, n, s);
      ApplyRowsEarlierRow(buf, w, h, plan, n, s);
    }
  }

  /** Two buffers that agree on every cell up to the end of row s agree on
      row s. */
  lemma SameRow(a: seq<int>, b: seq<int>, w: nat, h: nat, s: nat)
    requires |a| == |b| == w * h && s < h
    requires forall i | 0 <= i < (s + 1) * w && i < |a| :: a[i] == b[i]
    ensures Row(a, w, h, s) == Row(b, w, h, s)
  {
    RowBounds(w, h, s);
    assert (s + 1) * w == s * w + w;
    var ra, rb := Row(a, w, h, s), Row(b, w, h, s);
    forall k | 0 <= k < w ensures ra[k] == rb[k] {
      assert ra[k] == a[s * w + k] && rb[k] == b[s * w + k];
    }
  }

  /** The row-by-row pass both builder passes share: runs plan(s) on every
      scanline s in order, with the pixel index reset at each row start. It
      computes exactly ApplyRows: it fails exactly when some scanline's plan
      leaves the buffer (ApplyRowsDefinedIff), and otherwise returns the
      buffer ApplyRows describes. */
  method PaintRows(init: seq<int>, w: nat, h: nat, plan: nat -> seq<Op>) returns (r: Result<seq<int>>)
    requires |init| == w * h
    ensures r.Ok? <==> ApplyRows(init, w, plan, h).Some?
    ensures r.Ok? ==> r.value == ApplyRows(init, w, plan, h).value
  {
    var buf := init;
    for s := 0 to h
      invariant ApplyRows(init, w, plan, s) == Some(buf)
    {
      RowBounds(w, h, s);
      var res := RunRow(buf, w, s, plan(s));
      if res.Err? {
        ApplyRowsStaysNone(init, w, plan, s + 1, h);
        return Err(res.error);
      }
      buf := res.value.0;
    }
    return Ok(buf);
  }
}
