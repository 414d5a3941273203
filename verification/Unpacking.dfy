/**
 unpack_colors for 1, 2 and 4 bits per pixel: every byte holds several pixels, the leftmost in its
 highest bits, and a row that ends inside a byte leaves the rest of that byte unused.
 */
module Unpacking {
  import opened Common
  import opened ImageFormat

  predicate SubByte(cf: ColorFormat) {
    Bpp(cf) in {1, 2, 4}
  }

  /** Pixels in a byte. */
  function Fields(cf: ColorFormat): (n: nat)
    requires SubByte(cf)
    ensures n in {2, 4, 8}
  {
    8 / Bpp(cf)
  }

  /** Values a pixel can have. */
  function Base(cf: ColorFormat): nat
    requires SubByte(cf)
  {
    match Bpp(cf) case 1 => 2 case 2 => 4 case _ => 16
  }

  function Power(b: nat, k: nat): (p: nat)
    ensures b > 0 ==> p > 0
  {
    if k == 0 then 1 else b * Power(b, k - 1)
  }

  /** Pixel `i` of a byte, counted from the most significant end: shifted down, then masked. */
  function Field(cf: ColorFormat, p: Byte, i: nat): (v: nat)
    requires SubByte(cf) && i < Fields(cf)
    ensures v < Base(cf)
  {
    (p / Power(Base(cf), Fields(cf) - 1 - i)) % Base(cf)
  }

  /** An alpha-only pixel is spread over 0..255; a palette index is taken as it is. */
  function Spread(cf: ColorFormat): nat {
    match cf case A1 => 255 case A2 => 85 case A4 => 17 case _ => 1
  }

  function Value(cf: ColorFormat, p: Byte, i: nat): nat
    requires SubByte(cf) && i < Fields(cf)
  {
    Field(cf, p, i) * Spread(cf)
  }

  /** Transparent is 0, opaque is 255 and the levels between are evenly apart; an index is kept as it is. */
  lemma AlphaIsSpreadEvenly(cf: ColorFormat, p: Byte, i: nat)
    requires cf in {I1, I2, I4, A1, A2, A4} && i < (if cf in {I1, A1} then 8 else if cf in {I2, A2} then 4 else 2)
    ensures cf == A1 ==> Value(cf, p, i) == Field(cf, p, i) * 255
    ensures cf == A2 ==> Value(cf, p, i) * 3 == Field(cf, p, i) * 255
    ensures cf == A4 ==> Value(cf, p, i) * 15 == Field(cf, p, i) * 255
    ensures cf in {I1, I2, I4} ==> Value(cf, p, i) == Field(cf, p, i)
  {
  }

  function FirstValues(cf: ColorFormat, p: Byte, n: nat): (r: seq<nat>)
    requires SubByte(cf) && n <= Fields(cf)
    ensures |r| == n && forall i :: 0 <= i < n ==> r[i] == Value(cf, p, i)
  {
    seq(n, i requires 0 <= i < n => Value(cf, p, i))
  }

  /** How many pixels the next byte holds when `col` of its row's `w` are already out. */
  function Taken(cf: ColorFormat, w: nat, col: nat): nat
    requires SubByte(cf) && col < w
  {
    if w - col < Fields(cf) then w - col else Fields(cf)
  }

  function NextCol(cf: ColorFormat, w: nat, col: nat): (c: nat)
    requires SubByte(cf) && col < w
    ensures c < w
  {
    if col + Taken(cf, w, col) == w then 0 else col + Taken(cf, w, col)
  }

  function Unpacked(cf: ColorFormat, data: seq<Byte>, w: nat, col: nat): seq<nat>
    requires SubByte(cf) && col < w
  {
    if data == [] then []
    else FirstValues(cf, data[0], Taken(cf, w, col)) + Unpacked(cf, data[1..], w, NextCol(cf, w, col))
  }

  // ---------------------------------------------------------------- row by row

  /** (w * bpp + 7) / 8: the bytes of one row. */
  function Stride(cf: ColorFormat, w: nat): nat {
    (w * Bpp(cf) + 7) / 8
  }

  /** `bytes` bytes are just enough for `w` pixels. */
  predicate Covers(cf: ColorFormat, bytes: nat, w: nat)
    requires SubByte(cf)
  {
    if w <= Fields(cf) then w > 0 && bytes == 1 else bytes > 1 && Covers(cf, bytes - 1, w - Fields(cf))
  }

  lemma {:induction false} StrideCovers(cf: ColorFormat, w: nat)
    requires SubByte(cf) && w > 0
    ensures Covers(cf, Stride(cf, w), w)
    decreases w
  {
    var n := Fields(cf);
    OneByteMore(cf, w);
    if w > n {
      StrideCovers(cf, w - n);
    }
  }

  lemma OneByteMore(cf: ColorFormat, w: nat)
    requires SubByte(cf) && w > 0
    ensures w <= Fields(cf) ==> Stride(cf, w) == 1
    ensures w > Fields(cf) ==> Stride(cf, w) == Stride(cf, w - Fields(cf)) + 1 > 1
  {
    match Bpp(cf)
    case 1 => assert Stride(cf, w) == (w + 7) / 8;
    case 2 => assert Stride(cf, w) == (w + 3) / 4;
    case _ => assert Stride(cf, w) == (w + 1) / 2;
  }

  /** The pixels of one row of packed bytes, left to right. */
  function RowPixels(cf: ColorFormat, row: seq<Byte>, w: nat): (r: seq<nat>)
    requires SubByte(cf) && Covers(cf, |row|, w)
    ensures |r| == w
    decreases w
  {
    if w <= Fields(cf) then FirstValues(cf, row[0], w)
    else FirstValues(cf, row[0], Fields(cf)) + RowPixels(cf, row[1..], w - Fields(cf))
  }

  /** Pixel x is in byte x / n, at place x % n from the most significant end. */
  lemma {:induction false} RowPixelAt(cf: ColorFormat, row: seq<Byte>, w: nat, x: nat)
    requires SubByte(cf) && Covers(cf, |row|, w) && x < w
    ensures x / Fields(cf) < |row|
    ensures RowPixels(cf, row, w)[x] == Value(cf, row[x / Fields(cf)], x % Fields(cf))
    decreases w
  {
    var n := Fields(cf);
    if x < n {
      ModIs(x, 0, n, x);
    } else {
      LaterPixel(cf, row, w, x);
      RowPixelAt(cf, row[1..], w - n, x - n);
      OneByteOn(x, n);
      assert row[1..][(x - n) / n] == row[x / n];
    }
  }

  lemma LaterPixel(cf: ColorFormat, row: seq<Byte>, w: nat, x: nat)
    requires SubByte(cf) && Covers(cf, |row|, w) && Fields(cf) <= x < w
    ensures RowPixels(cf, row, w)[x] == RowPixels(cf, row[1..], w - Fields(cf))[x - Fields(cf)]
  {
  }

  /** The field x is one byte further than the field x - n, at the same place in it. */
  lemma OneByteOn(x: nat, n: nat)
    requires 0 < n <= x
    ensures x / n == (x - n) / n + 1 && x % n == (x - n) % n
  {
    ModIs(x, (x - n) / n + 1, n, (x - n) % n);
  }

  /** From any column, the rest of the row comes out and the next byte begins a new row. */
  lemma {:induction false} RestOfRow(cf: ColorFormat, row: seq<Byte>, left: nat, col: nat, more: seq<Byte>)
    requires SubByte(cf) && Covers(cf, |row|, left)
    ensures Unpacked(cf, row + more, col + left, col) ==
            RowPixels(cf, row, left) + Unpacked(cf, more, col + left, 0)
    decreases left
  {
    var n := Fields(cf);
    FirstByte(cf, row, left, col, more);
    if left > n {
      RestOfRow(cf, row[1..], left - n, col + n, more);
      assert RowPixels(cf, row, left) == FirstValues(cf, row[0], n) + RowPixels(cf, row[1..], left - n);
      AppendThree(FirstValues(cf, row[0], n), RowPixels(cf, row[1..], left - n), Unpacked(cf, more, col + left, 0));
    } else {
      assert row[1..] + more == more;
    }
  }

  lemma FirstByte(cf: ColorFormat, row: seq<Byte>, left: nat, col: nat, more: seq<Byte>)
    requires SubByte(cf) && row != [] && left > 0
    ensures
      var n := Fields(cf);
      Unpacked(cf, row + more, col + left, col) ==
      if left <= n then FirstValues(cf, row[0], left) + Unpacked(cf, row[1..] + more, col + left, 0)
      else FirstValues(cf, row[0], n) + Unpacked(cf, row[1..] + more, col + left, col + n)
  {
    assert (row + more)[0] == row[0] && (row + more)[1..] == row[1..] + more;
  }

  lemma AppendThree(a: seq<nat>, b: seq<nat>, c: seq<nat>)
    ensures a + (b + c) == (a + b) + c
  {
  }

  function Concat<T>(rows: seq<seq<T>>): seq<T> {
    if rows == [] then [] else rows[0] + Concat(rows[1..])
  }

  predicate RowsOf(cf: ColorFormat, rows: seq<seq<Byte>>, w: nat)
    requires SubByte(cf)
  {
    w > 0 && forall y :: 0 <= y < |rows| ==> |rows[y]| == Stride(cf, w)
  }

  function AllRowPixels(cf: ColorFormat, rows: seq<seq<Byte>>, w: nat): (r: seq<seq<nat>>)
    requires SubByte(cf) && RowsOf(cf, rows, w)
    ensures |r| == |rows| && forall y :: 0 <= y < |r| ==> |r[y]| == w
  {
    StrideCovers(cf, w);
    if rows == [] then [] else [RowPixels(cf, rows[0], w)] + AllRowPixels(cf, rows[1..], w)
  }

  lemma {:induction false} ConcatLength<T>(rows: seq<seq<T>>, w: nat)
    requires forall i :: 0 <= i < |rows| ==> |rows[i]| == w
    ensures |Concat(rows)| == |rows| * w
  {
    if rows != [] {
      ConcatLength(rows[1..], w);
      OneMore(|rows|, w);
    }
  }

  lemma OneMore(n: nat, w: nat)
    requires n > 0
    ensures n * w == w + (n - 1) * w
  {
  }

  lemma {:induction false} RowsComeOut(cf: ColorFormat, rows: seq<seq<Byte>>, w: nat)
    requires SubByte(cf) && RowsOf(cf, rows, w)
    ensures Unpacked(cf, Concat(rows), w, 0) == Concat(AllRowPixels(cf, rows, w))
  {
    if rows != [] {
      StrideCovers(cf, w);
      RowsComeOut(cf, rows[1..], w);
      RestOfRow(cf, rows[0], w, 0, Concat(rows[1..]));
      assert AllRowPixels(cf, rows, w)[1..] == AllRowPixels(cf, rows[1..], w);
    }
  }

  /** Unpacking an image of whole rows gives the pixels of each row in turn: h rows of w pixels. */
  lemma ImageUnpacksByRows(cf: ColorFormat, rows: seq<seq<Byte>>, w: nat)
    requires SubByte(cf) && RowsOf(cf, rows, w)
    ensures Unpacked(cf, Concat(rows), w, 0) == Concat(AllRowPixels(cf, rows, w))
    ensures |Unpacked(cf, Concat(rows), w, 0)| == |rows| * w
  {
    RowsComeOut(cf, rows, w);
    ConcatLength(AllRowPixels(cf, rows, w), w);
  }

  lemma {:induction false} RowOfImage(cf: ColorFormat, rows: seq<seq<Byte>>, w: nat, y: nat)
    requires SubByte(cf) && RowsOf(cf, rows, w) && y < |rows|
    ensures Covers(cf, |rows[y]|, w)
    ensures AllRowPixels(cf, rows, w)[y] == RowPixels(cf, rows[y], w)
  {
    StrideCovers(cf, w);
    if y > 0 {
      RowOfImage(cf, rows[1..], w, y - 1);
    }
  }

  lemma {:induction false} ConcatAt<T>(rows: seq<seq<T>>, w: nat, y: nat, x: nat)
    requires forall i :: 0 <= i < |rows| ==> |rows[i]| == w
    requires y < |rows| && x < w
    ensures 0 <= y * w + x < |Concat(rows)| && Concat(rows)[y * w + x] == rows[y][x]
  {
    if y > 0 {
      ConcatAt(rows[1..], w, y - 1, x);
      assert y * w == w + (y - 1) * w;
      assert y * w + x >= w;
    }
  }

  /** Value (y, x) of the result is field x % n of byte x / n of row y. */
  lemma PixelOfImage(cf: ColorFormat, rows: seq<seq<Byte>>, w: nat, y: nat, x: nat)
    requires SubByte(cf) && RowsOf(cf, rows, w) && y < |rows| && x < w
    ensures
      var r := Unpacked(cf, Concat(rows), w, 0);
      && 0 <= y * w + x < |r| && x / Fields(cf) < |rows[y]|
      && r[y * w + x] == Value(cf, rows[y][x / Fields(cf)], x % Fields(cf))
  {
    ImageUnpacksByRows(cf, rows, w);
    RowOfImage(cf, rows, w, y);
    RowPixelAt(cf, rows[y], w, x);
    ConcatAt(AllRowPixels(cf, rows, w), w, y, x);
  }

  // ---------------------------------------------------------------- against packing

  /** `n` values in one byte, the first in the highest bits; missing ones count as 0. */
  function PackByte(b: nat, values: seq<nat>, n: nat): nat {
    if n == 0 then 0
    else (if values == [] then 0 else values[0]) * Power(b, n - 1)
         + PackByte(b, if values == [] then [] else values[1..], n - 1)
  }

  predicate Below(values: seq<nat>, b: nat) {
    forall i :: 0 <= i < |values| ==> values[i] < b
  }

  lemma {:induction false} PowerAdds(b: nat, i: nat, j: nat)
    ensures Power(b, i + j) == Power(b, i) * Power(b, j)
  {
    if i > 0 {
      PowerAdds(b, i - 1, j);
      MulAssociates(b, Power(b, i - 1), Power(b, j));
    }
  }

  lemma MulAssociates(a: int, b: int, c: int)
    ensures a * (b * c) == (a * b) * c
  {
  }

  lemma MulBelow(v: nat, b: nat, p: nat)
    requires v < b
    ensures v * p + p <= b * p
  {
    assert (b - v - 1) * p >= 0;
    assert b * p == v * p + p + (b - v - 1) * p;
  }

  lemma {:induction false} PackByteFits(b: nat, values: seq<nat>, n: nat)
    requires b > 0 && Below(values, b)
    ensures PackByte(b, values, n) < Power(b, n)
    decreases n
  {
    if n > 0 {
      var v := if values == [] then 0 else values[0];
      PackByteFits(b, if values == [] then [] else values[1..], n - 1);
      MulBelow(v, b, Power(b, n - 1));
    }
  }

  /** Dividing away whole multiples: (m * d + r) / d == m + r / d. */
  lemma DivideOut(m: nat, d: nat, r: nat)
    requires d > 0
    ensures (m * d + r) / d == m + r / d
  {
    var q, t := r / d, r % d;
    assert r == d * q + t;
    assert (m + q) * d == m * d + q * d;
    ModIs(m * d + r, m + q, d, t);
  }

  lemma ModOut(m: nat, b: nat, r: nat)
    requires b > 0
    ensures (m * b + r) % b == r % b
  {
    var q, t := r / b, r % b;
    assert r == b * q + t;
    assert (m + q) * b == m * b + q * b;
    ModIs(m * b + r, m + q, b, t);
  }

  /** Shifting a packed byte down and masking it gives back the value that was packed there. */
  lemma {:induction false} FieldOfPacked(b: nat, values: seq<nat>, n: nat, i: nat)
    requires b > 0 && Below(values, b) && i < n
    ensures (PackByte(b, values, n) / Power(b, n - 1 - i)) % b == if i < |values| then values[i] else 0
    decreases n
  {
    var v := if values == [] then 0 else values[0];
    var tail := if values == [] then [] else values[1..];
    var r := PackByte(b, tail, n - 1);
    PackByteFits(b, tail, n - 1);
    if i == 0 {
      ModIs(v * Power(b, n - 1) + r, v, Power(b, n - 1), r);
      ModIs(v, 0, b, v);
    } else {
      PowerAdds(b, i, n - 1 - i);
      TopValueDropsOut(v, b, Power(b, i - 1), Power(b, n - 1 - i), r);
      FieldOfPacked(b, tail, n - 1, i - 1);
    }
  }

  /** A value sitting at least one place above the field that is read does not show in it. */
  lemma TopValueDropsOut(v: nat, b: nat, p: nat, d: nat, r: nat)
    requires b > 0 && d > 0
    ensures (v * ((b * p) * d) + r) / d % b == r / d % b
  {
    var m := v * p;
    assert v * (b * p) == m * b;
    assert v * ((b * p) * d) == (m * b) * d;
    DivideOut(m * b, d, r);
    ModOut(m, b, r / d);
  }

  lemma ByteIsBelow256(cf: ColorFormat)
    requires SubByte(cf)
    ensures Power(Base(cf), Fields(cf)) == 256
  {
    match Bpp(cf)
    case 1 => assert Power(2, 8) == 256;
    case 2 => assert Power(4, 4) == 256;
    case _ => assert Power(16, 2) == 256;
  }

  lemma PackedByte(cf: ColorFormat, values: seq<nat>)
    requires SubByte(cf) && Below(values, Base(cf)) && |values| <= Fields(cf)
    ensures 0 <= PackByte(Base(cf), values, Fields(cf)) < 256
    ensures forall i :: 0 <= i < |values| ==>
              FirstValues(cf, PackByte(Base(cf), values, Fields(cf)), |values|)[i] == values[i] * Spread(cf)
  {
    PackByteFits(Base(cf), values, Fields(cf));
    ByteIsBelow256(cf);
    forall i | 0 <= i < |values|
      ensures Value(cf, PackByte(Base(cf), values, Fields(cf)), i) == values[i] * Spread(cf)
    {
      FieldOfPacked(Base(cf), values, Fields(cf), i);
    }
  }

  function SpreadAll(cf: ColorFormat, values: seq<nat>): (r: seq<nat>)
    ensures |r| == |values| && forall i :: 0 <= i < |r| ==> r[i] == values[i] * Spread(cf)
  {
    if values == [] then [] else [values[0] * Spread(cf)] + SpreadAll(cf, values[1..])
  }

  /** One row packed as PNG packs it: leftmost pixel in the highest bits, the last byte filled up. */
  function PackRow(cf: ColorFormat, values: seq<nat>): seq<Byte>
    requires SubByte(cf) && Below(values, Base(cf))
    decreases |values|
  {
    var n := Fields(cf);
    if |values| <= n then
      PackedByte(cf, values);
      [PackByte(Base(cf), values, n)]
    else
      PackedByte(cf, values[..n]);
      [PackByte(Base(cf), values[..n], n)] + PackRow(cf, values[n..])
  }

  lemma {:induction false} PackRowCovers(cf: ColorFormat, values: seq<nat>)
    requires SubByte(cf) && Below(values, Base(cf)) && values != []
    ensures Covers(cf, |PackRow(cf, values)|, |values|)
    decreases |values|
  {
    if |values| > Fields(cf) {
      PackRowCovers(cf, values[Fields(cf)..]);
    }
  }

  lemma SpreadAllAdds(cf: ColorFormat, values: seq<nat>, n: nat)
    requires n <= |values|
    ensures SpreadAll(cf, values) == SpreadAll(cf, values[..n]) + SpreadAll(cf, values[n..])
  {
  }

  /** Unpacking a packed row gives back its pixels, for every width. */
  lemma {:induction false} UnpackInvertsPack(cf: ColorFormat, values: seq<nat>)
    requires SubByte(cf) && Below(values, Base(cf)) && values != []
    ensures Covers(cf, |PackRow(cf, values)|, |values|)
    ensures RowPixels(cf, PackRow(cf, values), |values|) == SpreadAll(cf, values)
    decreases |values|
  {
    var n := Fields(cf);
    PackRowCovers(cf, values);
    if |values| <= n {
      PackedByte(cf, values);
    } else {
      var head, tail := values[..n], values[n..];
      PackedByte(cf, head);
      UnpackInvertsPack(cf, tail);
      SpreadAllAdds(cf, values, n);
      assert PackRow(cf, values)[1..] == PackRow(cf, tail);
      assert FirstValues(cf, PackRow(cf, values)[0], n) == SpreadAll(cf, head);
    }
  }

  // ---------------------------------------------------------------- a whole image

  /** Rows of pixel values, each of the width and within the base. */
  predicate PixelRows(cf: ColorFormat, rows: seq<seq<nat>>, w: nat)
    requires SubByte(cf)
  {
    w > 0 && forall y :: 0 <= y < |rows| ==> |rows[y]| == w && Below(rows[y], Base(cf))
  }

  function PackRows(cf: ColorFormat, rows: seq<seq<nat>>, w: nat): (r: seq<seq<Byte>>)
    requires SubByte(cf) && PixelRows(cf, rows, w)
    ensures |r| == |rows|
  {
    if rows == [] then [] else [PackRow(cf, rows[0])] + PackRows(cf, rows[1..], w)
  }

  function SpreadRows(cf: ColorFormat, rows: seq<seq<nat>>): (r: seq<seq<nat>>)
    ensures |r| == |rows| && forall y :: 0 <= y < |r| ==> r[y] == SpreadAll(cf, rows[y])
  {
    if rows == [] then [] else [SpreadAll(cf, rows[0])] + SpreadRows(cf, rows[1..])
  }

  /** Just enough bytes for a row are as many as its stride. */
  lemma {:induction false} CoversIsStride(cf: ColorFormat, bytes: nat, w: nat)
    requires SubByte(cf) && Covers(cf, bytes, w)
    ensures bytes == Stride(cf, w)
    decreases w
  {
    OneByteMore(cf, w);
    if w > Fields(cf) {
      CoversIsStride(cf, bytes - 1, w - Fields(cf));
    }
  }

  lemma {:induction false} PackedRowsUnpack(cf: ColorFormat, rows: seq<seq<nat>>, w: nat)
    requires SubByte(cf) && PixelRows(cf, rows, w)
    ensures RowsOf(cf, PackRows(cf, rows, w), w)
    ensures AllRowPixels(cf, PackRows(cf, rows, w), w) == SpreadRows(cf, rows)
  {
    if rows != [] {
      var packed, rest := PackRows(cf, rows, w), PackRows(cf, rows[1..], w);
      PackedRowsUnpack(cf, rows[1..], w);
      UnpackInvertsPack(cf, rows[0]);
      CoversIsStride(cf, |PackRow(cf, rows[0])|, w);
      assert packed[1..] == rest;
      forall y | 0 <= y < |packed| ensures |packed[y]| == Stride(cf, w) {
        assert y > 0 ==> packed[y] == rest[y - 1];
      }
    }
  }

  /** Unpacking an image packed row by row gives back all its pixels, for every width and height. */
  lemma UnpackInvertsPackRows(cf: ColorFormat, rows: seq<seq<nat>>, w: nat)
    requires SubByte(cf) && PixelRows(cf, rows, w)
    ensures Unpacked(cf, Concat(PackRows(cf, rows, w)), w, 0) == Concat(SpreadRows(cf, rows))
    ensures |Unpacked(cf, Concat(PackRows(cf, rows, w)), w, 0)| == |rows| * w
  {
    PackedRowsUnpack(cf, rows, w);
    ImageUnpacksByRows(cf, PackRows(cf, rows, w), w);
  }

  // ---------------------------------------------------------------- the loop itself

  method UnpackColors(data: seq<Byte>, cf: ColorFormat, w: nat) returns (ret: seq<nat>)
    requires SubByte(cf) && w > 0
    ensures ret == Unpacked(cf, data, w, 0)
  {
    ret := [];
    ghost var rowStart: nat, col: nat := 0, 0;
    ModIs(0, 0, w, 0);
    ghost var left := Unpacked(cf, data, w, 0);
    assert data[0..] == data;
    for j := 0 to |data|
      invariant col < w && |ret| == rowStart + col && WholeRows(rowStart, w)
      invariant left == Unpacked(cf, data[j..], w, col)
      invariant ret + left == Unpacked(cf, data, w, 0)
    {
      assert data[j..][0] == data[j] && data[j..][1..] == data[j + 1..];
      ghost var k := Taken(cf, w, col);
      left := Unpacked(cf, data[j + 1..], w, NextCol(cf, w, col));
      AppendThree(ret, FirstValues(cf, data[j], k), left);
      ret := UnpackByte(ret, data[j], cf, w, rowStart, col);
      RowEnds(rowStart, w, w);
      rowStart, col := if col + k == w then rowStart + w else rowStart, NextCol(cf, w, col);
    }
    assert data[|data|..] == [];
  }

  /** The inner loop: the pixels of one byte, stopping at the end of the row. */
  method UnpackByte(before: seq<nat>, p: Byte, cf: ColorFormat, w: nat, ghost rowStart: nat, ghost col: nat)
    returns (ret: seq<nat>)
    requires SubByte(cf) && col < w && |before| == rowStart + col && WholeRows(rowStart, w)
    ensures ret == before + FirstValues(cf, p, Taken(cf, w, col))
  {
    ret := before;
    for i := 0 to Fields(cf)
      invariant i <= Taken(cf, w, col) && col + i < w && ret == before + FirstValues(cf, p, i)
    {
      FirstValuesGrow(cf, p, i);
      ret := ret + [Value(cf, p, i)];
      RowEnds(rowStart, w, col + i + 1);
      if |ret| % w == 0 {
        break;
      }
    }
  }

  predicate WholeRows(n: nat, w: nat)
    requires w > 0
  {
    n % w == 0
  }

  lemma RowEnds(rowStart: nat, w: nat, col: nat)
    requires w > 0 && WholeRows(rowStart, w) && 0 < col <= w
    ensures (rowStart + col) % w == 0 <==> col == w
    ensures col == w ==> WholeRows(rowStart + col, w)
  {
    var q := rowStart / w;
    assert rowStart == w * q;
    if col == w {
      assert (q + 1) * w == w * q + w;
      ModIs(rowStart + col, q + 1, w, 0);
    } else {
      assert q * w == w * q;
      ModIs(rowStart + col, q, w, col);
    }
  }

  lemma FirstValuesGrow(cf: ColorFormat, p: Byte, i: nat)
    requires SubByte(cf) && i < Fields(cf)
    ensures FirstValues(cf, p, i + 1) == FirstValues(cf, p, i) + [Value(cf, p, i)]
  {
  }
}
