/** LVGLImage: its data length and the adjustment of its row stride. */
module Strides {
  import opened Common
  import opened ImageFormat
  import opened Planes

  /** Both header fields have 16 bits; larger values are refused before they are stored. */
  type Dimension = x: int | 0 <= x <= 0xffff

  datatype Image = Image(cf: ColorFormat, w: Dimension, h: Dimension, stride: nat, data: seq<Byte>)

  /** An accepted value, or ParameterError. */
  datatype Result<+T> = Ok(value: T) | ParameterError

  // ---------------------------------------------------------------- header arithmetic

  function StrideDefault(cf: ColorFormat, w: nat): nat {
    (w * Bpp(cf) + 7) / 8
  }

  /** The default is the least number of bytes whose bits hold a row of pixels. */
  lemma DefaultIsLeast(cf: ColorFormat, w: nat, bits: nat)
    requires HasBits(cf, bits)
    ensures
      var d := StrideDefault(cf, w);
      8 * d >= w * bits && (d > 0 ==> 8 * (d - 1) < w * bits)
  {
    BitsAre(cf, bits);
  }

  function StrideAligned(cf: ColorFormat, w: nat, align: nat): nat
    requires align >= 1
  {
    var stride := StrideDefault(cf, w);
    if align == 1 then stride else (stride + align - 1) / align * align
  }

  lemma MulNonNegative(a: int, b: int)
    requires a >= 0 && b >= 0
    ensures a * b >= 0
  {
  }

  /** The aligned stride is the least multiple of the alignment that is not below the default. */
  lemma AlignedIsLeast(cf: ColorFormat, w: nat, align: nat)
    requires align >= 1
    ensures StrideAligned(cf, w, align) % align == 0
    ensures StrideAligned(cf, w, align) >= StrideDefault(cf, w)
    ensures forall k: nat :: k * align >= StrideDefault(cf, w) ==> StrideAligned(cf, w, align) <= k * align
  {
    var d := StrideDefault(cf, w);
    if align == 1 {
      ModIs(d, d, 1, 0);
    } else {
      var q := (d + align - 1) / align;
      RoundedUp(d, align, q, (d + align - 1) % align);
      forall k: nat | k * align >= d ensures q * align <= k * align {
        NoMultipleBetween(d, align, q, k);
      }
    }
  }

  lemma RoundedUp(d: nat, align: nat, q: int, r: int)
    requires align >= 1 && d + align - 1 == align * q + r && 0 <= r < align
    ensures d <= q * align < d + align && (q * align) % align == 0
  {
    assert q * align == align * q;
    ModIs(q * align, q, align, 0);
  }

  lemma NoMultipleBetween(d: nat, align: nat, q: int, k: int)
    requires align >= 1 && q * align < d + align && k * align >= d
    ensures q * align <= k * align
  {
    assert (q - k) * align == q * align - k * align;
    if k < q {
      MulAtLeast(q - k, align);
    } else {
      MulNonNegative(k - q, align);
      assert (k - q) * align == k * align - q * align;
    }
  }

  function DataLen(m: Image): nat {
    (if NColors(m.cf) != 0 && Area(m.w, m.h) != 0 then NColors(m.cf) * 4 else 0)
    + Area(m.stride, m.h)
    + (if m.cf == RGB565A8 then Area(m.stride / 2, m.h) else 0)
  }

  predicate Consistent(m: Image) {
    |m.data| == DataLen(m)
  }

  // ---------------------------------------------------------------- the whole image

  function PaletteSize(cf: ColorFormat): nat {
    NColors(cf) * 4
  }

  function Take(data: seq<Byte>, n: nat): seq<Byte> { data[..Min(n, |data|)] }

  function Drop(data: seq<Byte>, n: nat): seq<Byte> { data[Min(n, |data|)..] }

  /** The last `n` bytes; no bytes asked for means all of them, as in data[-0:]. */
  function Last(data: seq<Byte>, n: nat): seq<Byte> {
    if n == 0 || n > |data| then data else data[|data| - n..]
  }

  function AlphaSize(m: Image): nat {
    Area(m.stride / 2, m.h)
  }

  function RestridedAlpha(m: Image, stride: nat): seq<Byte> {
    if m.cf == RGB565A8 then ChangeStride(Last(m.data, AlphaSize(m)), m.h, m.stride / 2, stride / 2) else []
  }

  function Restrided(m: Image, stride: nat): seq<Byte> {
    Take(m.data, PaletteSize(m.cf))
    + ChangeStride(Drop(m.data, PaletteSize(m.cf)), m.h, m.stride, stride)
    + RestridedAlpha(m, stride)
  }

  function Restride(m: Image, stride: nat): Result<Image> {
    if m.stride == stride then Ok(m)
    else if DataLen(m) == 0 then Ok(m.(stride := 0))
    else if stride < StrideDefault(m.cf, m.w) then ParameterError
    else Ok(m.(stride := stride, data := Restrided(m, stride)))
  }

  function StrideAdjusted(m: Image, stride: int, align: int): Result<Image> {
    if m.stride == 0 then Ok(m)
    else if align >= 1 && stride == 0 then Restride(m, StrideAligned(m.cf, m.w, align))
    else if stride > 0 then Restride(m, stride)
    else ParameterError
  }

  /** An indexed image without columns: its length counts no palette, yet one is cut off its front. */
  predicate PaletteMiscounted(m: Image) {
    NColors(m.cf) != 0 && m.w == 0
  }

  // ---------------------------------------------------------------- consistency

  /** Where the planes of a consistent image lie. */
  lemma Layout(m: Image)
    requires Consistent(m) && DataLen(m) > 0 && !PaletteMiscounted(m)
    ensures m.h > 0
    ensures |m.data| == PaletteSize(m.cf) + Area(m.stride, m.h) + (if m.cf == RGB565A8 then AlphaSize(m) else 0)
  {
    AreaIsZero(m.w, m.h);
  }

  lemma PlanesHold(m: Image)
    requires Consistent(m) && DataLen(m) > 0 && !PaletteMiscounted(m)
    ensures Holds(Drop(m.data, PaletteSize(m.cf)), m.h, m.stride)
    ensures m.cf == RGB565A8 ==> Holds(Last(m.data, AlphaSize(m)), m.h, m.stride / 2)
  {
    Layout(m);
    HoldsIff(Drop(m.data, PaletteSize(m.cf)), m.h, m.stride);
    HoldsIff(Last(m.data, AlphaSize(m)), m.h, m.stride / 2);
  }

  /** Unless the palette is miscounted, a changed image is as long as its new header says. */
  lemma RestridedLength(m: Image, stride: nat)
    requires Consistent(m) && DataLen(m) > 0 && !PaletteMiscounted(m)
    ensures |Restrided(m, stride)| == DataLen(m.(stride := stride))
  {
    Layout(m);
    PlanesHold(m);
    ChangedLength(Drop(m.data, PaletteSize(m.cf)), m.h, m.stride, stride);
    AreaIsZero(m.w, m.h);
    if m.cf == RGB565A8 {
      ChangedLength(Last(m.data, AlphaSize(m)), m.h, m.stride / 2, stride / 2);
    }
  }

  /** Without columns an indexed image keeps to its length when it grows and never when it shrinks. */
  lemma MiscountedLength(m: Image, stride: nat)
    requires Consistent(m) && DataLen(m) > 0 && PaletteMiscounted(m)
    ensures DataLen(m) == Area(m.stride, m.h) && DataLen(m.(stride := stride)) == Area(stride, m.h)
    ensures stride >= m.stride ==> |Restrided(m, stride)| == Area(stride, m.h)
    ensures stride < m.stride ==> |Restrided(m, stride)| > Area(stride, m.h)
  {
    AreaIsZero(m.w, m.h);
    var bitmap := Drop(m.data, PaletteSize(m.cf));
    if stride >= m.stride {
      GrownLength(bitmap, m.h, m.stride, stride);
      AreaAdds(m.stride, stride - m.stride, m.h);
    } else {
      CutShort(bitmap, m.h, m.stride, stride);
    }
  }

  lemma EmptyHasNoRows(m: Image)
    requires DataLen(m) == 0 && m.stride > 0
    ensures m.h == 0
  {
    AreaIsZero(m.stride, m.h);
  }

  lemma AlignedIsEnough(m: Image, align: nat)
    requires align >= 1
    ensures StrideAligned(m.cf, m.w, align) >= StrideDefault(m.cf, m.w)
  {
    AlignedIsLeast(m.cf, m.w, align);
  }

  /** Only bad parameters and strides below the default are refused. */
  lemma AcceptedIff(m: Image, stride: int, align: int)
    ensures StrideAdjusted(m, stride, align).Ok?
            <==> m.stride == 0 || (stride == 0 && align >= 1)
                 || (stride > 0 && (stride == m.stride || DataLen(m) == 0 || stride >= StrideDefault(m.cf, m.w)))
  {
    if align >= 1 {
      AlignedIsEnough(m, align);
    }
  }

  /**
   * An accepted adjustment keeps the data as long as the header says, with one exception: an indexed
   * image without columns that shrinks.
   */
  lemma ConsistentIff(m: Image, stride: int, align: int)
    requires Consistent(m) && StrideAdjusted(m, stride, align).Ok?
    ensures
      var r := StrideAdjusted(m, stride, align).value;
      Consistent(r) <==> !(PaletteMiscounted(m) && m.h > 0 && r.stride < m.stride)
  {
    var r := StrideAdjusted(m, stride, align).value;
    if r.stride != m.stride {
      if DataLen(m) == 0 {
        EmptyHasNoRows(m);
      } else if PaletteMiscounted(m) {
        MiscountedLength(m, r.stride);
        AreaIsZero(m.stride, m.h);
      } else {
        RestridedLength(m, r.stride);
      }
    }
  }

  /** Nine bytes of one-bit pixels in one row without columns: shrunk, they stay nine bytes. */
  lemma ShrinkingWithoutColumns(m: Image)
    requires m == Image(I1, 0, 1, 9, Zeros(9))
    ensures Consistent(m) && StrideAdjusted(m, 1, 1).Ok?
    ensures !Consistent(StrideAdjusted(m, 1, 1).value)
  {
    AreaIsProduct(9, 1);
    AreaIsProduct(0, 1);
    assert StrideDefault(I1, 0) == 0;
    ConsistentIff(m, 1, 1);
  }

  // ---------------------------------------------------------------- pixels and palette

  /** Byte x of row y of a plane that starts at `before` in the old data and at `after` in the new. */
  predicate Kept(source: seq<Byte>, before: nat, current: nat, result: seq<Byte>, after: nat, target: nat, y: nat,
                 x: nat) {
    var from, to := before + Area(current, y) + x, after + Area(target, y) + x;
    from < |source| && to < |result| && result[to] == source[from]
  }

  /** A plane keeps its pixels wherever it lies in the data before and after. */
  lemma PlaneKept(front: seq<Byte>, data: seq<Byte>, front': seq<Byte>, behind: seq<Byte>,
                  h: nat, current: nat, target: nat, y: nat, x: nat)
    requires Holds(data, h, current) && y < h && x < current && x < target
    ensures Kept(front + data, |front|, current,
                 front' + ChangeStride(data, h, current, target) + behind, |front'|, target, y, x)
  {
    RowBytesKept(data, h, current, target, y, x);
    var i, j := Area(current, y) + x, Area(target, y) + x;
    assert (front + data)[|front| + i] == data[i];
    assert (front' + ChangeStride(data, h, current, target) + behind)[|front'| + j]
        == ChangeStride(data, h, current, target)[j];
  }

  lemma PaletteSplits(m: Image, palette: seq<Byte>, bitmap: seq<Byte>)
    requires Consistent(m) && DataLen(m) > 0 && !PaletteMiscounted(m)
    requires palette == Take(m.data, PaletteSize(m.cf)) && bitmap == Drop(m.data, PaletteSize(m.cf))
    ensures |palette| == PaletteSize(m.cf) && m.data == palette + bitmap
  {
    Layout(m);
  }

  lemma PaletteKept(m: Image, stride: nat, i: nat)
    requires Consistent(m) && DataLen(m) > 0 && !PaletteMiscounted(m) && i < PaletteSize(m.cf)
    ensures i < |m.data| && i < |Restrided(m, stride)|
    ensures Restrided(m, stride)[i] == m.data[i]
  {
    Layout(m);
  }

  /** Every byte of the bitmap that both strides reach survives. */
  lemma PixelsKept(m: Image, stride: nat, y: nat, x: nat)
    requires Consistent(m) && DataLen(m) > 0 && !PaletteMiscounted(m)
    requires y < m.h && x < m.stride && x < stride
    ensures Kept(m.data, PaletteSize(m.cf), m.stride, Restrided(m, stride), PaletteSize(m.cf), stride, y, x)
  {
    var palette, bitmap := Take(m.data, PaletteSize(m.cf)), Drop(m.data, PaletteSize(m.cf));
    PlanesHold(m);
    PaletteSplits(m, palette, bitmap);
    PlaneKept(palette, bitmap, palette, RestridedAlpha(m, stride), m.h, m.stride, stride, y, x);
  }

  lemma EndsThere(data: seq<Byte>)
    ensures data + [] == data
  {
  }

  lemma AlphaSplits(m: Image, alpha: seq<Byte>)
    requires Consistent(m) && DataLen(m) > 0 && m.cf == RGB565A8 && m.stride / 2 > 0
    requires alpha == Last(m.data, AlphaSize(m))
    ensures |m.data| >= Area(m.stride, m.h) && m.data == m.data[..Area(m.stride, m.h)] + alpha
  {
    Layout(m);
    AreaIsZero(m.stride / 2, m.h);
  }

  /** Every byte of the alpha plane that both half strides reach survives. */
  lemma AlphaKept(m: Image, stride: nat, y: nat, x: nat)
    requires Consistent(m) && DataLen(m) > 0 && m.cf == RGB565A8
    requires y < m.h && x < m.stride / 2 && x < stride / 2
    ensures Kept(m.data, Area(m.stride, m.h), m.stride / 2,
                 Restrided(m, stride), Area(stride, m.h), stride / 2, y, x)
  {
    var palette, bitmap := Take(m.data, PaletteSize(m.cf)), Drop(m.data, PaletteSize(m.cf));
    var alpha := Last(m.data, AlphaSize(m));
    PlanesHold(m);
    AlphaSplits(m, alpha);
    ChangedLength(bitmap, m.h, m.stride, stride);
    PlaneKept(m.data[..Area(m.stride, m.h)], alpha, palette + ChangeStride(bitmap, m.h, m.stride, stride), [],
              m.h, m.stride / 2, stride / 2, y, x);
    EndsThere(Restrided(m, stride));
  }

  lemma PixelIsInside(cf: ColorFormat, w: nat, bits: nat, x: nat, stride: nat)
    requires HasBits(cf, bits) && bits > 0 && x < w && stride >= StrideDefault(cf, w)
    ensures (x * bits + bits - 1) / 8 < stride
  {
    DefaultIsLeast(cf, w, bits);
    MulAtLeast(w - x, bits);
    assert (w - x) * bits == w * bits - x * bits;
  }

  /**
   * After any accepted change every pixel of every row has all the bits it had: each byte of the old row
   * that holds bits of pixel x lies inside the new row and is the same.
   */
  lemma EveryPixelKept(m: Image, stride: int, align: int, bits: nat, y: nat, x: nat, i: nat)
    requires Consistent(m) && DataLen(m) > 0 && !PaletteMiscounted(m) && StrideAdjusted(m, stride, align).Ok?
    requires HasBits(m.cf, bits) && bits > 0 && y < m.h && x < m.w
    requires x * bits / 8 <= i <= (x * bits + bits - 1) / 8 && i < m.stride
    ensures
      var r := StrideAdjusted(m, stride, align).value;
      i < r.stride
      && Kept(m.data, PaletteSize(m.cf), m.stride, r.data, PaletteSize(m.cf), r.stride, y, i)
  {
    var r := StrideAdjusted(m, stride, align).value;
    AcceptedHolds(m, stride, align);
    if r.stride != m.stride {
      PixelIsInside(m.cf, m.w, bits, x, r.stride);
    }
    PixelsKept(m, r.stride, y, i);
  }

  lemma AcceptedHolds(m: Image, stride: int, align: int)
    requires DataLen(m) > 0 && StrideAdjusted(m, stride, align).Ok?
    ensures
      var r := StrideAdjusted(m, stride, align).value;
      r.stride == m.stride || r.stride >= StrideDefault(m.cf, m.w)
  {
    if align >= 1 {
      AlignedIsEnough(m, align);
    }
  }

  lemma AlphaIsInside(w: nat, x: nat, stride: nat)
    requires x < w && stride >= StrideDefault(RGB565A8, w)
    ensures x < stride / 2
  {
    PixelIsInside(RGB565A8, w, 16, x, stride);
    assert (x * 16 + 15) / 8 == 2 * x + 1;
  }

  /** So has every pixel of the alpha plane, a byte each. */
  lemma EveryAlphaKept(m: Image, stride: int, align: int, y: nat, x: nat)
    requires Consistent(m) && DataLen(m) > 0 && m.cf == RGB565A8 && StrideAdjusted(m, stride, align).Ok?
    requires y < m.h && x < m.w && x < m.stride / 2
    ensures
      var r := StrideAdjusted(m, stride, align).value;
      x < r.stride / 2
      && Kept(m.data, Area(m.stride, m.h), m.stride / 2, r.data, Area(r.stride, m.h), r.stride / 2, y, x)
  {
    var r := StrideAdjusted(m, stride, align).value;
    AcceptedHolds(m, stride, align);
    if r.stride != m.stride {
      AlphaIsInside(m.w, x, r.stride);
    }
    AlphaKept(m, r.stride, y, x);
  }

  /** What an image with pixels takes up, in bytes: four for a palette entry, and the planes by their strides. */
  lemma LengthIs(m: Image)
    requires m.w > 0 && m.h > 0
    ensures DataLen(m) == (if m.cf == I1 then 8 else if m.cf == I2 then 16 else if m.cf == I4 then 64
                           else if m.cf == I8 then 1024 else 0)
                          + m.stride * m.h + (if m.cf == RGB565A8 then m.stride / 2 * m.h else 0)
  {
    AreaIsZero(m.w, m.h);
    AreaIsProduct(m.stride, m.h);
    AreaIsProduct(m.stride / 2, m.h);
  }

  // ---------------------------------------------------------------- adjusting and adjusting back

  function Adjusted(m: Image, stride: nat): Image {
    m.(stride := stride, data := Restrided(m, stride))
  }

  /** Everything a smaller stride cuts off is zero: in the bitmap and in the alpha plane. */
  predicate PaddingIsZero(m: Image, stride: nat)
    requires Consistent(m) && DataLen(m) > 0 && !PaletteMiscounted(m)
  {
    PlanesHold(m);
    (stride < m.stride ==> ZeroPadded(Drop(m.data, PaletteSize(m.cf)), m.h, m.stride, stride))
    && (m.cf == RGB565A8 && stride / 2 < m.stride / 2
        ==> ZeroPadded(Last(m.data, AlphaSize(m)), m.h, m.stride / 2, stride / 2))
  }

  lemma FrontBack(palette: seq<Byte>, bitmap: seq<Byte>, alpha: seq<Byte>)
    ensures Take(palette + bitmap + alpha, |palette|) == palette
    ensures Drop(palette + bitmap + alpha, |palette|) == bitmap + alpha
    ensures Last(palette + bitmap + alpha, |alpha|) == alpha + (if alpha == [] then palette + bitmap else [])
  {
    var whole := palette + bitmap + alpha;
    assert whole == palette + (bitmap + alpha);
    if alpha == [] {
      assert whole == palette + bitmap;
      assert [] + whole == whole;
    } else {
      assert whole[|whole| - |alpha|..] == alpha;
      assert alpha + [] == alpha;
    }
  }

  lemma SameParts(palette: seq<Byte>, x: seq<Byte>, y: seq<Byte>, bitmap: seq<Byte>, alpha: seq<Byte>)
    requires |x| == |bitmap|
    ensures palette + x + y == palette + bitmap + alpha <==> x == bitmap && y == alpha
  {
    SameHalves(palette + x, y, palette + bitmap, alpha);
    SameHalves(palette, x, palette, bitmap);
  }

  function AlphaPlane(m: Image): seq<Byte>
    requires Consistent(m) && DataLen(m) > 0 && !PaletteMiscounted(m)
  {
    PlanesHold(m);
    if m.cf == RGB565A8 then Plane(Last(m.data, AlphaSize(m)), m.h, m.stride / 2) else []
  }

  lemma ThreeParts(data: seq<Byte>, a: nat, b: nat, c: nat)
    requires |data| == a + b + c
    ensures data == data[..a] + data[a..][..b] + data[|data| - c..]
  {
  }

  /** A consistent image is its palette, its bitmap and its alpha plane. */
  lemma Parts(m: Image)
    requires Consistent(m) && DataLen(m) > 0 && !PaletteMiscounted(m)
    ensures Holds(Drop(m.data, PaletteSize(m.cf)), m.h, m.stride)
    ensures m.data == Take(m.data, PaletteSize(m.cf)) + Plane(Drop(m.data, PaletteSize(m.cf)), m.h, m.stride)
                      + AlphaPlane(m)
  {
    Layout(m);
    PlanesHold(m);
    PlaneIsPrefix(Drop(m.data, PaletteSize(m.cf)), m.h, m.stride);
    if m.cf == RGB565A8 {
      PlaneIsPrefix(Last(m.data, AlphaSize(m)), m.h, m.stride / 2);
      ThreeParts(m.data, PaletteSize(m.cf), Area(m.stride, m.h), AlphaSize(m));
    } else {
      ThreeParts(m.data, PaletteSize(m.cf), Area(m.stride, m.h), 0);
    }
  }

  lemma BitmapBack(bitmap: seq<Byte>, h: nat, current: nat, target: nat, more: seq<Byte>)
    requires Holds(bitmap, h, current)
    ensures |ChangeStride(ChangeStride(bitmap, h, current, target) + more, h, target, current)| == Area(current, h)
    ensures |Plane(bitmap, h, current)| == Area(current, h)
  {
    ChangedLength(bitmap, h, current, target);
    HoldsIff(ChangeStride(bitmap, h, current, target) + more, h, target);
    ChangedLength(ChangeStride(bitmap, h, current, target) + more, h, target, current);
    PlaneIsPrefix(bitmap, h, current);
  }

  lemma AlphaBack(m: Image, stride: nat)
    requires Consistent(m) && DataLen(m) > 0 && m.cf == RGB565A8
    ensures Holds(Last(m.data, AlphaSize(m)), m.h, m.stride / 2)
    ensures RestridedAlpha(Adjusted(m, stride), m.stride) == AlphaPlane(m)
            <==> (stride / 2 < m.stride / 2 ==> ZeroPadded(Last(m.data, AlphaSize(m)), m.h, m.stride / 2, stride / 2))
  {
    PlanesHold(m);
    var palette, bitmap := Take(m.data, PaletteSize(m.cf)), Drop(m.data, PaletteSize(m.cf));
    var front, alpha := ChangeStride(bitmap, m.h, m.stride, stride), RestridedAlpha(m, stride);
    var more := if alpha == [] then palette + front else [];
    ChangedLength(Last(m.data, AlphaSize(m)), m.h, m.stride / 2, stride / 2);
    FrontBack(palette, front, alpha);
    ChangeThenRestore(Last(m.data, AlphaSize(m)), m.h, m.stride / 2, stride / 2, more);
  }

  /** Back at its old stride a changed image is what it was exactly when only zeros were cut off. */
  lemma BackAgainIff(m: Image, stride: nat)
    requires Consistent(m) && DataLen(m) > 0 && !PaletteMiscounted(m)
    ensures Restrided(Adjusted(m, stride), m.stride) == m.data <==> PaddingIsZero(m, stride)
  {
    var palette, bitmap := Take(m.data, PaletteSize(m.cf)), Drop(m.data, PaletteSize(m.cf));
    var front, alpha := ChangeStride(bitmap, m.h, m.stride, stride), RestridedAlpha(m, stride);
    PlanesHold(m);
    PaletteSplits(m, palette, bitmap);
    FrontBack(palette, front, alpha);
    BitmapBack(bitmap, m.h, m.stride, stride, alpha);
    ChangeThenRestore(bitmap, m.h, m.stride, stride, alpha);
    if m.cf == RGB565A8 {
      AlphaBack(m, stride);
    }
    Parts(m);
    SameParts(palette, ChangeStride(front + alpha, m.h, stride, m.stride),
              RestridedAlpha(Adjusted(m, stride), m.stride),
              Plane(bitmap, m.h, m.stride), AlphaPlane(m));
  }

  /** With its palette miscounted a changed image never comes back. */
  lemma MiscountedNeverBack(m: Image, stride: nat)
    requires Consistent(m) && DataLen(m) > 0 && PaletteMiscounted(m) && stride > 0 && stride != m.stride
    ensures |Restrided(Adjusted(m, stride), m.stride)| > |m.data|
  {
    var r := Adjusted(m, stride);
    MiscountedLength(m, stride);
    AreaIsZero(m.stride, m.h);
    AreaIsZero(stride, m.h);
    if stride > m.stride {
      MiscountedLength(r, m.stride);
    } else {
      GrownLength(Drop(r.data, PaletteSize(m.cf)), m.h, stride, m.stride);
      AreaAdds(stride, m.stride - stride, m.h);
    }
  }

  /**
   * Going to any accepted stride and back is the identity exactly when the stride did not change, or
   * the image has data and counts its palette, neither stride is zeroed or refused, and a smaller
   * stride cut off nothing but zeros. A larger stride cuts off nothing.
   */
  lemma RestoredIff(m: Image, stride: nat, align: int)
    requires Consistent(m) && m.stride > 0 && Restride(m, stride).Ok?
    ensures StrideAdjusted(Restride(m, stride).value, m.stride, align) == Ok(m)
            <==> stride == m.stride
                 || (DataLen(m) > 0 && !PaletteMiscounted(m)
                     && stride > 0 && m.stride >= StrideDefault(m.cf, m.w) && PaddingIsZero(m, stride))
  {
    if stride != m.stride && DataLen(m) > 0 && stride > 0 && m.stride >= StrideDefault(m.cf, m.w) {
      HasRows(m, stride);
      if PaletteMiscounted(m) {
        MiscountedNeverBack(m, stride);
      } else {
        BackAgainIff(m, stride);
      }
    }
  }

  lemma HasRows(m: Image, stride: nat)
    requires DataLen(m) > 0 && stride > 0
    ensures DataLen(Adjusted(m, stride)) > 0
  {
    AreaIsZero(m.w, m.h);
    AreaIsZero(stride, m.h);
    AreaIsZero(m.stride, m.h);
    AreaIsZero(m.stride / 2, m.h);
  }

  /** to_png drops the padding of its rows and restores the stride: when that leaves the image as it was. */
  lemma PngKeepsImageIff(m: Image)
    requires Consistent(m)
    ensures StrideAdjusted(m, 0, 1).Ok?
    ensures
      var d := StrideDefault(m.cf, m.w);
      StrideAdjusted(StrideAdjusted(m, 0, 1).value, m.stride, 1) == Ok(m)
      <==> m.stride == 0 || m.stride == d
           || (DataLen(m) > 0 && !PaletteMiscounted(m) && 0 < d < m.stride && PaddingIsZero(m, d))
  {
    if m.stride > 0 {
      RestoredIff(m, StrideDefault(m.cf, m.w), 1);
    }
  }

  // ---------------------------------------------------------------- the tool's image object

  /** Python's data[from:to] for from <= to. */
  function Slice(data: seq<Byte>, from: nat, to: nat): seq<Byte>
    requires from <= to
  {
    data[Min(from, |data|)..Min(to, |data|)]
  }

  /** What the loop appends for the row that starts at `start`. */
  function RowFrom(data: seq<Byte>, start: nat, current: nat, target: nat): seq<Byte> {
    if target < current then Slice(data, start, start + target)
    else Slice(data, start, start + current) + Zeros(target - current)
  }

  lemma RowFits(data: seq<Byte>, start: nat, current: nat, target: nat)
    ensures
      var rest := Drop(data, start);
      RowFrom(data, start, current, target) == FitRow(rest[..Min(current, |rest|)], current, target)
      && rest[Min(current, |rest|)..] == Drop(data, start + current)
  {
    var rest := Drop(data, start);
    assert rest[..Min(current, |rest|)] == Slice(data, start, start + current);
    if target < current {
      assert rest[..Min(current, |rest|)][..Min(target, Min(current, |rest|))] == Slice(data, start, start + target);
    }
  }

  lemma RowAppended(out: seq<Byte>, data: seq<Byte>, start: nat, n: nat, current: nat, target: nat)
    requires n > 0
    ensures out + ChangeStride(Drop(data, start), n, current, target)
            == out + RowFrom(data, start, current, target)
               + ChangeStride(Drop(data, start + current), n - 1, current, target)
  {
    RowFits(data, start, current, target);
    Joined(out, RowFrom(data, start, current, target),
           ChangeStride(Drop(data, start + current), n - 1, current, target));
  }

  lemma Joined(a: seq<Byte>, b: seq<Byte>, c: seq<Byte>)
    ensures a + (b + c) == a + b + c
  {
  }

  /** change_stride: every row cut or padded, then joined. */
  method ChangedStride(data: seq<Byte>, h: nat, current: nat, target: nat) returns (out: seq<Byte>)
    ensures out == ChangeStride(data, h, current, target)
  {
    out := [];
    var i: nat, start: nat := 0, 0;
    while i < h
      invariant i <= h
      invariant out + ChangeStride(Drop(data, start), h - i, current, target) == ChangeStride(data, h, current, target)
    {
      RowAppended(out, data, start, h - i, current, target);
      if target < current {
        out := out + Slice(data, start, start + target);
      } else {
        out := out + (Slice(data, start, start + current) + Zeros(target - current));
      }
      i, start := i + 1, start + current;
    }
  }

  class LvglImage {
    var cf: ColorFormat
    var w: Dimension
    var h: Dimension
    var stride: nat
    var data: seq<Byte>

    constructor ()
      ensures Value() == Image(UNKNOWN, 0, 0, 0, [])
    {
      cf, w, h, stride, data := UNKNOWN, 0, 0, 0, [];
    }

    function Value(): Image
      reads this
    {
      Image(cf, w, h, stride, data)
    }

    /**
     * Everything but the data is stored before the length is checked, so a refusal for its length
     * leaves the old data under the new header.
     */
    method SetData(newCf: ColorFormat, newW: nat, newH: nat, newData: seq<Byte>, newStride: nat) returns (ok: bool)
      modifies this
      ensures newW > 0xffff || newH > 0xffff ==> !ok && Value() == old(Value())
      ensures newW <= 0xffff && newH <= 0xffff ==>
        var s := if newStride == 0 then StrideDefault(newCf, newW) else newStride;
        ok == Consistent(Image(newCf, newW, newH, s, newData))
        && Value() == Image(newCf, newW, newH, s, if ok then newData else old(data))
      ensures ok ==> Consistent(Value())
    {
      if newW > 0xffff || newH > 0xffff {
        return false;
      }
      cf, w, h := newCf, newW, newH;
      stride := if newStride == 0 then StrideDefault(newCf, newW) else newStride;
      if DataLen(Value()) != |newData| {
        return false;
      }
      data := newData;
      ok := true;
    }

    /** A refusal changes nothing. */
    method AdjustStride(newStride: int, align: int) returns (ok: bool)
      modifies this
      ensures ok == StrideAdjusted(old(Value()), newStride, align).Ok?
      ensures Value() == if ok then StrideAdjusted(old(Value()), newStride, align).value else old(Value())
    {
      if stride == 0 {
        return true;
      }
      var target: nat;
      if align >= 1 && newStride == 0 {
        target := StrideAligned(cf, w, align);
      } else if newStride > 0 {
        target := newStride;
      } else {
        return false;
      }
      ok := ChangeTo(target);
    }

    method ChangeTo(target: nat) returns (ok: bool)
      modifies this
      ensures ok == Restride(old(Value()), target).Ok?
      ensures Value() == if ok then Restride(old(Value()), target).value else old(Value())
    {
      if stride == target {
        return true;
      }
      if DataLen(Value()) == 0 {
        stride := 0;
        return true;
      }
      if target < StrideDefault(cf, w) {
        return false;
      }
      data := NewData(target);
      stride := target;
      ok := true;
    }

    method NewData(target: nat) returns (out: seq<Byte>)
      ensures out == Restrided(Value(), target)
    {
      var palette := Take(data, PaletteSize(cf));
      var bitmap := ChangedStride(Drop(data, PaletteSize(cf)), h, stride, target);
      out := palette + bitmap;
      if cf == RGB565A8 {
        var alpha := ChangedStride(Last(data, AlphaSize(Value())), h, stride / 2, target / 2);
        out := out + alpha;
      }
      EndsThere(palette + bitmap);
    }
  }
}
