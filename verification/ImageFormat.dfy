/** The colour formats of the image tool. */
module ImageFormat {
  datatype ColorFormat =
    | UNKNOWN | RAW | RAW_ALPHA
    | L8 | I1 | I2 | I4 | I8 | A1 | A2 | A4 | A8 | AL88
    | ARGB8888 | XRGB8888 | RGB565 | RGB565_SWAPPED | ARGB8565 | RGB565A8 | RGB888 | ARGB8888_PREMULTIPLIED

  /** Bits per pixel; RGB565A8 keeps its alpha bytes in a plane of their own. */
  function Bpp(cf: ColorFormat): nat {
    match cf
    case L8 | I8 | A8 => 8
    case I1 | A1 => 1
    case I2 | A2 => 2
    case I4 | A4 => 4
    case AL88 | RGB565 | RGB565_SWAPPED | RGB565A8 => 16
    case ARGB8565 | RGB888 => 24
    case ARGB8888 | XRGB8888 | ARGB8888_PREMULTIPLIED => 32
    case _ => 0
  }

  /** Palette entries of an indexed format, 0 for the others. */
  function NColors(cf: ColorFormat): nat {
    match cf
    case I1 => 2
    case I2 => 4
    case I4 => 16
    case I8 => 256
    case _ => 0
  }

  /** The bits of a pixel, format by format; the raw formats have none of their own. */
  predicate HasBits(cf: ColorFormat, bits: nat) {
    if bits == 1 then cf in {I1, A1}
    else if bits == 2 then cf in {I2, A2}
    else if bits == 4 then cf in {I4, A4}
    else if bits == 8 then cf in {L8, I8, A8}
    else if bits == 16 then cf in {AL88, RGB565, RGB565_SWAPPED, RGB565A8}
    else if bits == 24 then cf in {ARGB8565, RGB888}
    else if bits == 32 then cf in {ARGB8888, XRGB8888, ARGB8888_PREMULTIPLIED}
    else bits == 0 && cf in {UNKNOWN, RAW, RAW_ALPHA}
  }

  lemma BitsAre(cf: ColorFormat, bits: nat)
    ensures HasBits(cf, bits) <==> Bpp(cf) == bits
  {
  }

  /** An indexed format has a palette entry for every index its bits can hold, and no other has a palette. */
  lemma EveryIndexHasItsColor(cf: ColorFormat)
    ensures cf in {I1, I2, I4, I8} <==> NColors(cf) > 0
    ensures cf == I1 ==> NColors(cf) == 2
    ensures cf == I2 ==> NColors(cf) == 2 * 2
    ensures cf == I4 ==> NColors(cf) == 2 * 2 * 2 * 2
    ensures cf == I8 ==> NColors(cf) == 2 * 2 * 2 * 2 * 2 * 2 * 2 * 2
  {
  }
}
