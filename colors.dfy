/** Colours: System.Drawing.Color as its four ARGB bytes, and the ColorInfo record (Models/ColorInfo.cs). */
module Colors {

  /** The alpha, red, green and blue bytes of a System.Drawing.Color; the rest of Color is not modelled. */
  datatype Color = Color(a: bv8, r: bv8, g: bv8, b: bv8)

  /** Color.LightGray is #FFD3D3D3 and Color.Black is #FF000000. */
  const LightGray: Color := Color(0xFF, 0xD3, 0xD3, 0xD3)
  const Black: Color := Color(0xFF, 0x00, 0x00, 0x00)

  /**
   * The record ColorInfo(int A, int R, int G, int B). Each component is the 32-bit pattern of a C# int,
   * so the shifts and the bitwise or of ToArgbInt are exactly bv32 operations.
   */
  datatype ColorInfo = ColorInfo(a: bv32, r: bv32, g: bv32, b: bv32) {

    /** Every component fits in one byte, as it does for anything built by FromColor. */
    predicate InByteRange() {
      a < 256 && r < 256 && g < 256 && b < 256
    }

    /** (A << 24) | (R << 16) | (G << 8) | B, as the bit pattern of the C# int result. */
    function ToArgbInt(): bv32 {
      (a << 24) | (r << 16) | (g << 8) | b
    }
  }

  /** ColorInfo.FromColor: widen each byte of the colour into the record. */
  function FromColor(c: Color): (ci: ColorInfo)
    ensures ci.InByteRange()
    ensures ci.a as bv8 == c.a && ci.r as bv8 == c.r && ci.g as bv8 == c.g && ci.b as bv8 == c.b
  {
    ColorInfo(c.a as bv32, c.r as bv32, c.g as bv32, c.b as bv32)
  }

  /** Reads the four bytes back out of a packed ARGB word by shift and mask. */
  function ColorOfArgb(w: bv32): Color {
    Color((w >> 24) as bv8, ((w >> 16) & 0xFF) as bv8, ((w >> 8) & 0xFF) as bv8, (w & 0xFF) as bv8)
  }

  /** With components in 0..255, B sits in bits 0-7, G in 8-15, R in 16-23 and A in 24-31. */
  lemma ArgbLayout(ci: ColorInfo)
    requires ci.InByteRange()
    ensures ci.ToArgbInt() & 0xFF == ci.b
    ensures (ci.ToArgbInt() >> 8) & 0xFF == ci.g
    ensures (ci.ToArgbInt() >> 16) & 0xFF == ci.r
    ensures ci.ToArgbInt() >> 24 == ci.a
  {
  }

  /** Packing a colour's bytes and reading them back gives the same colour. */
  lemma {:induction false} ArgbRoundTrip(c: Color)
    ensures ColorOfArgb(FromColor(c).ToArgbInt()) == c
  {
    ArgbLayout(FromColor(c));
  }

  /** Outside 0..255 the components overlap: a green of 256 packs like a red of 1. */
  lemma ArgbOverlapsOutsideBytes()
    ensures ColorInfo(0, 0, 256, 0).ToArgbInt() == ColorInfo(0, 1, 0, 0).ToArgbInt()
  {
  }
}
