/** Kotlin `Int` arithmetic on Dafny's unbounded integers: the 32-bit
    two's-complement range, `kotlin.math.abs`, the truncating remainder `%`,
    wrapping subtraction and Android's `Color.argb` packing. */
module KotlinInt {

  const MinInt: int := -0x8000_0000
  const MaxInt: int := 0x7fff_ffff
  const TwoTo32: int := 0x1_0000_0000

  /** `x` is a value of Kotlin's `Int`. */
  predicate IsInt32(x: int) {
    MinInt <= x <= MaxInt
  }

  /** The mathematical absolute value, used only to state properties. */
  function MathAbs(x: int): (r: nat)
    ensures r == x || r == -x
  {
    if x < 0 then -x else x
  }

  /** Reduces an integer modulo 2^32 into the `Int` range, as every
      overflowing `Int` operation does on the JVM. */
  function Wrap(x: int): (r: int)
    ensures IsInt32(r)
    ensures (x - r) % TwoTo32 == 0
    ensures IsInt32(x) ==> r == x
  {
    (x - MinInt) % TwoTo32 + MinInt
  }

  /** `kotlin.math.abs(i)`: negation overflows for `Int.MIN_VALUE`, which
      therefore is its own absolute value. */
  function Abs(i: int): (r: int)
    requires IsInt32(i)
    ensures IsInt32(r)
    ensures i != MinInt ==> r == MathAbs(i)
    ensures i == MinInt ==> r == MinInt
  {
    Wrap(if i < 0 then -i else i)
  }

  /** Kotlin's `a / b` on `Int` for a positive divisor: division truncated
      toward zero. */
  function Quot(a: int, b: int): (r: int)
    requires b > 0
  {
    if a >= 0 then a / b else -((-a) / b)
  }

  /** Kotlin's `a % b` on `Int` for a positive divisor: the remainder of
      division truncated toward zero, so it takes the sign of `a`. */
  function Rem(a: int, b: int): (r: int)
    requires b > 0
    ensures a == b * Quot(a, b) + r
    ensures -b < r < b
    ensures a >= 0 ==> r >= 0
    ensures a <= 0 ==> r <= 0
  {
    if a >= 0 then a % b else -((-a) % b)
  }

  /** Kotlin's `a - b` on `Int`, wrapping on overflow. */
  function Sub(a: int, b: int): (r: int)
    requires IsInt32(a) && IsInt32(b)
    ensures IsInt32(r)
    ensures (a - b - r) % TwoTo32 == 0
    ensures IsInt32(a - b) ==> r == a - b
  {
    Wrap(a - b)
  }

  /** The unsigned 32-bit reading of an `Int`, as `ushr`/`and` see its bits. */
  function Unsigned(x: int): (r: nat)
    requires IsInt32(x)
    ensures r < TwoTo32
    ensures (r - x) % TwoTo32 == 0
  {
    if x < 0 then x + TwoTo32 else x
  }

  /** A colour channel value. */
  predicate IsChannel(c: int) {
    0 <= c < 256
  }

  /** Android's `Color.argb(alpha, red, green, blue)`: the four channels
      packed into one `Int`, alpha in the top byte; each channel reads back
      unchanged, so the packing loses nothing. */
  function Argb(alpha: int, red: int, green: int, blue: int): (r: int)
    requires IsChannel(alpha) && IsChannel(red) && IsChannel(green) && IsChannel(blue)
    ensures IsInt32(r)
    ensures alpha >= 128 <==> r < 0
    ensures Alpha(r) == alpha && Red(r) == red && Green(r) == green && Blue(r) == blue
  {
    var packed := alpha * 0x100_0000 + red * 0x1_0000 + green * 0x100 + blue;
    UnpackChannels(alpha, red, green, blue);
    Wrap(packed)
  }

  /** The alpha channel of a packed colour: `color ushr 24`. */
  function Alpha(color: int): (r: int)
    requires IsInt32(color)
    ensures IsChannel(r)
  {
    Unsigned(color) / 0x100_0000
  }

  /** The red channel of a packed colour: `(color shr 16) and 0xff`. */
  function Red(color: int): (r: int)
    requires IsInt32(color)
    ensures IsChannel(r)
  {
    (Unsigned(color) / 0x1_0000) % 0x100
  }

  /** The green channel of a packed colour: `(color shr 8) and 0xff`. */
  function Green(color: int): (r: int)
    requires IsInt32(color)
    ensures IsChannel(r)
  {
    (Unsigned(color) / 0x100) % 0x100
  }

  /** The blue channel of a packed colour: `color and 0xff`. */
  function Blue(color: int): (r: int)
    requires IsInt32(color)
    ensures IsChannel(r)
  {
    Unsigned(color) % 0x100
  }

  /** Wrapping a non-negative value below 2^32 and reading its bits back as
      unsigned gives the value itself. */
  lemma UnsignedOfWrap(p: int)
    requires 0 <= p < TwoTo32
    ensures Unsigned(Wrap(p)) == p
  {
  }

  /** The arithmetic behind `Argb`'s round trip: each channel is the
      quotient or remainder of the packed value by a power of 256. */
  lemma UnpackChannels(alpha: int, red: int, green: int, blue: int)
    requires IsChannel(alpha) && IsChannel(red) && IsChannel(green) && IsChannel(blue)
    ensures var p := alpha * 0x100_0000 + red * 0x1_0000 + green * 0x100 + blue;
      0 <= p < TwoTo32 &&
      Unsigned(Wrap(p)) == p &&
      p / 0x100_0000 == alpha &&
      (p / 0x1_0000) % 0x100 == red &&
      (p / 0x100) % 0x100 == green &&
      p % 0x100 == blue
  {
    var p := alpha * 0x100_0000 + red * 0x1_0000 + green * 0x100 + blue;
    UnsignedOfWrap(p);
    var low := red * 0x1_0000 + green * 0x100 + blue;
    assert 0 <= low < 0x100_0000;
    assert p / 0x1_0000 == alpha * 0x100 + red;
    assert p / 0x100 == alpha * 0x1_0000 + red * 0x100 + green;
  }
}
