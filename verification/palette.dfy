/** `getRandomColor`: despite its name a deterministic map from an `Int` to
    one of ten palette slots, chosen by `abs(i) % 10` in Kotlin arithmetic,
    with the resource id 0 as the fallback branch. */
module Palette {
  import opened KotlinInt

  /** The Material colour resources the palette names (`R.color.md_*`).
      Orange fills two slots, so there are nine distinct colours. */
  datatype Colour =
    | Black1000 | Blue500 | Green500 | Red500 | Orange500
    | Pink500 | Amber500 | BlueGrey500 | Yellow500

  /** What `getRandomColor` returns: a colour resource, or the literal 0 of
      its `else` branch. */
  datatype ColourRef = Res(colour: Colour) | Zero

  /** The colour of each of the ten slots, in the order of the `when`. */
  function SlotColour(slot: nat): (r: Colour)
    requires slot < 10
  {
    match slot
    case 0 => Black1000
    case 1 => Blue500
    case 2 => Green500
    case 3 => Red500
    case 4 => Orange500
    case 5 => Pink500
    case 6 => Amber500
    case 7 => BlueGrey500
    case 8 => Orange500
    case _ => Yellow500
  }

  /** `getRandomColor(i)`: the slot `abs(i) % 10`, computed with Kotlin's
      overflowing `abs` and truncating `%`. For every `Int` but
      `Int.MIN_VALUE` that is the slot of the mathematical `|i| mod 10`; the
      fallback 0 is reached for `Int.MIN_VALUE` and nothing else. */
  function RandomColor(i: int): (r: ColourRef)
    requires IsInt32(i)
    ensures i != MinInt ==> r == Res(SlotColour(MathAbs(i) % 10))
    ensures r == Zero <==> i == MinInt
  {
    var k := Rem(Abs(i), 10);
    if 0 <= k < 10 then Res(SlotColour(k)) else Zero
  }

  /** `abs(Int.MIN_VALUE)` stays negative, `% 10` gives -8, and the `else`
      branch returns 0: the one input that reaches the fallback. */
  lemma RandomColorOfMinInt()
    ensures Rem(Abs(MinInt), 10) == -8
    ensures RandomColor(MinInt) == Zero
  {
  }

  /** The colour depends on `i` only through `|i| mod 10`. */
  lemma RandomColorDependsOnlyOnSlot(i: int, j: int)
    requires IsInt32(i) && IsInt32(j) && i != MinInt && j != MinInt
    requires MathAbs(i) % 10 == MathAbs(j) % 10
    ensures RandomColor(i) == RandomColor(j)
  {
  }

  /** `i` and `-i` get the same colour. */
  lemma RandomColorSymmetric(i: int)
    requires IsInt32(i) && i != MinInt
    ensures RandomColor(-i) == RandomColor(i)
  {
  }

  /** Period 10 on each side of zero: shifting by ten without crossing zero
      keeps the colour. */
  lemma RandomColorPeriodic(i: int)
    requires IsInt32(i) && IsInt32(i + 10) && i != MinInt
    requires i >= 0 || i + 10 <= 0
    ensures RandomColor(i + 10) == RandomColor(i)
  {
  }

  /** Across zero the period breaks: -3 lands in slot 3 (red) and 7 in slot
      7 (blue grey), because the slot is taken of the absolute value. */
  lemma RandomColorNotPeriodicAcrossZero()
    ensures RandomColor(-3) == Res(Red500)
    ensures RandomColor(7) == Res(BlueGrey500)
    ensures RandomColor(-3) != RandomColor(-3 + 10)
  {
  }

  /** Two slots share a colour only when they are the same slot or are the
      two orange slots, 4 and 8. */
  lemma SlotColourCollisions(a: nat, b: nat)
    requires a < 10 && b < 10
    ensures SlotColour(a) == SlotColour(b) <==> a == b || (a == 4 && b == 8) || (a == 8 && b == 4)
  {
  }
}
