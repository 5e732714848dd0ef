/** The styling applied while binding one grid cell (the randomize and
    shadow branches of `onBindViewHolder`), with `java.util.Random` replaced
    by an explicit stream of draws. Only the parameter values handed to the
    drawable are modelled, not the drawing. */
module StylePolicy {
  import opened Wrappers
  import opened KotlinInt
  import opened Palette

  /** How a palette value reaches the drawable: as a colour resource id
      (`toIconicsColorRes`) or as the integer itself read as an ARGB colour
      (`toIconicsColor`). */
  datatype ColourArg = AsRes(ref: ColourRef) | AsArgb(ref: ColourRef)

  /** Background and rounded corners, applied together or not at all. */
  datatype Rounding = Rounding(background: ColourArg, cornerRadiusDp: nat)

  /** The parameters of the randomize branch. */
  datatype Randomized = Randomized(
    fill: ColourArg,
    paddingDp: nat,
    contourWidthDp: nat,
    contourColour: ColourArg,
    rounding: Option<Rounding>)

  /** The parameters of the shadow branch: radius and offsets in dp and the
      packed ARGB colour. */
  datatype Shadow = Shadow(radiusDp: nat, dxDp: nat, dyDp: nat, argb: int)

  /** Everything the binding sets on one cell's icon; `None` means that
      branch did not run and the icon keeps what `bindView` gave it. */
  datatype Style = Style(randomized: Option<Randomized>, shadow: Option<Shadow>)

  /** A style together with the number of draws taken from the stream. */
  datatype Bound = Bound(style: Style, used: nat)

  /** The styles of a run of bindings and the draws the run took. */
  datatype Run = Run(styles: seq<Style>, used: nat)

  /** The most draws one binding takes. */
  const MaxDraws: nat := 4

  /** The fixed shadow of the shadow branch: 1 dp radius, 1 dp offsets,
      `Color.argb(200, 0, 0, 0)`. */
  function FixedShadow(): (r: Shadow)
    ensures r.radiusDp == 1 && r.dxDp == 1 && r.dyDp == 1
    ensures IsInt32(r.argb) && r.argb == -0x3800_0000
    ensures Alpha(r.argb) == 200 && Red(r.argb) == 0 && Green(r.argb) == 0 && Blue(r.argb) == 0
  {
    Shadow(1, 1, 1, Argb(200, 0, 0, 0))
  }

  /** One value drawn from the stream and the stream that remains. */
  datatype Draw = Draw(value: nat, rest: seq<nat>)

  /** `Random.nextInt(bound)` on the stream: the next draw reduced into
      `[0, bound)`. Every value in range is the result of some draw, so any
      generator's behaviour is one stream. */
  function NextInt(stream: seq<nat>, bound: nat): (d: Draw)
    requires |stream| > 0 && bound > 0
    ensures d.value < bound
    ensures stream[0] < bound ==> d.value == stream[0]
    ensures d.rest == stream[1..]
  {
    Draw(stream[0] % bound, stream[1..])
  }

  /** The `k`-th draw of the stream as a `nextInt(bound)` would see it. */
  function DrawAt(stream: seq<nat>, k: nat, bound: nat): (r: nat)
    requires k < |stream| && bound > 0
    ensures r < bound
  {
    stream[k] % bound
  }

  /** The background-and-corners decision: `y % 4 == 0` for a draw `y`
      below 10, that is `y` one of 0, 4, 8. */
  predicate Rounds(y: nat) {
    y % 4 == 0
  }

  /** Binds the cell at `position`: with randomize on, draws padding in
      `[0,12)`, contour width in `[0,2)` and the decision `y` in `[0,10)`,
      then, when `y % 4 == 0`, a corner radius `2 + nextInt(10)`; fill,
      contour and background colours come from `getRandomColor` at
      `position`, `position - 2` and `position - 4`. The shadow follows its
      own flag. */
  function Bind(position: int, randomize: bool, shadow: bool, stream: seq<nat>): (b: Bound)
    requires IsInt32(position)
    requires randomize ==> |stream| >= MaxDraws
    ensures b.used <= |stream|
    ensures !randomize ==> b.used == 0
    ensures randomize ==> 3 <= b.used <= MaxDraws
  {
    var shadowPart := if shadow then Some(FixedShadow()) else None;
    if !randomize then Bound(Style(None, shadowPart), 0)
    else
      var padding := NextInt(stream, 12);
      var contourWidth := NextInt(padding.rest, 2);
      var y := NextInt(contourWidth.rest, 10);
      var fill := AsRes(RandomColor(position));
      var contour := AsArgb(RandomColor(Sub(position, 2)));
      if Rounds(y.value) then
        var radius := NextInt(y.rest, 10);
        var rounding := Rounding(AsRes(RandomColor(Sub(position, 4))), 2 + radius.value);
        Bound(Style(Some(Randomized(fill, padding.value, contourWidth.value, contour, Some(rounding))), shadowPart), 4)
      else
        Bound(Style(Some(Randomized(fill, padding.value, contourWidth.value, contour, None)), shadowPart), 3)
  }

  /** The draw order and the parameters of one binding: padding, contour
      width and the decision are the first three draws in that order, the
      corner radius is the fourth and is drawn exactly when the decision is
      0, 4 or 8; the colours are the palette at `position`, `position - 2`
      (handed over as an ARGB int) and `position - 4`; the shadow follows its
      flag alone. */
  lemma BindParameters(position: int, randomize: bool, shadow: bool, stream: seq<nat>)
    requires IsInt32(position)
    requires randomize ==> |stream| >= MaxDraws
    ensures var b := Bind(position, randomize, shadow, stream);
      && (!randomize <==> b.style.randomized.None?)
      && (shadow <==> b.style.shadow == Some(FixedShadow()))
      && (!shadow <==> b.style.shadow.None?)
      && (randomize ==>
        var p := b.style.randomized.value;
        && p.fill == AsRes(RandomColor(position))
        && p.contourColour == AsArgb(RandomColor(Sub(position, 2)))
        && p.paddingDp == DrawAt(stream, 0, 12) < 12
        && p.contourWidthDp == DrawAt(stream, 1, 2) < 2
        && (p.rounding.Some? <==> DrawAt(stream, 2, 10) in {0, 4, 8})
        && (p.rounding.Some? ==> b.used == 4 && p.rounding.value == Rounding(
              AsRes(RandomColor(Sub(position, 4))), 2 + DrawAt(stream, 3, 10)))
        && (p.rounding.None? ==> b.used == 3))
  {
  }

  /** The corner radius always lies in `[2, 11]`. */
  lemma CornerRadiusRange(position: int, shadow: bool, stream: seq<nat>)
    requires IsInt32(position) && |stream| >= MaxDraws
    ensures var p := Bind(position, true, shadow, stream).style.randomized;
            p.Some? && p.value.rounding.Some? ==> 2 <= p.value.rounding.value.cornerRadiusDp <= 11
  {
  }

  /** Two streams agree on their first `u` draws. */
  predicate Agree(s: seq<nat>, t: seq<nat>, u: nat) {
    u <= |s| && u <= |t| && forall i :: 0 <= i < u ==> s[i] == t[i]
  }

  /** Only the draws a binding uses matter: two streams that agree on them
      give the same binding. */
  lemma BindUsesOnlyItsDraws(position: int, randomize: bool, shadow: bool, s: seq<nat>, t: seq<nat>)
    requires IsInt32(position)
    requires randomize ==> |s| >= MaxDraws && |t| >= MaxDraws
    requires Agree(s, t, Bind(position, randomize, shadow, s).used)
    ensures Bind(position, randomize, shadow, s) == Bind(position, randomize, shadow, t)
  {
  }

  /** Binding the cells at `positions` one after another from one shared
      generator, as the adapter does while the grid is laid out: each cell
      draws after the previous one. */
  function BindAll(positions: seq<int>, randomize: bool, shadow: bool, stream: seq<nat>): (r: Run)
    requires forall k :: 0 <= k < |positions| ==> IsInt32(positions[k])
    requires randomize ==> |stream| >= 4 * |positions|
    ensures |r.styles| == |positions|
    ensures r.used <= |stream|
    ensures !randomize ==> r.used == 0
    ensures randomize ==> 3 * |positions| <= r.used <= 4 * |positions|
    decreases |positions|
  {
    if |positions| == 0 then Run([], 0)
    else
      var first := Bind(positions[0], randomize, shadow, stream);
      var rest := BindAll(positions[1..], randomize, shadow, stream[first.used..]);
      Run([first.style] + rest.styles, first.used + rest.used)
  }

  /** One step of a run: the first cell binds, the rest bind from what is
      left of the stream. */
  lemma BindAllStep(positions: seq<int>, randomize: bool, shadow: bool, stream: seq<nat>)
    requires |positions| > 0
    requires forall k :: 0 <= k < |positions| ==> IsInt32(positions[k])
    requires randomize ==> |stream| >= 4 * |positions|
    ensures var first := Bind(positions[0], randomize, shadow, stream);
            var rest := BindAll(positions[1..], randomize, shadow, stream[first.used..]);
            BindAll(positions, randomize, shadow, stream) == Run([first.style] + rest.styles, first.used + rest.used)
  {
  }

  /** Two runs that bind their first cell alike and the rest alike are
      alike. */
  lemma BindAllCongruent(positions: seq<int>, randomize: bool, shadow: bool, s: seq<nat>, t: seq<nat>, n: nat)
    requires |positions| > 0
    requires forall k :: 0 <= k < |positions| ==> IsInt32(positions[k])
    requires randomize ==> |s| >= 4 * |positions| && |t| >= 4 * |positions|
    requires Bind(positions[0], randomize, shadow, s) == Bind(positions[0], randomize, shadow, t)
    requires n == Bind(positions[0], randomize, shadow, s).used
    requires BindAll(positions[1..], randomize, shadow, s[n..]) == BindAll(positions[1..], randomize, shadow, t[n..])
    ensures BindAll(positions, randomize, shadow, s) == BindAll(positions, randomize, shadow, t)
  {
  }

  /** The styles of a run of bindings are reproducible: streams that agree on
      the draws the run consumes give the same styles. */
  lemma {:induction false} BindAllReproducible(positions: seq<int>, randomize: bool, shadow: bool, s: seq<nat>, t: seq<nat>)
    requires forall k :: 0 <= k < |positions| ==> IsInt32(positions[k])
    requires randomize ==> |s| >= 4 * |positions| && |t| >= 4 * |positions|
    requires Agree(s, t, BindAll(positions, randomize, shadow, s).used)
    ensures BindAll(positions, randomize, shadow, s) == BindAll(positions, randomize, shadow, t)
    decreases |positions|
  {
    if |positions| > 0 {
      var n := Bind(positions[0], randomize, shadow, s).used;
      var m := BindAll(positions[1..], randomize, shadow, s[n..]).used;
      BindAllStep(positions, randomize, shadow, s);
      assert Agree(s, t, n);
      BindUsesOnlyItsDraws(positions[0], randomize, shadow, s, t);
      assert Agree(s[n..], t[n..], m) by {
        forall i | 0 <= i < m ensures s[n..][i] == t[n..][i] {
          assert s[n + i] == t[n + i];
        }
      }
      BindAllReproducible(positions[1..], randomize, shadow, s[n..], t[n..]);
      BindAllCongruent(positions, randomize, shadow, s, t, n);
    }
  }

  /** With randomize off no draw is taken and each cell's style depends only
      on the shadow flag. */
  lemma {:induction false} BindAllWithoutRandomize(positions: seq<int>, shadow: bool, stream: seq<nat>)
    requires forall k :: 0 <= k < |positions| ==> IsInt32(positions[k])
    ensures BindAll(positions, false, shadow, stream).used == 0
    ensures forall k :: 0 <= k < |positions| ==>
      BindAll(positions, false, shadow, stream).styles[k] == Style(None, if shadow then Some(FixedShadow()) else None)
    decreases |positions|
  {
    if |positions| > 0 {
      BindAllWithoutRandomize(positions[1..], shadow, stream);
    }
  }
}
