# Android-Iconics sample: icon grid search, palette and styling rules

`IconsFragment` of the Android-Iconics sample app shows the icons of one
icon font in a grid. Most of the class is Android glue. What remains, and
what this Dafny project models, are four small rules:

- **Search** (`onSearch`): a null or empty query shows the whole catalogue;
  any other query shows, in catalogue order, the icons whose lower-cased
  name contains the lower-cased query. The query is remembered in every
  case. When the adapter does not exist yet, nothing is shown.
- **Palette** (`getRandomColor`): despite its name, a deterministic map
  from a Kotlin `Int` to ten colour slots chosen by `abs(i) % 10`, with 0
  as the fallback.
- **Randomize and shadow styling** (the `mRandomize` and `mShadow` branches
  of `onBindViewHolder`): the draws taken from the shared `java.util.Random`
  and the style parameters they produce.
- **Font selection** (the loop in `onViewCreated`): the icons of the first
  registered font whose name matches ignoring case and whose icon list is
  not null are appended to the fragment's icon list.

Modules:

- `Wrappers`: `Option`, which stands for a Kotlin nullable, and `Result`,
  which stands for a call that may throw.
- `KotlinInt`: the Kotlin `Int` operations the rules rely on. These are the
  32-bit range, `abs` (which overflows on `Int.MIN_VALUE`), the truncating
  `%`, wrapping `-` and Android's `Color.argb`.
- `AsciiText`: `toLowerCase`, `contains` and `equals(ignoreCase = true)`
  over ASCII.
- `IconCatalogue`: the search filter and the displayed view.
- `Palette`: `getRandomColor`.
- `StylePolicy`: binding one cell, and binding a run of cells from one
  shared stream of random draws.
- `FontRegistry`: the font-selection loop.
- `IconsFragment`: the fragment's fields and `randomize`, `shadow`,
  `onSearch` and `onViewCreated`.

The random generator is an explicit `seq<nat>` of draws. `nextInt(bound)`
takes the next draw reduced modulo `bound`. Every value in `[0, bound)` is
some draw's result, so every behaviour of the real generator is the
behaviour of some stream. A binding returns its style together with the
number of draws it used.

Behaviour of the code that a quick reading can miss, all modelled as
written:

- The palette is not periodic across zero. `getRandomColor(-3)` is slot 3
  and `getRandomColor(7)` is slot 7, because the slot is taken of the
  absolute value. Period 10 holds on each side of zero only.
- `abs(Int.MIN_VALUE)` is `Int.MIN_VALUE`, and `Int.MIN_VALUE % 10` is -8.
  That input is the one that reaches the fallback 0.
- Slots 4 and 8 both name `md_orange_500`. The palette therefore has nine
  distinct colours.
- The fill colour and the background colour are passed as colour
  resources (`toIconicsColorRes`). The contour colour is passed with
  `toIconicsColor`, which reads the resource id itself as an ARGB value.
  The model records which conversion each colour goes through
  (`ColourArg.AsRes` or `ColourArg.AsArgb`).
- `onViewCreated` appends the chosen font's icons to `mIcons` and never
  clears the list first. The model keeps the append.
- `fontName!!` is evaluated inside the loop. A missing `FONT_NAME` argument
  therefore throws only when at least one font is registered.

## Model

| member | source | states |
|---|---|---|
| KotlinInt.Abs | app/src/main/java/com/mikepenz/iconics/sample/IconsFragment.kt:258 | `abs(i)` is the mathematical absolute value for every `Int` except `Int.MIN_VALUE`, which stays `Int.MIN_VALUE` (negation overflows) |
| KotlinInt.Rem | app/src/main/java/com/mikepenz/iconics/sample/IconsFragment.kt:258 | Kotlin `%` by a positive divisor: `a == b * quotient + r`, `|r| < b`, and `r` has the sign of `a` (truncation toward zero, unlike Dafny's Euclidean `%`) |
| KotlinInt.Sub | app/src/main/java/com/mikepenz/iconics/sample/IconsFragment.kt:172 | `position - 2` and `position - 4` are `Int` results congruent to the true difference mod 2^32, and equal to it when it does not overflow |
| KotlinInt.Argb | app/src/main/java/com/mikepenz/iconics/sample/IconsFragment.kt:189 | `Color.argb` packs four channels into one `Int` without loss: alpha, red, green and blue each read back unchanged, and the result is negative exactly when alpha is 128 or more |
| AsciiText.Lower | app/src/main/java/com/mikepenz/iconics/sample/IconsFragment.kt:247 | `toLowerCase()` keeps the length and lower-cases each character; no upper-case letter remains |
| AsciiText.LowerIdempotent | app/src/main/java/com/mikepenz/iconics/sample/IconsFragment.kt:247 | lower-casing an already lower-cased string changes nothing |
| AsciiText.Contains | app/src/main/java/com/mikepenz/iconics/sample/IconsFragment.kt:247 | `contains` holds if and only if the query occurs as a contiguous window of the name |
| AsciiText.SubstringTransitive | app/src/main/java/com/mikepenz/iconics/sample/IconsFragment.kt:247 | an occurrence inside an occurrence is an occurrence: the substring relation is transitive |
| AsciiText.EqualsIgnoreCase | app/src/main/java/com/mikepenz/iconics/sample/IconsFragment.kt:101 | `equals(ignoreCase = true)` holds if and only if both names lower-case to the same string |
| IconCatalogue.Matches | app/src/main/java/com/mikepenz/iconics/sample/IconsFragment.kt:247 | an icon matches if and only if the lower-cased query occurs in its lower-cased name |
| IconCatalogue.IsEmpty | app/src/main/java/com/mikepenz/iconics/sample/IconsFragment.kt:241 | `TextUtils.isEmpty` holds for exactly the null query and the empty string |
| IconCatalogue.Filter | app/src/main/java/com/mikepenz/iconics/sample/IconsFragment.kt:245-250 | the search loop's list is no longer than the catalogue and every icon in it matches the query |
| IconCatalogue.KeptPositions | app/src/main/java/com/mikepenz/iconics/sample/IconsFragment.kt:246-249 | the kept positions are in range and strictly increasing, and a position is kept if and only if its icon matches |
| IconCatalogue.FilterIsOrderedSelection | app/src/main/java/com/mikepenz/iconics/sample/IconsFragment.kt:245-251 | the filtered list is the catalogue read at the kept, increasing positions: an order-preserving subsequence |
| IconCatalogue.FilterMembership | app/src/main/java/com/mikepenz/iconics/sample/IconsFragment.kt:246-249 | a name is shown if and only if it is in the catalogue and its lower-cased form contains the lower-cased query |
| IconCatalogue.FilterCounts | app/src/main/java/com/mikepenz/iconics/sample/IconsFragment.kt:246-249 | a matching name is shown as many times as the catalogue holds it and a non-matching one never, so duplicates survive |
| IconCatalogue.FilterConcat | app/src/main/java/com/mikepenz/iconics/sample/IconsFragment.kt:246-250 | the loop treats each icon on its own: filtering a concatenation filters each part |
| IconCatalogue.FilterNarrows | app/src/main/java/com/mikepenz/iconics/sample/IconsFragment.kt:246-249 | when the first query occurs in the second (both lower-cased), filtering the first result by the second query equals filtering the catalogue by the second query |
| IconCatalogue.FilterIdempotent | app/src/main/java/com/mikepenz/iconics/sample/IconsFragment.kt:245-251 | re-filtering the shown list with the same query changes nothing |
| IconCatalogue.FilterIgnoresCase | app/src/main/java/com/mikepenz/iconics/sample/IconsFragment.kt:247 | queries that are equal after lower-casing select the same icons |
| IconCatalogue.View | app/src/main/java/com/mikepenz/iconics/sample/IconsFragment.kt:241-252 | a null or empty query (`TextUtils.isEmpty`) shows the full catalogue unchanged; any other query shows the catalogue filtered by it (`Filter`); no view is longer than the catalogue |
| IconCatalogue.ExampleIgnoresCase | app/src/main/java/com/mikepenz/iconics/sample/IconsFragment.kt:247 | the query "HOME" keeps both "Home" and "home2" |
| Palette.RandomColor | app/src/main/java/com/mikepenz/iconics/sample/IconsFragment.kt:256-271 | for every `Int` except `Int.MIN_VALUE` the colour is the slot of the mathematical `|i| mod 10`; the fallback 0 is returned if and only if the input is `Int.MIN_VALUE` |
| Palette.RandomColorOfMinInt | app/src/main/java/com/mikepenz/iconics/sample/IconsFragment.kt:258-269 | for `Int.MIN_VALUE`, `abs(i) % 10` is -8 and the `else` branch returns 0 |
| Palette.RandomColorDependsOnlyOnSlot | app/src/main/java/com/mikepenz/iconics/sample/IconsFragment.kt:258 | inputs other than `Int.MIN_VALUE` whose absolute values agree mod 10 get the same colour |
| Palette.RandomColorSymmetric | app/src/main/java/com/mikepenz/iconics/sample/IconsFragment.kt:258 | `i` and `-i` get the same colour for every `i` except `Int.MIN_VALUE` |
| Palette.RandomColorPeriodic | app/src/main/java/com/mikepenz/iconics/sample/IconsFragment.kt:258 | shifting by 10 without crossing zero keeps the colour |
| Palette.RandomColorNotPeriodicAcrossZero | app/src/main/java/com/mikepenz/iconics/sample/IconsFragment.kt:258-267 | -3 gives red (slot 3) and 7 gives blue grey (slot 7), so period 10 fails across zero |
| Palette.SlotColourCollisions | app/src/main/java/com/mikepenz/iconics/sample/IconsFragment.kt:259-268 | two slots share a colour only if they are the same slot or are slots 4 and 8 (both orange) |
| StylePolicy.FixedShadow | app/src/main/java/com/mikepenz/iconics/sample/IconsFragment.kt:185-190 | the shadow has radius 1 dp and offsets of 1 dp, and its colour is black at alpha 200 (red, green and blue 0), the `Int` -0x38000000 |
| StylePolicy.NextInt | app/src/main/java/com/mikepenz/iconics/sample/IconsFragment.kt:170 | `nextInt(bound)` yields a value below `bound`, equal to the draw when the draw is in range, and consumes exactly one draw |
| StylePolicy.Bind | app/src/main/java/com/mikepenz/iconics/sample/IconsFragment.kt:167-191 | binding one cell takes no draws when randomize is off, and three or four draws when it is on |
| StylePolicy.BindParameters | app/src/main/java/com/mikepenz/iconics/sample/IconsFragment.kt:167-191 | draw order is padding in [0,12), contour width in [0,2), then decision y in [0,10); a fourth draw (radius 2 + draw) and a background happen exactly when y is 0, 4 or 8; fill, contour and background colours are the palette at position, position-2 (as an ARGB int) and position-4; the shadow is present exactly when its flag is set |
| StylePolicy.CornerRadiusRange | app/src/main/java/com/mikepenz/iconics/sample/IconsFragment.kt:178 | the corner radius lies in [2, 11] dp |
| StylePolicy.BindUsesOnlyItsDraws | app/src/main/java/com/mikepenz/iconics/sample/IconsFragment.kt:167-179 | two streams that agree on the draws a binding uses give the same binding |
| StylePolicy.BindAll | app/src/main/java/com/mikepenz/iconics/sample/IconsFragment.kt:150-193 | binding a run of cells from the shared generator gives one style per cell, and takes no draws with randomize off and between 3 and 4 draws per cell with it on |
| StylePolicy.BindAllReproducible | app/src/main/java/com/mikepenz/iconics/sample/IconsFragment.kt:150-193 | a run of bindings is reproducible: streams that agree on the draws it consumes give the same styles |
| StylePolicy.BindAllWithoutRandomize | app/src/main/java/com/mikepenz/iconics/sample/IconsFragment.kt:167-191 | with randomize off, no draw is taken and every cell's style depends only on the shadow flag |
| FontRegistry.FirstQualifying | app/src/main/java/com/mikepenz/iconics/sample/IconsFragment.kt:100-109 | the chosen font matches the name ignoring case and has icons, and no earlier font does; when none is chosen, no font qualifies |
| FontRegistry.SelectedIcons | app/src/main/java/com/mikepenz/iconics/sample/IconsFragment.kt:99-107 | the icons loaded are those of the first font that matches the name ignoring case and has icons; nothing is loaded when no font qualifies |
| FontRegistry.NullIconsSkipped | app/src/main/java/com/mikepenz/iconics/sample/IconsFragment.kt:101-102 | a leading font with null icons is passed over, whatever its name |
| FontRegistry.LoadIcons | app/src/main/java/com/mikepenz/iconics/sample/IconsFragment.kt:97-111 | the loop appends, in order, the icons of the first qualifying font, or nothing when none qualifies; a null font name throws exactly when some font is registered |
| IconsFragment.Initial | app/src/main/java/com/mikepenz/iconics/sample/IconsFragment.kt:54-58 | a new fragment has no icons, no adapter, no query, and both flags off |
| IconsFragment.SetRandomize | app/src/main/java/com/mikepenz/iconics/sample/IconsFragment.kt:62-67 | `randomize(b)` sets the flag and changes nothing else, including the shown list |
| IconsFragment.SetShadow | app/src/main/java/com/mikepenz/iconics/sample/IconsFragment.kt:69-74 | `shadow(b)` sets the flag and changes nothing else |
| IconsFragment.OnSearch | app/src/main/java/com/mikepenz/iconics/sample/IconsFragment.kt:237-254 | the query is always remembered; without an adapter nothing is shown; an empty query shows the full catalogue and any other query shows the filtered catalogue; icons and flags are untouched |
| IconsFragment.LastSearchWins | app/src/main/java/com/mikepenz/iconics/sample/IconsFragment.kt:237-254 | each search recomputes from the full catalogue, so two searches in a row equal the second one alone |
| IconsFragment.OnViewCreated | app/src/main/java/com/mikepenz/iconics/sample/IconsFragment.kt:84-114 | the selected font's icons are appended to `mIcons`, and the adapter then shows the view of the whole catalogue under the remembered query; the call throws exactly when the font name is null and some font is registered |

## Left out

- Touch handling and the preview popup (IconsFragment.kt:118-148): these create platform windows and drawables and write to the clipboard.
- Tag bookkeeping in bind and unbind, the logging fallback, and the attach, detach and recycle callbacks (IconsFragment.kt:156-165, 195-233): this is view-recycling plumbing owned by the adapter library. For the same reason, the `item != null` guard is not modelled, and every bound position is assumed to hold an item.
- The drawing calls on `IconicsDrawable` and `enableShadowSupport`: the model records only the parameter values handed to them.
- Fragment creation, the argument bundle, layout inflation and RecyclerView setup (IconsFragment.kt:76-95, 273-286): these are platform lifecycle code.
- `notifyAdapterDataSetChanged` in `randomize` and `shadow`: it only asks the platform to redraw.
- The numeric values of the `R.color` resource ids: they are generated at build time. Colours are the enum `Palette.Colour`.
- The order of `Iconics.getRegisteredFonts`: the registry decides it, so the model takes the fonts as a sequence in whatever order the registry yields.
- StylePolicy.NextInt: it reduces a draw with `% bound` instead of running `java.util.Random`'s algorithm. Every value in range is reachable, so every generator behaviour is some stream, but which streams a real seed produces is not modelled.
- StylePolicy.Bind: it requires at least four draws when randomize is on. This stands in for the real generator, which never runs out.
- StylePolicy.BindAll: it requires four draws per cell when randomize is on, for the same reason.
- AsciiText.Lower: it models `toLowerCase()` by the ASCII case mapping only. Locale-dependent and non-ASCII case mappings are not modelled, and some of those change the string's length.
- AsciiText.EqualsIgnoreCase: it compares characters by the ASCII case mapping only. Kotlin also folds non-ASCII letters.
- StylePolicy.Bind: the cell's drawable is assumed to be set by `IconItem.bindView`. When it is null, `holder.image.icon!!` (IconsFragment.kt:168, 176) throws and `icon?.shadow` (IconsFragment.kt:185) skips the shadow; neither path is modelled, and StylePolicy.BindParameters and StylePolicy.BindAll rest on the same assumption.
- IconCatalogue.Matches: every catalogue entry is a non-null name. The throw of `icon.icon!!` (IconsFragment.kt:247) on an item without a name is not modelled.
- IconsFragment.OnViewCreated: the fragment is assumed attached to its activity. `activity!!` (IconsFragment.kt:100) throws on a detached fragment, and that path is not modelled; the only throw modelled is the `fontName!!` one.
