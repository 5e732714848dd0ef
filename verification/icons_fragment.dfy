/** The state the icon screen keeps and the operations on it that are not
    platform plumbing: `randomize`, `shadow`, `onSearch` and the catalogue
    loading of `onViewCreated`. The adapter is represented by the list it
    currently shows. */
module IconsFragment {
  import opened Wrappers
  import opened IconCatalogue
  import opened FontRegistry

  /** The fragment's fields: the loaded icons (`mIcons`), the adapter's list
      (`mAdapter`, `None` before the view exists), the remembered query
      (`mSearch`) and the two styling flags. */
  datatype Fragment = Fragment(
    icons: seq<string>,
    adapter: Option<seq<string>>,
    search: Option<string>,
    randomize: bool,
    shadow: bool)

  /** A freshly constructed fragment. */
  function Initial(): (f: Fragment)
    ensures f.icons == [] && f.adapter.None? && f.search.None?
    ensures !f.randomize && !f.shadow
  {
    Fragment([], None, None, false, false)
  }

  /** The fragment's argument bundle; `fontName` is what
      `getString(FONT_NAME)` returns. */
  datatype Arguments = Arguments(fontName: Option<string>)

  /** `randomize(b)`: sets the flag; the adapter is only told to redraw, so
      its list does not change. */
  function SetRandomize(f: Fragment, b: bool): (g: Fragment)
    ensures g.randomize == b
    ensures g.icons == f.icons && g.adapter == f.adapter && g.search == f.search && g.shadow == f.shadow
  {
    f.(randomize := b)
  }

  /** `shadow(b)`: sets the flag; nothing else changes. */
  function SetShadow(f: Fragment, b: bool): (g: Fragment)
    ensures g.shadow == b
    ensures g.icons == f.icons && g.adapter == f.adapter && g.search == f.search && g.randomize == f.randomize
  {
    f.(shadow := b)
  }

  /** `onSearch(s)`: the query is always remembered; when an adapter exists
      its list becomes the whole catalogue for a null or empty query and the
      matching icons otherwise. Without an adapter nothing is shown. */
  function OnSearch(f: Fragment, s: Option<string>): (g: Fragment)
    ensures g.search == s
    ensures g.icons == f.icons && g.randomize == f.randomize && g.shadow == f.shadow
    ensures f.adapter.None? ==> g.adapter.None?
    ensures f.adapter.Some? && IsEmpty(s) ==> g.adapter == Some(f.icons)
    ensures f.adapter.Some? && !IsEmpty(s) ==> g.adapter == Some(Filter(f.icons, s.value))
  {
    if f.adapter.None? then f.(search := s)
    else f.(search := s, adapter := Some(View(f.icons, s)))
  }

  /** Every search recomputes from the full catalogue, so only the last
      query matters: searching twice is searching once with the second
      query. */
  lemma LastSearchWins(f: Fragment, s1: Option<string>, s2: Option<string>)
    ensures OnSearch(OnSearch(f, s1), s2) == OnSearch(f, s2)
  {
  }

  /** `onViewCreated`: a fresh, empty adapter is created; when arguments are
      present the icons of the selected font are appended to `mIcons` and,
      only when a font was found, handed to the adapter; then
      the remembered query is applied. The list shown is the view of the
      whole loaded catalogue under the remembered query. */
  method OnViewCreated(f: Fragment, args: Option<Arguments>, fonts: seq<Font>) returns (r: Result<Fragment>)
    ensures r.Err? <==> args.Some? && args.value.fontName.None? && |fonts| > 0
    ensures r.Ok? ==>
      && r.value.icons == f.icons + (if args.Some? && args.value.fontName.Some? then SelectedIcons(fonts, args.value.fontName.value) else [])
      && r.value.adapter == Some(View(r.value.icons, f.search))
      && r.value.search == f.search
      && r.value.randomize == f.randomize && r.value.shadow == f.shadow
  {
    var g := f.(adapter := Some([]));
    if args.Some? {
      var loaded := LoadIcons(g.icons, fonts, args.value.fontName);
      if loaded.Err? {
        return Err(loaded.error);
      }
      g := g.(icons := loaded.value);
      if args.value.fontName.Some? && FirstQualifying(fonts, args.value.fontName.value).Some? {
        g := g.(adapter := Some(loaded.value));
      }
    } else {
      assert f.icons + [] == f.icons;
    }
    return Ok(OnSearch(g, g.search));
  }
}
