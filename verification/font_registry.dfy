/** Choosing the icon catalogue in `onViewCreated`: the registered fonts are
    scanned in order, and the icons of the first font whose name equals the
    requested one ignoring case, and whose icon list is not null, are
    appended to the fragment's icon list. */
module FontRegistry {
  import opened Wrappers
  import opened AsciiText

  /** A registered icon font: its name and its (nullable) list of icon names. */
  datatype Font = Font(fontName: string, icons: Option<seq<string>>)

  /** The font is the one the loop stops at: its name matches ignoring case
      and it has icons. */
  predicate Qualifies(font: Font, name: string) {
    EqualsIgnoreCase(font.fontName, name) && font.icons.Some?
  }

  /** The position of the first qualifying font, if any. */
  function FirstQualifying(fonts: seq<Font>, name: string): (r: Option<nat>)
    ensures r.Some? ==> r.value < |fonts| && Qualifies(fonts[r.value], name)
    ensures r.Some? ==> forall j :: 0 <= j < r.value ==> !Qualifies(fonts[j], name)
    ensures r.None? ==> forall j :: 0 <= j < |fonts| ==> !Qualifies(fonts[j], name)
    decreases |fonts|
  {
    if |fonts| == 0 then None
    else
      var n := |fonts| - 1;
      var init := FirstQualifying(fonts[..n], name);
      assert forall j :: 0 <= j < n ==> fonts[..n][j] == fonts[j];
      if init.Some? then init
      else if Qualifies(fonts[n], name) then Some(n)
      else None
  }

  /** No font before position `k` qualifies. */
  predicate NoneQualifiesBefore(fonts: seq<Font>, name: string, k: nat)
    requires k <= |fonts|
  {
    forall j :: 0 <= j < k ==> !Qualifies(fonts[j], name)
  }

  /** The icons the scan loads: those of the first qualifying font, or none
      when no font qualifies. */
  function SelectedIcons(fonts: seq<Font>, name: string): (r: seq<string>)
    ensures forall k :: 0 <= k < |fonts| && Qualifies(fonts[k], name) && NoneQualifiesBefore(fonts, name, k) ==>
      r == fonts[k].icons.value
    ensures NoneQualifiesBefore(fonts, name, |fonts|) ==> r == []
  {
    match FirstQualifying(fonts, name)
    case Some(k) => fonts[k].icons.value
    case None => []
  }

  /** A font with a matching name but a null icon list is passed over: when
      it comes first, the selection is made among the fonts after it. */
  lemma {:induction false} NullIconsSkipped(font: Font, rest: seq<Font>, name: string)
    requires font.icons.None?
    ensures SelectedIcons([font] + rest, name) == SelectedIcons(rest, name)
  {
    var all := [font] + rest;
    assert forall j :: 0 < j < |all| ==> all[j] == rest[j - 1];
    assert !Qualifies(all[0], name);
    match FirstQualifying(rest, name)
    case Some(k) =>
      assert Qualifies(all[k + 1], name);
      assert FirstQualifying(all, name) == Some(k + 1);
    case None =>
      assert forall j :: 0 <= j < |all| ==> !Qualifies(all[j], name);
      assert FirstQualifying(all, name) == None;
  }

  /** The loop of `onViewCreated`: for each registered font, compare its
      name with `fontName!!` ignoring case; on the first font that matches
      and has icons, append its icons one by one and stop. A null
      `fontName` throws on the first comparison, so only when some font is
      registered. */
  method LoadIcons(icons: seq<string>, fonts: seq<Font>, fontName: Option<string>) returns (r: Result<seq<string>>)
    ensures r.Err? <==> fontName.None? && |fonts| > 0
    ensures r.Err? ==> r.error == NullPointer
    ensures fontName.Some? ==> r == Ok(icons + SelectedIcons(fonts, fontName.value))
    ensures fontName.None? && |fonts| == 0 ==> r == Ok(icons)
  {
    var i := 0;
    while i < |fonts|
      invariant 0 <= i <= |fonts|
      invariant i > 0 ==> fontName.Some?
      invariant fontName.Some? ==> forall j :: 0 <= j < i ==> !Qualifies(fonts[j], fontName.value)
    {
      if fontName.None? {
        return Err(NullPointer);
      }
      var name := fontName.value;
      if EqualsIgnoreCase(fonts[i].fontName, name) {
        if fonts[i].icons.Some? {
          var fontIcons := fonts[i].icons.value;
          var loaded := icons;
          var k := 0;
          while k < |fontIcons|
            invariant 0 <= k <= |fontIcons|
            invariant loaded == icons + fontIcons[..k]
          {
            loaded := loaded + [fontIcons[k]];
            k := k + 1;
          }
          assert fontIcons[..k] == fontIcons;
          assert FirstQualifying(fonts, name) == Some(i);
          return Ok(loaded);
        }
      }
      i := i + 1;
    }
    if fontName.Some? {
      assert FirstQualifying(fonts, fontName.value) == None;
      assert icons + SelectedIcons(fonts, fontName.value) == icons;
    }
    return Ok(icons);
  }
}
