/** The icon catalogue and its search view: `onSearch` keeps, in catalogue
    order, the icon names whose lower-case form contains the lower-case
    query, and shows the whole catalogue for a null or empty query. */
module IconCatalogue {
  import opened Wrappers
  import opened AsciiText

  /** The per-icon test of the search loop: the lower-cased name contains the
      lower-cased query, that is, the query occurs in the name ignoring case. */
  function Matches(name: string, query: string): (r: bool)
    ensures r <==> IsSubstring(Lower(query), Lower(name))
  {
    Contains(Lower(name), Lower(query))
  }

  /** `TextUtils.isEmpty(s)`: null or of length zero, so exactly the null
      query and the empty string. */
  function IsEmpty(query: Option<string>): (r: bool)
    ensures r <==> query == None || query == Some("")
  {
    query.None? || |query.value| == 0
  }

  /** The list the search loop builds: every matching icon, appended in
      catalogue order. Written by its last step, as the loop accumulates. */
  function Filter(icons: seq<string>, query: string): (r: seq<string>)
    ensures |r| <= |icons|
    ensures forall k :: 0 <= k < |r| ==> Matches(r[k], query)
    decreases |icons|
  {
    if |icons| == 0 then []
    else
      var init := Filter(icons[..|icons| - 1], query);
      var last := icons[|icons| - 1];
      if Matches(last, query) then init + [last] else init
  }

  /** The catalogue positions the search loop keeps, in increasing order:
      exactly the positions whose icon matches. */
  function KeptPositions(icons: seq<string>, query: string): (r: seq<nat>)
    ensures forall k :: 0 <= k < |r| ==> r[k] < |icons|
    ensures forall k, l :: 0 <= k < l < |r| ==> r[k] < r[l]
    ensures forall i :: 0 <= i < |icons| ==> (i in r <==> Matches(icons[i], query))
    decreases |icons|
  {
    if |icons| == 0 then []
    else
      var n := |icons| - 1;
      var init := KeptPositions(icons[..n], query);
      assert forall i :: 0 <= i < n ==> icons[..n][i] == icons[i];
      if Matches(icons[n], query) then init + [n] else init
  }

  /** The filtered list is the catalogue read at the kept positions: it is an
      order-preserving selection (a subsequence) of the catalogue. */
  lemma {:induction false} FilterIsOrderedSelection(icons: seq<string>, query: string)
    ensures |Filter(icons, query)| == |KeptPositions(icons, query)|
    ensures forall k :: 0 <= k < |Filter(icons, query)| ==>
              Filter(icons, query)[k] == icons[KeptPositions(icons, query)[k]]
    decreases |icons|
  {
    if |icons| > 0 {
      var n := |icons| - 1;
      FilterIsOrderedSelection(icons[..n], query);
      var f, p := Filter(icons[..n], query), KeptPositions(icons[..n], query);
      forall k | 0 <= k < |f| ensures p[k] < n && f[k] == icons[p[k]] {
        assert f[k] == icons[..n][p[k]];
      }
      SelectionExtends(icons, n, f, p, Matches(icons[n], query));
    }
  }

  /** Appending the next catalogue position (or not) to a selection keeps it
      a selection. */
  lemma SelectionExtends(icons: seq<string>, n: nat, f: seq<string>, p: seq<nat>, keep: bool)
    requires n < |icons| && |f| == |p|
    requires forall k :: 0 <= k < |f| ==> p[k] < n && f[k] == icons[p[k]]
    ensures var F := if keep then f + [icons[n]] else f;
            var K := if keep then p + [n] else p;
            |F| == |K| && forall k :: 0 <= k < |F| ==> F[k] == icons[K[k]]
  {
  }

  /** Filtering a concatenation filters each part. */
  lemma {:induction false} FilterConcat(a: seq<string>, b: seq<string>, query: string)
    ensures Filter(a + b, query) == Filter(a, query) + Filter(b, query)
    decreases |b|
  {
    if |b| == 0 {
      assert a + b == a;
    } else {
      var n := |b| - 1;
      assert (a + b)[..|a + b| - 1] == a + b[..n];
      FilterConcat(a, b[..n], query);
    }
  }

  /** An icon is shown if and only if it is in the catalogue and matches. */
  lemma {:induction false} FilterMembership(icons: seq<string>, query: string, name: string)
    ensures name in Filter(icons, query) <==> name in icons && Matches(name, query)
  {
    FilterIsOrderedSelection(icons, query);
    var f, p := Filter(icons, query), KeptPositions(icons, query);
    if name in f {
      var k :| 0 <= k < |f| && f[k] == name;
      assert name == icons[p[k]];
    }
    if name in icons && Matches(name, query) {
      var i :| 0 <= i < |icons| && icons[i] == name;
      var k :| 0 <= k < |p| && p[k] == i;
      assert f[k] == name;
    }
  }

  /** Each name is shown as many times as the catalogue holds it if it
      matches, and never otherwise: duplicates survive the filter. */
  lemma {:induction false} FilterCounts(icons: seq<string>, query: string, name: string)
    ensures multiset(Filter(icons, query))[name] ==
            if Matches(name, query) then multiset(icons)[name] else 0
    decreases |icons|
  {
    if |icons| > 0 {
      var n := |icons| - 1;
      FilterCounts(icons[..n], query, name);
      assert icons == icons[..n] + [icons[n]];
      assert multiset(icons) == multiset(icons[..n]) + multiset{icons[n]};
    }
  }

  /** Typing more of a query only narrows the list: when the lower-cased
      `wider` occurs in the lower-cased `narrower`, filtering the `wider`
      result by `narrower` is filtering the catalogue by `narrower`. */
  lemma {:induction false} FilterNarrows(icons: seq<string>, wider: string, narrower: string)
    requires IsSubstring(Lower(wider), Lower(narrower))
    ensures Filter(Filter(icons, wider), narrower) == Filter(icons, narrower)
    decreases |icons|
  {
    if |icons| > 0 {
      var n := |icons| - 1;
      var last := icons[n];
      FilterNarrows(icons[..n], wider, narrower);
      if Matches(last, wider) {
        FilterConcat(Filter(icons[..n], wider), [last], narrower);
        assert Filter([last], narrower) == Filter([], narrower) + (if Matches(last, narrower) then [last] else []);
      } else if Matches(last, narrower) {
        SubstringTransitive(Lower(wider), Lower(narrower), Lower(last));
        assert false;
      }
    }
  }

  /** Re-filtering the shown list with the same query changes nothing. */
  lemma {:induction false} FilterIdempotent(icons: seq<string>, query: string)
    ensures Filter(Filter(icons, query), query) == Filter(icons, query)
  {
    assert OccursAt(Lower(query), Lower(query), 0);
    FilterNarrows(icons, query, query);
  }

  /** The query's case does not matter: queries equal after lower-casing
      select the same icons. */
  lemma {:induction false} FilterIgnoresCase(icons: seq<string>, q1: string, q2: string)
    requires Lower(q1) == Lower(q2)
    ensures Filter(icons, q1) == Filter(icons, q2)
    decreases |icons|
  {
    if |icons| > 0 {
      FilterIgnoresCase(icons[..|icons| - 1], q1, q2);
    }
  }

  /** The list `onSearch` hands to the adapter: the whole catalogue for a null
      or empty query, the filtered list otherwise. */
  function View(icons: seq<string>, query: Option<string>): (r: seq<string>)
    ensures IsEmpty(query) ==> r == icons
    ensures !IsEmpty(query) ==> r == Filter(icons, query.value)
    ensures |r| <= |icons|
  {
    if IsEmpty(query) then icons else Filter(icons, query.value)
  }

  /** Worked example: the search ignores the case of both the query and the
      icon names. */
  lemma ExampleIgnoresCase()
    ensures View(["Home", "home2"], Some("HOME")) == ["Home", "home2"]
  {
  }

}
