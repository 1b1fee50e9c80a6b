/** The pagination bar of the list pages: from the current page `c` and the number of
    pages `t` it renders a Previous button, an optional shortcut to page 1 and a
    leading ellipsis, a window of page buttons around `c`, an optional trailing
    ellipsis and shortcut to page `t`, and a Next button. */
module Pagination {
  import opened Wrappers
  import opened Text

  function Max(a: int, b: int): int { if a < b then b else a }
  function Min(a: int, b: int): int { if a < b then a else b }

  /** `Array.from({ length: t }, (_, i) => i + 1)`: a negative length counts as 0. */
  function Pages(t: int): (pages: seq<int>)
    ensures |pages| == Max(0, t)
    ensures forall i :: 0 <= i < |pages| ==> pages[i] == i + 1
  {
    seq(Max(0, t), i => i + 1)
  }

  /** A relative index of `Array.prototype.slice`: a negative one counts from the end,
      and the result is clamped to `0..n`. */
  function SliceIndex(k: int, n: nat): (r: nat)
    ensures r <= n
    ensures 0 <= k <= n ==> r == k
    ensures k > n ==> r == n
    ensures k < 0 ==> r == Max(0, n + k)
  {
    if k < 0 then Max(0, n + k) else Min(k, n)
  }

  /** `a.slice(start, end)`. */
  function Slice<T>(a: seq<T>, start: int, end: int): (r: seq<T>)
    ensures var from, to := SliceIndex(start, |a|), SliceIndex(end, |a|);
            if from < to then r == a[from..to] else r == []
  {
    var from, to := SliceIndex(start, |a|), SliceIndex(end, |a|);
    if from < to then a[from..to] else []
  }

  /** The page numbers of the window:
      `pages.slice(Math.max(0, c - 3), Math.min(c + 2, t))`. */
  function Window(c: int, t: int): seq<int> {
    Slice(Pages(t), Max(0, c - 3), Min(c + 2, t))
  }

  /** The last page number of the window.  For `c >= -2` it is `min(c + 2, t)`; for a
      smaller `c` the end index `c + 2` is negative and `slice` counts it from the
      end of the page list. */
  function WindowEnd(c: int, t: int): int {
    if c >= -2 then Min(c + 2, t) else t + c + 2
  }

  /** The window is the run of consecutive pages from `max(1, c - 2)` to `WindowEnd`. */
  lemma WindowRange(c: int, t: int)
    ensures var lo, hi := Max(1, c - 2), WindowEnd(c, t);
            var w := Window(c, t);
            |w| == Max(0, hi - lo + 1) && forall i :: 0 <= i < |w| ==> w[i] == lo + i
  {
    var pages := Pages(t);
    var from, to := SliceIndex(Max(0, c - 3), |pages|), SliceIndex(Min(c + 2, t), |pages|);
    var w := Window(c, t);
    if from < to {
      assert w == pages[from..to];
      assert forall i :: 0 <= i < |w| ==> w[i] == pages[from + i];
    }
  }

  /** For every `c >= -2` the window is ascending, holds at most five pages, lies within
      `1..t` and contains `c` when `c` is a page. */
  lemma WindowBounds(c: int, t: int)
    requires c >= -2
    ensures |Window(c, t)| <= 5
    ensures forall i :: 0 <= i < |Window(c, t)| ==> 1 <= Window(c, t)[i] <= t
    ensures forall i, j :: 0 <= i < j < |Window(c, t)| ==> Window(c, t)[i] < Window(c, t)[j]
    ensures 1 <= c <= t ==> c in Window(c, t)
  {
    WindowRange(c, t);
    var w, lo := Window(c, t), Max(1, c - 2);
    if 1 <= c <= t {
      assert w[c - lo] == c;
    }
  }

  /** With `c < -2` the window is the first `t + c + 2` pages, so it can hold more than
      five pages: with twenty pages and `c == -5` it holds seventeen. */
  lemma WindowOfNegativePage()
    ensures |Window(-5, 20)| == 17
  {
    WindowRange(-5, 20);
  }

  // ---------------------------------------------------------------------------
  // Shortcuts, ellipses and the rendered controls

  predicate ShowsFirst(c: int) { c > 3 }
  predicate LeadingEllipsis(c: int) { c > 4 }
  predicate TrailingEllipsis(c: int, t: int) { c < t - 3 }
  predicate ShowsLast(c: int, t: int) { c < t - 2 }

  /** The navigation target of page `p`: `/<pageName>?page=<p>`. */
  function Target(pageName: string, p: int): (url: string)
    ensures StartsWith(url, "/" + pageName + "?page=")
  {
    var url := "/" + pageName + "?page=" + IntToString(p);
    assert url[..|pageName| + 7] == "/" + pageName + "?page=";
    url
  }

  /** The query parameter of a target reads back as its page, so distinct pages have
      distinct targets. */
  lemma TargetCarriesPage(pageName: string, p: int, q: int)
    ensures ParseInt(Target(pageName, p)[|pageName| + 7..]) == Some(p)
    ensures Target(pageName, p) == Target(pageName, q) <==> p == q
  {
    var u := Target(pageName, p);
    assert u[|pageName| + 7..] == IntToString(p);
    assert Target(pageName, q)[|pageName| + 7..] == IntToString(q);
    ParseIntOfIntToString(p);
    ParseIntOfIntToString(q);
  }

  datatype Control =
    | Previous(target: string, disabled: bool)
    | PageButton(page: int, target: string, current: bool, disabled: bool)
    | Ellipsis
    | Next(target: string, disabled: bool)

  /** The window's buttons: each navigates to its page, and the current one carries
      `aria-current="page"` and is disabled. */
  function WindowButtons(w: seq<int>, c: int, pageName: string): (r: seq<Control>)
    ensures |r| == |w|
    ensures forall i :: 0 <= i < |w| ==>
              r[i] == PageButton(w[i], Target(pageName, w[i]), w[i] == c, c == w[i])
  {
    seq(|w|, i requires 0 <= i < |w| => PageButton(w[i], Target(pageName, w[i]), w[i] == c, c == w[i]))
  }

  function Leading(c: int, pageName: string): seq<Control> {
    (if ShowsFirst(c) then [PageButton(1, Target(pageName, 1), false, c == 1)] else [])
    + (if LeadingEllipsis(c) then [Ellipsis] else [])
  }

  function Trailing(c: int, t: int, pageName: string): seq<Control> {
    (if TrailingEllipsis(c, t) then [Ellipsis] else [])
    + (if ShowsLast(c, t) then [PageButton(t, Target(pageName, t), false, c == t)] else [])
  }

  /** The whole bar, left to right. */
  function Render(c: int, t: int, pageName: string): seq<Control> {
    [Previous(Target(pageName, c - 1), c == 1)]
    + Leading(c, pageName)
    + WindowButtons(Window(c, t), c, pageName)
    + Trailing(c, t, pageName)
    + [Next(Target(pageName, c + 1), c == t)]
  }

  /** The page numbers of the page buttons, in order. */
  function PagesShown(controls: seq<Control>): seq<int> {
    if controls == [] then []
    else (if controls[0].PageButton? then [controls[0].page] else []) + PagesShown(controls[1..])
  }

  lemma {:induction false} PagesShownConcat(a: seq<Control>, b: seq<Control>)
    ensures PagesShown(a + b) == PagesShown(a) + PagesShown(b)
  {
    if a == [] {
      assert a + b == b;
    } else {
      PagesShownConcat(a[1..], b);
      assert (a + b)[1..] == a[1..] + b;
    }
  }

  lemma {:induction false} PagesShownOfWindow(w: seq<int>, c: int, pageName: string)
    ensures PagesShown(WindowButtons(w, c, pageName)) == w
  {
    if w != [] {
      var r := WindowButtons(w, c, pageName);
      PagesShownOfWindow(w[1..], c, pageName);
      assert r[1..] == WindowButtons(w[1..], c, pageName);
    }
  }

  /** The page numbers on the bar: the first-page shortcut, the window, the last-page
      shortcut. */
  function ShownPages(c: int, t: int): seq<int> {
    (if ShowsFirst(c) then [1] else []) + Window(c, t) + (if ShowsLast(c, t) then [t] else [])
  }

  lemma PagesShownOfRender(c: int, t: int, pageName: string)
    ensures PagesShown(Render(c, t, pageName)) == ShownPages(c, t)
  {
    var prev := [Previous(Target(pageName, c - 1), c == 1)];
    var lead, win := Leading(c, pageName), WindowButtons(Window(c, t), c, pageName);
    var trail, next := Trailing(c, t, pageName), [Next(Target(pageName, c + 1), c == t)];
    var a, b, d := prev + lead, prev + lead + win, prev + lead + win + trail;
    PagesShownConcat(prev, lead);
    assert PagesShown(a) == PagesShown(lead);
    PagesShownConcat(a, win);
    PagesShownOfWindow(Window(c, t), c, pageName);
    PagesShownConcat(b, trail);
    PagesShownConcat(d, next);
    assert PagesShown(next) == [];
    PagesShownOfLeading(c, pageName);
    PagesShownOfTrailing(c, t, pageName);
    calc {
      PagesShown(Render(c, t, pageName));
      PagesShown(d + next);
      PagesShown(lead) + PagesShown(win) + PagesShown(trail);
      ShownPages(c, t);
    }
  }

  lemma PagesShownOfLeading(c: int, pageName: string)
    ensures PagesShown(Leading(c, pageName)) == if ShowsFirst(c) then [1] else []
  {
    var e := if LeadingEllipsis(c) then [Ellipsis] else [];
    assert PagesShown(e) == [];
    if ShowsFirst(c) {
      PagesShownConcat([PageButton(1, Target(pageName, 1), false, c == 1)], e);
    } else {
      assert Leading(c, pageName) == e;
    }
  }

  lemma PagesShownOfTrailing(c: int, t: int, pageName: string)
    ensures PagesShown(Trailing(c, t, pageName)) == if ShowsLast(c, t) then [t] else []
  {
    var e := if TrailingEllipsis(c, t) then [Ellipsis] else [];
    assert PagesShown(e) == [];
    if ShowsLast(c, t) {
      PagesShownConcat(e, [PageButton(t, Target(pageName, t), false, c == t)]);
    } else {
      assert Trailing(c, t, pageName) == e;
    }
  }

  /** For every current page and page count, the page numbers on the bar are strictly
      ascending: no page appears twice, and neither shortcut repeats a window page. */
  lemma ShownPagesAscending(c: int, t: int)
    ensures forall i, j :: 0 <= i < j < |ShownPages(c, t)| ==> ShownPages(c, t)[i] < ShownPages(c, t)[j]
    ensures ShowsFirst(c) ==> 1 !in Window(c, t)
    ensures ShowsLast(c, t) ==> t !in Window(c, t)
  {
    WindowRange(c, t);
    var w, lo, hi := Window(c, t), Max(1, c - 2), WindowEnd(c, t);
    assert forall i :: 0 <= i < |w| ==> lo <= w[i] <= hi;
    assert ShowsFirst(c) ==> lo > 1;
    assert ShowsLast(c, t) ==> hi < t;
    var first := if ShowsFirst(c) then [1] else [];
    var last := if ShowsLast(c, t) then [t] else [];
    var s := ShownPages(c, t);
    assert s == first + w + last;
    forall i, j | 0 <= i < j < |s|
      ensures s[i] < s[j]
    {
      if i < |first| {
        assert s[i] == 1;
      } else if i < |first| + |w| {
        assert s[i] == w[i - |first|];
        if j >= |first| + |w| {
          assert s[j] == t;
        } else {
          assert s[j] == w[j - |first|];
        }
      } else {
        assert false;
      }
    }
  }

  /** The bar of a page `c` in `1..t`: the ellipses mark exactly the hidden gaps.  The
      leading one shows iff pages `2..lo - 1` before the window are hidden, the first
      shortcut iff page 1 is outside the window, and symmetrically at the end; an
      ellipsis never shows without its shortcut. */
  lemma GapsAndShortcuts(c: int, t: int)
    requires 1 <= c <= t
    ensures var w := Window(c, t);
            |w| >= 1 &&
            (ShowsFirst(c) <==> w[0] > 1) &&
            (LeadingEllipsis(c) <==> w[0] > 2) &&
            (ShowsLast(c, t) <==> w[|w| - 1] < t) &&
            (TrailingEllipsis(c, t) <==> w[|w| - 1] < t - 1) &&
            (LeadingEllipsis(c) ==> ShowsFirst(c)) &&
            (TrailingEllipsis(c, t) ==> ShowsLast(c, t))
  {
    WindowRange(c, t);
  }

  /** Every page `1..t` is reachable from the bar of a page `c` in `1..t`: it has a button,
      or it lies in the gap one of the ellipses stands for. */
  lemma EveryPageAccounted(c: int, t: int, p: int)
    requires 1 <= c <= t && 1 <= p <= t
    ensures p in ShownPages(c, t)
            || (LeadingEllipsis(c) && 1 < p < Window(c, t)[0])
            || (TrailingEllipsis(c, t) && Window(c, t)[|Window(c, t)| - 1] < p < t)
  {
    WindowRange(c, t);
    GapsAndShortcuts(c, t);
    var w, lo := Window(c, t), Max(1, c - 2);
    var s := ShownPages(c, t);
    var first := if ShowsFirst(c) then [1] else [];
    assert s == first + w + (if ShowsLast(c, t) then [t] else []);
    if lo <= p <= w[|w| - 1] {
      assert w[p - lo] == p;
      assert s[|first| + p - lo] == p;
    } else if p == 1 {
      assert s[0] == 1;
    } else if p == t {
      assert s[|s| - 1] == t;
    }
  }

  /** The controls of the bar: Previous and Next target the neighbouring pages and are
      disabled on the first and last page; every page button targets its page; among the
      window's buttons only the current page is marked current and disabled; the
      shortcuts are never disabled. */
  lemma RenderControls(c: int, t: int, pageName: string)
    ensures var r := Render(c, t, pageName);
            r[0] == Previous(Target(pageName, c - 1), c == 1) &&
            r[|r| - 1] == Next(Target(pageName, c + 1), c == t)
    ensures forall b :: b in Render(c, t, pageName) && b.PageButton? ==>
              b.target == Target(pageName, b.page) && !(b.current && b.page != c) && (b.disabled <==> b.page == c)
  {
    var win := WindowButtons(Window(c, t), c, pageName);
    forall b | b in win
      ensures b.target == Target(pageName, b.page) && !(b.current && b.page != c) && (b.disabled <==> b.page == c)
    {
      var k :| 0 <= k < |win| && win[k] == b;
    }
  }

  /** Exactly one window button is marked current when `c` is a page, and none
      otherwise. */
  lemma CurrentMarkedOnce(c: int, t: int, pageName: string)
    requires c >= -2
    ensures var b := WindowButtons(Window(c, t), c, pageName);
            (1 <= c <= t ==> exists k :: 0 <= k < |b| && b[k].current) &&
            (forall k, m :: 0 <= k < m < |b| ==> !(b[k].current && b[m].current)) &&
            (!(1 <= c <= t) ==> forall k :: 0 <= k < |b| ==> !b[k].current)
  {
    WindowBounds(c, t);
    var w := Window(c, t);
    var b := WindowButtons(w, c, pageName);
    if 1 <= c <= t {
      var k :| 0 <= k < |w| && w[k] == c;
      assert b[k].current;
    }
  }
}
