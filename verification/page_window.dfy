/** The pagination control of the library page: which page numbers are shown
    as links, where ellipses go, and when Previous and Next are disabled. */
module PageWindow {
  import opened Wrappers

  /** One entry of the control, keyed by the page number it stands at. */
  datatype Marker = PageLink(page: int, active: bool) | Ellipsis(page: int)

  /** `showPage`: first, last, within one of the current page, or inside the
      first three (current near the start) or last three (current near the end). */
  predicate ShowPage(p: int, current: int, total: int)
  {
    p == 1 || p == total || -1 <= p - current <= 1
    || (current <= 3 && p <= 3) || (current >= total - 2 && p >= total - 2)
  }

  /** `showEllipsisBefore`. */
  predicate EllipsisBefore(p: int, current: int)
  {
    current > 3 && p == current - 2 && p != 1
  }

  /** `showEllipsisAfter`. */
  predicate EllipsisAfter(p: int, current: int, total: int)
  {
    current < total - 2 && p == current + 2 && p != total
  }

  /** What is rendered for page `p`: the before-ellipsis wins over the link,
      and the after-ellipsis is only tried when the page is not shown. */
  function MarkerFor(p: int, current: int, total: int): Option<Marker>
  {
    if EllipsisBefore(p, current) then Some(Ellipsis(p))
    else if ShowPage(p, current, total) then Some(PageLink(p, p == current))
    else if EllipsisAfter(p, current, total) then Some(Ellipsis(p))
    else None
  }

  /** The markers rendered for pages 1..k, in page order: strictly ascending
      page numbers, and a marker is present exactly when its page is in
      1..k and `MarkerFor` yields it. */
  function WindowUpTo(k: nat, current: int, total: nat): (w: seq<Marker>)
    ensures forall i, j :: 0 <= i < j < |w| ==> w[i].page < w[j].page
    ensures forall m :: m in w <==> 1 <= m.page <= k && MarkerFor(m.page, current, total) == Some(m)
  {
    if k == 0 then []
    else
      WindowUpTo(k - 1, current, total)
      + match MarkerFor(k, current, total) case None => [] case Some(m) => [m]
  }

  /** The whole window: the markers for pages 1..total. */
  function Window(current: int, total: nat): seq<Marker>
  {
    WindowUpTo(total, current, total)
  }

  /** The rendered control: Previous, the window and Next. */
  datatype Control = Control(previousDisabled: bool, markers: seq<Marker>, nextDisabled: bool)

  /** The control appears only when there is more than one page; Previous is
      disabled on page 1 and Next on the last page. */
  function Pagination(current: int, total: nat): (r: Option<Control>)
    ensures r.Some? <==> total > 1
    ensures r.Some? ==> r.value.markers == Window(current, total)
    ensures r.Some? ==> (r.value.previousDisabled <==> current == 1)
    ensures r.Some? ==> (r.value.nextDisabled <==> current == total)
  {
    if total > 1 then Some(Control(current == 1, Window(current, total), current == total)) else None
  }

  /** Page `p` is one the control must always show: the first, the last, the
      current page or a neighbour of it. */
  predicate Anchor(p: int, current: int, total: int)
  {
    1 <= p <= total && (p == 1 || p == total || current - 1 <= p <= current + 1)
  }

  /** Page 1, the last page, the current page and its neighbours are always
      links, never ellipses; only the current page's link is active. */
  lemma AnchorsAreLinks(current: int, total: nat)
    requires 1 <= current <= total
    ensures forall p :: Anchor(p, current, total)
                        ==> PageLink(p, p == current) in Window(current, total)
                            && Ellipsis(p) !in Window(current, total)
    ensures forall m :: m in Window(current, total) && m.PageLink? ==> (m.active <==> m.page == current)
  {
    var w := Window(current, total);
    forall p | Anchor(p, current, total)
      ensures PageLink(p, p == current) in w && Ellipsis(p) !in w
    {
      assert MarkerFor(p, current, total) == Some(PageLink(p, p == current));
    }
  }

  /** There is an ellipsis at current - 2 exactly when current > 3, one at
      current + 2 exactly when 1 < current < total - 2, and none elsewhere. */
  lemma EllipsisPlacement(current: int, total: nat)
    requires 1 <= current <= total
    ensures forall p :: Ellipsis(p) in Window(current, total)
                        <==> (current > 3 && p == current - 2) || (1 < current < total - 2 && p == current + 2)
  {
  }

  /** No two ellipses are next to each other in the control. */
  lemma NoAdjacentEllipses(current: int, total: nat)
    requires 1 <= current <= total
    ensures var w := Window(current, total);
            forall i :: 0 <= i < |w| - 1 ==> !(w[i].Ellipsis? && w[i + 1].Ellipsis?)
  {
    var w := Window(current, total);
    EllipsisPlacement(current, total);
    AnchorsAreLinks(current, total);
    forall i | 0 <= i < |w| - 1
      ensures !(w[i].Ellipsis? && w[i + 1].Ellipsis?)
    {
      if w[i].Ellipsis? {
        assert w[i] in w && w[i + 1] in w;
        if w[i].page == current - 2 {
          assert PageLink(current - 1, false) in w;
          var k :| 0 <= k < |w| && w[k] == PageLink(current - 1, false);
          assert i < k;
          assert w[i + 1].page <= w[k].page;
        }
      }
    }
  }

  /** Near the start the gap to the last page gets no ellipsis. */
  lemma NoEllipsisAfterFirstPage()
    ensures Window(1, 10) == [PageLink(1, true), PageLink(2, false), PageLink(3, false), PageLink(10, false)]
  {
    assert WindowUpTo(3, 1, 10) == [PageLink(1, true), PageLink(2, false), PageLink(3, false)];
    assert WindowUpTo(4, 1, 10) == WindowUpTo(3, 1, 10);
    assert WindowUpTo(5, 1, 10) == WindowUpTo(3, 1, 10);
    assert WindowUpTo(6, 1, 10) == WindowUpTo(3, 1, 10);
    assert WindowUpTo(7, 1, 10) == WindowUpTo(3, 1, 10);
    assert WindowUpTo(8, 1, 10) == WindowUpTo(3, 1, 10);
    assert WindowUpTo(9, 1, 10) == WindowUpTo(3, 1, 10);
  }

  /** On the last page the before-ellipsis replaces the third-last page. */
  lemma EllipsisOnLastPage()
    ensures Window(10, 10) == [PageLink(1, false), Ellipsis(8), PageLink(9, false), PageLink(10, true)]
  {
    assert WindowUpTo(1, 10, 10) == [PageLink(1, false)];
    assert WindowUpTo(2, 10, 10) == WindowUpTo(1, 10, 10);
    assert WindowUpTo(3, 10, 10) == WindowUpTo(1, 10, 10);
    assert WindowUpTo(4, 10, 10) == WindowUpTo(1, 10, 10);
    assert WindowUpTo(5, 10, 10) == WindowUpTo(1, 10, 10);
    assert WindowUpTo(6, 10, 10) == WindowUpTo(1, 10, 10);
    assert WindowUpTo(7, 10, 10) == WindowUpTo(1, 10, 10);
  }
}
