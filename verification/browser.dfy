/** The library page's own state, a search term and a current page, and the
    event handlers that change it. */
module Browser {
  import opened Sequences
  import opened Library
  import opened Query
  import opened PageWindow
  import opened Wrappers

  class LibraryBrowser {
    /** The collection the page lists (the data provider). */
    const items: seq<Item>
    var term: string
    var page: int

    /** The state the handlers keep: page within 1..max(1, page count). */
    ghost predicate Valid()
      reads this
    {
      1 <= page <= Max(1, TotalPages())
    }

    /** A fresh page: empty term, page 1. */
    constructor (items: seq<Item>)
      ensures this.items == items && term == "" && page == 1
      ensures Valid()
    {
      this.items := items;
      term := "";
      page := 1;
    }

    /** `filteredItems`. */
    function Filtered(): seq<Item>
      reads this
    {
      Filter(items, term)
    }

    /** `totalPages`. */
    function TotalPages(): nat
      reads this
    {
      PageCount(|Filtered()|)
    }

    /** `paginatedItems`: the run of the filtered list that belongs to the
        current page, at most six items, each one matching the term; on a
        valid state the page is empty only when nothing matches. */
    function Visible(): (r: seq<Item>)
      reads this
      ensures |r| <= ItemsPerPage
      ensures page >= 1 ==> r == Filtered()[Min((page - 1) * ItemsPerPage, |Filtered()|)..Min(page * ItemsPerPage, |Filtered()|)]
      ensures forall x :: x in r ==> x in items && Matches(x, term)
      ensures Valid() ==> (r == [] <==> Filtered() == [])
    {
      PageItems(Filtered(), page)
    }

    /** The pagination control for this state: present only with more than one
        page, and then it links to the current page (active), page 1 and the
        last page. */
    function Controls(): (r: Option<Control>)
      reads this
      requires Valid()
      ensures r.Some? <==> TotalPages() > 1
      ensures r.Some? ==> PageLink(page, true) in r.value.markers
                          && PageLink(1, page == 1) in r.value.markers
                          && PageLink(TotalPages(), page == TotalPages()) in r.value.markers
    {
      var c := Pagination(page, TotalPages());
      if c.Some? then
        AnchorsAreLinks(page, TotalPages());
        assert Anchor(page, page, TotalPages()) && Anchor(1, page, TotalPages())
               && Anchor(TotalPages(), page, TotalPages());
        c
      else
        c
    }

    /** `handleSearchChange`: take the new term and go back to page 1. */
    method SearchChanged(value: string)
      modifies this
      ensures term == value && page == 1
      ensures Valid()
    {
      term := value;
      page := 1;
    }

    /** `handlePageChange`: move to page `n` when it is in 1..total pages,
        otherwise do nothing. */
    method ChangePage(n: int)
      requires Valid()
      modifies this
      ensures term == old(term)
      ensures page == if 1 <= n <= old(TotalPages()) then n else old(page)
      ensures Valid()
    {
      if 1 <= n <= TotalPages() {
        page := n;
      }
    }

    /** The Previous button: a no-op on page 1. */
    method Previous()
      requires Valid()
      modifies this
      ensures term == old(term)
      ensures page == if old(page) > 1 then old(page) - 1 else old(page)
      ensures Valid()
    {
      ChangePage(page - 1);
    }

    /** The Next button: a no-op on the last page. */
    method Next()
      requires Valid()
      modifies this
      ensures term == old(term)
      ensures page == if old(page) < old(TotalPages()) then old(page) + 1 else old(page)
      ensures Valid()
    {
      ChangePage(page + 1);
    }

    /** Clear Search: empty the term and keep the page; the page count can only
        grow, so the page stays in range. */
    method ClearSearch()
      requires Valid()
      modifies this
      ensures term == "" && page == old(page)
      ensures TotalPages() >= old(TotalPages())
      ensures Valid()
    {
      ClearedTermHasAtLeastAsManyPages(items, term);
      term := "";
    }
  }
}
