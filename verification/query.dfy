/** The derived views of the library page: the search filter, the page slice
    and the page count. */
module Query {
  import opened Wrappers
  import opened Sequences
  import opened Text
  import opened Library

  /** Items shown per page. */
  const ItemsPerPage: nat := 6

  /** The search predicate: the lower-cased term occurs in the lower-cased
      title, description, or space-joined tags. */
  predicate Matches(item: Item, term: string)
  {
    var t := Lower(term);
    Contains(Lower(item.title), t)
    || Contains(Lower(item.description), t)
    || (item.tags.Some? && Contains(Lower(Join(item.tags.value, " ")), t))
  }

  /** Every item matches the empty term. */
  lemma EveryItemMatchesEmptyTerm()
    ensures forall x :: Matches(x, "")
  {
    forall x ensures Matches(x, "") {
      ContainsEmpty(Lower(x.title));
    }
  }

  /** Matching ignores the case of the term. */
  lemma MatchesIgnoresCase(x: Item, t1: string, t2: string)
    requires Lower(t1) == Lower(t2)
    ensures Matches(x, t1) == Matches(x, t2)
  {
  }

  /** A term found in the title, ignoring case, or in any one tag, ignoring
      case, makes the item match. */
  lemma TitleOrTagHitMatches(x: Item, term: string)
    requires Contains(Lower(x.title), Lower(term))
             || (x.tags.Some? && exists k :: 0 <= k < |x.tags.value| && Contains(Lower(x.tags.value[k]), Lower(term)))
    ensures Matches(x, term)
  {
    if !Contains(Lower(x.title), Lower(term)) {
      var tags := x.tags.value;
      var k :| 0 <= k < |tags| && Contains(Lower(tags[k]), Lower(term));
      JoinContainsPart(tags, " ", k);
      ContainsLower(Join(tags, " "), tags[k]);
      ContainsTransitive(Lower(Join(tags, " ")), Lower(tags[k]), Lower(term));
    }
  }

  /** `items.filter(item => Matches(item, term))`. */
  function Keep(items: seq<Item>, term: string): (r: seq<Item>)
    ensures |r| <= |items|
    ensures forall x :: x in r ==> x in items && Matches(x, term)
  {
    if items == [] then []
    else (if Matches(items[0], term) then [items[0]] else []) + Keep(items[1..], term)
  }

  /** The kept items appear in `items` in the same order. */
  lemma {:induction false} KeepIsOrderedSublist(items: seq<Item>, term: string)
    ensures SubsequenceOf(Keep(items, term), items)
  {
    if items != [] {
      var rest := Keep(items[1..], term);
      KeepIsOrderedSublist(items[1..], term);
      if Matches(items[0], term) {
        assert Keep(items, term) == [items[0]] + rest;
        assert ([items[0]] + rest)[1..] == rest;
      } else if rest != [] {
        assert Keep(items, term) == rest;
      }
    }
  }

  /** Each matching item is kept as often as it occurs; no other item is kept. */
  lemma {:induction false} KeepCounts(items: seq<Item>, term: string)
    ensures forall x :: multiset(Keep(items, term))[x] == if Matches(x, term) then multiset(items)[x] else 0
  {
    if items != [] {
      KeepCounts(items[1..], term);
      assert items == [items[0]] + items[1..];
      assert multiset(items) == multiset{items[0]} + multiset(items[1..]);
    }
  }

  /** `filteredItems`: the whole collection for an empty term, otherwise the
      matching items in their original order, each as often as in `items`. */
  function Filter(items: seq<Item>, term: string): (r: seq<Item>)
    ensures |r| <= |items|
    ensures SubsequenceOf(r, items)
    ensures forall x :: multiset(r)[x] == if Matches(x, term) then multiset(items)[x] else 0
    ensures forall x :: x in r <==> x in items && Matches(x, term)
  {
    if term == "" then
      EveryItemMatchesEmptyTerm();
      SubsequenceReflexive(items);
      items
    else
      KeepIsOrderedSublist(items, term);
      KeepCounts(items, term);
      Keep(items, term)
  }

  /** The empty-term shortcut changes nothing: filtering by "" keeps every item. */
  lemma {:induction false} KeepEmptyTerm(items: seq<Item>)
    ensures Keep(items, "") == items
  {
    EveryItemMatchesEmptyTerm();
    KeepAllMatching(items, "");
  }

  /** Two terms that lower-case alike select the same items. */
  lemma {:induction false} FilterIgnoresCase(items: seq<Item>, t1: string, t2: string)
    requires Lower(t1) == Lower(t2)
    ensures Filter(items, t1) == Filter(items, t2)
  {
    assert |t1| == |Lower(t1)| == |Lower(t2)| == |t2|;
    if t1 != "" {
      KeepIgnoresCase(items, t1, t2);
    }
  }

  lemma {:induction false} KeepIgnoresCase(items: seq<Item>, t1: string, t2: string)
    requires Lower(t1) == Lower(t2)
    ensures Keep(items, t1) == Keep(items, t2)
  {
    if items != [] {
      MatchesIgnoresCase(items[0], t1, t2);
      KeepIgnoresCase(items[1..], t1, t2);
    }
  }

  /** Searching for the lower-cased term gives the same items as the term
      itself. */
  lemma FilterLowerCasedTerm(items: seq<Item>, term: string)
    ensures Filter(items, Lower(term)) == Filter(items, term)
  {
    LowerIdempotent(term);
    FilterIgnoresCase(items, Lower(term), term);
  }

  /** Filtering the filtered list again by the same term changes nothing. */
  lemma {:induction false} FilterIdempotent(items: seq<Item>, term: string)
    ensures Filter(Filter(items, term), term) == Filter(items, term)
  {
    if term != "" {
      KeepIdempotent(items, term);
    }
  }

  lemma KeepIdempotent(items: seq<Item>, term: string)
    ensures Keep(Keep(items, term), term) == Keep(items, term)
  {
    KeepAllMatching(Keep(items, term), term);
  }

  /** A list whose every item matches passes through the filter unchanged. */
  lemma {:induction false} KeepAllMatching(items: seq<Item>, term: string)
    requires forall x :: x in items ==> Matches(x, term)
    ensures Keep(items, term) == items
  {
    if items != [] {
      assert items[0] in items;
      KeepAllMatching(items[1..], term);
    }
  }

  /** `Math.ceil(n / 6)`: the number of pages needed for `n` items; 0 for none. */
  function PageCount(n: nat): (r: nat)
    ensures r * ItemsPerPage >= n
    ensures n > 0 ==> (r - 1) * ItemsPerPage < n
    ensures r == 0 <==> n == 0
  {
    (n + ItemsPerPage - 1) / ItemsPerPage
  }

  /** More items never need fewer pages. */
  lemma PageCountMonotone(a: nat, b: nat)
    requires a <= b
    ensures PageCount(a) <= PageCount(b)
  {
  }

  /** `paginatedItems`: `filtered.slice((page - 1) * 6, (page - 1) * 6 + 6)`,
      never more than a page of items, for any page number. */
  function PageItems(filtered: seq<Item>, page: int): (r: seq<Item>)
    ensures |r| <= ItemsPerPage
    ensures page >= 1 ==> r == filtered[Min((page - 1) * ItemsPerPage, |filtered|)..Min(page * ItemsPerPage, |filtered|)]
  {
    var start := (page - 1) * ItemsPerPage;
    Slice(filtered, start, start + ItemsPerPage)
  }

  /** For a page number of at least 1 the visible items are the contiguous run
      of `filtered` from index (page - 1) * 6, at most six long and clipped to
      the list; the run is empty exactly when it starts past the end. */
  lemma PageItemsRun(filtered: seq<Item>, page: int)
    requires page >= 1
    ensures var start := (page - 1) * ItemsPerPage;
            var lo, hi := Min(start, |filtered|), Min(start + ItemsPerPage, |filtered|);
            && PageItems(filtered, page) == filtered[lo..hi]
            && |PageItems(filtered, page)| <= ItemsPerPage
            && (PageItems(filtered, page) == [] <==> start >= |filtered|)
  {
  }

  /** Item `k` of the filtered list is shown on page k / 6 + 1, at position
      k % 6. */
  lemma PageOfIndex(filtered: seq<Item>, k: int)
    requires 0 <= k < |filtered|
    ensures var p := k / ItemsPerPage + 1;
            && 1 <= p <= PageCount(|filtered|)
            && k % ItemsPerPage < |PageItems(filtered, p)|
            && PageItems(filtered, p)[k % ItemsPerPage] == filtered[k]
  {
    var p := k / ItemsPerPage + 1;
    PageItemsRun(filtered, p);
  }

  /** A page number from 1 up shows items exactly when it is at most the
      page count. */
  lemma PageNonEmptyIff(filtered: seq<Item>, page: int)
    requires page >= 1
    ensures PageItems(filtered, page) != [] <==> page <= PageCount(|filtered|)
  {
    PageItemsRun(filtered, page);
  }

  /** Clearing the term never reduces the number of pages: the full list holds
      every filtered item. */
  lemma ClearedTermHasAtLeastAsManyPages(items: seq<Item>, term: string)
    ensures PageCount(|Filter(items, term)|) <= PageCount(|Filter(items, "")|)
  {
    PageCountMonotone(|Filter(items, term)|, |Filter(items, "")|);
  }

  /** The eight sample items fill two pages with no term: six on the first,
      the last two on the second, and nothing beyond. */
  lemma SampleItemsPages()
    ensures PageCount(|Filter(SampleItems, "")|) == 2
    ensures PageItems(Filter(SampleItems, ""), 1) == SampleItems[..6]
    ensures PageItems(Filter(SampleItems, ""), 2) == SampleItems[6..]
    ensures PageItems(Filter(SampleItems, ""), 3) == []
  {
  }
}
