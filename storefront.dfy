/** The storefront page (app/page.tsx): the items loaded at mount, the
    search box, four radio filters with an "all" sentinel, the sort
    selector, `resetFilters`, and `filteredAndSortedItems`, which keeps the
    items passing every filter and then sorts them stably by the chosen key. */
module Storefront {
  import opened Seqs
  import opened Text
  import opened Sorting
  import opened ShopItems

  /** The values of the five filter state fields. */
  datatype Filters = Filters(searchQuery: string, category: string, format: string, kind: string, price: string)

  /** The state `resetFilters` produces. */
  const NoFilters: Filters := Filters("", "all", "all", "all", "all")

  /** The query, lowercased, occurs in the lowercased name, description or a tag. */
  predicate MatchesSearch(item: Item, query: string) {
    var q := Lower(query);
    Contains(Lower(item.name), q) ||
    Contains(Lower(item.description), q) ||
    Any(item.tags, (tag: string) => Contains(Lower(tag), q))
  }

  predicate MatchesCategory(item: Item, category: string) {
    category == "all" || Lower(category) == Lower(item.category)
  }

  predicate MatchesFormat(item: Item, format: string) {
    format == "all" || Lower(format) == Lower(item.format)
  }

  predicate MatchesType(item: Item, kind: string) {
    kind == "all" || (kind == "objects" && item.kind == "object") || (kind == "bundles" && item.kind == "bundle")
  }

  predicate MatchesPrice(item: Item, price: string) {
    price == "all" || (price == "free objects" && item.price == 0) || (price == "premium objects" && item.price > 0)
  }

  /** The filter callback of `filteredAndSortedItems`: all five tests hold. */
  predicate Keeps(f: Filters, item: Item) {
    MatchesSearch(item, f.searchQuery) && MatchesCategory(item, f.category) &&
    MatchesFormat(item, f.format) && MatchesType(item, f.kind) && MatchesPrice(item, f.price)
  }

  /** The `items.filter(...)` step: exactly the items passing every test,
      in their order. */
  function FilterItems(items: seq<Item>, f: Filters): (r: seq<Item>)
    ensures forall k :: 0 <= k < |r| ==> r[k] in items && Keeps(f, r[k])
    ensures forall k :: 0 <= k < |items| && Keeps(f, items[k]) ==> items[k] in r
    ensures IsSubsequence(r, items)
  {
    var p := (item: Item) => Keeps(f, item);
    FilterIsSubsequence(p, items);
    Filter(p, items)
  }

  /** Each item passing every test is kept as often as it occurs in
      `items`, and no other item is kept. */
  lemma FilterItemsCounts(items: seq<Item>, f: Filters)
    ensures forall x: Item :: multiset(FilterItems(items, f))[x] ==
              if Keeps(f, x) then multiset(items)[x] else 0
  {
    FilterCounts((item: Item) => Keeps(f, item), items);
  }

  /** The comparator of each sort key, as the rank an ascending stable sort
      orders by: `b.downloads - a.downloads` sorts by descending downloads,
      `a.price - b.price` by ascending price, `b.price - a.price` by
      descending price.  Other keys do not sort. */
  function SortRank(sortBy: string): Option<Item -> int> {
    if sortBy == "popular" then Some((i: Item) => -i.downloads)
    else if sortBy == "price-low" then Some((i: Item) => i.price)
    else if sortBy == "price-high" then Some((i: Item) => -i.price)
    else None
  }

  /** The list the page displays: the filtered items, stably sorted when the
      sort key has a comparator. */
  function Displayed(items: seq<Item>, f: Filters, sortBy: string): seq<Item> {
    match SortRank(sortBy)
    case None => FilterItems(items, f)
    case Some(rank) => InsertionSort(FilterItems(items, f), rank)
  }

  /** The displayed list is a reordering of the filtered items. */
  lemma DisplayedPermutesFiltered(items: seq<Item>, f: Filters, sortBy: string)
    ensures multiset(Displayed(items, f, sortBy)) == multiset(FilterItems(items, f))
  {
    if SortRank(sortBy).Some? {
      InsertionSortPermutes(FilterItems(items, f), SortRank(sortBy).value);
    }
  }

  /** So every displayed item comes from `items` and passes every filter. */
  lemma DisplayedComesFromItems(items: seq<Item>, f: Filters, sortBy: string)
    ensures forall k :: 0 <= k < |Displayed(items, f, sortBy)| ==>
              Displayed(items, f, sortBy)[k] in items && Keeps(f, Displayed(items, f, sortBy)[k])
  {
    var selected := FilterItems(items, f);
    var r := Displayed(items, f, sortBy);
    DisplayedPermutesFiltered(items, f, sortBy);
    forall k | 0 <= k < |r| ensures r[k] in items && Keeps(f, r[k]) {
      assert r[k] in multiset(r);
      var m :| 0 <= m < |selected| && selected[m] == r[k];
    }
  }

  /** "popular" shows non-increasing downloads; "price-low" non-decreasing
      prices; "price-high" non-increasing prices. */
  lemma DisplayedOrder(items: seq<Item>, f: Filters, sortBy: string)
    ensures var r := Displayed(items, f, sortBy);
            (sortBy == "popular" ==> forall i, j :: 0 <= i < j < |r| ==> r[i].downloads >= r[j].downloads) &&
            (sortBy == "price-low" ==> forall i, j :: 0 <= i < j < |r| ==> r[i].price <= r[j].price) &&
            (sortBy == "price-high" ==> forall i, j :: 0 <= i < j < |r| ==> r[i].price >= r[j].price)
  {
    if SortRank(sortBy).Some? {
      var rank := SortRank(sortBy).value;
      InsertionSortSorted(FilterItems(items, f), rank);
    }
  }

  /** Ties keep their filtered order: for a sorting key, the displayed items
      of any one rank are the filtered items of that rank, in the same order. */
  lemma DisplayedStable(items: seq<Item>, f: Filters, sortBy: string, k: int)
    requires SortRank(sortBy).Some?
    ensures var rank := SortRank(sortBy).value;
            Filter(HasRank(rank, k), Displayed(items, f, sortBy)) == Filter(HasRank(rank, k), FilterItems(items, f))
  {
    InsertionSortStable(FilterItems(items, f), SortRank(sortBy).value, k);
  }

  /** Any other key, such as "featured" or "newest", keeps the filtered order. */
  lemma DisplayedUnsorted(items: seq<Item>, f: Filters, sortBy: string)
    requires sortBy != "popular" && sortBy != "price-low" && sortBy != "price-high"
    ensures Displayed(items, f, sortBy) == FilterItems(items, f)
  {
  }

  /** The empty query matches every item. */
  lemma EmptySearchMatches(item: Item)
    ensures MatchesSearch(item, "")
  {
    ContainsEmpty(Lower(item.name));
  }

  /** No item is both free and premium. */
  lemma PriceBucketsDisjoint(item: Item)
    ensures !(MatchesPrice(item, "free objects") && MatchesPrice(item, "premium objects"))
  {
  }

  /** A type or price value other than the known ones keeps nothing. */
  lemma UnknownTypeOrPriceKeepsNothing(items: seq<Item>, f: Filters)
    requires (f.kind != "all" && f.kind != "objects" && f.kind != "bundles") ||
             (f.price != "all" && f.price != "free objects" && f.price != "premium objects")
    ensures FilterItems(items, f) == []
  {
  }

  /** With the filters reset and the "featured" key, the page shows `items`
      exactly. */
  lemma {:induction false} ResetShowsEverything(items: seq<Item>)
    ensures Displayed(items, NoFilters, "featured") == items
  {
    var p := (item: Item) => Keeps(NoFilters, item);
    forall k | 0 <= k < |items| ensures p(items[k]) {
      EmptySearchMatches(items[k]);
    }
    FilterKeepsAll(p, items);
  }

  /** The page's state: the items loaded at mount and the filter and sort
      fields. */
  class StoreFront {
    var items: seq<Item>
    var searchQuery: string
    var sortBy: string
    var filterCategory: string
    var filterFormat: string
    var filterType: string
    var filterPrice: string

    /** The initial state and the mount effect: the stored items when there
        are some, otherwise none. */
    constructor (stored: Option<seq<Item>>)
      ensures items == (if stored.Some? then stored.value else [])
      ensures CurrentFilters() == NoFilters && sortBy == "featured"
    {
      items := if stored.Some? then stored.value else [];
      searchQuery := "";
      sortBy := "featured";
      filterCategory, filterFormat, filterType, filterPrice := "all", "all", "all", "all";
    }

    function CurrentFilters(): Filters
      reads this
    {
      Filters(searchQuery, filterCategory, filterFormat, filterType, filterPrice)
    }

    /** `resetFilters`: every filter back to "all" and the query emptied;
        the items and the sort key are untouched. */
    method ResetFilters()
      modifies this
      ensures CurrentFilters() == NoFilters
      ensures items == old(items) && sortBy == old(sortBy)
    {
      filterCategory := "all";
      filterFormat := "all";
      filterType := "all";
      filterPrice := "all";
      searchQuery := "";
    }

    /** `filteredAndSortedItems`: filter, then sort a copy in place by the
        comparator the sort key selects. */
    method FilteredAndSortedItems() returns (result: seq<Item>)
      ensures result == Displayed(items, CurrentFilters(), sortBy)
    {
      var selected := FilterItems(items, CurrentFilters());
      var rank := SortRank(sortBy);
      if rank.Some? {
        var a := new Item[|selected|](k requires 0 <= k < |selected| => selected[k]);
        assert a[..] == selected;
        SortInPlace(a, rank.value);
        result := a[..];
      } else {
        result := selected;
      }
    }
  }
}
