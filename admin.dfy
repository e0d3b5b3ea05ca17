/** The admin page (app/admin/page.tsx): the curated list of every item a
    store may offer, the store's own item list with its membership test,
    add-if-absent and remove-by-id, the default list used when nothing is
    stored, and the search over the curated list. */
module Admin {
  import opened Seqs
  import opened Text
  import opened ShopItems

  /** `CURATED_ITEMS`: every item the admin can add to the store. */
  const CuratedItems: seq<Item> := [
    Item(
      id := 1, name := "Orc Warlord",
      description := "Highly detailed orc chieftain model with modular weapon options. Optimized for FDM and resin printing.",
      price := 899, tags := ["orc", "warlord", "tabletop", "pre-supported"],
      image := "https://images.unsplash.com/photo-1578632292335-df3abbb0d586?w=400&h=300&fit=crop",
      fileSize := "45 MB", downloads := 342, category := "Orcs and Goblins", format := "3D", kind := "object"),
    Item(
      id := 2, name := "Ratling Skirmisher",
      description := "Sewer-dwelling ratfolk warrior with various weapon configurations.",
      price := 0, tags := ["rat", "skaven", "warrior", "free"],
      image := "https://images.unsplash.com/photo-1635862662213-6316d6d144d6?w=400&h=300&fit=crop",
      fileSize := "32 MB", downloads := 521, category := "Sewer Vermin", format := "3D", kind := "object"),
    Item(
      id := 3, name := "Gallian Knight Bundle",
      description := "Complete set of 5 medieval knights with horses and banners. Includes painting guide PDF.",
      price := 1599, tags := ["knight", "cavalry", "bundle", "medieval"],
      image := "https://images.unsplash.com/photo-1599481238640-4c1288750d7a?w=400&h=300&fit=crop",
      fileSize := "120 MB", downloads := 687, category := "Gallia", format := "3D & PDF", kind := "bundle"),
    Item(
      id := 4, name := "Dwarf Runesmith",
      description := "Master craftsman dwarf with forge tools and runes. High detail for showcase painting.",
      price := 699, tags := ["dwarf", "runesmith", "forge", "detailed"],
      image := "https://images.unsplash.com/photo-1518709268805-4e9042af9f23?w=400&h=300&fit=crop",
      fileSize := "38 MB", downloads := 423, category := "Dwarfs, Sons of Ymir", format := "3D", kind := "object"),
    Item(
      id := 5, name := "Aegean Archer",
      description := "Elegant elven archer with flowing robes and detailed bow.",
      price := 0, tags := ["elf", "archer", "free", "graceful"],
      image := "https://images.unsplash.com/photo-1612036782180-6f0b6cd846fe?w=400&h=300&fit=crop",
      fileSize := "29 MB", downloads := 892, category := "Aegean Elves", format := "3D", kind := "object"),
    Item(
      id := 6, name := "Sunland Warrior",
      description := "Desert warrior with scimitar and shield. Pre-supported for easy printing.",
      price := 799, tags := ["warrior", "desert", "scimitar", "pre-supported"],
      image := "https://images.unsplash.com/photo-1589561253898-768105ca91a8?w=400&h=300&fit=crop",
      fileSize := "41 MB", downloads := 315, category := "Sunland", format := "3D", kind := "object"),
    Item(
      id := 7, name := "Vampire Count",
      description := "Undead noble with cape and staff. Perfect for gothic themes.",
      price := 999, tags := ["vampire", "undead", "gothic", "noble"],
      image := "https://images.unsplash.com/photo-1509248961158-e54f6934749c?w=400&h=300&fit=crop",
      fileSize := "52 MB", downloads := 458, category := "Transilvanya", format := "3D", kind := "object"),
    Item(
      id := 8, name := "Skeleton Warrior Pack",
      description := "Set of 10 skeleton warriors with various weapons. Great for armies.",
      price := 1299, tags := ["skeleton", "undead", "pack", "army"],
      image := "https://images.unsplash.com/photo-1635070041078-e363dbe005cb?w=400&h=300&fit=crop",
      fileSize := "95 MB", downloads := 672, category := "Eternal Dynasties", format := "3D", kind := "bundle"),
    Item(
      id := 9, name := "Goblin Shaman",
      description := "Cunning goblin spellcaster with staff and totems.",
      price := 0, tags := ["goblin", "shaman", "magic", "free"],
      image := "https://images.unsplash.com/photo-1589561084283-930aa7b1ce50?w=400&h=300&fit=crop",
      fileSize := "28 MB", downloads := 743, category := "Orcs and Goblins", format := "3D", kind := "object"),
    Item(
      id := 10, name := "Elven Mage",
      description := "Powerful elven spellcaster with ornate robes and spell effects.",
      price := 899, tags := ["elf", "mage", "magic", "detailed"],
      image := "https://images.unsplash.com/photo-1601784551446-20c9e07cdbdb?w=400&h=300&fit=crop",
      fileSize := "47 MB", downloads := 524, category := "Aegean Elves", format := "3D & PDF", kind := "object")
  ]

  /** The test "has id `id`", one closure per id so that every search by id
      uses the same predicate. */
  function IdIs(id: int): Item -> bool {
    (item: Item) => item.id == id
  }

  /** The test "does not have id `id`". */
  function IdIsNot(id: int): Item -> bool {
    (item: Item) => item.id != id
  }

  /** `s.some(item => item.id === id)`. */
  function HasId(s: seq<Item>, id: int): (b: bool)
    ensures b <==> exists k :: 0 <= k < |s| && s[k].id == id
  {
    Any(s, IdIs(id))
  }

  /** No two entries share an id. */
  predicate IdsUnique(s: seq<Item>) {
    forall i, j :: 0 <= i < j < |s| ==> s[i].id != s[j].id
  }

  /** The list `addItemToStore(item)` saves: `item` appended when its id is
      absent, the list unchanged otherwise. */
  function Added(s: seq<Item>, item: Item): seq<Item> {
    if HasId(s, item.id) then s else s + [item]
  }

  /** The list `removeItemFromStore(id)` saves: every entry with that id gone. */
  function Removed(s: seq<Item>, id: int): seq<Item> {
    Filter(IdIsNot(id), s)
  }

  /** After adding, the item's id is present, and ids stay unique. */
  lemma AddedHasIdAndKeepsIdsUnique(s: seq<Item>, item: Item)
    ensures HasId(Added(s, item), item.id)
    ensures IdsUnique(s) ==> IdsUnique(Added(s, item))
  {
    if !HasId(s, item.id) {
      assert Added(s, item)[|s|] == item;
    }
  }

  /** Adding the same item twice is adding it once. */
  lemma AddIdempotent(s: seq<Item>, item: Item)
    ensures Added(Added(s, item), item) == Added(s, item)
  {
    AddedHasIdAndKeepsIdsUnique(s, item);
  }

  /** Removing keeps exactly the entries with another id, in their order. */
  lemma RemovedKeepsOthers(s: seq<Item>, id: int)
    ensures forall k :: 0 <= k < |Removed(s, id)| ==> Removed(s, id)[k] in s && Removed(s, id)[k].id != id
    ensures forall k :: 0 <= k < |s| && s[k].id != id ==> s[k] in Removed(s, id)
    ensures IsSubsequence(Removed(s, id), s)
    ensures !HasId(Removed(s, id), id)
    ensures forall x: Item :: multiset(Removed(s, id))[x] == if x.id != id then multiset(s)[x] else 0
  {
    FilterIsSubsequence(IdIsNot(id), s);
    FilterCounts(IdIsNot(id), s);
  }

  /** A second identical remove changes nothing. */
  lemma RemoveIdempotent(s: seq<Item>, id: int)
    ensures Removed(Removed(s, id), id) == Removed(s, id)
  {
    FilterIdempotent(IdIsNot(id), s);
  }

  /** Removing an id that is absent changes nothing. */
  lemma RemoveAbsent(s: seq<Item>, id: int)
    requires !HasId(s, id)
    ensures Removed(s, id) == s
  {
    FilterKeepsAll(IdIsNot(id), s);
  }

  /** Adding an absent item and then removing its id restores the list. */
  lemma AddThenRemove(s: seq<Item>, item: Item)
    requires !HasId(s, item.id)
    ensures Removed(Added(s, item), item.id) == s
  {
    FilterConcat(IdIsNot(item.id), s, [item]);
    RemoveAbsent(s, item.id);
  }

  /** Removing keeps ids unique. */
  lemma {:induction false} RemovedKeepsIdsUnique(s: seq<Item>, id: int)
    requires IdsUnique(s)
    ensures IdsUnique(Removed(s, id))
  {
    if s != [] {
      RemovedKeepsIdsUnique(s[1..], id);
      var rest := Removed(s[1..], id);
      RemovedKeepsOthers(s[1..], id);
      if s[0].id != id {
        forall j | 0 <= j < |rest| ensures s[0].id != rest[j].id {
          var m :| 0 <= m < |s[1..]| && s[1..][m] == rest[j];
          assert s[m + 1] == rest[j];
        }
        assert Removed(s, id) == [s[0]] + rest;
      }
    }
  }

  /** The test `filteredCuratedItems` applies: the lowercased query occurs in
      the lowercased name, description or category. */
  predicate MatchesCurated(item: Item, query: string) {
    var q := Lower(query);
    Contains(Lower(item.name), q) || Contains(Lower(item.description), q) || Contains(Lower(item.category), q)
  }

  /** The items of `items` matching the query, in their order. */
  function ItemsMatching(items: seq<Item>, query: string): (r: seq<Item>)
    ensures forall k :: 0 <= k < |r| ==> r[k] in items && MatchesCurated(r[k], query)
    ensures forall k :: 0 <= k < |items| && MatchesCurated(items[k], query) ==> items[k] in r
    ensures IsSubsequence(r, items)
  {
    var p := (item: Item) => MatchesCurated(item, query);
    FilterIsSubsequence(p, items);
    Filter(p, items)
  }

  /** Each matching item is kept as often as it occurs in `items`, and no
      other item is kept. */
  lemma ItemsMatchingCounts(items: seq<Item>, query: string)
    ensures forall x: Item :: multiset(ItemsMatching(items, query))[x] ==
              if MatchesCurated(x, query) then multiset(items)[x] else 0
  {
    FilterCounts((item: Item) => MatchesCurated(item, query), items);
  }

  /** The empty query matches every item, so the whole list is shown. */
  lemma EmptyQueryShowsAll(items: seq<Item>)
    ensures ItemsMatching(items, "") == items
  {
    var p := (item: Item) => MatchesCurated(item, "");
    forall k | 0 <= k < |items| ensures p(items[k]) {
      ContainsEmpty(Lower(items[k].name));
    }
    FilterKeepsAll(p, items);
  }

  /** The default store list: the first five curated items, ids 1 to 5. */
  lemma DefaultItems()
    ensures |CuratedItems[..5]| == 5
    ensures forall k :: 0 <= k < 5 ==> CuratedItems[..5][k].id == k + 1
    ensures IdsUnique(CuratedItems[..5])
  {
  }

  /** The page's state: the store's item list, the search box, and the
      `storeItems` entry of the browser's storage (parsed), which every
      change to the list is written back to. */
  class AdminPanel {
    var storeItems: seq<Item>
    var searchQuery: string
    var saved: Option<seq<Item>>

    /** The stored entry holds exactly the list on screen. */
    predicate Persisted()
      reads this
    {
      saved == Some(storeItems)
    }

    /** The mount effect: the stored list when there is one; otherwise the
        first five curated items, which are also written to storage. */
    constructor (stored: Option<seq<Item>>)
      ensures storeItems == (if stored.Some? then stored.value else CuratedItems[..5])
      ensures searchQuery == ""
      ensures Persisted()
    {
      storeItems := if stored.Some? then stored.value else CuratedItems[..5];
      searchQuery := "";
      saved := if stored.Some? then stored else Some(CuratedItems[..5]);
    }

    /** `isItemInStore(itemId)`: some store item has that id. */
    function IsItemInStore(itemId: int): (b: bool)
      reads this
      ensures b <==> exists k :: 0 <= k < |storeItems| && storeItems[k].id == itemId
    {
      HasId(storeItems, itemId)
    }

    /** `addItemToStore(item)`: appends the item unless its id is present. */
    method AddItemToStore(item: Item)
      modifies this
      ensures storeItems == Added(old(storeItems), item)
      ensures searchQuery == old(searchQuery)
      ensures saved == (if old(IsItemInStore(item.id)) then old(saved) else Some(storeItems))
      ensures old(Persisted()) ==> Persisted()
      ensures IsItemInStore(item.id)
      ensures IdsUnique(old(storeItems)) ==> IdsUnique(storeItems)
    {
      AddedHasIdAndKeepsIdsUnique(storeItems, item);
      if !IsItemInStore(item.id) {
        storeItems := storeItems + [item];
        saved := Some(storeItems);
      }
    }

    /** `removeItemFromStore(itemId)`: drops every item with that id. */
    method RemoveItemFromStore(itemId: int)
      modifies this
      ensures storeItems == Removed(old(storeItems), itemId)
      ensures searchQuery == old(searchQuery)
      ensures Persisted()
      ensures !IsItemInStore(itemId)
      ensures IdsUnique(old(storeItems)) ==> IdsUnique(storeItems)
    {
      RemovedKeepsOthers(storeItems, itemId);
      if IdsUnique(storeItems) {
        RemovedKeepsIdsUnique(storeItems, itemId);
      }
      storeItems := Filter(IdIsNot(itemId), storeItems);
      saved := Some(storeItems);
    }

    /** `filteredCuratedItems`: the curated items matching the search box. */
    function FilteredCuratedItems(): (r: seq<Item>)
      reads this
      ensures forall k :: 0 <= k < |r| ==> r[k] in CuratedItems && MatchesCurated(r[k], searchQuery)
      ensures forall k :: 0 <= k < |CuratedItems| && MatchesCurated(CuratedItems[k], searchQuery) ==> CuratedItems[k] in r
      ensures IsSubsequence(r, CuratedItems)
      ensures searchQuery == "" ==> r == CuratedItems
    {
      EmptyQueryShowsAll(CuratedItems);
      ItemsMatching(CuratedItems, searchQuery)
    }
  }
}
