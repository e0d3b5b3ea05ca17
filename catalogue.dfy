/** The marketplace catalogue of lib/data.ts: constant tables of
    manufacturers, stores, items and default per-store listings, and the
    lookups, filters and searches the pages run over them.  Prices are
    whole cents. */
module Catalogue {
  import opened Seqs
  import opened Text

  /** A catalogue item; `kind` is the source's `type` field. */
  datatype Item = Item(
    id: int, name: string, army: string, unitType: string, description: string,
    price: int, tags: seq<string>, image: string, format: string, kind: string,
    manufacturerId: int, link: string)

  /** One row of a store's inventory: an item offered at the store's own price. */
  datatype Listing = Listing(itemId: int, storePrice: int)

  datatype ManufacturerInfo = ManufacturerInfo(
    id: int, name: string, description: string, since: string, logo: string,
    website: Option<string>)

  datatype StoreInfo = StoreInfo(
    id: int, name: string, description: string, since: string, logo: string,
    owner: Option<string>)

  /** One entry `[storeId, listings]` of the inventory record. */
  datatype Inventory = Inventory(storeId: int, listings: seq<Listing>)

  /** One element `{store, price}` of the answer of `getStoresSelling`. */
  datatype StoreOffer = StoreOffer(store: StoreInfo, price: int)

  const Manufacturers: seq<ManufacturerInfo> := [
    ManufacturerInfo(
      1, "Highlands Miniatures",
      "High-quality fantasy miniatures for tabletop wargaming. Specializing in medieval knights and armies with exceptional detail.",
      "January 2018", "", Some("https://www.myminifactory.com/users/HighlandMiniatures")),
    ManufacturerInfo(
      2, "Lost Kingdom Miniatures",
      "Premium historical and fantasy miniatures. Creating detailed models for collectors and gamers alike.",
      "March 2019", "", Some("https://www.lostkingdomminiatures.com")),
    ManufacturerInfo(
      3, "Monstrous Encounters",
      "Epic fantasy miniatures and complete army sets. Bringing legendary battles to your tabletop.",
      "June 2020", "", Some("https://www.myminifactory.com/users/MonstrousEncounters"))
  ]

  const Stores: seq<StoreInfo> := [
    StoreInfo(
      1, "Epic Prints Shop",
      "Your one-stop shop for quality 3D printable miniatures from top manufacturers. Premium pricing for premium service.",
      "March 2023", "", Some("John Smith")),
    StoreInfo(
      2, "Tabletop Treasures",
      "Curated selection of the finest miniatures for discerning collectors. Competitive prices.",
      "July 2023", "", Some("Sarah Johnson")),
    StoreInfo(
      3, "Mini Market",
      "Affordable miniatures for every tabletop gamer. Best prices guaranteed!",
      "November 2023", "", Some("Mike Davis"))
  ]

  const AllItems: seq<Item> := [
    Item(
      id := 1, name := "Knight of the realm", army := "Bretonnia", unitType := "Knight of the realm",
      description := "Elite mounted knights with ornate armor and lances. Perfect for leading your cavalry charges into battle.",
      price := 1299, tags := ["bretonnia", "knight", "cavalry", "elite", "mounted", "medieval"],
      image := "https://dl2.myminifactory.com/object-assets/64da61f3468758.17214992/images/720X720-knights-of-gallia-highlands-miniatures.jpg",
      format := "3D", kind := "unit", manufacturerId := 1,
      link := "https://www.myminifactory.com/object/3d-print-knights-of-gallia-highlands-miniatures-317902"),
    Item(
      id := 2, name := "Man at arms", army := "Bretonnia", unitType := "Man at arms",
      description := "Brave infantry soldiers forming the backbone of your army. Armed with swords and shields for close combat.",
      price := 899, tags := ["bretonnia", "infantry", "man at arms", "core", "medieval", "foot soldiers"],
      image := "https://dl2.myminifactory.com/object-assets/64da74b083b991.88128358/images/720X720-gallia-men-at-arms-highlands-miniatures.jpg",
      format := "3D", kind := "unit", manufacturerId := 1,
      link := "https://www.myminifactory.com/object/3d-print-gallia-men-at-arms-highlands-miniatures-317913"),
    Item(
      id := 3, name := "Bowmen", army := "Bretonnia", unitType := "Bowmen",
      description := "Skilled archers providing ranged support. Essential for softening enemy lines before the charge.",
      price := 899, tags := ["bretonnia", "bowmen", "ranged", "archers", "medieval", "support"],
      image := "https://dl2.myminifactory.com/object-assets/64da6d6849bba5.21279537/images/720X720-gallian-archers-highlands-miniatures.jpg",
      format := "3D", kind := "unit", manufacturerId := 1,
      link := "https://www.myminifactory.com/object/3d-print-gallia-archers-highlands-miniatures-317911"),
    Item(
      id := 4, name := "Knight of the realm", army := "Bretonnia", unitType := "Knight of the realm",
      description := "Noble warriors on foot with spears and heavy armor. Versatile cavalry that can fight dismounted.",
      price := 1099, tags := ["bretonnia", "knight", "spearmen", "heavy infantry", "pre-supported", "historical"],
      image := "https://www.lostkingdomminiatures.com/362-large_default/spearmen-on-foot.jpg",
      format := "3D", kind := "unit", manufacturerId := 2,
      link := "https://www.lostkingdomminiatures.com/en/kingdom-of-mercia/346-393-spearmen-on-foot.html#/26-supports-pre_supported"),
    Item(
      id := 5, name := "Man at arms", army := "Bretonnia", unitType := "Man at arms",
      description := "Reliable spear-wielding infantry forming defensive lines. Pre-supported files included for easy printing.",
      price := 799, tags := ["bretonnia", "man at arms", "spearmen", "infantry", "pre-supported", "defensive"],
      image := "https://www.lostkingdomminiatures.com/362-large_default/spearmen-on-foot.jpg",
      format := "3D", kind := "unit", manufacturerId := 2,
      link := "https://www.lostkingdomminiatures.com/en/kingdom-of-mercia/346-393-spearmen-on-foot.html#/26-supports-pre_supported"),
    Item(
      id := 6, name := "Bowmen", army := "Bretonnia", unitType := "Bowmen",
      description := "Expert longbowmen raining arrows on the enemy. Detailed models with dynamic poses.",
      price := 799, tags := ["bretonnia", "bowmen", "archers", "ranged", "pre-supported", "longbow"],
      image := "https://www.lostkingdomminiatures.com/360-large_default/bowmen-on-foot.jpg",
      format := "3D", kind := "unit", manufacturerId := 2,
      link := "https://www.lostkingdomminiatures.com/en/kingdom-of-mercia/337-375-bowmen-on-foot.html#/26-supports-pre_supported"),
    Item(
      id := 7, name := "Knight of the realm", army := "Bretonnia", unitType := "Knight of the realm",
      description := "Heroic knights blessed with divine virtue. Highly detailed models with ornate heraldry and weapons.",
      price := 1499, tags := ["bretonnia", "knight", "cavalry", "hero", "elite", "virtue", "blessed"],
      image := "https://dl2.myminifactory.com/object-assets/60d0962870d3d/images/720X720-Breon%20Knights%20of%20Virtue%201.png",
      format := "3D", kind := "unit", manufacturerId := 3,
      link := "https://www.myminifactory.com/object/3d-print-breton-knights-of-virtue-174834"),
    Item(
      id := 8, name := "Man at arms", army := "Bretonnia", unitType := "Man at arms",
      description := "Complete unit of peasant soldiers. Includes multiple pose variations for dynamic formations.",
      price := 999, tags := ["bretonnia", "man at arms", "infantry", "unit", "peasants", "formation"],
      image := "https://dl2.myminifactory.com/object-assets/5fa953b48d78c/images/720X720-Breton%20Men%20At%20Arms%201.png",
      format := "3D", kind := "unit", manufacturerId := 3,
      link := "https://www.myminifactory.com/object/3d-print-breton-men-at-arms-unit-141217"),
    Item(
      id := 9, name := "Bowmen", army := "Bretonnia", unitType := "Bowmen",
      description := "Young squires serving as archers. Versatile unit suitable for ranged support or light infantry.",
      price := 999, tags := ["bretonnia", "bowmen", "squires", "ranged", "youth", "support"],
      image := "https://dl2.myminifactory.com/object-assets/5ffb6d2367566/images/720X720-bret-squires-c-1.jpg",
      format := "3D", kind := "unit", manufacturerId := 3,
      link := "https://www.myminifactory.com/object/3d-print-breton-squires-unit-149195")
  ]

  /** The inventory record, as its entries are enumerated: integer keys
      come out in ascending order. */
  const DefaultStoreInventories: seq<Inventory> := [
    Inventory(1, [Listing(1, 1499), Listing(2, 1049), Listing(4, 1299), Listing(7, 1699)]),
    Inventory(2, [Listing(1, 1349), Listing(3, 949), Listing(5, 849), Listing(8, 1049)]),
    Inventory(3, [Listing(2, 799), Listing(4, 999), Listing(6, 699), Listing(9, 899)])
  ]

  // ---------------------------------------------------------------------
  // Lookups by id
  // ---------------------------------------------------------------------

  /** The first item of `catalogue` with the given id, if there is one. */
  function ItemWithId(catalogue: seq<Item>, itemId: int): (r: Option<Item>)
    ensures r.None? <==> forall k :: 0 <= k < |catalogue| ==> catalogue[k].id != itemId
    ensures r.Some? ==> exists i :: 0 <= i < |catalogue| && catalogue[i] == r.value && r.value.id == itemId
                           && forall k :: 0 <= k < i ==> catalogue[k].id != itemId
  {
    Find(catalogue, (i: Item) => i.id == itemId)
  }

  /** The first store of `stores` with the given id, if there is one. */
  function StoreWithId(stores: seq<StoreInfo>, storeId: int): (r: Option<StoreInfo>)
    ensures r.None? <==> forall k :: 0 <= k < |stores| ==> stores[k].id != storeId
    ensures r.Some? ==> exists i :: 0 <= i < |stores| && stores[i] == r.value && r.value.id == storeId
                           && forall k :: 0 <= k < i ==> stores[k].id != storeId
  {
    Find(stores, (s: StoreInfo) => s.id == storeId)
  }

  /** `getManufacturerById`: the first manufacturer with the given id. */
  function GetManufacturerById(manufacturerId: int): (r: Option<ManufacturerInfo>)
    ensures r.None? <==> forall k :: 0 <= k < |Manufacturers| ==> Manufacturers[k].id != manufacturerId
    ensures r.Some? ==> exists i :: 0 <= i < |Manufacturers| && Manufacturers[i] == r.value && r.value.id == manufacturerId
                           && forall k :: 0 <= k < i ==> Manufacturers[k].id != manufacturerId
  {
    Find(Manufacturers, (m: ManufacturerInfo) => m.id == manufacturerId)
  }

  /** `getStoreById`: the first store with the given id. */
  function GetStoreById(storeId: int): (r: Option<StoreInfo>)
    ensures r.None? <==> forall k :: 0 <= k < |Stores| ==> Stores[k].id != storeId
    ensures r.Some? ==> exists i :: 0 <= i < |Stores| && Stores[i] == r.value && r.value.id == storeId
                           && forall k :: 0 <= k < i ==> Stores[k].id != storeId
  {
    StoreWithId(Stores, storeId)
  }

  /** `getItemById`: the first catalogue item with the given id, at its base price. */
  function GetItemById(itemId: int): (r: Option<Item>)
    ensures r.None? <==> forall k :: 0 <= k < |AllItems| ==> AllItems[k].id != itemId
    ensures r.Some? ==> exists i :: 0 <= i < |AllItems| && AllItems[i] == r.value && r.value.id == itemId
                           && forall k :: 0 <= k < i ==> AllItems[k].id != itemId
  {
    ItemWithId(AllItems, itemId)
  }

  // ---------------------------------------------------------------------
  // A store's items at the store's prices
  // ---------------------------------------------------------------------

  /** `DEFAULT_STORE_INVENTORIES[storeId] || []`. */
  function InventoryOf(storeId: int): (r: seq<Listing>)
    ensures (forall k :: 0 <= k < |DefaultStoreInventories| ==> DefaultStoreInventories[k].storeId != storeId) ==> r == []
    ensures forall k :: 0 <= k < |DefaultStoreInventories| && DefaultStoreInventories[k].storeId == storeId ==>
                          r == DefaultStoreInventories[k].listings
  {
    match Find(DefaultStoreInventories, (e: Inventory) => e.storeId == storeId)
    case None => []
    case Some(e) => e.listings
  }

  /** The listing's item exists in the catalogue. */
  predicate Resolves(catalogue: seq<Item>, l: Listing) {
    ItemWithId(catalogue, l.itemId).Some?
  }

  /** The catalogue item of a resolving listing, repriced at the store's
      price with every other field kept. */
  function Priced(catalogue: seq<Item>, l: Listing): (item: Item)
    requires Resolves(catalogue, l)
    ensures item.id == l.itemId && item.price == l.storePrice
    ensures exists i :: 0 <= i < |catalogue| && item == catalogue[i].(price := l.storePrice)
                        && forall k :: 0 <= k < i ==> catalogue[k].id != l.itemId
  {
    ItemWithId(catalogue, l.itemId).value.(price := l.storePrice)
  }

  /** The body of `getDefaultStoreItems`: map each listing to its priced item
      and drop the listings whose item is not in the catalogue. */
  function ResolveListings(catalogue: seq<Item>, listings: seq<Listing>): (r: seq<Item>)
    ensures |r| <= |listings|
    ensures (forall j :: 0 <= j < |listings| ==> Resolves(catalogue, listings[j])) ==>
              |r| == |listings| && forall k :: 0 <= k < |r| ==> r[k] == Priced(catalogue, listings[k])
  {
    if listings == [] then []
    else
      var rest := ResolveListings(catalogue, listings[1..]);
      if Resolves(catalogue, listings[0]) then [Priced(catalogue, listings[0])] + rest else rest
  }

  /** Resolving the listings is resolving just the ones that resolve: the
      unknown ones are dropped and the others keep their order.  With the
      exact case of `ResolveListings` this fixes the whole answer. */
  lemma {:induction false} ResolveListingsSkipsUnknown(catalogue: seq<Item>, listings: seq<Listing>)
    ensures ResolveListings(catalogue, listings) ==
            ResolveListings(catalogue, Filter((l: Listing) => Resolves(catalogue, l), listings))
  {
    var p := (l: Listing) => Resolves(catalogue, l);
    if listings != [] {
      ResolveListingsSkipsUnknown(catalogue, listings[1..]);
      var kept := Filter(p, listings[1..]);
      if p(listings[0]) {
        assert Filter(p, listings) == [listings[0]] + kept;
        assert ([listings[0]] + kept)[1..] == kept;
      }
    }
  }

  /** `getDefaultStoreItems(storeId)`: the store's default listings as items
      at the store's prices; an unknown store has none. */
  function GetDefaultStoreItems(storeId: int): (r: seq<Item>)
    ensures |r| <= |InventoryOf(storeId)|
    ensures (forall k :: 0 <= k < |DefaultStoreInventories| ==> DefaultStoreInventories[k].storeId != storeId) ==> r == []
  {
    ResolveListings(AllItems, InventoryOf(storeId))
  }

  // ---------------------------------------------------------------------
  // Filters and searches
  // ---------------------------------------------------------------------

  /** The items of one manufacturer, in their order in `items`. */
  function ItemsOfManufacturer(items: seq<Item>, manufacturerId: int): (r: seq<Item>)
    ensures forall k :: 0 <= k < |r| ==> r[k] in items && r[k].manufacturerId == manufacturerId
    ensures forall k :: 0 <= k < |items| && items[k].manufacturerId == manufacturerId ==> items[k] in r
    ensures IsSubsequence(r, items)
  {
    var p := (i: Item) => i.manufacturerId == manufacturerId;
    FilterIsSubsequence(p, items);
    Filter(p, items)
  }

  /** Each item of that manufacturer is kept as often as it occurs in
      `items`, and no other item is kept. */
  lemma ItemsOfManufacturerCounts(items: seq<Item>, manufacturerId: int)
    ensures forall x: Item :: multiset(ItemsOfManufacturer(items, manufacturerId))[x] ==
              if x.manufacturerId == manufacturerId then multiset(items)[x] else 0
  {
    FilterCounts((i: Item) => i.manufacturerId == manufacturerId, items);
  }

  /** `getItemsByManufacturer`: exactly the catalogue items of that
      manufacturer, in catalogue order. */
  function GetItemsByManufacturer(manufacturerId: int): (r: seq<Item>)
    ensures forall k :: 0 <= k < |r| ==> r[k] in AllItems && r[k].manufacturerId == manufacturerId
    ensures forall k :: 0 <= k < |AllItems| && AllItems[k].manufacturerId == manufacturerId ==> AllItems[k] in r
    ensures IsSubsequence(r, AllItems)
  {
    ItemsOfManufacturer(AllItems, manufacturerId)
  }

  /** The items whose unit type equals `unitType` ignoring case, in order. */
  function ItemsOfUnitType(items: seq<Item>, unitType: string): (r: seq<Item>)
    ensures forall k :: 0 <= k < |r| ==> r[k] in items && Lower(r[k].unitType) == Lower(unitType)
    ensures forall k :: 0 <= k < |items| && Lower(items[k].unitType) == Lower(unitType) ==> items[k] in r
    ensures IsSubsequence(r, items)
  {
    var p := (i: Item) => Lower(i.unitType) == Lower(unitType);
    FilterIsSubsequence(p, items);
    Filter(p, items)
  }

  /** Each item of that unit type is kept as often as it occurs in `items`,
      and no other item is kept. */
  lemma ItemsOfUnitTypeCounts(items: seq<Item>, unitType: string)
    ensures forall x: Item :: multiset(ItemsOfUnitType(items, unitType))[x] ==
              if Lower(x.unitType) == Lower(unitType) then multiset(items)[x] else 0
  {
    FilterCounts((i: Item) => Lower(i.unitType) == Lower(unitType), items);
  }

  /** `getItemsByUnitType`: the catalogue items of that unit type, ignoring
      case, in catalogue order. */
  function GetItemsByUnitType(unitType: string): (r: seq<Item>)
    ensures forall k :: 0 <= k < |r| ==> r[k] in AllItems && Lower(r[k].unitType) == Lower(unitType)
    ensures forall k :: 0 <= k < |AllItems| && Lower(AllItems[k].unitType) == Lower(unitType) ==> AllItems[k] in r
    ensures IsSubsequence(r, AllItems)
  {
    ItemsOfUnitType(AllItems, unitType)
  }

  /** The test `searchItems` applies to each item, with the query already
      lowercased: a match in the name, description, army, unit type or a tag. */
  predicate MatchesQuery(item: Item, lowerQuery: string) {
    Contains(Lower(item.name), lowerQuery) ||
    Contains(Lower(item.description), lowerQuery) ||
    Contains(Lower(item.army), lowerQuery) ||
    Contains(Lower(item.unitType), lowerQuery) ||
    Any(item.tags, (tag: string) => Contains(Lower(tag), lowerQuery))
  }

  /** The items of `items` matching the lowercased query, in order. */
  function ItemsMatching(items: seq<Item>, query: string): (r: seq<Item>)
    ensures forall k :: 0 <= k < |r| ==> r[k] in items && MatchesQuery(r[k], Lower(query))
    ensures forall k :: 0 <= k < |items| && MatchesQuery(items[k], Lower(query)) ==> items[k] in r
    ensures IsSubsequence(r, items)
  {
    var p := (i: Item) => MatchesQuery(i, Lower(query));
    FilterIsSubsequence(p, items);
    Filter(p, items)
  }

  /** Each matching item is kept as often as it occurs in `items`, and no
      other item is kept. */
  lemma ItemsMatchingCounts(items: seq<Item>, query: string)
    ensures forall x: Item :: multiset(ItemsMatching(items, query))[x] ==
              if MatchesQuery(x, Lower(query)) then multiset(items)[x] else 0
  {
    FilterCounts((i: Item) => MatchesQuery(i, Lower(query)), items);
  }

  /** The empty query matches every item, so nothing is filtered out. */
  lemma EmptyQueryMatchesAll(items: seq<Item>)
    ensures ItemsMatching(items, "") == items
  {
    var p := (i: Item) => MatchesQuery(i, Lower(""));
    forall k | 0 <= k < |items| ensures p(items[k]) {
      ContainsEmpty(Lower(items[k].name));
    }
    FilterKeepsAll(p, items);
  }

  /** `searchItems(query)`: the catalogue items matching the query, in
      catalogue order. */
  function SearchItems(query: string): (r: seq<Item>)
    ensures forall k :: 0 <= k < |r| ==> r[k] in AllItems && MatchesQuery(r[k], Lower(query))
    ensures forall k :: 0 <= k < |AllItems| && MatchesQuery(AllItems[k], Lower(query)) ==> AllItems[k] in r
    ensures IsSubsequence(r, AllItems)
    ensures query == "" ==> r == AllItems
  {
    EmptyQueryMatchesAll(AllItems);
    ItemsMatching(AllItems, query)
  }

  // ---------------------------------------------------------------------
  // Which stores sell an item
  // ---------------------------------------------------------------------

  /** What one inventory entry contributes to `getStoresSelling(itemId)`:
      the price of its first listing of the item, provided the entry's key
      names a known store. */
  function OfferFor(stores: seq<StoreInfo>, inv: Inventory, itemId: int): (r: Option<StoreOffer>)
    ensures r.Some? ==> r.value.store.id == inv.storeId && r.value.store in stores
  {
    match Find(inv.listings, (l: Listing) => l.itemId == itemId)
    case None => None
    case Some(l) =>
      match StoreWithId(stores, inv.storeId)
      case None => None
      case Some(s) => Some(StoreOffer(s, l.storePrice))
  }

  /** An entry contributes an offer exactly when its key names a known
      store and it lists the item; the price is that of its first listing
      of the item. */
  lemma OfferForFirstListing(stores: seq<StoreInfo>, inv: Inventory, itemId: int)
    ensures var r := OfferFor(stores, inv, itemId);
            (r.Some? <==> StoreWithId(stores, inv.storeId).Some? &&
                          exists j :: 0 <= j < |inv.listings| && inv.listings[j].itemId == itemId) &&
            (r.Some? ==> exists j :: 0 <= j < |inv.listings| && inv.listings[j].itemId == itemId
                           && r.value.price == inv.listings[j].storePrice
                           && forall k :: 0 <= k < j ==> inv.listings[k].itemId != itemId)
  {
  }

  /** The offers collected from a run of inventory entries, in entry order. */
  function StoresSelling(stores: seq<StoreInfo>, invs: seq<Inventory>, itemId: int): (r: seq<StoreOffer>)
    ensures |r| <= |invs|
  {
    if invs == [] then []
    else
      var prefix := StoresSelling(stores, invs[..|invs| - 1], itemId);
      match OfferFor(stores, invs[|invs| - 1], itemId)
      case None => prefix
      case Some(o) => prefix + [o]
  }

  /** What each entry contributes, one slot per entry, in entry order. */
  function Offers(stores: seq<StoreInfo>, invs: seq<Inventory>, itemId: int): (r: seq<Option<StoreOffer>>)
    ensures |r| == |invs|
    ensures forall k :: 0 <= k < |invs| ==> r[k] == OfferFor(stores, invs[k], itemId)
  {
    seq(|invs|, k requires 0 <= k < |invs| => OfferFor(stores, invs[k], itemId))
  }

  /** The answer is the contributions of the entries taken in entry order,
      the entries that contribute nothing skipped. */
  lemma {:induction false} StoresSellingInEntryOrder(stores: seq<StoreInfo>, invs: seq<Inventory>, itemId: int)
    ensures StoresSelling(stores, invs, itemId) == Present(Offers(stores, invs, itemId))
  {
    if invs != [] {
      var n := |invs| - 1;
      StoresSellingInEntryOrder(stores, invs[..n], itemId);
      assert Offers(stores, invs, itemId) == Offers(stores, invs[..n], itemId) + [OfferFor(stores, invs[n], itemId)];
      PresentConcat(Offers(stores, invs[..n], itemId), [OfferFor(stores, invs[n], itemId)]);
    }
  }

  /** Every offer in the answer is contributed by some entry. */
  lemma {:induction false} StoresSellingSound(stores: seq<StoreInfo>, invs: seq<Inventory>, itemId: int, o: StoreOffer)
    requires o in StoresSelling(stores, invs, itemId)
    ensures exists k :: 0 <= k < |invs| && OfferFor(stores, invs[k], itemId) == Some(o)
  {
    var n := |invs| - 1;
    var init := invs[..n];
    var prefix := StoresSelling(stores, init, itemId);
    if o in prefix {
      StoresSellingSound(stores, init, itemId, o);
      var k :| 0 <= k < |init| && OfferFor(stores, init[k], itemId) == Some(o);
      assert invs[k] == init[k];
    } else {
      assert OfferFor(stores, invs[n], itemId) == Some(o);
    }
  }

  /** Every entry that contributes an offer has it in the answer. */
  lemma {:induction false} StoresSellingComplete(stores: seq<StoreInfo>, invs: seq<Inventory>, itemId: int, k: nat)
    requires k < |invs| && OfferFor(stores, invs[k], itemId).Some?
    ensures OfferFor(stores, invs[k], itemId).value in StoresSelling(stores, invs, itemId)
  {
    var n := |invs| - 1;
    var init := invs[..n];
    if k < n {
      assert init[k] == invs[k];
      StoresSellingComplete(stores, init, itemId, k);
    }
  }

  /** Entries enumerated in ascending key order. */
  predicate KeysAscending(invs: seq<Inventory>) {
    forall i, j :: 0 <= i < j < |invs| ==> invs[i].storeId < invs[j].storeId
  }

  /** With keys ascending, the answer lists stores in ascending id order. */
  lemma {:induction false} StoresSellingAscending(stores: seq<StoreInfo>, invs: seq<Inventory>, itemId: int)
    requires KeysAscending(invs)
    ensures var r := StoresSelling(stores, invs, itemId);
            forall i, j :: 0 <= i < j < |r| ==> r[i].store.id < r[j].store.id
  {
    if invs != [] {
      var init := invs[..|invs| - 1];
      StoresSellingAscending(stores, init, itemId);
      var prefix := StoresSelling(stores, init, itemId);
      forall i | 0 <= i < |prefix| ensures prefix[i].store.id < invs[|invs| - 1].storeId {
        StoresSellingSound(stores, init, itemId, prefix[i]);
      }
    }
  }

  /** What the caller of `getStoresSelling` may rely on when the entries
      come in ascending key order, stores in ascending id order; and each
      offer contributed by an entry, and every contribution present. */
  lemma StoresSellingProperties(stores: seq<StoreInfo>, invs: seq<Inventory>, itemId: int)
    ensures var r := StoresSelling(stores, invs, itemId);
            (KeysAscending(invs) ==> forall i, j :: 0 <= i < j < |r| ==> r[i].store.id < r[j].store.id) &&
            (forall o :: o in r ==> exists k :: 0 <= k < |invs| && OfferFor(stores, invs[k], itemId) == Some(o)) &&
            (forall k :: 0 <= k < |invs| && OfferFor(stores, invs[k], itemId).Some? ==>
               OfferFor(stores, invs[k], itemId).value in r)
  {
    var r := StoresSelling(stores, invs, itemId);
    if KeysAscending(invs) {
      StoresSellingAscending(stores, invs, itemId);
    }
    forall o | o in r ensures exists k :: 0 <= k < |invs| && OfferFor(stores, invs[k], itemId) == Some(o) {
      StoresSellingSound(stores, invs, itemId, o);
    }
    forall k | 0 <= k < |invs| && OfferFor(stores, invs[k], itemId).Some?
      ensures OfferFor(stores, invs[k], itemId).value in r
    {
      StoresSellingComplete(stores, invs, itemId, k);
    }
  }

  /** `getStoresSelling(itemId)`: walks the inventory entries in order and
      pushes `{store, price}` for each entry that lists the item and whose
      key names a known store.  The source reads the constant tables; here
      they are the arguments `stores` and `inventories`, and the source's
      call is `GetStoresSelling(Stores, DefaultStoreInventories, itemId)`. */
  method GetStoresSelling(stores: seq<StoreInfo>, inventories: seq<Inventory>, itemId: int)
    returns (result: seq<StoreOffer>)
    ensures result == StoresSelling(stores, inventories, itemId)
    ensures KeysAscending(inventories) ==>
              forall i, j :: 0 <= i < j < |result| ==> result[i].store.id < result[j].store.id
    ensures forall o :: o in result ==>
              exists k :: 0 <= k < |inventories| && OfferFor(stores, inventories[k], itemId) == Some(o)
    ensures forall k :: 0 <= k < |inventories| && OfferFor(stores, inventories[k], itemId).Some? ==>
              OfferFor(stores, inventories[k], itemId).value in result
  {
    result := [];
    var i := 0;
    while i < |inventories|
      invariant 0 <= i <= |inventories|
      invariant result == StoresSelling(stores, inventories[..i], itemId)
    {
      var listing := Find(inventories[i].listings, (l: Listing) => l.itemId == itemId);
      if listing.Some? {
        var store := StoreWithId(stores, inventories[i].storeId);
        if store.Some? {
          result := result + [StoreOffer(store.value, listing.value.storePrice)];
        }
      }
      assert inventories[..i + 1][..i] == inventories[..i];
      i := i + 1;
    }
    assert inventories[..i] == inventories;
    StoresSellingProperties(stores, inventories, itemId);
  }

  // ---------------------------------------------------------------------
  // Facts about the constant tables
  // ---------------------------------------------------------------------

  /** Catalogue ids are 1 to 9 in table order, hence unique. */
  lemma AllItemsIds()
    ensures |AllItems| == 9
    ensures forall k :: 0 <= k < |AllItems| ==> AllItems[k].id == k + 1
  {
  }

  /** Catalogue ids are unique. */
  lemma AllItemsIdsUnique()
    ensures forall i, j :: 0 <= i < j < |AllItems| ==> AllItems[i].id != AllItems[j].id
  {
    AllItemsIds();
  }

  /** Store ids are 1 to 3 in table order. */
  lemma StoresIds()
    ensures |Stores| == 3
    ensures forall k :: 0 <= k < |Stores| ==> Stores[k].id == k + 1
  {
  }

  /** The inventory record: keys 1 to 3 ascending, each listing an id from
      1 to 9 at most once. */
  lemma DefaultInventoriesShape()
    ensures |DefaultStoreInventories| == 3
    ensures forall k :: 0 <= k < 3 ==> DefaultStoreInventories[k].storeId == k + 1
    ensures forall k, j :: 0 <= k < 3 && 0 <= j < |DefaultStoreInventories[k].listings| ==>
              1 <= DefaultStoreInventories[k].listings[j].itemId <= 9
    ensures forall k, i, j :: 0 <= k < 3 && 0 <= i < j < |DefaultStoreInventories[k].listings| ==>
              DefaultStoreInventories[k].listings[i].itemId != DefaultStoreInventories[k].listings[j].itemId
  {
  }

  /** The inventory record is well formed: keys ascending, every key names a
      known store, every listed item is in the catalogue, and no store lists
      an item twice. */
  lemma DefaultInventoriesWellFormed()
    ensures KeysAscending(DefaultStoreInventories)
    ensures forall k :: 0 <= k < |DefaultStoreInventories| ==>
              StoreWithId(Stores, DefaultStoreInventories[k].storeId).Some?
    ensures forall k, j :: 0 <= k < |DefaultStoreInventories| && 0 <= j < |DefaultStoreInventories[k].listings| ==>
              Resolves(AllItems, DefaultStoreInventories[k].listings[j])
    ensures forall k, i, j :: 0 <= k < |DefaultStoreInventories| && 0 <= i < j < |DefaultStoreInventories[k].listings| ==>
              DefaultStoreInventories[k].listings[i].itemId != DefaultStoreInventories[k].listings[j].itemId
  {
    var d := DefaultStoreInventories;
    DefaultInventoriesShape();
    AllItemsIds();
    StoresIds();
    forall k | 0 <= k < |d| ensures StoreWithId(Stores, d[k].storeId).Some? {
      assert Stores[k].id == d[k].storeId;
    }
    forall k, j | 0 <= k < |d| && 0 <= j < |d[k].listings| ensures Resolves(AllItems, d[k].listings[j]) {
      var id := d[k].listings[j].itemId;
      assert AllItems[id - 1].id == id;
    }
  }

  /** Every listing of a store's default inventory resolves. */
  lemma InventoryOfResolves(storeId: int)
    ensures forall j :: 0 <= j < |InventoryOf(storeId)| ==> Resolves(AllItems, InventoryOf(storeId)[j])
  {
    var d := DefaultStoreInventories;
    DefaultInventoriesWellFormed();
    if exists k :: 0 <= k < |d| && d[k].storeId == storeId {
      var k :| 0 <= k < |d| && d[k].storeId == storeId;
      assert InventoryOf(storeId) == d[k].listings;
    }
  }

  /** So a store's default items are its listings one for one, in listing
      order, at the store's prices. */
  lemma DefaultStoreItemsExact(storeId: int)
    ensures forall j :: 0 <= j < |InventoryOf(storeId)| ==> Resolves(AllItems, InventoryOf(storeId)[j])
    ensures |GetDefaultStoreItems(storeId)| == |InventoryOf(storeId)|
    ensures forall k :: 0 <= k < |InventoryOf(storeId)| ==>
              GetDefaultStoreItems(storeId)[k] == Priced(AllItems, InventoryOf(storeId)[k])
  {
    InventoryOfResolves(storeId);
  }

  /** What each default inventory entry contributes for item 1: store 1
      lists it at 14.99, store 2 at 13.49, store 3 not at all. */
  lemma OffersForItemOne()
    ensures OfferFor(Stores, DefaultStoreInventories[0], 1) == Some(StoreOffer(Stores[0], 1499))
    ensures OfferFor(Stores, DefaultStoreInventories[1], 1) == Some(StoreOffer(Stores[1], 1349))
    ensures OfferFor(Stores, DefaultStoreInventories[2], 1) == None
  {
    KnownStores();
    StoreOneListsItemOne();
    StoreTwoListsItemOne();
    StoreThreeLacksItemOne();
  }

  /** Store 1's first listing of item 1 is at 14.99. */
  lemma StoreOneListsItemOne()
    ensures Find(DefaultStoreInventories[0].listings, (l: Listing) => l.itemId == 1) == Some(Listing(1, 1499))
  {
  }

  /** Store 2's first listing of item 1 is at 13.49. */
  lemma StoreTwoListsItemOne()
    ensures Find(DefaultStoreInventories[1].listings, (l: Listing) => l.itemId == 1) == Some(Listing(1, 1349))
  {
  }

  /** Store 3 does not list item 1. */
  lemma StoreThreeLacksItemOne()
    ensures Find(DefaultStoreInventories[2].listings, (l: Listing) => l.itemId == 1) == None
  {
  }

  /** Keys 1 and 2 name the first two stores. */
  lemma KnownStores()
    ensures StoreWithId(Stores, 1) == Some(Stores[0])
    ensures StoreWithId(Stores, 2) == Some(Stores[1])
  {
  }

  /** Item 1 is sold by store 1 at 14.99 and by store 2 at 13.49. */
  lemma StoresSellingItemOne()
    ensures StoresSelling(Stores, DefaultStoreInventories, 1) ==
            [StoreOffer(Stores[0], 1499), StoreOffer(Stores[1], 1349)]
  {
    var d := DefaultStoreInventories;
    var o1, o2 := StoreOffer(Stores[0], 1499), StoreOffer(Stores[1], 1349);
    OffersForItemOne();
    StoresSellingInEntryOrder(Stores, d, 1);
    assert Offers(Stores, d, 1) == [Some(o1), Some(o2), None];
    PresentOfThree(o1, o2);
  }

  /** Taking the present values of two offers and a gap. */
  lemma PresentOfThree(o1: StoreOffer, o2: StoreOffer)
    ensures Present([Some(o1), Some(o2), None]) == [o1, o2]
  {
    var tail: seq<Option<StoreOffer>> := [None];
    assert tail[1..] == [];
    assert Present(tail) == [];
    assert [Some(o2), None][1..] == tail;
    assert Present([Some(o2), None]) == [o2];
    assert [Some(o1), Some(o2), None][1..] == [Some(o2), None];
  }
}
