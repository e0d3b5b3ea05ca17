# 3D-print marketplace: catalogue, storefront and admin list

A verified model of the core of a small marketplace for 3D-printable tabletop miniatures. It has three parts.

- **The catalogue** (`lib/data.ts`) holds constant tables of manufacturers, stores and items, and each store's default inventory of listings with store prices. Its query helpers:
  - join a store's listings to catalogue items at the store's price;
  - filter items by manufacturer or by unit type;
  - find an item, store or manufacturer by id;
  - search case-insensitively;
  - collect the stores that sell an item, with their prices.
- **The storefront page** (`app/page.tsx`) filters the shop's items by five independent criteria, each with an "all" sentinel. It then sorts them stably by downloads or price, in place. `resetFilters` clears every criterion.
- **The admin page** (`app/admin/page.tsx`) keeps the store's item list. It offers:
  - a membership test;
  - add-if-absent;
  - remove-every-item-with-an-id;
  - a default of the first five curated items when nothing is stored;
  - a search over the curated list.

Modules:

- `seqs.dfy` (`Seqs`): JavaScript's `filter`, `find`, `findIndex` and `some`, and the subsequence relation.
- `text.dfy` (`Text`): ASCII `toLowerCase` and `includes` as a substring predicate.
- `catalogue.dfy` (`Catalogue`): `lib/data.ts`.
  - The tables are constants.
  - The helpers are functions.
  - `getStoresSelling`, a loop that pushes onto a result array, is a method proved against a recursive specification function.
- `sorting.dfy` (`Sorting`): the stable sort that `Array.prototype.sort` performs (section 23.1.3.30 of ECMA-262).
  - It is specified as insertion sort on sequences.
  - It is carried out in place on an array.
- `shop_items.dfy` (`ShopItems`): the `Item` record shared by both pages. The field `type` is called `kind`.
- `storefront.dfy` (`Storefront`): `app/page.tsx`, as the class `StoreFront` holding the page's state fields.
- `admin.dfy` (`Admin`): `app/admin/page.tsx`, as the class `AdminPanel` holding the store list, the search box and the stored copy of the list.

Prices are integers in cents. `DEFAULT_STORE_INVENTORIES` is a sequence of (store id, listings) entries in ascending key order, which is the order `Object.entries` gives integer keys (section 10.1.11.1 of ECMA-262).

## Model

| member | source | states |
|---|---|---|
| Seqs.Filter | lib/data.ts:271 | `filter` keeps only elements satisfying the predicate, keeps every such element, and never grows the sequence |
| Seqs.FilterCount | lib/data.ts:271 | `filter` keeps every occurrence of a satisfying value and no occurrence of any other value |
| Seqs.Find | lib/data.ts:276 | `find` returns nothing iff no element matches, and otherwise an element that matches with no match before it |
| Seqs.Any | app/admin/page.tsx:222 | `some` holds iff some element satisfies the predicate |
| Text.LowerChar | lib/data.ts:291 | lowercasing moves `A`..`Z` up by 32 code points, into `a`..`z`, and leaves every other character unchanged |
| Text.Lower | lib/data.ts:291 | a lowercased string has the same length and is lowercased character by character |
| Text.Contains | lib/data.ts:293 | `includes`: the needle is a prefix of the haystack or of one of its suffixes |
| Text.ContainsAt | lib/data.ts:293 | `includes` holds iff the needle is a prefix of the haystack at some position |
| Text.ContainsEmpty | app/page.tsx:92 | every string includes the empty string |
| Catalogue.Manufacturers | lib/data.ts:42-67 | the `MANUFACTURERS` table, entry for entry |
| Catalogue.Stores | lib/data.ts:70-95 | the `STORES` table, entry for entry |
| Catalogue.AllItems | lib/data.ts:98-230 | the `ALL_ITEMS` table, entry for entry, with prices in cents |
| Catalogue.DefaultStoreInventories | lib/data.ts:234-253 | the `DEFAULT_STORE_INVENTORIES` record as its entries in ascending key order, with prices in cents |
| Catalogue.ItemWithId | lib/data.ts:285-287 | the first catalogue item with the id, or nothing iff no item has it |
| Catalogue.StoreWithId | lib/data.ts:280-282 | the first store with the id, or nothing iff no store has it |
| Catalogue.GetManufacturerById | lib/data.ts:275-277 | the first manufacturer in `MANUFACTURERS` with the id, or nothing iff none has it |
| Catalogue.GetStoreById | lib/data.ts:280-282 | the first store in `STORES` with the id, or nothing iff none has it |
| Catalogue.GetItemById | lib/data.ts:285-287 | the first item in `ALL_ITEMS` with the id, at its base price, or nothing iff none has it |
| Catalogue.InventoryOf | lib/data.ts:257 | the listings under the store's key, or the empty list when no entry has that key |
| Catalogue.Resolves | lib/data.ts:259-260 | a listing resolves when the catalogue has an item with its id |
| Catalogue.Priced | lib/data.ts:259-265 | a resolved listing gives the first catalogue item with that id, every field kept except the price, which is the store price |
| Catalogue.ResolveListings | lib/data.ts:258-266 | at most one item per listing, and when every listing resolves, exactly the priced items in listing order |
| Catalogue.ResolveListingsSkipsUnknown | lib/data.ts:259-266 | resolving a list is resolving it with the unknown ids dropped first |
| Catalogue.GetDefaultStoreItems | lib/data.ts:256-267 | no more items than the store's listings; an unknown store gives the empty list |
| Catalogue.DefaultStoreItemsExact | lib/data.ts:256-267 | every default listing resolves, so a store's default items are its listings one for one, in order, at the store's prices |
| Catalogue.ItemsOfManufacturer | lib/data.ts:270-272 | exactly the items with that manufacturer id, as a subsequence of the input |
| Catalogue.ItemsOfManufacturerCounts | lib/data.ts:270-272 | each item of that manufacturer is kept as often as it occurs, and nothing else is kept |
| Catalogue.GetItemsByManufacturer | lib/data.ts:270-272 | exactly the catalogue items with that manufacturer id, in catalogue order |
| Catalogue.ItemsOfUnitType | lib/data.ts:302-306 | exactly the items whose lowercased unit type equals the lowercased argument, as a subsequence |
| Catalogue.ItemsOfUnitTypeCounts | lib/data.ts:302-306 | each item of that unit type is kept as often as it occurs, and nothing else is kept |
| Catalogue.GetItemsByUnitType | lib/data.ts:302-306 | exactly the catalogue items of that unit type, compared case-insensitively, in catalogue order |
| Catalogue.MatchesQuery | lib/data.ts:292-298 | the search test: the lowercased query occurs in the lowercased name, description, army, unit type or some tag |
| Catalogue.ItemsMatching | lib/data.ts:290-299 | an item is kept iff the lowercased query occurs in its lowercased name, description, army, unit type or some tag; the result is a subsequence |
| Catalogue.ItemsMatchingCounts | lib/data.ts:290-299 | each matching item is kept as often as it occurs, and nothing else is kept |
| Catalogue.EmptyQueryMatchesAll | lib/data.ts:290-299 | the empty query keeps every item |
| Catalogue.SearchItems | lib/data.ts:290-299 | the catalogue items matching the query, in catalogue order; the empty query returns the whole catalogue |
| Catalogue.OfferFor | lib/data.ts:313-318 | an entry's offer, when there is one, names a known store whose id is the entry's key |
| Catalogue.OfferForFirstListing | lib/data.ts:313-318 | an entry gives an offer iff it lists the item and its key names a store; the price is that of its first listing of the item |
| Catalogue.StoresSelling | lib/data.ts:309-323 | builds the answer entry by entry; there are no more offers than entries |
| Catalogue.Offers | lib/data.ts:312-319 | one slot per inventory entry, in entry order, holding that entry's contribution |
| Catalogue.StoresSellingInEntryOrder | lib/data.ts:309-323 | the answer is the entries' contributions taken in entry order, with the empty ones skipped |
| Catalogue.StoresSellingSound | lib/data.ts:312-319 | every offer in the answer is the offer some inventory entry contributes |
| Catalogue.StoresSellingComplete | lib/data.ts:312-319 | every entry that lists the item under a known store's key contributes its offer |
| Catalogue.StoresSellingAscending | lib/data.ts:312 | with ascending keys, the offers come in strictly ascending store-id order |
| Catalogue.StoresSellingProperties | lib/data.ts:309-323 | with ascending keys, the offers are ascending, sound and complete |
| Catalogue.GetStoresSelling | lib/data.ts:309-323 | the pushing loop yields exactly the specified offers, so they are ascending by store id, sound and complete |
| Catalogue.AllItemsIds | lib/data.ts:98-230 | the catalogue has nine items with ids 1 to 9 in table order |
| Catalogue.AllItemsIdsUnique | lib/data.ts:98-230 | catalogue ids are unique |
| Catalogue.StoresIds | lib/data.ts:70-95 | the store table has three stores with ids 1 to 3 in order |
| Catalogue.DefaultInventoriesShape | lib/data.ts:234-253 | three entries with keys 1 to 3; every listed id is between 1 and 9, and none appears twice in one store |
| Catalogue.DefaultInventoriesWellFormed | lib/data.ts:98-253 | keys ascend and name known stores, every listed id is in the catalogue, and no store lists an item twice |
| Catalogue.InventoryOfResolves | lib/data.ts:234-257 | every listing of any store's default inventory resolves |
| Catalogue.KnownStores | lib/data.ts:70-95 | keys 1 and 2 name the first two stores |
| Catalogue.OffersForItemOne | lib/data.ts:234-253 | for item 1, store 1 offers 14.99, store 2 offers 13.49 and store 3 offers nothing |
| Catalogue.StoresSellingItemOne | lib/data.ts:309-323 | item 1 is sold by store 1 at 14.99, then by store 2 at 13.49 |
| Sorting.Insert | app/page.tsx:126-135 | one insertion step of the stable sort; the result is one longer (its placement is `Sorting.InsertPlacement`) |
| Sorting.InsertPlacement | app/page.tsx:126-135 | the element goes just before the first element of greater rank, with everything else kept in order; in a sorted sequence that is after every element of no greater rank |
| Sorting.InsertionSort | app/page.tsx:126-135 | the stable sort by rank that `result.sort` performs; it keeps the length |
| Sorting.InsertionSortSorted | app/page.tsx:126-135 | the sort orders by rank |
| Sorting.InsertionSortPermutes | app/page.tsx:126-135 | the sort permutes its input |
| Sorting.InsertionSortStable | app/page.tsx:126-135 | the elements of each rank come out in their input order |
| Sorting.SortInPlace | app/page.tsx:126-135 | sorting the array in place leaves exactly the stable sort of its old contents |
| Sorting.InsertNext | app/page.tsx:126-135 | one step of the in-place sort inserts the next element into the sorted prefix and leaves the rest of the array unchanged |
| Storefront.MatchesSearch | app/page.tsx:91-96 | the lowercased query occurs in the lowercased name, description or some tag |
| Storefront.MatchesCategory | app/page.tsx:98-100 | the category filter is "all" or equals the item's category ignoring case |
| Storefront.MatchesFormat | app/page.tsx:102-104 | the format filter is "all" or equals the item's format ignoring case |
| Storefront.MatchesType | app/page.tsx:106-109 | the type filter is "all", "objects" for an object, or "bundles" for a bundle |
| Storefront.MatchesPrice | app/page.tsx:111-114 | the price filter is "all", "free objects" for price 0, or "premium objects" for a positive price |
| Storefront.Keeps | app/page.tsx:116-122 | an item is kept when all five tests hold |
| Storefront.FilterItems | app/page.tsx:89-123 | an item is kept iff all five criteria hold; the result is a subsequence of the items |
| Storefront.FilterItemsCounts | app/page.tsx:89-123 | each item passing all five tests is kept as often as it occurs in the items, and nothing else is kept |
| Storefront.SortRank | app/page.tsx:126-138 | the rank each sort key's comparator orders by: negated downloads, price, or negated price; no rank for other keys |
| Storefront.Displayed | app/page.tsx:89-141 | the list the page shows: the filtered items, stably sorted when the key has a rank |
| Storefront.DisplayedPermutesFiltered | app/page.tsx:89-141 | the displayed list is a reordering of the filtered items |
| Storefront.DisplayedComesFromItems | app/page.tsx:89-141 | every displayed item comes from the items and passes every criterion |
| Storefront.DisplayedOrder | app/page.tsx:126-135 | "popular" gives non-increasing downloads; "price-low" gives non-decreasing prices; "price-high" gives non-increasing prices |
| Storefront.DisplayedStable | app/page.tsx:126-135 | under a sorting key, ties keep their filtered order |
| Storefront.DisplayedUnsorted | app/page.tsx:136-138 | any other key leaves the filtered order unchanged |
| Storefront.EmptySearchMatches | app/page.tsx:91-96 | the empty query matches every item |
| Storefront.PriceBucketsDisjoint | app/page.tsx:111-114 | no item is both free and premium |
| Storefront.UnknownTypeOrPriceKeepsNothing | app/page.tsx:106-114 | a type or price value that is not "all" and not a known value keeps nothing |
| Storefront.ResetShowsEverything | app/page.tsx:81-141 | with the filters reset and the "featured" key, the page shows the items exactly |
| Storefront.StoreFront.constructor | app/page.tsx:37-79 | the items are the stored list or empty; every filter is "all", the query empty and the key "featured" |
| Storefront.StoreFront.ResetFilters | app/page.tsx:81-87 | every filter is back to "all" and the query is empty; the items and the sort key are unchanged |
| Storefront.StoreFront.FilteredAndSortedItems | app/page.tsx:89-141 | filtering and then sorting a copy in place yields exactly the specified displayed list |
| Admin.CuratedItems | app/admin/page.tsx:29-177 | the `CURATED_ITEMS` table, entry for entry, with prices in cents |
| Admin.HasId | app/admin/page.tsx:221-223 | true iff some entry has the id |
| Admin.Added | app/admin/page.tsx:225-229 | the list after adding: unchanged when the id is present, otherwise the item appended |
| Admin.Removed | app/admin/page.tsx:231-233 | the list after removing: the entries with another id, in order |
| Admin.AddedHasIdAndKeepsIdsUnique | app/admin/page.tsx:225-229 | after adding, the item's id is present, and unique ids stay unique |
| Admin.AddIdempotent | app/admin/page.tsx:225-229 | adding the same item twice is adding it once |
| Admin.RemovedKeepsOthers | app/admin/page.tsx:231-233 | removing keeps exactly the entries with other ids, each as often as it occurs, in their relative order, and the id is gone |
| Admin.RemoveIdempotent | app/admin/page.tsx:231-233 | a second identical remove changes nothing |
| Admin.RemoveAbsent | app/admin/page.tsx:231-233 | removing an absent id changes nothing |
| Admin.AddThenRemove | app/admin/page.tsx:221-233 | adding an absent item and then removing its id restores the list |
| Admin.RemovedKeepsIdsUnique | app/admin/page.tsx:231-233 | removing keeps ids unique |
| Admin.MatchesCurated | app/admin/page.tsx:236-239 | the lowercased query occurs in the lowercased name, description or category |
| Admin.ItemsMatching | app/admin/page.tsx:235-240 | an item is kept iff the lowercased query occurs in its lowercased name, description or category; the result is a subsequence |
| Admin.ItemsMatchingCounts | app/admin/page.tsx:235-240 | each matching item is kept as often as it occurs, and nothing else is kept |
| Admin.EmptyQueryShowsAll | app/admin/page.tsx:235-240 | the empty query keeps every item |
| Admin.DefaultItems | app/admin/page.tsx:29-103 | the first five curated items have ids 1 to 5, hence distinct |
| Admin.AdminPanel.constructor | app/admin/page.tsx:190-199 | the list is the stored one, or otherwise the first five curated items, which are also saved; the stored copy matches the list |
| Admin.AdminPanel.IsItemInStore | app/admin/page.tsx:221-223 | true iff some store item has the id |
| Admin.AdminPanel.AddItemToStore | app/admin/page.tsx:212-229 | appends the item iff its id is absent, saving the new list; afterwards the id is in the store, and unique ids stay unique |
| Admin.AdminPanel.RemoveItemFromStore | app/admin/page.tsx:212-233 | drops every item with the id and saves the list; afterwards the id is absent, and unique ids stay unique |
| Admin.AdminPanel.FilteredCuratedItems | app/admin/page.tsx:235-240 | the curated items matching the search box, in curated order; the empty query shows all of them |

## Left out

- Browser storage and JSON: `localStorage` reads and writes and `JSON.parse`/`JSON.stringify` are I/O. The parsed stored list is a constructor parameter. On the admin page, the written copy is the field `saved`.
- The store-settings form, `storeInfo` and `saveStoreInfo`, on both pages: plain field copies with no rules.
- JSX markup, widgets, icons and navigation: presentation only.
- Insert: its own contract states only the length of the result. Its placement is proved separately in `Sorting.InsertPlacement`, because stating it in the contract of `Insert` makes the sort proofs too costly.
- Text.Lower: only ASCII `A`..`Z` are lowercased, not full Unicode `toLowerCase`.
- Prices are integers in cents rather than floating-point numbers. The sort comparators are modelled as comparisons of an integer rank, not subtractions of floats. `toFixed(2)` and the "Free" label are formatting.
- Catalogue.GetStoresSelling takes the store table and the inventory entries as parameters, so that its loop proof is independent of the constant tables. Catalogue.StoresSellingItemOne instantiates it with the real tables.
- `parseInt` on the inventory keys: the keys are integers in the model.
- The `MANUFACTURERS` and `STORES` text fields are copied as written, but no property is stated about them beyond their ids.
- Related-item ranking, markup and bulk pricing, repricing with validation, and custom-item archives: none appears in the modelled files.
- The store inventory operations with typed errors, such as a rejected duplicate listing: the modelled code has no such errors. Adding an item whose id is already present silently leaves the list unchanged, and the model follows the code.
