/** The `Item` record that the storefront page (app/page.tsx) and the admin
    page (app/admin/page.tsx) both declare: one catalogue entry of a single
    store, with its download count.  Prices are whole cents; `kind` is the
    source's `type` field ("object" or "bundle"). */
module ShopItems {

  datatype Item = Item(
    id: int, name: string, description: string, price: int, tags: seq<string>,
    image: string, fileSize: string, downloads: int, category: string,
    format: string, kind: string)
}
