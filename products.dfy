/** The product record shared by the catalogue page and the cart. */
module Products {
  import opened Wrappers

  /**
   * One catalogue entry. `quantity` is the catalogue's own stock count (it may be
   * missing from the data); `kind` is the product's `type` field. `stock` is the
   * ceiling the "Add to cart" button attaches to the record it passes to the
   * cart; a record taken straight from the catalogue has none.
   */
  datatype Product = Product(
    id: int,
    name: string,
    color: string,
    gender: string,
    kind: string,
    price: int,
    quantity: Option<int>,
    stock: Option<int>)
}
