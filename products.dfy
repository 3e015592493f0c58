/** A product row of the catalog, as the cart sees it: read-only. Money is held in
    integer cents (4.99 is 499). */
module Products {
  import opened Optional

  type ProductId = string

  datatype Product = Product(
    id: ProductId,
    name: string,
    price: int,                // unit price, in cents
    originalPrice: Option<int>, // the pre-discount price, when the catalog has one
    unit: string,
    category: string,
    inStock: bool)
}
