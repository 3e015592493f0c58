/** The product page: the quantity picker (starts at 1, never below 1), the
    add-to-cart button that calls addToCart `qty` times, the button's amount and
    the savings badge. */
module ProductDetails {
  import opened Optional
  import opened Products
  import opened CartLines
  import opened CartStore

  /** The button's amount, `product.price * qty`. */
  function ButtonAmount(p: Product, qty: int): int
  {
    p.price * qty
  }

  /** The savings badge, `original_price - price`, shown only when the original
      price is present and not zero (the source tests it for truthiness). */
  function Savings(p: Product): (r: Option<int>)
    ensures r.Some? <==> p.originalPrice.Some? && p.originalPrice.value != 0
    ensures r.Some? ==> p.price + r.value == p.originalPrice.value
  {
    match p.originalPrice
    case Some(orig) => if orig != 0 then Some(orig - p.price) else None
    case None => None
  }

  /** After the button, the subtotal has grown by the amount the button shows,
      as long as a line already in the cart carries the page's price. */
  lemma ButtonAmountAdded(items: seq<CartLine>, p: Product, qty: nat)
    requires UniqueIds(items) && AddedUnitPrice(items, p) == p.price
    ensures TotalPrice(AddN(items, p, qty)) == TotalPrice(items) + ButtonAmount(p, qty)
    ensures TotalItems(AddN(items, p, qty)) == TotalItems(items) + qty
  {
    AddNTotals(items, p, qty);
  }

  class ProductDetailsPage {
    const product: Product
    var qty: int

    /** The picker never shows less than 1. */
    ghost predicate Valid()
      reads this
    {
      qty >= 1
    }

    constructor (product: Product)
      ensures Valid() && qty == 1 && this.product == product
    {
      this.product := product;
      qty := 1;
    }

    /** The minus button, `setQty(Math.max(1, qty - 1))`. */
    method Decrement()
      requires Valid()
      modifies this
      ensures Valid()
      ensures qty == if old(qty) > 1 then old(qty) - 1 else 1
    {
      qty := if 1 >= qty - 1 then 1 else qty - 1;
    }

    /** The plus button, `setQty(qty + 1)`. */
    method Increment()
      requires Valid()
      modifies this
      ensures Valid() && qty == old(qty) + 1
    {
      qty := qty + 1;
    }

    /** handleAddToCart: `for (let i = 0; i < qty; i++) addToCart(product)`. */
    method HandleAddToCart(cart: CartProvider)
      requires Valid() && cart.Valid()
      modifies cart
      ensures cart.Valid()
      ensures cart.items == AddN(old(cart.items), product, qty)
      ensures cart.user == old(cart.user)
      ensures QuantityOf(cart.items, product.id) == QuantityOf(old(cart.items), product.id) + qty
      ensures TotalItems(cart.items) == TotalItems(old(cart.items)) + qty
      ensures cart.mirror == AfterSync(old(cart.mirror), cart.user, product.id, QuantityOf(cart.items, product.id))
      ensures old(cart.InSync()) ==> cart.InSync()
    {
      for i := 0 to qty
        invariant cart.Valid()
        invariant cart.items == AddN(old(cart.items), product, i)
        invariant cart.user == old(cart.user)
        invariant QuantityOf(cart.items, product.id) == QuantityOf(old(cart.items), product.id) + i
        invariant i == 0 ==> cart.mirror == old(cart.mirror)
        invariant i > 0 ==> cart.mirror == AfterSync(old(cart.mirror), cart.user, product.id, QuantityOf(cart.items, product.id))
        invariant old(cart.InSync()) ==> cart.InSync()
      {
        cart.AddToCart(product);
        SyncOverwrites(old(cart.mirror), cart.user, product.id, QuantityOf(cart.items, product.id) - 1,
                       QuantityOf(cart.items, product.id));
      }
      AddNTotals(old(cart.items), product, qty);
    }
  }
}
