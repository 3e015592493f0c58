/** The cart page: per-line totals, the order summary (subtotal, delivery fee,
    free-delivery hint, total), the checkout link, and the +, - and trash buttons,
    which are thin calls into the cart store. */
module CartPage {
  import opened Optional
  import opened CartLines
  import opened CartStore
  import opened Pricing

  /** Where the summary's button leads. */
  datatype Route = CheckoutRoute | LoginRoute

  datatype Summary = Summary(itemCount: int, subtotal: int, fee: int, shortfall: Option<int>, total: int)

  /** What the page shows: the empty-cart message, or the lines and the summary. */
  datatype CartView = EmptyCart | Filled(lineTotals: seq<int>, summary: Summary, checkout: Route)

  /** The displayed total of each line, `product.price * quantity`, in order. */
  function LineTotals(items: seq<CartLine>): (r: seq<int>)
    ensures |r| == |items|
    ensures forall i :: 0 <= i < |items| ==> r[i] == LineTotal(items[i])
  {
    if items == [] then [] else [LineTotal(items[0])] + LineTotals(items[1..])
  }

  function Sum(xs: seq<int>): int
  {
    if xs == [] then 0 else xs[0] + Sum(xs[1..])
  }

  /** The hint as written: "Add $(35 - totalPrice) more for free delivery",
      shown whenever a fee is charged. */
  function ShortfallAsWritten(subtotal: int): (r: Option<int>)
    ensures r.Some? <==> DeliveryFee(subtotal) > 0
    ensures r.Some? ==> r.value >= 0 && subtotal + r.value == FreeDeliveryThreshold
  {
    if DeliveryFee(subtotal) > 0 then Some(FreeDeliveryThreshold - subtotal) else None
  }

  /** Adding exactly the amount the hint names leaves the subtotal at $35.00,
      which the strict rule still charges $4.99. */
  lemma ShortfallAsWrittenFallsShort(subtotal: int)
    requires DeliveryFee(subtotal) > 0
    ensures DeliveryFee(subtotal + ShortfallAsWritten(subtotal).value) == StandardDeliveryFee
  {
  }

  /** The hint the page evidently means, which it does not show: the least
      amount (in cents) whose addition makes delivery free, whenever a fee is
      charged. */
  function FreeDeliveryShortfall(subtotal: int): (r: Option<int>)
    ensures r.Some? <==> DeliveryFee(subtotal) > 0
    ensures r.Some? ==> r.value >= 1 && DeliveryFee(subtotal + r.value) == 0
    ensures r.Some? ==> forall t :: subtotal <= t < subtotal + r.value ==> DeliveryFee(t) == StandardDeliveryFee
  {
    if DeliveryFee(subtotal) > 0 then Some(FreeDeliveryThreshold + 1 - subtotal) else None
  }

  /** `user ? "/checkout" : "/login"`. */
  function CheckoutLink(user: Option<UserId>): (r: Route)
    ensures r == CheckoutRoute <==> user.Some?
  {
    if user.Some? then CheckoutRoute else LoginRoute
  }

  /** The page for the current cart and user. */
  function View(items: seq<CartLine>, user: Option<UserId>): (v: CartView)
    ensures v.EmptyCart? <==> items == []
  {
    if items == [] then EmptyCart
    else
      var subtotal := TotalPrice(items);
      var fee := DeliveryFee(subtotal);
      Filled(LineTotals(items),
             Summary(TotalItems(items), subtotal, fee, ShortfallAsWritten(subtotal), OrderTotal(subtotal)),
             CheckoutLink(user))
  }

  /** The line totals add up to the subtotal (the reduce over the cart). */
  lemma {:induction false} LineTotalsSum(items: seq<CartLine>)
    ensures Sum(LineTotals(items)) == TotalPrice(items)
  {
    if items != [] {
      LineTotalsSum(items[1..]);
      assert LineTotals(items)[1..] == LineTotals(items[1..]);
    }
  }

  /** The summary of a non-empty cart: it shows the cart's own line totals, item
      count and subtotal; the line totals add up to the subtotal; the fee is
      $4.99 up to $35.00 and free above, the total is subtotal plus fee, the
      hint appears only while a fee is charged and names 35 - subtotal, and
      checkout needs a user. */
  lemma SummaryConsistent(items: seq<CartLine>, user: Option<UserId>)
    requires items != []
    ensures View(items, user).Filled?
    ensures View(items, user).lineTotals == LineTotals(items)
    ensures View(items, user).summary.itemCount == TotalItems(items)
    ensures View(items, user).summary.subtotal == TotalPrice(items)
    ensures View(items, user).summary.fee == DeliveryFee(TotalPrice(items))
    ensures View(items, user).summary.fee == StandardDeliveryFee <==> TotalPrice(items) <= FreeDeliveryThreshold
    ensures Sum(View(items, user).lineTotals) == View(items, user).summary.subtotal
    ensures View(items, user).summary.fee == 0 <==> View(items, user).summary.subtotal > FreeDeliveryThreshold
    ensures View(items, user).summary.total == View(items, user).summary.subtotal + View(items, user).summary.fee
    ensures View(items, user).summary.shortfall.Some? <==> View(items, user).summary.fee > 0
    ensures View(items, user).summary.shortfall == ShortfallAsWritten(View(items, user).summary.subtotal)
    ensures View(items, user).summary.shortfall.Some? ==>
      View(items, user).summary.subtotal + View(items, user).summary.shortfall.value == FreeDeliveryThreshold
    ensures View(items, user).checkout == CheckoutRoute <==> user.Some?
  {
    LineTotalsSum(items);
  }

  // ---------------------------------------------------------------------------
  // The quantity buttons, on the line list

  /** The minus button, `updateQuantity(id, quantity - 1)`: at quantity 1 it
      deletes the line, otherwise it lowers that line by one; nothing else moves. */
  lemma MinusAt(items: seq<CartLine>, k: nat)
    requires UniqueIds(items) && k < |items|
    ensures UpdateLines(items, items[k].product.id, items[k].quantity - 1)
         == if items[k].quantity <= 1 then items[..k] + items[k + 1..]
            else items[k := items[k].(quantity := items[k].quantity - 1)]
  {
    if items[k].quantity <= 1 {
      RemoveAt(items, k);
    } else {
      SetAt(items, k, items[k].quantity - 1);
    }
  }

  /** The plus button, `updateQuantity(id, quantity + 1)`, changes the lines
      exactly as addToCart on that product does. */
  lemma PlusIsAdd(items: seq<CartLine>, k: nat)
    requires WellFormed(items) && k < |items|
    ensures UpdateLines(items, items[k].product.id, items[k].quantity + 1) == AddLine(items, items[k].product)
    ensures QuantityOf(AddLine(items, items[k].product), items[k].product.id) == items[k].quantity + 1
  {
    FindUnique(items, k);
    AddLineFacts(items, items[k].product);
  }

  // ---------------------------------------------------------------------------
  // The buttons, on the store

  /** The minus button on line k. */
  method Minus(cart: CartProvider, k: nat)
    requires cart.Valid() && k < |cart.items|
    modifies cart
    ensures cart.Valid()
    ensures cart.user == old(cart.user)
    ensures cart.items == if old(cart.items[k].quantity) <= 1 then old(cart.items[..k] + cart.items[k + 1..])
                          else old(cart.items[k := cart.items[k].(quantity := cart.items[k].quantity - 1)])
    ensures cart.mirror == AfterSync(old(cart.mirror), cart.user, old(cart.items[k].product.id), old(cart.items[k].quantity) - 1)
    ensures old(cart.InSync()) ==> cart.InSync()
  {
    var line := cart.items[k];
    MinusAt(cart.items, k);
    cart.UpdateQuantity(line.product.id, line.quantity - 1);
  }

  /** The plus button on line k: the same lines and the same row write as
      addToCart on that line's product. */
  method Plus(cart: CartProvider, k: nat)
    requires cart.Valid() && k < |cart.items|
    modifies cart
    ensures cart.Valid()
    ensures cart.user == old(cart.user)
    ensures cart.items == AddLine(old(cart.items), old(cart.items[k].product))
    ensures cart.mirror == AfterSync(old(cart.mirror), cart.user, old(cart.items[k].product.id),
                                     QuantityOf(cart.items, old(cart.items[k].product.id)))
    ensures old(cart.InSync()) ==> cart.InSync()
  {
    var line := cart.items[k];
    PlusIsAdd(cart.items, k);
    cart.UpdateQuantity(line.product.id, line.quantity + 1);
  }

  /** The trash button on line k: `removeFromCart(id)` drops exactly that line. */
  method Trash(cart: CartProvider, k: nat)
    requires cart.Valid() && k < |cart.items|
    modifies cart
    ensures cart.Valid()
    ensures cart.user == old(cart.user)
    ensures cart.items == old(cart.items[..k] + cart.items[k + 1..])
    ensures cart.mirror == AfterSync(old(cart.mirror), cart.user, old(cart.items[k].product.id), 0)
    ensures old(cart.InSync()) ==> cart.InSync()
  {
    RemoveAt(cart.items, k);
    cart.RemoveFromCart(cart.items[k].product.id);
  }
}
