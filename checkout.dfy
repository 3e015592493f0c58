/** The checkout page: a three-step machine (delivery, payment, done) over the
    cart, with an empty-cart guard, the delivery fee and the displayed total.
    Placing the order only clears the cart and moves to the done step. */
module Checkout {
  import Products
  import opened CartLines
  import opened CartStore
  import opened Pricing

  datatype Step = Delivery | Payment | Done

  /** What the page shows for a step and a cart. */
  datatype Screen =
    | EmptyCheckout
    | OrderPlaced
    | DeliveryForm(fee: int)
    | PaymentForm(lineCount: nat, subtotal: int, fee: int, total: int)

  /** The four `required` inputs of the delivery form. */
  datatype AddressFields = AddressFields(street: string, city: string, zip: string, phone: string)

  /** The three `required` inputs of the payment form; their values are not kept. */
  datatype PaymentFields = PaymentFields(cardNumber: string, expiry: string, cvc: string)

  /** The user's actions on the page. */
  datatype Event = SubmitAddress(address: AddressFields) | Back | SubmitPayment(payment: PaymentFields)

  /** The browser submits a form only when none of its `required` inputs is empty. */
  predicate AddressComplete(a: AddressFields)
  {
    a.street != "" && a.city != "" && a.zip != "" && a.phone != ""
  }

  predicate PaymentComplete(p: PaymentFields)
  {
    p.cardNumber != "" && p.expiry != "" && p.cvc != ""
  }

  /** The page: the empty-cart guard first (it does not apply once done), then
      the done view, then the form of the current step. */
  function Render(step: Step, items: seq<CartLine>): (s: Screen)
    ensures s == EmptyCheckout <==> items == [] && step != Done
    ensures s == OrderPlaced <==> step == Done
    ensures s.DeliveryForm? ==> step == Delivery && s.fee == DeliveryFee(TotalPrice(items))
    ensures s.PaymentForm? ==> step == Payment && s.lineCount == |items| &&
                               s.subtotal == TotalPrice(items) && s.fee == DeliveryFee(s.subtotal) &&
                               s.total == s.subtotal + s.fee
  {
    if items == [] && step != Done then EmptyCheckout
    else if step == Done then OrderPlaced
    else
      var subtotal := TotalPrice(items);
      match step
      case Delivery => DeliveryForm(DeliveryFee(subtotal))
      case Payment => PaymentForm(|items|, subtotal, DeliveryFee(subtotal), OrderTotal(subtotal))
  }

  /** The step after an event. Only the form on screen reacts: the empty and the
      done views offer no transition. */
  function Next(step: Step, items: seq<CartLine>, e: Event): (next: Step)
    ensures items == [] ==> next == step
    ensures step == Done ==> next == Done
    ensures step == Delivery ==> next != Done
    ensures next == Done && step != Done ==> step == Payment && e.SubmitPayment? && PaymentComplete(e.payment)
    ensures next == Payment && step != Payment ==> step == Delivery && e.SubmitAddress? && AddressComplete(e.address)
    ensures next == Delivery && step != Delivery ==> step == Payment && e.Back?
  {
    match Render(step, items)
    case DeliveryForm(_) =>
      if e.SubmitAddress? && AddressComplete(e.address) then Payment else step
    case PaymentForm(_, _, _, _) =>
      if e.Back? then Delivery
      else if e.SubmitPayment? && PaymentComplete(e.payment) then Done
      else step
    case _ => step
  }

  /** A worked example: $2.50 x 3 and $10.00 x 1 make a $17.50 subtotal, below
      the threshold, so the payment step shows a $4.99 fee and a $22.49 total. */
  lemma PaymentScreenExample(a: Products.Product, b: Products.Product)
    requires a.price == 250 && b.price == 1000
    ensures Render(Payment, [CartLine(a, 3), CartLine(b, 1)]) == PaymentForm(2, 1750, 499, 2249)
  {
    var items := [CartLine(a, 3), CartLine(b, 1)];
    assert items[1..] == [CartLine(b, 1)] && items[1..][1..] == [];
    assert TotalPrice([CartLine(b, 1)]) == 1000;
    assert TotalPrice(items) == 1750;
  }

  class CheckoutPage {
    var step: Step
    var address: AddressFields
    const cart: CartProvider

    /** The page opens at the delivery step with empty inputs. */
    constructor (cart: CartProvider)
      ensures step == Delivery && address == AddressFields("", "", "", "") && this.cart == cart
    {
      step := Delivery;
      address := AddressFields("", "", "", "");
      this.cart := cart;
    }

    /** The inputs' change handlers. */
    method EditAddress(fields: AddressFields)
      modifies this`address
      ensures address == fields && step == old(step)
    {
      address := fields;
    }

    /** Submitting the delivery form: it reaches the handler only when all four
        inputs are filled, and the handler moves to the payment step. */
    method SubmitDeliveryForm() returns (submitted: bool)
      requires Render(step, cart.items).DeliveryForm?
      modifies this`step
      ensures submitted == AddressComplete(address)
      ensures step == Next(old(step), cart.items, SubmitAddress(address))
      ensures step == if submitted then Payment else Delivery
    {
      submitted := AddressComplete(address);
      if submitted {
        step := Payment;
      }
    }

    /** The Back button of the payment form. */
    method GoBack()
      requires Render(step, cart.items).PaymentForm?
      modifies this`step
      ensures step == Delivery && step == Next(old(step), cart.items, Back)
    {
      step := Delivery;
    }

    /** Submitting the payment form: when its inputs are filled, clear the cart
        (memory and stored rows) and show the done view. */
    method PlaceOrder(payment: PaymentFields) returns (submitted: bool)
      requires cart.Valid() && Render(step, cart.items).PaymentForm?
      modifies this`step, cart
      ensures cart.Valid()
      ensures submitted == PaymentComplete(payment)
      ensures step == Next(old(step), old(cart.items), SubmitPayment(payment))
      ensures submitted ==> step == Done && cart.items == [] && Render(step, cart.items) == OrderPlaced
      ensures submitted ==> cart.user == old(cart.user)
      ensures submitted ==>
        cart.mirror == (if cart.user.Some? then WithoutUser(old(cart.mirror), cart.user.value) else old(cart.mirror))
      ensures !submitted ==> step == old(step) && cart.items == old(cart.items) && cart.user == old(cart.user) &&
                             cart.mirror == old(cart.mirror)
    {
      submitted := PaymentComplete(payment);
      if submitted {
        cart.ClearCart();
        step := Done;
      }
    }
  }
}
