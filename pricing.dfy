/** The delivery-fee rule shared by the cart page and the checkout, in cents. */
module Pricing {
  /** Delivery is free only strictly above $35.00. */
  const FreeDeliveryThreshold: int := 3500

  /** The fee charged at or below the threshold: $4.99. */
  const StandardDeliveryFee: int := 499

  /** `totalPrice > 35 ? 0 : 4.99`. */
  function DeliveryFee(subtotal: int): (fee: int)
    ensures fee == 0 <==> subtotal > FreeDeliveryThreshold
    ensures fee == StandardDeliveryFee <==> subtotal <= FreeDeliveryThreshold
  {
    if subtotal > FreeDeliveryThreshold then 0 else StandardDeliveryFee
  }

  /** The displayed total, `totalPrice + deliveryFee`: never below the subtotal,
      never more than one standard fee above it, and equal to it exactly when
      delivery is free. */
  function OrderTotal(subtotal: int): (total: int)
    ensures subtotal <= total <= subtotal + StandardDeliveryFee
    ensures total == subtotal <==> subtotal > FreeDeliveryThreshold
    ensures total - subtotal == DeliveryFee(subtotal)
  {
    subtotal + DeliveryFee(subtotal)
  }
}
