/** An optional value: a missing user, a product id that is not in the cart, an
    absent original price, a database answer that did not arrive. */
module Optional {
  datatype Option<+T> = None | Some(value: T)
}
