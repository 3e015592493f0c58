# Storefront cart and checkout, modelled in Dafny

This project models the cart and checkout core of a grocery storefront written in
React and TypeScript:

- **The cart store** (`CartProvider`). It holds an ordered list of
  `(product, quantity)` lines and the signed-in user. It offers `addToCart`,
  `removeFromCart`, `updateQuantity` and `clearCart`, and the derived
  `totalItems` and `totalPrice`.
- **The durable mirror.** `addToCart`, `removeFromCart` and `updateQuantity`
  write through `syncToDb` to the `cart_items` table, keyed by (user id,
  product id). `clearCart` deletes the user's rows with its own query. On a
  change of user the cart is reloaded from that table without writing to it,
  and rows whose product no longer resolves are dropped.
- **The cart page.** It shows line totals, the delivery fee, the "add $X more
  for free delivery" hint, the order total and the checkout link. Its +, − and
  trash buttons call into the store.
- **The checkout page.** It is a step machine: delivery, then payment, then
  done, with Back from payment to delivery. It has an empty-cart guard and the
  same delivery-fee rule. Placing the order clears the cart.
- **The product page.** It has a quantity picker that never goes below 1. Its
  add button calls `addToCart` `qty` times and shows `price × qty` and the
  savings badge.

All money is integer cents. The free-delivery threshold is `3500` (delivery is
free strictly above $35.00) and the fee is `499`.

The model has these modules:

| module | file | contents |
|---|---|---|
| `Optional` | `optional.dfy` | the option type |
| `Products` | `products.dfy` | the product record |
| `CartLines` | `cart_lines.dfy` | the line list as a value: the `find`/`map`/`filter`/append transformations the store applies, the totals (`reduce`), and what they preserve |
| `CartStore` | `cart_store.dfy` | the mirror as a map; loading stored rows; the `CartProvider` class, whose methods update `items` and `mirror` in place |
| `Pricing` | `pricing.dfy` | the fee rule and the displayed total |
| `CartPage` | `cart_page.dfy` | the cart page's view as a function; the buttons as methods on the store |
| `Checkout` | `checkout.dfy` | the screens and the step transition as functions; the `CheckoutPage` class with its handlers |
| `ProductDetails` | `product_details.dfy` | the badge and button amounts; the `ProductDetailsPage` class with its picker and the add loop |

The stateful parts are classes with `modifies` clauses. Their `ensures` tie the
new state to the pure functions of `CartLines` and `CartStore`, and the
properties of those functions are proved as lemmas.

Two invariants are kept by every mutation (`CartProvider.Valid`):

- at most one line per product, with every quantity at least 1;
- every stored row holds a positive quantity.

Agreement between the lines and the table (`CartProvider.InSync`: with a user
signed in, each line has a row of the same quantity) is preserved by every
mutation, and the reload establishes it. It is not an invariant of the class,
because of how the loader handles a failed query (see below).

### Behaviour worth knowing

- **Placing an order only clears the cart.** No address, order or order line is
  written (`src/pages/Checkout.tsx:154-157`), so none is modelled.
- **A failed cart query keeps the current lines.** The loader replaces the
  lines only when the query returned data (`src/context/CartContext.tsx:41`).
  Otherwise the lines stay as they were, possibly a guest's, under the new user.
  `CartProvider.OnUserChange` models both outcomes, and promises agreement with
  the table only when the data arrived.
- **`updateQuantity` can create a row for a product the cart does not hold.**
  With `q > 0` and a product not in the cart, the lines are unchanged
  (`CartLines.UpdateCases`), but `syncToDb` still upserts the row. The store's
  contract states this write as it happens (`mirror == AfterSync(..., q)`). The
  pages never call it that way.
- **An existing line keeps its own product record.** `addToCart` on a product
  already in the cart keeps the line's product record and changes only its
  quantity. So the price the subtotal grows by is the stored line's price
  (`CartLines.AddedUnitPrice`), not the price passed in.

## Model

| member | source | states |
|---|---|---|
| CartLines.FindLine | src/context/CartContext.tsx:74 | `find` by product id: absent exactly when no line has the id; otherwise the index of a matching line with no match before it |
| CartLines.AddLine | src/context/CartContext.tsx:73-83 | addToCart on the lines: it adds at most one line; `AddExisting` and `AddAbsent` give its exact result in each case |
| CartLines.SetQuantity | src/context/CartContext.tsx:102-104 | the `map` that sets a product's quantity keeps the line count; `SetQuantityAt` gives it line by line |
| CartLines.RemoveLine | src/context/CartContext.tsx:90 | the `filter` never adds lines; `RemoveLineFacts`, `RemoveLineMembers` and `RemoveAt` give exactly what it keeps |
| CartLines.UpdateLines | src/context/CartContext.tsx:98-104 | updateQuantity on the lines never adds a line and, for q > 0, never drops one; `UpdateCases` gives its result |
| CartLines.TotalItems | src/context/CartContext.tsx:117 | the item count; `TotalsConcat` proves it a plain sum of quantities and `TotalItemsBound` bounds it by the line count |
| CartLines.TotalPrice | src/context/CartContext.tsx:118 | the subtotal; `TotalsConcat` proves it a plain sum of `price × quantity` and `LineTotalsSum` ties it to the displayed line totals |
| CartLines.AddN | src/pages/ProductDetails.tsx:44 | the lines after qty calls of addToCart; `AddNExisting`, `AddNAbsent` and `AddNTotals` give its result and totals |
| CartLines.QuantityOfPositive | src/context/CartContext.tsx:74-75 | in a cart of positive quantities, the quantity found for an id is at least 1 exactly when a line has it, and 0 otherwise (the `existing ? q + 1 : 1` base) |
| CartLines.AddExisting | src/context/CartContext.tsx:74-81 | addToCart on a product already in the cart raises that line's quantity by exactly 1; positions, line count and every other line are unchanged |
| CartLines.AddAbsent | src/context/CartContext.tsx:75-82 | addToCart on an absent product appends `(product, 1)` after all prior lines, which are untouched |
| CartLines.AddLineWellFormed | src/context/CartContext.tsx:71-86 | addToCart keeps one line per product and every quantity at least 1 |
| CartLines.SetQuantityAt | src/context/CartContext.tsx:102-104 | the `map` gives quantity q to exactly the lines for the id and leaves the others as they were |
| CartLines.SetAt | src/context/CartContext.tsx:102-104 | in a cart with unique ids, setting a product's quantity replaces that one line's quantity and nothing else |
| CartLines.SetAbsent | src/context/CartContext.tsx:102-104 | setting a quantity for a product with no line changes nothing: updateQuantity never inserts |
| CartLines.SetQuantityWellFormed | src/context/CartContext.tsx:102-104 | setting a quantity of at least 1 keeps the cart well formed |
| CartLines.RemoveAt | src/context/CartContext.tsx:90 | in a cart with unique ids, removing a product deletes exactly its line and keeps the order of the rest |
| CartLines.RemoveLineFacts | src/context/CartContext.tsx:90 | after the `filter` no line for the id is left; when there was none, the filter changes nothing |
| CartLines.RemoveLineMembers | src/context/CartContext.tsx:90 | a line survives the filter if and only if it was in the cart and is for another product |
| CartLines.RemoveConcat | src/context/CartContext.tsx:90 | the filter distributes over concatenation of line lists |
| CartLines.RemoveIdempotent | src/context/CartContext.tsx:90 | removeFromCart is idempotent, and a no-op for an absent id |
| CartLines.RemoveLineUnique | src/context/CartContext.tsx:90 | removing a product keeps ids unique |
| CartLines.UpdateCases | src/context/CartContext.tsx:98-104 | updateQuantity with q ≤ 0 is exactly removeFromCart; with q > 0 it keeps the line count, never inserts, and leaves the product at quantity q (absolute, not a delta) |
| CartLines.RemoveUpdateWellFormed | src/context/CartContext.tsx:88-108 | removeFromCart and updateQuantity keep one line per product and every quantity at least 1 |
| CartLines.TotalsConcat | src/context/CartContext.tsx:117-118 | both reduces are sums: the totals of two concatenated carts add up |
| CartLines.TotalItemsBound | src/context/CartContext.tsx:117 | in a cart of positive quantities the item count is at least the number of lines, and zero exactly for the empty cart |
| CartLines.TotalsAround | src/context/CartContext.tsx:117-118 | the totals split around any line into before, the line, and after |
| CartLines.TotalsUpdate | src/context/CartContext.tsx:117-118 | replacing one line changes each total by the difference between the old and the new line |
| CartLines.AddTotals | src/context/CartContext.tsx:73-82 | addToCart raises the item count by exactly 1 and the subtotal by the unit price of the line it touches |
| CartLines.RemoveTotals | src/context/CartContext.tsx:90 | removeFromCart lowers the item count by the product's quantity and the subtotal by its line total; an absent id changes neither |
| CartLines.EmptyTotals | src/context/CartContext.tsx:110-118 | after clearCart empties the lines both totals are zero |
| CartLines.AddNExisting | src/pages/ProductDetails.tsx:43-45 | n calls of addToCart on a product in the cart raise its line's quantity by n and touch no other line |
| CartLines.AddNAbsent | src/pages/ProductDetails.tsx:43-45 | n ≥ 1 calls of addToCart on an absent product append one last line with quantity n |
| CartLines.AddNWellFormed | src/pages/ProductDetails.tsx:44 | repeated addToCart keeps the cart well formed |
| CartLines.AddNStable | src/pages/ProductDetails.tsx:44 | repeated addToCart keeps ids unique and the unit price of the line it touches |
| CartLines.AddNStep | src/pages/ProductDetails.tsx:44 | each further call in the loop adds one item and the same unit price as the first |
| CartLines.AddNTotals | src/pages/ProductDetails.tsx:44 | n calls raise the item count by exactly n and the subtotal by n times the unit price |
| CartStore.AfterSync | src/context/CartContext.tsx:56-66 | syncToDb on the table: without a user nothing changes; with a user, row (user, id) exists afterwards exactly when q > 0 and then holds q; every other row is kept as it was |
| CartStore.SyncOverwrites | src/context/CartContext.tsx:62-65 | two writes of the same row: the last one wins (the upsert on conflict) |
| CartStore.SyncKeepsRowsPositive | src/context/CartContext.tsx:59-65 | syncToDb never leaves a row with quantity ≤ 0: such rows are deleted |
| CartStore.ResyncAfter | src/context/CartContext.tsx:56-66 | a write of row (user, id) restores agreement with the lines when the lines for id now carry q and the other lines are unchanged |
| CartStore.AddLineFacts | src/context/CartContext.tsx:73-82 | addToCart keeps the cart well formed, raises the product's quantity by one, and leaves every other line as it was |
| CartStore.WithoutUser | src/context/CartContext.tsx:112-114 | clearCart's delete: every row of the user is gone; every row of another user is kept with its quantity |
| CartStore.Resolve | src/context/CartContext.tsx:42-49 | the loaded lines: no more lines than rows; every line comes from a row whose product resolved, with that row's quantity; every such row gives a line |
| CartStore.ResolveConcat | src/context/CartContext.tsx:43-48 | the `filter` then `map` works row by row: loading two runs of rows gives the first run's lines followed by the second's |
| CartStore.ResolveOne | src/context/CartContext.tsx:43-48 | one row gives its line, with its quantity, when its product resolved, and nothing otherwise |
| CartStore.ResolveInOrder | src/context/CartContext.tsx:43-48 | row order is kept: of two resolved rows, the earlier row's line comes before the later row's |
| CartStore.ResolveUnique | src/context/CartContext.tsx:43-48 | rows with distinct product ids load as lines with distinct ids |
| CartStore.ReloadRestores | src/context/CartContext.tsx:42-49 | when every product resolves, the loaded lines are exactly the rows, in row order, with their quantities |
| CartStore.LoadedCart | src/context/CartContext.tsx:37-49 | the loaded cart is well formed and agrees with the table; a stored product has a line if and only if it resolved |
| CartStore.CartProvider.constructor | src/context/CartContext.tsx:25-27 | the store starts with no lines and no user over the stored table |
| CartStore.CartProvider.SyncToDb | src/context/CartContext.tsx:56-66 | the table becomes `AfterSync` of the old table for the current user |
| CartStore.CartProvider.AddToCart | src/context/CartContext.tsx:71-86 | lines become `AddLine` of the old lines; the product's quantity rises by 1; its row is written to the new quantity; validity and agreement with the table are kept |
| CartStore.CartProvider.RemoveFromCart | src/context/CartContext.tsx:88-94 | lines become the filtered old lines and the row is deleted; validity and agreement are kept |
| CartStore.CartProvider.UpdateQuantity | src/context/CartContext.tsx:96-108 | lines become `UpdateLines` of the old lines and the row is written to q (deleted when q ≤ 0); validity and agreement are kept |
| CartStore.CartProvider.ClearCart | src/context/CartContext.tsx:110-118 | the lines are empty, so both totals are 0, and, with a user, every row of that user is deleted; other users' rows are kept |
| CartStore.CartProvider.OnUserChange | src/context/CartContext.tsx:30-54 | no user empties the lines; a user with a query answer gets the resolved rows; no answer keeps the lines; the table is untouched; agreement holds unless the answer was missing |
| Pricing.DeliveryFee | src/pages/Checkout.tsx:14 | the fee is 0 if and only if the subtotal is strictly above $35.00, and $4.99 if and only if it is at most $35.00 (so exactly $35.00 pays) |
| Pricing.OrderTotal | src/pages/Checkout.tsx:202 | the total is the subtotal plus the fee: never below the subtotal, at most one fee above it, equal to it exactly when delivery is free |
| CartPage.LineTotals | src/pages/Cart.tsx:62 | one displayed amount per line, in order, each `price × quantity` |
| CartPage.LineTotalsSum | src/pages/Cart.tsx:62-77 | the displayed line totals add up to the displayed subtotal |
| CartPage.ShortfallAsWritten | src/pages/Cart.tsx:82-83 | the hint as written: shown exactly when a fee is charged, non-negative, and it brings the subtotal to exactly $35.00 |
| CartPage.ShortfallAsWrittenFallsShort | src/pages/Cart.tsx:82-83 | adding the amount the hint names still leaves the $4.99 fee |
| CartPage.FreeDeliveryShortfall | src/pages/Cart.tsx:82-83 | the corrected hint, which the page does not show: shown exactly when a fee is charged; adding it makes delivery free; any smaller addition still pays the fee |
| CartPage.CheckoutLink | src/pages/Cart.tsx:91-98 | the button leads to checkout if and only if a user is signed in, otherwise to login |
| CartPage.View | src/pages/Cart.tsx:11-98 | the empty-cart view is shown if and only if the cart has no lines; otherwise the page shows the line totals and a summary whose hint is the one the page writes (35 − subtotal) |
| CartPage.SummaryConsistent | src/pages/Cart.tsx:27-98 | for a non-empty cart: the page shows the cart's own line totals (`price × quantity`), item count (`TotalItems`) and subtotal (`TotalPrice`); the line totals sum to the subtotal; the fee is $4.99 exactly when the subtotal is at most $35.00 and 0 otherwise, total is subtotal plus fee, the hint shows only with a fee and names exactly 35 − subtotal, checkout needs a user |
| CartPage.MinusAt | src/pages/Cart.tsx:53 | the minus button at quantity 1 deletes the line; above 1 it lowers that line by one; nothing else moves |
| CartPage.PlusIsAdd | src/pages/Cart.tsx:57 | the plus button changes the lines exactly as addToCart on that product, raising its quantity by one |
| CartPage.Minus | src/pages/Cart.tsx:53 | on the store: the lines change as `MinusAt` says, the row is written to q − 1 (deleted at 0), the user is unchanged, validity and agreement are kept |
| CartPage.Plus | src/pages/Cart.tsx:57 | on the store: the lines are those of addToCart, the row holds the new quantity, the user is unchanged, validity and agreement are kept |
| CartPage.Trash | src/pages/Cart.tsx:63 | on the store: exactly line k is removed, order kept, its row deleted, the user unchanged, validity and agreement kept |
| Checkout.AddressComplete | src/pages/Checkout.tsx:90-130 | the four `required` address inputs are all non-empty; `Next` and `SubmitDeliveryForm` make it the gate to payment |
| Checkout.PaymentComplete | src/pages/Checkout.tsx:166-187 | the three `required` payment inputs are all non-empty; `Next` and `PlaceOrder` make it the gate to done |
| Checkout.Render | src/pages/Checkout.tsx:14-202 | the empty-checkout view is shown if and only if the cart is empty and the step is not done; the done view if and only if done; the payment screen shows the line count, subtotal, fee and subtotal plus fee |
| Checkout.Next | src/pages/Checkout.tsx:79-209 | an empty cart and the done step admit no transition; delivery never goes straight to done; done comes only from payment with a filled payment form; payment only from delivery with a filled address; delivery only from payment by Back |
| Checkout.PaymentScreenExample | src/pages/Checkout.tsx:191-202 | $2.50 × 3 and $10.00 × 1 show a $17.50 subtotal, a $4.99 fee and a $22.49 total |
| Checkout.CheckoutPage.constructor | src/pages/Checkout.tsx:9-13 | the page starts at the delivery step with empty address inputs |
| Checkout.CheckoutPage.EditAddress | src/pages/Checkout.tsx:91-126 | the inputs' change handlers set the fields and leave the step alone |
| Checkout.CheckoutPage.SubmitDeliveryForm | src/pages/Checkout.tsx:79-81 | the form submits exactly when all four required inputs are filled, and then moves to payment |
| Checkout.CheckoutPage.GoBack | src/pages/Checkout.tsx:209 | Back from payment returns to delivery |
| Checkout.CheckoutPage.PlaceOrder | src/pages/Checkout.tsx:154-157 | with the payment inputs filled: the cart is cleared (lines and the user's rows) and the step is done, so the done view shows despite the empty cart; otherwise nothing changes, the user included |
| ProductDetails.Savings | src/pages/ProductDetails.tsx:73-76 | the badge shows exactly when an original price is present and not zero, and the saving plus the price is the original price |
| ProductDetails.ButtonAmount | src/pages/ProductDetails.tsx:94 | the button's amount, `price × qty`; `ButtonAmountAdded` proves it is what the subtotal grows by |
| ProductDetails.ButtonAmountAdded | src/pages/ProductDetails.tsx:94 | after the add button the subtotal has grown by exactly the amount the button shows and the item count by qty |
| ProductDetails.ProductDetailsPage.constructor | src/pages/ProductDetails.tsx:12 | the picker starts at 1 |
| ProductDetails.ProductDetailsPage.Decrement | src/pages/ProductDetails.tsx:81 | minus lowers qty by one but never below 1 |
| ProductDetails.ProductDetailsPage.Increment | src/pages/ProductDetails.tsx:85 | plus raises qty by exactly 1 |
| ProductDetails.ProductDetailsPage.HandleAddToCart | src/pages/ProductDetails.tsx:43-45 | the loop leaves the lines at qty calls of addToCart; the product's quantity and the item count grow by exactly qty; the row holds the final quantity; validity and agreement are kept |

## Left out

- The Supabase client is not part of this model. The `cart_items` table is a
  map from (user id, product id) to quantity. The product join of the cart
  query is a catalog map from product id to product.
- The database's answer to the cart query is a parameter of
  `CartProvider.OnUserChange`. It is either missing (no data) or a list of rows.
  The requires clause assumes the database lists exactly the user's rows, once
  each. This is a property of the database, not of this code.
- Asynchrony is not modelled; each operation is one sequential step. This
  leaves out:
  - the fire-and-forget ordering of `syncToDb` writes;
  - the un-awaited `clearCart` in the order handler;
  - the `syncToDb` call made inside the `setItems` updater;
  - re-rendering.

  If StrictMode runs that updater twice, the duplicate write is harmless: by
  `CartStore.SyncOverwrites`, writing the same row twice equals one write.
- Failed writes to the table are not modelled. The code ignores their result,
  so a write in this model always succeeds.
- The `loading` flag is left out. The provider exposes it, but none of the
  pages modelled here reads it.
- Floating-point money and `toFixed` formatting are left out. Amounts are
  integer cents.
- The address inputs are one record (`AddressFields`), not four state
  variables. The payment inputs are uncontrolled in the source, so their values
  are an argument of `PlaceOrder` and are not stored.
- The browser's `required` check is modelled as "every field is non-empty",
  which is what it tests.
- Address, order and order-line persistence, and order status, do not exist in
  the code's checkout path. `src/pages/Orders.tsx` (order history) is not part
  of this model.
- The header, product card, index, login and password pages are not part of
  this model. They hold no cart logic beyond a single `addToCart` call or a
  badge.
- CartStore.CartProvider.OnUserChange: agreement with the table is promised
  only when the query answered. With no answer the old lines stay, and they need
  not match the new user's rows. This is what the code does, not a weakening.
- CartStore.Synced: it requires a row for each line but allows rows without a
  line. Such rows arise in two ways: a stored product that did not resolve on
  load, and `updateQuantity` with q > 0 for a product the cart does not hold.
  Such a row is deleted by `removeFromCart` or `updateQuantity` with q <= 0 for
  that product, and rewritten by `addToCart` of it; no page offers those
  buttons for a product the cart does not show, so in practice only
  `clearCart` removes it.
- ProductDetails.ButtonAmountAdded: it assumes that a line already in the cart
  carries the page's current price. Otherwise the subtotal grows by the stored
  line's price times qty, as `CartLines.AddNTotals` states. The amount the
  button shows is then different.

## Findings

| source | as written | input that shows it | evidently intended | confidence | as-written member | corrected member |
|---|---|---|---|---|---|---|
| src/pages/Cart.tsx:82-83 | the hint reads "Add $(35 − subtotal) more for free delivery", but the fee rule (line 27) is free only strictly above $35 | subtotal $30.00: the hint says add $5.00, which makes the subtotal $35.00, and the fee is still $4.99 | the least amount that takes the subtotal above $35.00, i.e. $35.01 − subtotal in cents | high for the arithmetic, not executed | CartPage.ShortfallAsWrittenFallsShort | CartPage.FreeDeliveryShortfall |
