/** The cart as a value: an ordered list of (product, quantity) lines, the pure
    transformations the cart store applies to it (find, map, filter, append) and
    the derived totals (reduce). */
module CartLines {
  import opened Optional
  import opened Products

  datatype CartLine = CartLine(product: Product, quantity: int)

  /** Some line of `items` is for product `id`. */
  predicate HasLine(items: seq<CartLine>, id: ProductId)
  {
    exists i :: 0 <= i < |items| && items[i].product.id == id
  }

  /** At most one line per product id. */
  predicate UniqueIds(items: seq<CartLine>)
  {
    forall i, j :: 0 <= i < j < |items| ==> items[i].product.id != items[j].product.id
  }

  /** A line whose quantity drops to zero or below is deleted, never kept. */
  predicate PositiveQuantities(items: seq<CartLine>)
  {
    forall i :: 0 <= i < |items| ==> items[i].quantity >= 1
  }

  /** The two invariants every cart mutation keeps. */
  predicate WellFormed(items: seq<CartLine>)
  {
    UniqueIds(items) && PositiveQuantities(items)
  }

  /** `items.find(i => i.product.id === id)`, as the index of the first match. */
  function FindLine(items: seq<CartLine>, id: ProductId): (r: Option<nat>)
    ensures r.None? <==> !HasLine(items, id)
    ensures r.Some? ==> r.value < |items| && items[r.value].product.id == id
    ensures r.Some? ==> forall j :: 0 <= j < r.value ==> items[j].product.id != id
  {
    if items == [] then None
    else if items[0].product.id == id then Some(0)
    else
      match FindLine(items[1..], id)
      case None =>
        assert forall i :: 0 < i < |items| ==> items[i] == items[1..][i - 1];
        None
      case Some(k) => Some(k + 1)
  }

  /** The quantity the cart holds of product `id`, 0 when it has no line for it. */
  function QuantityOf(items: seq<CartLine>, id: ProductId): int
  {
    match FindLine(items, id)
    case Some(k) => items[k].quantity
    case None => 0
  }

  /** `items.map(i => i.product.id === id ? {...i, quantity: q} : i)`. */
  function SetQuantity(items: seq<CartLine>, id: ProductId, q: int): (r: seq<CartLine>)
    ensures |r| == |items|
  {
    if items == [] then []
    else
      var head := if items[0].product.id == id then items[0].(quantity := q) else items[0];
      [head] + SetQuantity(items[1..], id, q)
  }

  /** `items.filter(i => i.product.id !== id)`. */
  function RemoveLine(items: seq<CartLine>, id: ProductId): (r: seq<CartLine>)
    ensures |r| <= |items|
  {
    if items == [] then []
    else if items[0].product.id == id then RemoveLine(items[1..], id)
    else [items[0]] + RemoveLine(items[1..], id)
  }

  /** The line list after addToCart(p): bump the existing line, else append (p, 1).
      Either way at most one line is added. */
  function AddLine(items: seq<CartLine>, p: Product): (r: seq<CartLine>)
    ensures |items| <= |r| <= |items| + 1
  {
    match FindLine(items, p.id)
    case Some(k) => SetQuantity(items, p.id, items[k].quantity + 1)
    case None => items + [CartLine(p, 1)]
  }

  /** The line list after updateQuantity(id, q): q <= 0 removes, otherwise sets.
      It never adds a line, and with q > 0 it never drops one. */
  function UpdateLines(items: seq<CartLine>, id: ProductId, q: int): (r: seq<CartLine>)
    ensures |r| <= |items|
    ensures q > 0 ==> |r| == |items|
  {
    if q <= 0 then RemoveLine(items, id) else SetQuantity(items, id, q)
  }

  /** The line list after `n` calls of addToCart(p). */
  function AddN(items: seq<CartLine>, p: Product, n: nat): seq<CartLine>
  {
    if n == 0 then items else AddLine(AddN(items, p, n - 1), p)
  }

  /** The unit price that one more addToCart(p) adds to the subtotal: the price
      stored on the existing line (which keeps its own product record), or p's. */
  function AddedUnitPrice(items: seq<CartLine>, p: Product): int
  {
    match FindLine(items, p.id)
    case Some(k) => items[k].product.price
    case None => p.price
  }

  /** The amount one line contributes to the subtotal, in cents. */
  function LineTotal(l: CartLine): int
  {
    l.product.price * l.quantity
  }

  /** `items.reduce((s, i) => s + i.quantity, 0)`. */
  function TotalItems(items: seq<CartLine>): int
  {
    if items == [] then 0 else items[0].quantity + TotalItems(items[1..])
  }

  /** `items.reduce((s, i) => s + i.product.price * i.quantity, 0)`. */
  function TotalPrice(items: seq<CartLine>): int
  {
    if items == [] then 0 else LineTotal(items[0]) + TotalPrice(items[1..])
  }

  // ---------------------------------------------------------------------------
  // Finding lines

  /** The map touches exactly the lines for `id`, giving them quantity q. */
  lemma {:induction false} SetQuantityAt(items: seq<CartLine>, id: ProductId, q: int)
    ensures forall i :: 0 <= i < |items| ==>
      SetQuantity(items, id, q)[i] == if items[i].product.id == id then items[i].(quantity := q) else items[i]
  {
    if items != [] {
      SetQuantityAt(items[1..], id, q);
      var r := SetQuantity(items, id, q);
      forall i | 0 < i < |items|
        ensures r[i] == if items[i].product.id == id then items[i].(quantity := q) else items[i]
      {
        assert r[i] == SetQuantity(items[1..], id, q)[i - 1];
        assert items[i] == items[1..][i - 1];
      }
    }
  }

  /** In a cart with unique ids, the line for `id` is found at its one index. */
  lemma FindUnique(items: seq<CartLine>, k: nat)
    requires UniqueIds(items) && k < |items|
    ensures FindLine(items, items[k].product.id) == Some(k)
  {
    assert HasLine(items, items[k].product.id);
  }

  /** Replacing a line by one for the same product keeps ids unique. */
  lemma ReplaceUnique(items: seq<CartLine>, k: nat, l: CartLine)
    requires UniqueIds(items) && k < |items| && l.product.id == items[k].product.id
    ensures UniqueIds(items[k := l])
  {
    var r := items[k := l];
    forall i, j | 0 <= i < j < |r| ensures r[i].product.id != r[j].product.id {
      assert r[i].product.id == items[i].product.id;
      assert r[j].product.id == items[j].product.id;
    }
  }

  /** Appending a line for a product the cart does not hold keeps ids unique. */
  lemma AppendUnique(items: seq<CartLine>, l: CartLine)
    requires UniqueIds(items) && !HasLine(items, l.product.id)
    ensures UniqueIds(items + [l])
  {
    var r := items + [l];
    forall i, j | 0 <= i < j < |r| ensures r[i].product.id != r[j].product.id {
      if j == |items| {
        assert items[i].product.id != l.product.id;
      }
    }
  }

  /** Quantities of a well-formed cart are positive exactly on its lines. */
  lemma QuantityOfPositive(items: seq<CartLine>, id: ProductId)
    requires PositiveQuantities(items)
    ensures QuantityOf(items, id) >= 1 <==> HasLine(items, id)
    ensures !HasLine(items, id) ==> QuantityOf(items, id) == 0
  {
  }

  // ---------------------------------------------------------------------------
  // The shape of each transformation

  /** Setting the quantity of the one line for `items[k]`'s product changes that
      line's quantity and nothing else. */
  lemma SetAt(items: seq<CartLine>, k: nat, q: int)
    requires UniqueIds(items) && k < |items|
    ensures SetQuantity(items, items[k].product.id, q) == items[k := items[k].(quantity := q)]
  {
    var r := SetQuantity(items, items[k].product.id, q);
    var s := items[k := items[k].(quantity := q)];
    SetQuantityAt(items, items[k].product.id, q);
    forall i | 0 <= i < |r| ensures r[i] == s[i] {
      if i != k {
        assert items[i].product.id != items[k].product.id;
      }
    }
  }

  /** Setting a quantity for a product the cart has no line for changes nothing:
      updateQuantity never inserts. */
  lemma SetAbsent(items: seq<CartLine>, id: ProductId, q: int)
    requires !HasLine(items, id)
    ensures SetQuantity(items, id, q) == items
  {
    var r := SetQuantity(items, id, q);
    SetQuantityAt(items, id, q);
    forall i | 0 <= i < |r| ensures r[i] == items[i] {
      assert items[i].product.id != id;
    }
  }

  /** Removing the line for `items[k]`'s product deletes exactly that line and
      keeps the order of the rest. */
  lemma RemoveAt(items: seq<CartLine>, k: nat)
    requires UniqueIds(items) && k < |items|
    ensures RemoveLine(items, items[k].product.id) == items[..k] + items[k + 1..]
  {
    OnlyLineAt(items, k);
    SplitAround(items, k);
    RemoveSplit(items[..k], items[k], items[k + 1..]);
  }

  /** Removing the only line for a product from the middle of a cart leaves the
      lines around it in place. */
  lemma RemoveSplit(pre: seq<CartLine>, l: CartLine, post: seq<CartLine>)
    requires !HasLine(pre, l.product.id) && !HasLine(post, l.product.id)
    ensures RemoveLine(pre + [l] + post, l.product.id) == pre + post
  {
    var id := l.product.id;
    RemoveLineFacts(pre, id);
    RemoveLineFacts(post, id);
    assert [l][1..] == [];
    RemoveConcat(pre + [l], post, id);
    RemoveConcat(pre, [l], id);
  }

  /** A sequence is its prefix, its k-th element and its suffix. */
  lemma SplitAround<T>(s: seq<T>, k: nat)
    requires k < |s|
    ensures s == s[..k] + [s[k]] + s[k + 1..]
  {
  }

  /** In a cart with unique ids, no line before or after k is for items[k]'s product. */
  lemma OnlyLineAt(items: seq<CartLine>, k: nat)
    requires UniqueIds(items) && k < |items|
    ensures !HasLine(items[..k], items[k].product.id)
    ensures !HasLine(items[k + 1..], items[k].product.id)
  {
    var id := items[k].product.id;
    var pre, post := items[..k], items[k + 1..];
    forall i | 0 <= i < |pre| ensures pre[i].product.id != id {
      assert pre[i] == items[i];
    }
    forall i | 0 <= i < |post| ensures post[i].product.id != id {
      assert post[i] == items[k + 1 + i];
    }
  }

  /** After the filter no line for `id` is left; when there was none, the
      filter changes nothing. */
  lemma {:induction false} RemoveLineFacts(items: seq<CartLine>, id: ProductId)
    ensures !HasLine(RemoveLine(items, id), id)
    ensures !HasLine(items, id) ==> RemoveLine(items, id) == items
  {
    if items != [] {
      var tail := items[1..];
      RemoveLineFacts(tail, id);
      var rest := RemoveLine(tail, id);
      if items[0].product.id != id {
        var r := [items[0]] + rest;
        forall i | 0 <= i < |r| ensures r[i].product.id != id {
          if i > 0 {
            assert r[i] == rest[i - 1];
          }
        }
        if !HasLine(items, id) {
          forall i | 0 <= i < |tail| ensures tail[i].product.id != id {
            assert tail[i] == items[i + 1];
          }
        }
      }
    }
  }

  /** The filter keeps exactly the lines for other products. */
  lemma {:induction false} RemoveLineMembers(items: seq<CartLine>, id: ProductId)
    ensures forall l :: l in RemoveLine(items, id) <==> l in items && l.product.id != id
  {
    if items != [] {
      RemoveLineMembers(items[1..], id);
      assert forall l :: l in items <==> l == items[0] || l in items[1..];
    }
  }

  /** The filter distributes over concatenation. */
  lemma {:induction false} RemoveConcat(a: seq<CartLine>, b: seq<CartLine>, id: ProductId)
    ensures RemoveLine(a + b, id) == RemoveLine(a, id) + RemoveLine(b, id)
  {
    if a == [] {
      assert a + b == b;
    } else {
      assert (a + b)[1..] == a[1..] + b;
      RemoveConcat(a[1..], b, id);
    }
  }

  /** Dropping the first line keeps ids unique. */
  lemma UniqueTail(items: seq<CartLine>)
    requires UniqueIds(items) && items != []
    ensures UniqueIds(items[1..])
  {
    var tail := items[1..];
    forall i, j | 0 <= i < j < |tail| ensures tail[i].product.id != tail[j].product.id {
      assert tail[i] == items[i + 1] && tail[j] == items[j + 1];
    }
  }

  /** addToCart on a product already in the cart raises that line's quantity by
      exactly one; the line keeps its product record, its position, and every
      other line is unchanged. */
  lemma AddExisting(items: seq<CartLine>, p: Product, k: nat)
    requires UniqueIds(items) && k < |items| && items[k].product.id == p.id
    ensures AddLine(items, p) == items[k := items[k].(quantity := items[k].quantity + 1)]
  {
    FindUnique(items, k);
    assert AddLine(items, p) == SetQuantity(items, p.id, items[k].quantity + 1);
    SetAt(items, k, items[k].quantity + 1);
  }

  /** addToCart on an absent product appends (p, 1) after every prior line. */
  lemma AddAbsent(items: seq<CartLine>, p: Product)
    requires !HasLine(items, p.id)
    ensures AddLine(items, p) == items + [CartLine(p, 1)]
  {
  }

  /** updateQuantity with q <= 0 is removeFromCart; with q > 0 it sets the line's
      quantity to q (absolute) and never inserts a line. */
  lemma UpdateCases(items: seq<CartLine>, id: ProductId, q: int)
    ensures q <= 0 ==> UpdateLines(items, id, q) == RemoveLine(items, id)
    ensures q > 0 && !HasLine(items, id) ==> UpdateLines(items, id, q) == items
    ensures q > 0 ==> |UpdateLines(items, id, q)| == |items|
    ensures q > 0 && HasLine(items, id) ==> QuantityOf(UpdateLines(items, id, q), id) == q
  {
    if q > 0 && !HasLine(items, id) {
      SetAbsent(items, id, q);
    }
    if q > 0 && HasLine(items, id) {
      var k := FindLine(items, id).value;
      var r := SetQuantity(items, id, q);
      SetQuantityAt(items, id, q);
      assert r[k].product.id == id;
      var m := FindLine(r, id).value;
      assert r[m] == items[m].(quantity := q);
    }
  }

  /** removeFromCart is idempotent, and a no-op when the id is absent. */
  lemma RemoveIdempotent(items: seq<CartLine>, id: ProductId)
    ensures RemoveLine(RemoveLine(items, id), id) == RemoveLine(items, id)
    ensures !HasLine(items, id) ==> RemoveLine(items, id) == items
  {
    RemoveLineFacts(items, id);
    RemoveLineFacts(RemoveLine(items, id), id);
  }

  // ---------------------------------------------------------------------------
  // The invariants are preserved

  lemma SetQuantityWellFormed(items: seq<CartLine>, id: ProductId, q: int)
    requires WellFormed(items) && q >= 1
    ensures WellFormed(SetQuantity(items, id, q))
  {
    SetQuantityAt(items, id, q);
  }

  lemma {:induction false} RemoveLineUnique(items: seq<CartLine>, id: ProductId)
    requires UniqueIds(items)
    ensures UniqueIds(RemoveLine(items, id))
  {
    match FindLine(items, id)
    case None => RemoveLineFacts(items, id);
    case Some(k) => RemoveAt(items, k);
  }

  /** addToCart keeps at most one line per product and every quantity >= 1. */
  lemma AddLineWellFormed(items: seq<CartLine>, p: Product)
    requires WellFormed(items)
    ensures WellFormed(AddLine(items, p))
  {
    match FindLine(items, p.id)
    case Some(k) => SetQuantityWellFormed(items, p.id, items[k].quantity + 1);
    case None => AppendUnique(items, CartLine(p, 1));
  }

  /** removeFromCart and updateQuantity keep the cart well formed. */
  lemma RemoveUpdateWellFormed(items: seq<CartLine>, id: ProductId, q: int)
    requires WellFormed(items)
    ensures WellFormed(RemoveLine(items, id))
    ensures WellFormed(UpdateLines(items, id, q))
  {
    RemoveLineUnique(items, id);
    RemoveLineMembers(items, id);
    if q >= 1 {
      SetQuantityWellFormed(items, id, q);
    }
  }

  // ---------------------------------------------------------------------------
  // Totals

  /** Totals add up over concatenation: the reduce is a plain sum. */
  lemma {:induction false} TotalsConcat(a: seq<CartLine>, b: seq<CartLine>)
    ensures TotalItems(a + b) == TotalItems(a) + TotalItems(b)
    ensures TotalPrice(a + b) == TotalPrice(a) + TotalPrice(b)
  {
    if a == [] {
      assert a + b == b;
    } else {
      assert (a + b)[1..] == a[1..] + b;
      TotalsConcat(a[1..], b);
    }
  }

  /** The totals of a well-formed cart: the item count is at least the number of
      lines, and zero only for the empty cart. */
  lemma {:induction false} TotalItemsBound(items: seq<CartLine>)
    requires PositiveQuantities(items)
    ensures TotalItems(items) >= |items|
    ensures TotalItems(items) == 0 <==> items == []
  {
    if items != [] {
      assert PositiveQuantities(items[1..]) by {
        forall i | 0 <= i < |items[1..]| ensures items[1..][i].quantity >= 1 {
          assert items[1..][i] == items[i + 1];
        }
      }
      TotalItemsBound(items[1..]);
    }
  }

  /** Splitting a cart around line k. */
  lemma TotalsAround(items: seq<CartLine>, k: nat)
    requires k < |items|
    ensures TotalItems(items) == TotalItems(items[..k]) + items[k].quantity + TotalItems(items[k + 1..])
    ensures TotalPrice(items) == TotalPrice(items[..k]) + LineTotal(items[k]) + TotalPrice(items[k + 1..])
  {
    SplitAround(items, k);
    TotalsConcat(items[..k] + [items[k]], items[k + 1..]);
    TotalsConcat(items[..k], [items[k]]);
  }

  /** Replacing line k changes the totals by the difference of the two lines. */
  lemma {:induction false} TotalsUpdate(items: seq<CartLine>, k: nat, l: CartLine)
    requires k < |items|
    ensures TotalItems(items[k := l]) == TotalItems(items) - items[k].quantity + l.quantity
    ensures TotalPrice(items[k := l]) == TotalPrice(items) - LineTotal(items[k]) + LineTotal(l)
  {
    if k == 0 {
      assert items[k := l][1..] == items[1..];
    } else {
      assert items[k := l][1..] == items[1..][k - 1 := l];
      TotalsUpdate(items[1..], k - 1, l);
    }
  }

  /** addToCart raises the item count by exactly one and the subtotal by the unit
      price of the line it touches. */
  lemma AddTotals(items: seq<CartLine>, p: Product)
    requires UniqueIds(items)
    ensures TotalItems(AddLine(items, p)) == TotalItems(items) + 1
    ensures TotalPrice(AddLine(items, p)) == TotalPrice(items) + AddedUnitPrice(items, p)
  {
    match FindLine(items, p.id)
    case Some(k) =>
      AddExisting(items, p, k);
      TotalsUpdate(items, k, items[k].(quantity := items[k].quantity + 1));
    case None =>
      TotalsConcat(items, [CartLine(p, 1)]);
  }

  /** removeFromCart takes exactly the removed line's quantity and line total off
      the totals; an absent id leaves them unchanged. */
  lemma RemoveTotals(items: seq<CartLine>, id: ProductId)
    requires UniqueIds(items)
    ensures TotalItems(RemoveLine(items, id)) == TotalItems(items) - QuantityOf(items, id)
    ensures TotalPrice(RemoveLine(items, id))
         == TotalPrice(items) - (match FindLine(items, id) case Some(k) => LineTotal(items[k]) case None => 0)
  {
    match FindLine(items, id)
    case Some(k) =>
      RemoveAt(items, k);
      TotalsAround(items, k);
      TotalsConcat(items[..k], items[k + 1..]);
    case None =>
      RemoveLineFacts(items, id);
  }

  /** After clearCart both totals are zero. */
  lemma EmptyTotals()
    ensures TotalItems([]) == 0 && TotalPrice([]) == 0
  {
  }

  // ---------------------------------------------------------------------------
  // Repeated addToCart

  /** `n` calls of addToCart on a product already in the cart raise its line's
      quantity by `n` and touch nothing else. */
  lemma {:induction false} AddNExisting(items: seq<CartLine>, p: Product, n: nat, k: nat)
    requires UniqueIds(items) && k < |items| && items[k].product.id == p.id
    ensures AddN(items, p, n) == items[k := items[k].(quantity := items[k].quantity + n)]
  {
    if n == 0 {
      assert items[k].(quantity := items[k].quantity + 0) == items[k];
    } else {
      AddNExisting(items, p, n - 1, k);
      AddAfterReplace(items, p, k, items[k].quantity + n - 1);
    }
  }

  /** One more addToCart on a line whose quantity is m makes it m + 1. */
  lemma AddAfterReplace(items: seq<CartLine>, p: Product, k: nat, m: int)
    requires UniqueIds(items) && k < |items| && items[k].product.id == p.id
    ensures AddLine(items[k := items[k].(quantity := m)], p) == items[k := items[k].(quantity := m + 1)]
  {
    var line := items[k].(quantity := m);
    ReplaceUnique(items, k, line);
    AddExisting(items[k := line], p, k);
    assert line.(quantity := line.quantity + 1) == items[k].(quantity := m + 1);
    assert items[k := line][k := line.(quantity := m + 1)] == items[k := items[k].(quantity := m + 1)];
  }

  /** `n >= 1` calls of addToCart on an absent product append one line (p, n). */
  lemma {:induction false} AddNAbsent(items: seq<CartLine>, p: Product, n: nat)
    requires UniqueIds(items) && !HasLine(items, p.id) && n >= 1
    ensures AddN(items, p, n) == items + [CartLine(p, n)]
  {
    if n == 1 {
      assert AddN(items, p, 0) == items;
    } else {
      AddNAbsent(items, p, n - 1);
      var prev := items + [CartLine(p, n - 1)];
      AppendUnique(items, CartLine(p, n - 1));
      AddExisting(prev, p, |items|);
      assert prev[|items| := CartLine(p, n)] == items + [CartLine(p, n)];
    }
  }

  /** Repeated addToCart keeps the cart well formed. */
  lemma {:induction false} AddNWellFormed(items: seq<CartLine>, p: Product, n: nat)
    requires WellFormed(items)
    ensures WellFormed(AddN(items, p, n))
  {
    if n > 0 {
      AddNWellFormed(items, p, n - 1);
      AddLineWellFormed(AddN(items, p, n - 1), p);
    }
  }

  /** Repeated addToCart keeps ids unique and the unit price of the touched line. */
  lemma {:induction false} AddNStable(items: seq<CartLine>, p: Product, n: nat)
    requires UniqueIds(items)
    ensures UniqueIds(AddN(items, p, n))
    ensures AddedUnitPrice(AddN(items, p, n), p) == AddedUnitPrice(items, p)
  {
    var r := AddN(items, p, n);
    match FindLine(items, p.id)
    case Some(k) =>
      AddNExisting(items, p, n, k);
      ReplaceUnique(items, k, items[k].(quantity := items[k].quantity + n));
      FindUnique(r, k);
      assert r[k].product == items[k].product;
    case None =>
      if n >= 1 {
        AddNAbsent(items, p, n);
        AppendUnique(items, CartLine(p, n));
        FindUnique(r, |items|);
      }
  }

  /** `n` calls of addToCart raise the item count by exactly `n` and the subtotal
      by `n` times the unit price of the touched line. */
  lemma {:induction false} AddNTotals(items: seq<CartLine>, p: Product, n: nat)
    requires UniqueIds(items)
    ensures TotalItems(AddN(items, p, n)) == TotalItems(items) + n
    ensures TotalPrice(AddN(items, p, n)) == TotalPrice(items) + n * AddedUnitPrice(items, p)
  {
    if n > 0 {
      var u := AddedUnitPrice(items, p);
      AddNTotals(items, p, n - 1);
      AddNStep(items, p, n);
      assert (n - 1) * u + u == n * u;
    }
  }

  /** The n-th addToCart in a row adds one item and the same unit price as the first. */
  lemma AddNStep(items: seq<CartLine>, p: Product, n: nat)
    requires UniqueIds(items) && n > 0
    ensures TotalItems(AddN(items, p, n)) == TotalItems(AddN(items, p, n - 1)) + 1
    ensures TotalPrice(AddN(items, p, n)) == TotalPrice(AddN(items, p, n - 1)) + AddedUnitPrice(items, p)
  {
    AddNStable(items, p, n - 1);
    AddTotals(AddN(items, p, n - 1), p);
  }
}
