/** The cart provider: the in-memory line list, the signed-in user, and the
    durable `cart_items` table it mirrors to, keyed by (user id, product id). */
module CartStore {
  import opened Optional
  import opened Products
  import opened CartLines

  type UserId = string

  /** The key of a durable cart row: (user id, product id). */
  type Key = (UserId, ProductId)

  /** A row of the stored cart as the database lists it for one user. */
  datatype Row = Row(productId: ProductId, quantity: int)

  /** The durable table never holds a row of quantity <= 0: syncToDb deletes
      such rows instead of writing them. */
  predicate RowsPositive(mirror: map<Key, int>)
  {
    forall k :: k in mirror ==> mirror[k] >= 1
  }

  /** With a user signed in, every in-memory line has a durable row of the same
      quantity. Rows without a line may exist (their product did not resolve). */
  predicate Synced(mirror: map<Key, int>, user: Option<UserId>, items: seq<CartLine>)
  {
    user.Some? ==>
      forall i :: 0 <= i < |items| ==>
        (user.value, items[i].product.id) in mirror &&
        mirror[(user.value, items[i].product.id)] == items[i].quantity
  }

  /** The table after syncToDb(id, q): nothing without a user; otherwise the row
      (user, id) is deleted when q <= 0 and upserted to q when q > 0. */
  function AfterSync(mirror: map<Key, int>, user: Option<UserId>, id: ProductId, q: int): (m: map<Key, int>)
    ensures user.None? ==> m == mirror
    ensures user.Some? ==> ((user.value, id) in m <==> q > 0)
    ensures user.Some? && q > 0 ==> m[(user.value, id)] == q
    ensures user.Some? ==> forall k :: k in mirror && k != (user.value, id) ==> k in m && m[k] == mirror[k]
    ensures user.Some? ==> forall k :: k in m && k != (user.value, id) ==> k in mirror
  {
    match user
    case None => mirror
    case Some(u) => if q <= 0 then mirror - {(u, id)} else mirror[(u, id) := q]
  }

  /** The table after clearCart for user `u`: every row of `u` is gone, every row
      of another user is kept as it was. */
  function WithoutUser(mirror: map<Key, int>, u: UserId): (m: map<Key, int>)
    ensures forall k :: k in m <==> k in mirror && k.0 != u
    ensures forall k :: k in m ==> m[k] == mirror[k]
  {
    map k | k in mirror && k.0 != u :: mirror[k]
  }

  /** The database's answer to "the cart rows of `u`": each of u's rows exactly
      once, in some order the database chooses. */
  predicate ListsRowsOf(mirror: map<Key, int>, u: UserId, rows: seq<Row>)
  {
    (forall i :: 0 <= i < |rows| ==>
       (u, rows[i].productId) in mirror && mirror[(u, rows[i].productId)] == rows[i].quantity) &&
    (forall i, j :: 0 <= i < j < |rows| ==> rows[i].productId != rows[j].productId) &&
    (forall k :: k in mirror && k.0 == u ==> exists i :: 0 <= i < |rows| && rows[i].productId == k.1)
  }

  /** The product join resolves a product id to the product row with that id. */
  predicate CatalogKeyed(catalog: map<ProductId, Product>)
  {
    forall pid :: pid in catalog ==> catalog[pid].id == pid
  }

  /** The lines loaded from the rows: rows whose product did not resolve are
      dropped, the others become lines in row order with their quantities. */
  function Resolve(rows: seq<Row>, catalog: map<ProductId, Product>): (r: seq<CartLine>)
    ensures |r| <= |rows|
    ensures forall l :: l in r ==>
      exists i :: 0 <= i < |rows| && rows[i].productId in catalog &&
        l == CartLine(catalog[rows[i].productId], rows[i].quantity)
    ensures forall i :: 0 <= i < |rows| && rows[i].productId in catalog ==>
      CartLine(catalog[rows[i].productId], rows[i].quantity) in r
  {
    if rows == [] then []
    else
      var rest := Resolve(rows[1..], catalog);
      assert forall i :: 1 <= i < |rows| ==> rows[i] == rows[1..][i - 1];
      if rows[0].productId in catalog
      then [CartLine(catalog[rows[0].productId], rows[0].quantity)] + rest
      else rest
  }

  // ---------------------------------------------------------------------------
  // The durable mirror

  /** Two writes of the same row: the last one wins. */
  lemma SyncOverwrites(mirror: map<Key, int>, user: Option<UserId>, id: ProductId, a: int, b: int)
    ensures AfterSync(AfterSync(mirror, user, id, a), user, id, b) == AfterSync(mirror, user, id, b)
  {
    if user.Some? {
      var m1 := AfterSync(AfterSync(mirror, user, id, a), user, id, b);
      var m2 := AfterSync(mirror, user, id, b);
      assert forall k :: k in m1 <==> k in m2;
    }
  }

  /** syncToDb keeps every stored quantity positive. */
  lemma SyncKeepsRowsPositive(mirror: map<Key, int>, user: Option<UserId>, id: ProductId, q: int)
    requires RowsPositive(mirror)
    ensures RowsPositive(AfterSync(mirror, user, id, q))
  {
  }

  /** A write of row (u, id) keeps the cart in sync when every line for `id` now
      has quantity q > 0 and every other line was already in the cart. */
  lemma ResyncAfter(mirror: map<Key, int>, u: UserId, before: seq<CartLine>, after: seq<CartLine>,
                    id: ProductId, q: int)
    requires Synced(mirror, Some(u), before)
    requires forall i :: 0 <= i < |after| && after[i].product.id != id ==> after[i] in before
    requires forall i :: 0 <= i < |after| && after[i].product.id == id ==> after[i].quantity == q && q > 0
    ensures Synced(AfterSync(mirror, Some(u), id, q), Some(u), after)
  {
    var m := AfterSync(mirror, Some(u), id, q);
    forall i | 0 <= i < |after|
      ensures (u, after[i].product.id) in m && m[(u, after[i].product.id)] == after[i].quantity
    {
      if after[i].product.id != id {
        var j :| 0 <= j < |before| && before[j] == after[i];
        assert (u, before[j].product.id) in mirror;
      }
    }
  }

  /** Every line of a cart with unique ids for `id` has the quantity QuantityOf finds. */
  lemma LineQuantity(items: seq<CartLine>, id: ProductId)
    requires UniqueIds(items)
    ensures forall i :: 0 <= i < |items| && items[i].product.id == id ==> items[i].quantity == QuantityOf(items, id)
  {
    forall i | 0 <= i < |items| && items[i].product.id == id
      ensures items[i].quantity == QuantityOf(items, id)
    {
      FindUnique(items, i);
    }
  }

  /** What addToCart does to the lines, in the terms the mirror needs: the
      product's quantity goes up by one, every line for it carries that quantity,
      and every other line was already in the cart. */
  lemma AddLineFacts(before: seq<CartLine>, p: Product)
    requires WellFormed(before)
    ensures WellFormed(AddLine(before, p))
    ensures QuantityOf(AddLine(before, p), p.id) == QuantityOf(before, p.id) + 1
    ensures forall i :: 0 <= i < |AddLine(before, p)| && AddLine(before, p)[i].product.id != p.id ==>
      AddLine(before, p)[i] in before
    ensures forall i :: 0 <= i < |AddLine(before, p)| && AddLine(before, p)[i].product.id == p.id ==>
      AddLine(before, p)[i].quantity == QuantityOf(AddLine(before, p), p.id)
  {
    var after := AddLine(before, p);
    AddLineWellFormed(before, p);
    match FindLine(before, p.id)
    case Some(k) =>
      AddExisting(before, p, k);
      FindUnique(after, k);
      forall i | 0 <= i < |after| && after[i].product.id != p.id ensures after[i] in before {
        assert after[i] == before[i];
      }
    case None =>
      FindUnique(after, |before|);
      forall i | 0 <= i < |after| && after[i].product.id != p.id ensures after[i] in before {
        assert after[i] == before[i];
      }
    LineQuantity(after, p.id);
  }

  // ---------------------------------------------------------------------------
  // Loading the stored cart

  /** Every loaded line carries the product id of some row. */
  lemma ResolveIds(rows: seq<Row>, catalog: map<ProductId, Product>)
    requires CatalogKeyed(catalog)
    ensures forall l :: l in Resolve(rows, catalog) ==>
      exists i :: 0 <= i < |rows| && rows[i].productId == l.product.id
  {
    forall l | l in Resolve(rows, catalog)
      ensures exists i :: 0 <= i < |rows| && rows[i].productId == l.product.id
    {
      var i :| 0 <= i < |rows| && rows[i].productId in catalog &&
        l == CartLine(catalog[rows[i].productId], rows[i].quantity);
      assert rows[i].productId == l.product.id;
    }
  }

  /** Lines resolved from distinct product ids have distinct ids. */
  lemma {:induction false} ResolveUnique(rows: seq<Row>, catalog: map<ProductId, Product>)
    requires CatalogKeyed(catalog)
    requires forall i, j :: 0 <= i < j < |rows| ==> rows[i].productId != rows[j].productId
    ensures UniqueIds(Resolve(rows, catalog))
  {
    if rows != [] {
      var tail := rows[1..];
      assert forall i :: 0 <= i < |tail| ==> tail[i] == rows[i + 1];
      ResolveUnique(tail, catalog);
      var rest := Resolve(tail, catalog);
      if rows[0].productId in catalog {
        ResolveIds(tail, catalog);
        assert !HasLine(rest, rows[0].productId) by {
          forall j | 0 <= j < |rest| ensures rest[j].product.id != rows[0].productId {
            assert rest[j] in rest;
          }
        }
        AppendFrontUnique(CartLine(catalog[rows[0].productId], rows[0].quantity), rest);
      }
    }
  }

  /** Putting a line for a product the cart does not hold in front keeps ids unique. */
  lemma AppendFrontUnique(l: CartLine, items: seq<CartLine>)
    requires UniqueIds(items) && !HasLine(items, l.product.id)
    ensures UniqueIds([l] + items)
  {
    var r := [l] + items;
    forall i, j | 0 <= i < j < |r| ensures r[i].product.id != r[j].product.id {
      assert r[j] == items[j - 1];
      if i > 0 {
        assert r[i] == items[i - 1];
      }
    }
  }

  /** The cart loaded on sign-in is well formed and in sync with the table, and
      holds a line for a stored product exactly when that product resolved. */
  lemma LoadedCart(mirror: map<Key, int>, u: UserId, rows: seq<Row>, catalog: map<ProductId, Product>)
    requires RowsPositive(mirror) && ListsRowsOf(mirror, u, rows) && CatalogKeyed(catalog)
    ensures WellFormed(Resolve(rows, catalog))
    ensures Synced(mirror, Some(u), Resolve(rows, catalog))
    ensures forall pid :: (u, pid) in mirror ==> (HasLine(Resolve(rows, catalog), pid) <==> pid in catalog)
  {
    var r := Resolve(rows, catalog);
    ResolveUnique(rows, catalog);
    ResolveIds(rows, catalog);
    forall i | 0 <= i < |r|
      ensures r[i].quantity >= 1
      ensures (u, r[i].product.id) in mirror && mirror[(u, r[i].product.id)] == r[i].quantity
    {
      assert r[i] in r;
      var t :| 0 <= t < |rows| && rows[t].productId in catalog &&
        r[i] == CartLine(catalog[rows[t].productId], rows[t].quantity);
      assert r[i].product.id == rows[t].productId;
    }
    forall pid | (u, pid) in mirror ensures HasLine(r, pid) <==> pid in catalog {
      var k := (u, pid);
      assert k.0 == u;
      var t :| 0 <= t < |rows| && rows[t].productId == pid;
      if pid in catalog {
        var l := CartLine(catalog[pid], rows[t].quantity);
        assert l in r;
        var j :| 0 <= j < |r| && r[j] == l;
        assert r[j].product.id == pid;
      }
      if HasLine(r, pid) {
        var j :| 0 <= j < |r| && r[j].product.id == pid;
        assert r[j] in r;
      }
    }
  }

  /** When every stored product resolves, the reload gives back exactly the
      stored rows as lines, in row order. */
  lemma {:induction false} ReloadRestores(rows: seq<Row>, catalog: map<ProductId, Product>)
    requires forall i :: 0 <= i < |rows| ==> rows[i].productId in catalog
    ensures |Resolve(rows, catalog)| == |rows|
    ensures forall i :: 0 <= i < |rows| ==>
      Resolve(rows, catalog)[i] == CartLine(catalog[rows[i].productId], rows[i].quantity)
  {
    if rows != [] {
      assert forall i :: 0 <= i < |rows[1..]| ==> rows[1..][i] == rows[i + 1];
      ReloadRestores(rows[1..], catalog);
    }
  }

  /** The load goes row by row: the lines of two consecutive runs of rows are
      the lines of the first run followed by those of the second. */
  lemma {:induction false} ResolveConcat(a: seq<Row>, b: seq<Row>, catalog: map<ProductId, Product>)
    ensures Resolve(a + b, catalog) == Resolve(a, catalog) + Resolve(b, catalog)
  {
    if a == [] {
      assert a + b == b;
    } else {
      assert (a + b)[1..] == a[1..] + b;
      ResolveConcat(a[1..], b, catalog);
    }
  }

  /** One row gives its line when its product resolves, and nothing otherwise. */
  lemma ResolveOne(row: Row, catalog: map<ProductId, Product>)
    ensures Resolve([row], catalog) == if row.productId in catalog then [CartLine(catalog[row.productId], row.quantity)] else []
  {
    assert [row][1..] == [];
  }

  /** Row order is kept: of two resolved rows, the earlier one's line comes first. */
  lemma ResolveInOrder(rows: seq<Row>, catalog: map<ProductId, Product>, i: nat, j: nat)
    requires i < j < |rows| && rows[i].productId in catalog && rows[j].productId in catalog
    ensures exists p, q :: (0 <= p < q < |Resolve(rows, catalog)| &&
                            Resolve(rows, catalog)[p] == CartLine(catalog[rows[i].productId], rows[i].quantity) &&
                            Resolve(rows, catalog)[q] == CartLine(catalog[rows[j].productId], rows[j].quantity))
  {
    var pre, post := rows[..j], rows[j..];
    assert rows == pre + post;
    ResolveConcat(pre, post, catalog);
    var a, b := Resolve(pre, catalog), Resolve(post, catalog);
    var li := CartLine(catalog[rows[i].productId], rows[i].quantity);
    assert pre[i] == rows[i];
    assert li in a;
    var p :| 0 <= p < |a| && a[p] == li;
    assert post[0] == rows[j];
    assert b[0] == CartLine(catalog[rows[j].productId], rows[j].quantity);
    var r := Resolve(rows, catalog);
    assert r[p] == li && r[|a|] == b[0];
  }

  // ---------------------------------------------------------------------------
  // The provider

  class CartProvider {
    var items: seq<CartLine>
    var user: Option<UserId>
    var mirror: map<Key, int>

    /** The lines are well formed and the table holds only positive rows. */
    ghost predicate Valid()
      reads this
    {
      WellFormed(items) && RowsPositive(mirror)
    }

    /** The table agrees with every in-memory line of the signed-in user. */
    ghost predicate InSync()
      reads this
    {
      Synced(mirror, user, items)
    }

    /** Mounted before any user is known: an empty cart over the stored table. */
    constructor (stored: map<Key, int>)
      requires RowsPositive(stored)
      ensures Valid() && InSync()
      ensures items == [] && user == None && mirror == stored
    {
      items := [];
      user := None;
      mirror := stored;
    }

    /** syncToDb: mirror one product's quantity to the table of the current user. */
    method SyncToDb(productId: ProductId, quantity: int)
      modifies this`mirror
      ensures mirror == AfterSync(old(mirror), user, productId, quantity)
    {
      match user
      case None =>
      case Some(u) =>
        if quantity <= 0 {
          mirror := mirror - {(u, productId)};
        } else {
          mirror := mirror[(u, productId) := quantity];
        }
    }

    /** addToCart: bump the product's line or append (product, 1), then mirror
        the new quantity. */
    method AddToCart(product: Product)
      requires Valid()
      modifies this
      ensures Valid()
      ensures items == AddLine(old(items), product)
      ensures user == old(user)
      ensures QuantityOf(items, product.id) == QuantityOf(old(items), product.id) + 1
      ensures mirror == AfterSync(old(mirror), user, product.id, QuantityOf(items, product.id))
      ensures old(InSync()) ==> InSync()
    {
      ghost var before := items;
      var existing := FindLine(items, product.id);
      var newQty := if existing.Some? then items[existing.value].quantity + 1 else 1;
      SyncToDb(product.id, newQty);
      assert newQty == QuantityOf(before, product.id) + 1;
      if existing.Some? {
        items := SetQuantity(items, product.id, newQty);
      } else {
        items := items + [CartLine(product, 1)];
      }
      assert items == AddLine(before, product);
      AddLineFacts(before, product);
      SyncKeepsRowsPositive(old(mirror), user, product.id, newQty);
      if old(InSync()) && user.Some? {
        ResyncAfter(old(mirror), user.value, before, items, product.id, newQty);
      }
    }

    /** removeFromCart: drop the product's line and delete its row. */
    method RemoveFromCart(productId: ProductId)
      requires Valid()
      modifies this
      ensures Valid()
      ensures items == RemoveLine(old(items), productId)
      ensures user == old(user)
      ensures mirror == AfterSync(old(mirror), user, productId, 0)
      ensures old(InSync()) ==> InSync()
    {
      ghost var before := items;
      items := RemoveLine(items, productId);
      SyncToDb(productId, 0);
      RemoveUpdateWellFormed(before, productId, 0);
      SyncKeepsRowsPositive(old(mirror), user, productId, 0);
      if old(InSync()) && user.Some? {
        RemoveLineMembers(before, productId);
        ResyncAfter(old(mirror), user.value, before, items, productId, 0);
      }
    }

    /** updateQuantity: q <= 0 is removeFromCart; otherwise set the line's
        quantity to q and upsert the row to q. The row is written even when the
        cart has no line for the product. */
    method UpdateQuantity(productId: ProductId, quantity: int)
      requires Valid()
      modifies this
      ensures Valid()
      ensures items == UpdateLines(old(items), productId, quantity)
      ensures user == old(user)
      ensures mirror == AfterSync(old(mirror), user, productId, quantity)
      ensures old(InSync()) ==> InSync()
    {
      if quantity <= 0 {
        RemoveFromCart(productId);
        assert AfterSync(old(mirror), user, productId, 0) == AfterSync(old(mirror), user, productId, quantity);
        return;
      }
      ghost var before := items;
      items := SetQuantity(items, productId, quantity);
      SyncToDb(productId, quantity);
      RemoveUpdateWellFormed(before, productId, quantity);
      SyncKeepsRowsPositive(old(mirror), user, productId, quantity);
      if old(InSync()) && user.Some? {
        SetQuantityAt(before, productId, quantity);
        ResyncAfter(old(mirror), user.value, before, items, productId, quantity);
      }
    }

    /** clearCart: empty the cart and delete every row of the current user. */
    method ClearCart()
      requires Valid()
      modifies this
      ensures Valid() && InSync()
      ensures items == []
      ensures TotalItems(items) == 0 && TotalPrice(items) == 0
      ensures user == old(user)
      ensures mirror == if user.Some? then WithoutUser(old(mirror), user.value) else old(mirror)
    {
      items := [];
      if user.Some? {
        mirror := WithoutUser(mirror, user.value);
      }
    }

    /** The load effect on a change of user. No user: the cart empties and the
        table is left alone. A user: the cart becomes the stored rows whose
        product resolved (`response`), or stays as it was when the query gave no
        data. */
    method OnUserChange(newUser: Option<UserId>, response: Option<seq<Row>>, catalog: map<ProductId, Product>)
      requires Valid()
      requires CatalogKeyed(catalog)
      requires newUser.Some? && response.Some? ==> ListsRowsOf(mirror, newUser.value, response.value)
      modifies this
      ensures Valid()
      ensures user == newUser
      ensures mirror == old(mirror)
      ensures items == if newUser.None? then []
                       else if response.Some? then Resolve(response.value, catalog)
                       else old(items)
      ensures newUser.None? || response.Some? ==> InSync()
    {
      user := newUser;
      if newUser.None? {
        items := [];
        return;
      }
      if response.Some? {
        items := Resolve(response.value, catalog);
        LoadedCart(mirror, newUser.value, response.value, catalog);
      }
    }
  }
}
