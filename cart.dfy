/**
 * The cart logic of the shopping-cart component: the catalog constants, the
 * list transforms behind "Add to Cart" and the -/+ buttons, the subtotal, and
 * the free-gift reconciliation rule, all as pure functions on values.
 */
module Cart {

  /** A catalog entry. */
  datatype Product = Product(id: int, name: string, price: int)

  /** A cart line: the product's fields spread into it, plus a quantity. */
  datatype Item = Item(id: int, name: string, price: int, quantity: int)

  /** The component's two state cells: the cart and the gift-message flag. */
  datatype State = State(cart: seq<Item>, showGiftMessage: bool)

  const Products: seq<Product> := [
    Product(1, "Laptop", 500),
    Product(2, "Smartphone", 300),
    Product(3, "Headphones", 100),
    Product(4, "Smartwatch", 150)
  ]

  const FreeGift: Product := Product(99, "Wireless Mouse", 0)

  const Threshold: int := 1000

  /** The initial state: an empty cart and no gift message. */
  const Initial: State := State([], false)

  function Max(a: int, b: int): int { if a < b then b else a }

  /** `{ ...product, quantity: 1 }` */
  function NewLine(p: Product): Item { Item(p.id, p.name, p.price, 1) }

  function LineTotal(x: Item): int { x.price * x.quantity }

  /** A line with no price or no quantity contributes nothing. */
  lemma LineTotalZero(x: Item)
    requires x.price == 0 || x.quantity == 0
    ensures LineTotal(x) == 0
  {
  }

  /** One more unit adds one unit price to the line total. */
  lemma LineTotalBump(x: Item)
    ensures LineTotal(x.(quantity := x.quantity + 1)) == LineTotal(x) + x.price
  {
    assert x.price * (x.quantity + 1) == x.price * x.quantity + x.price;
  }

  // ---------------------------------------------------------------------
  // Predicates on carts
  // ---------------------------------------------------------------------

  /** Some line carries the given id (`find` / `some` on the id). */
  predicate HasId(cart: seq<Item>, id: int)
  {
    exists i :: 0 <= i < |cart| && cart[i].id == id
  }

  /** At most one line per product id. */
  predicate UniqueIds(cart: seq<Item>)
  {
    forall i, j :: 0 <= i < j < |cart| ==> cart[i].id != cart[j].id
  }

  /** No line is kept at quantity zero (or below). */
  predicate AllPositive(cart: seq<Item>)
  {
    forall i :: 0 <= i < |cart| ==> cart[i].quantity > 0
  }

  /** Every line carrying the gift's id costs nothing. */
  predicate GiftLinesFree(cart: seq<Item>)
  {
    forall i :: 0 <= i < |cart| && cart[i].id == FreeGift.id ==> cart[i].price == 0
  }

  predicate IsPositive(x: Item) { x.quantity > 0 }

  predicate NotGift(x: Item) { x.id != FreeGift.id }

  // ---------------------------------------------------------------------
  // Subtotal
  // ---------------------------------------------------------------------

  /**
   * `cart.reduce((sum, item) => sum + item.price * item.quantity, 0)`: the sum
   * of the line totals. Integer addition is associative and commutative, so
   * the order in which the sum is taken does not change it.
   */
  function Subtotal(cart: seq<Item>): int
  {
    if |cart| == 0 then 0 else LineTotal(cart[0]) + Subtotal(cart[1..])
  }

  /** With no negative price or quantity, the subtotal is not negative. */
  lemma {:induction false} SubtotalNonNegative(cart: seq<Item>)
    requires forall i :: 0 <= i < |cart| ==> cart[i].price >= 0 && cart[i].quantity >= 0
    ensures Subtotal(cart) >= 0
  {
    if |cart| != 0 {
      var t := cart[1..];
      assert forall i :: 0 <= i < |t| ==> t[i] == cart[i + 1];
      SubtotalNonNegative(t);
      assert cart[0].price * cart[0].quantity >= 0;
    }
  }

  lemma SubtotalCons(x: Item, s: seq<Item>)
    ensures Subtotal([x] + s) == LineTotal(x) + Subtotal(s)
  {
    assert ([x] + s)[0] == x;
    assert ([x] + s)[1..] == s;
  }

  /** The subtotal of a concatenation is the sum of the subtotals. */
  lemma {:induction false} SubtotalAppend(a: seq<Item>, b: seq<Item>)
    ensures Subtotal(a + b) == Subtotal(a) + Subtotal(b)
  {
    if |a| == 0 {
      assert a + b == b;
    } else {
      assert (a + b)[0] == a[0];
      assert (a + b)[1..] == a[1..] + b;
      SubtotalAppend(a[1..], b);
    }
  }

  /** Replacing one line changes the subtotal by the difference of the two line totals. */
  lemma SubtotalReplace(s: seq<Item>, k: int, x: Item)
    requires 0 <= k < |s|
    ensures Subtotal(s[k := x]) == Subtotal(s) - LineTotal(s[k]) + LineTotal(x)
  {
    var pre, post := s[..k], s[k + 1..];
    SubtotalSplit(s, k);
    calc {
      Subtotal(s[k := x]);
    == { assert s[k := x] == pre + ([x] + post); }
      Subtotal(pre + ([x] + post));
    == { SubtotalAppend(pre, [x] + post); }
      Subtotal(pre) + Subtotal([x] + post);
    == { SubtotalCons(x, post); }
      Subtotal(pre) + LineTotal(x) + Subtotal(post);
    }
  }

  /** The subtotal splits around line `k`. */
  lemma SubtotalSplit(s: seq<Item>, k: int)
    requires 0 <= k < |s|
    ensures Subtotal(s) == Subtotal(s[..k]) + LineTotal(s[k]) + Subtotal(s[k + 1..])
  {
    var pre, post := s[..k], s[k + 1..];
    calc {
      Subtotal(s);
    == { assert s == pre + ([s[k]] + post); }
      Subtotal(pre + ([s[k]] + post));
    == { SubtotalAppend(pre, [s[k]] + post); }
      Subtotal(pre) + Subtotal([s[k]] + post);
    == { SubtotalCons(s[k], post); }
      Subtotal(pre) + LineTotal(s[k]) + Subtotal(post);
    }
  }

  /** Dropping one line lowers the subtotal by exactly that line's total. */
  lemma SubtotalRemove(s: seq<Item>, k: int)
    requires 0 <= k < |s|
    ensures Subtotal(s[..k] + s[k + 1..]) == Subtotal(s) - LineTotal(s[k])
  {
    SubtotalSplit(s, k);
    SubtotalAppend(s[..k], s[k + 1..]);
  }

  // ---------------------------------------------------------------------
  // Filter (JavaScript's Array.prototype.filter)
  // ---------------------------------------------------------------------

  /** The lines of `s` that satisfy `keep`, in their original order. */
  function Filter(s: seq<Item>, keep: Item -> bool): (r: seq<Item>)
    ensures |r| <= |s|
    ensures forall x {:trigger x in r} :: x in r <==> x in s && keep(x)
  {
    if |s| == 0 then [] else (if keep(s[0]) then [s[0]] else []) + Filter(s[1..], keep)
  }

  lemma {:induction false} FilterAppend(a: seq<Item>, b: seq<Item>, keep: Item -> bool)
    ensures Filter(a + b, keep) == Filter(a, keep) + Filter(b, keep)
  {
    if a == [] {
      assert a + b == b;
    } else {
      var h := if keep(a[0]) then [a[0]] else [];
      calc {
        Filter(a + b, keep);
      == { assert (a + b)[0] == a[0]; assert (a + b)[1..] == a[1..] + b; }
        h + Filter(a[1..] + b, keep);
      == { FilterAppend(a[1..], b, keep); }
        h + (Filter(a[1..], keep) + Filter(b, keep));
      ==
        (h + Filter(a[1..], keep)) + Filter(b, keep);
      }
    }
  }

  /** Filtering keeps a sequence whole when every line passes. */
  lemma {:induction false} FilterAll(s: seq<Item>, keep: Item -> bool)
    requires forall i :: 0 <= i < |s| ==> keep(s[i])
    ensures Filter(s, keep) == s
  {
    if s != [] {
      FilterAll(s[1..], keep);
    }
  }

  /** Filtering never makes two lines share an id. */
  lemma {:induction false} FilterUniqueIds(s: seq<Item>, keep: Item -> bool)
    requires UniqueIds(s)
    ensures UniqueIds(Filter(s, keep))
  {
    if s != [] {
      var t := s[1..];
      FilterUniqueIds(t, keep);
      var ft := Filter(t, keep);
      forall y | y in ft
        ensures y.id != s[0].id
      {
        var j :| 0 <= j < |t| && t[j] == y;
        assert s[j + 1] == y;
      }
    }
  }

  /** Filtering a sequence a second time with the same test changes nothing. */
  lemma FilterTwice(s: seq<Item>, keep: Item -> bool)
    ensures Filter(Filter(s, keep), keep) == Filter(s, keep)
  {
    var r := Filter(s, keep);
    forall i | 0 <= i < |r|
      ensures keep(r[i])
    {
      assert r[i] in r;
    }
    FilterAll(r, keep);
  }

  // ---------------------------------------------------------------------
  // addToCart
  // ---------------------------------------------------------------------

  /**
   * Adding a product: when a line with its id exists, every line with that id
   * has its quantity raised by one (a `map` over the cart); otherwise a new
   * line with quantity 1 is appended.
   */
  function AddToCart(cart: seq<Item>, p: Product): (r: seq<Item>)
    ensures forall id :: HasId(r, id) <==> HasId(cart, id) || id == p.id
    ensures |r| == if HasId(cart, p.id) then |cart| else |cart| + 1
    ensures !HasId(cart, p.id) ==> r[..|cart|] == cart && r[|cart|] == NewLine(p)
  {
    if HasId(cart, p.id) then
      var r := seq(|cart|, i requires 0 <= i < |cart| =>
        if cart[i].id == p.id then cart[i].(quantity := cart[i].quantity + 1) else cart[i]);
      assert forall i :: 0 <= i < |cart| ==> r[i].id == cart[i].id;
      r
    else
      var r := cart + [NewLine(p)];
      assert r[|cart|].id == p.id;
      assert forall i :: 0 <= i < |cart| ==> r[i] == cart[i];
      r
  }

  /** With unique ids, adding a product already in the cart bumps that one line and nothing else. */
  lemma AddToCartExisting(cart: seq<Item>, p: Product, k: int)
    requires UniqueIds(cart)
    requires 0 <= k < |cart| && cart[k].id == p.id
    ensures AddToCart(cart, p) == cart[k := cart[k].(quantity := cart[k].quantity + 1)]
  {
    assert HasId(cart, p.id);
    var r := AddToCart(cart, p);
    var e := cart[k := cart[k].(quantity := cart[k].quantity + 1)];
    forall i | 0 <= i < |cart|
      ensures r[i] == e[i]
    {
      if i != k {
        assert cart[i].id != p.id by {
          if i < k { assert cart[i].id != cart[k].id; } else { assert cart[k].id != cart[i].id; }
        }
      }
    }
  }

  /** Adding keeps the cart's invariants: unique ids, positive quantities, a free gift line. */
  lemma AddToCartInvariants(cart: seq<Item>, p: Product)
    requires UniqueIds(cart) && AllPositive(cart) && GiftLinesFree(cart)
    requires p.id == FreeGift.id ==> p.price == 0
    ensures var r := AddToCart(cart, p);
      UniqueIds(r) && AllPositive(r) && GiftLinesFree(r)
  {
    var r := AddToCart(cart, p);
    if HasId(cart, p.id) {
      var k :| 0 <= k < |cart| && cart[k].id == p.id;
      AddToCartExisting(cart, p, k);
    } else {
      assert r == cart + [NewLine(p)];
      forall i | 0 <= i < |cart|
        ensures cart[i].id != p.id
      {
      }
    }
  }

  /** One more unit on line `k` adds that line's unit price to the subtotal. */
  lemma SubtotalBump(s: seq<Item>, k: int)
    requires 0 <= k < |s|
    ensures Subtotal(s[k := s[k].(quantity := s[k].quantity + 1)]) == Subtotal(s) + s[k].price
  {
    SubtotalReplace(s, k, s[k].(quantity := s[k].quantity + 1));
    LineTotalBump(s[k]);
  }

  /**
   * When the cart's line for the product has the product's price, adding the
   * product raises the subtotal by exactly that price.
   */
  lemma AddToCartSubtotal(cart: seq<Item>, p: Product)
    requires UniqueIds(cart)
    requires forall i :: 0 <= i < |cart| && cart[i].id == p.id ==> cart[i].price == p.price
    ensures Subtotal(AddToCart(cart, p)) == Subtotal(cart) + p.price
  {
    if HasId(cart, p.id) {
      var k :| 0 <= k < |cart| && cart[k].id == p.id;
      AddToCartExisting(cart, p, k);
      SubtotalBump(cart, k);
    } else {
      assert AddToCart(cart, p) == cart + [NewLine(p)];
      SubtotalAppend(cart, [NewLine(p)]);
      SubtotalCons(NewLine(p), []);
    }
  }

  // ---------------------------------------------------------------------
  // updateQuantity
  // ---------------------------------------------------------------------

  /** The `map` step of updateQuantity: lines with the id get quantity `max(0, q + change)`. */
  function Adjust(cart: seq<Item>, id: int, change: int): (r: seq<Item>)
  {
    seq(|cart|, i requires 0 <= i < |cart| =>
      if cart[i].id == id then cart[i].(quantity := Max(0, cart[i].quantity + change)) else cart[i])
  }

  /**
   * Changing a line's quantity: the adjusted cart, then every line whose
   * quantity is not positive filtered out (all lines, not only the target).
   */
  function UpdateQuantity(cart: seq<Item>, id: int, change: int): (r: seq<Item>)
    ensures AllPositive(r)
    ensures |r| <= |cart|
    ensures forall x :: x in r && x.id != id ==> x in cart
    ensures forall i :: 0 <= i < |cart| && cart[i].id != id && cart[i].quantity > 0 ==> cart[i] in r
  {
    var a := Adjust(cart, id, change);
    assert forall i :: 0 <= i < |cart| ==> a[i].id == cart[i].id;
    assert forall i :: 0 <= i < |cart| && cart[i].id != id ==> a[i] == cart[i] && a[i] in a;
    var r := Filter(a, IsPositive);
    assert forall i :: 0 <= i < |r| ==> r[i] in r;
    r
  }

  /** Updating an id that no line carries leaves a cart of positive lines as it was. */
  lemma UpdateQuantityUnknown(cart: seq<Item>, id: int, change: int)
    requires AllPositive(cart)
    requires !HasId(cart, id)
    ensures UpdateQuantity(cart, id, change) == cart
  {
    var a := Adjust(cart, id, change);
    assert a == cart;
    FilterAll(cart, IsPositive);
  }

  /** With unique ids, the `map` step touches the one line at index `k` only. */
  lemma AdjustOne(cart: seq<Item>, id: int, change: int, k: int)
    requires UniqueIds(cart)
    requires 0 <= k < |cart| && cart[k].id == id
    ensures Adjust(cart, id, change) == cart[k := cart[k].(quantity := Max(0, cart[k].quantity + change))]
  {
    forall i | 0 <= i < |cart| && i != k
      ensures cart[i].id != id
    {
      if i < k { assert cart[i].id != cart[k].id; } else { assert cart[k].id != cart[i].id; }
    }
  }

  /** Filtering drops exactly the one line that fails the test. */
  lemma {:induction false} FilterDropsOne(s: seq<Item>, k: int, keep: Item -> bool)
    requires 0 <= k < |s|
    requires !keep(s[k])
    requires forall i :: 0 <= i < |s| && i != k ==> keep(s[i])
    ensures Filter(s, keep) == s[..k] + s[k + 1..]
  {
    var t := s[1..];
    if k == 0 {
      forall i | 0 <= i < |t|
        ensures keep(t[i])
      {
        assert t[i] == s[i + 1];
      }
      FilterAll(t, keep);
      assert Filter(s, keep) == [] + Filter(t, keep);
      assert s[..0] + s[1..] == t;
    } else {
      forall i | 0 <= i < |t| && i != k - 1
        ensures keep(t[i])
      {
        assert t[i] == s[i + 1];
      }
      FilterDropsOne(t, k - 1, keep);
      calc {
        Filter(s, keep);
      == { assert keep(s[0]); }
        [s[0]] + Filter(t, keep);
      ==
        [s[0]] + (t[..k - 1] + t[k..]);
      ==
        ([s[0]] + t[..k - 1]) + t[k..];
      == { assert [s[0]] + t[..k - 1] == s[..k]; assert t[k..] == s[k + 1..]; }
        s[..k] + s[k + 1..];
      }
    }
  }


  /**
   * In a cart with unique ids and positive quantities, the target line takes
   * quantity `q + change` in place when that is positive, and is removed
   * otherwise; every other line stays, in order.
   */
  lemma UpdateQuantityExisting(cart: seq<Item>, id: int, change: int, k: int)
    requires AllPositive(cart) && UniqueIds(cart)
    requires 0 <= k < |cart| && cart[k].id == id
    ensures var q := cart[k].quantity + change;
      UpdateQuantity(cart, id, change) ==
        if q > 0 then cart[k := cart[k].(quantity := q)] else cart[..k] + cart[k + 1..]
  {
    var q := cart[k].quantity + change;
    var a := Adjust(cart, id, change);
    AdjustOne(cart, id, change, k);
    if q > 0 {
      FilterAll(a, IsPositive);
    } else {
      FilterDropsOne(a, k, IsPositive);
      assert a[..k] == cart[..k] && a[k + 1..] == cart[k + 1..];
    }
  }

  /** The subtotal after an update differs only by the target line's new total. */
  lemma UpdateQuantitySubtotal(cart: seq<Item>, id: int, change: int, k: int)
    requires AllPositive(cart) && UniqueIds(cart)
    requires 0 <= k < |cart| && cart[k].id == id
    ensures Subtotal(UpdateQuantity(cart, id, change)) ==
      Subtotal(cart) - LineTotal(cart[k]) + LineTotal(cart[k].(quantity := Max(0, cart[k].quantity + change)))
  {
    var y := cart[k].(quantity := Max(0, cart[k].quantity + change));
    if cart[k].quantity + change > 0 {
      UpdateQuantityKeptSubtotal(cart, id, change, k);
      assert y == cart[k].(quantity := cart[k].quantity + change);
    } else {
      UpdateQuantityRemovedSubtotal(cart, id, change, k);
      LineTotalZero(y);
    }
  }

  /** A line whose new quantity stays positive contributes its new total. */
  lemma UpdateQuantityKeptSubtotal(cart: seq<Item>, id: int, change: int, k: int)
    requires AllPositive(cart) && UniqueIds(cart)
    requires 0 <= k < |cart| && cart[k].id == id && cart[k].quantity + change > 0
    ensures Subtotal(UpdateQuantity(cart, id, change)) ==
      Subtotal(cart) - LineTotal(cart[k]) + LineTotal(cart[k].(quantity := cart[k].quantity + change))
  {
    UpdateQuantityExisting(cart, id, change, k);
    SubtotalReplace(cart, k, cart[k].(quantity := cart[k].quantity + change));
  }

  /** A line whose new quantity is not positive stops contributing. */
  lemma UpdateQuantityRemovedSubtotal(cart: seq<Item>, id: int, change: int, k: int)
    requires AllPositive(cart) && UniqueIds(cart)
    requires 0 <= k < |cart| && cart[k].id == id && cart[k].quantity + change <= 0
    ensures Subtotal(UpdateQuantity(cart, id, change)) == Subtotal(cart) - LineTotal(cart[k])
  {
    UpdateQuantityExisting(cart, id, change, k);
    SubtotalRemove(cart, k);
  }

  /** Changing the quantity of a zero-price line leaves the subtotal unchanged. */
  lemma UpdateQuantityFreeLine(cart: seq<Item>, id: int, change: int, k: int)
    requires AllPositive(cart) && UniqueIds(cart)
    requires 0 <= k < |cart| && cart[k].id == id && cart[k].price == 0
    ensures Subtotal(UpdateQuantity(cart, id, change)) == Subtotal(cart)
  {
    UpdateQuantitySubtotal(cart, id, change, k);
    LineTotalZero(cart[k]);
    LineTotalZero(cart[k].(quantity := Max(0, cart[k].quantity + change)));
  }

  /** Updating keeps ids unique and the gift lines free. */
  lemma UpdateQuantityInvariants(cart: seq<Item>, id: int, change: int)
    requires UniqueIds(cart) && GiftLinesFree(cart)
    ensures var r := UpdateQuantity(cart, id, change);
      UniqueIds(r) && GiftLinesFree(r)
  {
    var a := Adjust(cart, id, change);
    assert forall i :: 0 <= i < |a| ==> a[i].id == cart[i].id && a[i].price == cart[i].price;
    FilterUniqueIds(a, IsPositive);
    var r := Filter(a, IsPositive);
    forall i | 0 <= i < |r| && r[i].id == FreeGift.id
      ensures r[i].price == 0
    {
      assert r[i] in r;
    }
  }

  // ---------------------------------------------------------------------
  // The free-gift rule (the component's effect on every cart change)
  // ---------------------------------------------------------------------

  /**
   * At or above the threshold with no gift line, the gift is appended and the
   * message shown; below it with a gift line, the gift lines are filtered out
   * and the message hidden; otherwise nothing changes. When the rule changes
   * the cart, the flag ends up saying whether the gift is there; when it does
   * not, the flag is left alone.
   */
  function Reconcile(s: State): (r: State)
    ensures r.cart != s.cart ==> r.showGiftMessage == HasId(r.cart, FreeGift.id)
    ensures r.cart == s.cart ==> r.showGiftMessage == s.showGiftMessage
    ensures (HasId(s.cart, FreeGift.id) <==> Subtotal(s.cart) >= Threshold) ==> r == s
    ensures !HasId(s.cart, FreeGift.id) && Subtotal(s.cart) >= Threshold ==>
      |r.cart| == |s.cart| + 1 && r.cart[..|s.cart|] == s.cart && r.cart[|s.cart|] == NewLine(FreeGift)
  {
    var subtotal := Subtotal(s.cart);
    var hasGift := HasId(s.cart, FreeGift.id);
    if subtotal >= Threshold && !hasGift then
      assert (s.cart + [NewLine(FreeGift)])[|s.cart|].id == FreeGift.id;
      State(s.cart + [NewLine(FreeGift)], true)
    else if subtotal < Threshold && hasGift then
      var i :| 0 <= i < |s.cart| && s.cart[i].id == FreeGift.id;
      var f := Filter(s.cart, NotGift);
      assert s.cart[i] !in f;
      assert forall j :: 0 <= j < |f| ==> f[j] in f;
      State(f, false)
    else
      s
  }

  /** Appending the gift line leaves the subtotal unchanged. */
  lemma SubtotalWithGift(cart: seq<Item>)
    ensures Subtotal(cart + [NewLine(FreeGift)]) == Subtotal(cart)
  {
    SubtotalAppend(cart, [NewLine(FreeGift)]);
    SubtotalCons(NewLine(FreeGift), []);
  }

  /** Filtering out free gift lines leaves the subtotal unchanged. */
  lemma {:induction false} SubtotalWithoutGift(cart: seq<Item>)
    requires GiftLinesFree(cart)
    ensures Subtotal(Filter(cart, NotGift)) == Subtotal(cart)
  {
    if |cart| != 0 {
      var x, t := cart[0], cart[1..];
      assert GiftLinesFree(t) by {
        forall i | 0 <= i < |t| && t[i].id == FreeGift.id
          ensures t[i].price == 0
        {
          assert t[i] == cart[i + 1];
        }
      }
      SubtotalWithoutGift(t);
      var ft := Filter(t, NotGift);
      if NotGift(x) {
        SubtotalCons(x, ft);
      } else {
        assert x.price == 0;
        assert [] + ft == ft;
      }
    }
  }

  /** The rule only appends or removes free lines, so the subtotal it sees is the one it leaves. */
  lemma ReconcileSubtotal(s: State)
    requires GiftLinesFree(s.cart)
    ensures Subtotal(Reconcile(s).cart) == Subtotal(s.cart)
  {
    SubtotalWithGift(s.cart);
    SubtotalWithoutGift(s.cart);
  }

  /** After the rule, a gift line is present exactly when the subtotal reaches the threshold. */
  lemma ReconcileGiftMatchesThreshold(s: State)
    requires GiftLinesFree(s.cart)
    ensures var r := Reconcile(s);
      HasId(r.cart, FreeGift.id) <==> Subtotal(r.cart) >= Threshold
  {
    ReconcileSubtotal(s);
    var r := Reconcile(s);
    if Subtotal(s.cart) >= Threshold && !HasId(s.cart, FreeGift.id) {
      assert r.cart[|s.cart|].id == FreeGift.id;
    } else if Subtotal(s.cart) < Threshold && HasId(s.cart, FreeGift.id) {
      forall j | 0 <= j < |r.cart|
        ensures r.cart[j].id != FreeGift.id
      {
        assert r.cart[j] in r.cart;
      }
    }
  }

  /** Running the rule on its own result changes neither the cart nor the flag. */
  lemma ReconcileIdempotent(s: State)
    requires GiftLinesFree(s.cart)
    ensures Reconcile(Reconcile(s)) == Reconcile(s)
  {
    ReconcileSubtotal(s);
    ReconcileGiftMatchesThreshold(s);
  }

  /** The rule keeps ids unique, quantities positive and gift lines free. */
  lemma ReconcileInvariants(s: State)
    requires UniqueIds(s.cart) && AllPositive(s.cart) && GiftLinesFree(s.cart)
    ensures var r := Reconcile(s);
      UniqueIds(r.cart) && AllPositive(r.cart) && GiftLinesFree(r.cart)
  {
    var r := Reconcile(s);
    if Subtotal(s.cart) >= Threshold && !HasId(s.cart, FreeGift.id) {
      forall i | 0 <= i < |s.cart|
        ensures s.cart[i].id != FreeGift.id
      {
      }
    } else if Subtotal(s.cart) < Threshold && HasId(s.cart, FreeGift.id) {
      FilterUniqueIds(s.cart, NotGift);
      forall i | 0 <= i < |r.cart|
        ensures r.cart[i].quantity > 0 && r.cart[i].id != FreeGift.id
      {
        assert r.cart[i] in r.cart;
        var j :| 0 <= j < |s.cart| && s.cart[j] == r.cart[i];
      }
    }
  }

  /** The rule touches gift lines only: with them set aside, the cart is what it was. */
  lemma ReconcileOnlyTouchesGift(s: State)
    ensures Filter(Reconcile(s).cart, NotGift) == Filter(s.cart, NotGift)
  {
    if Subtotal(s.cart) >= Threshold && !HasId(s.cart, FreeGift.id) {
      FilterAppend(s.cart, [NewLine(FreeGift)], NotGift);
      assert Filter([NewLine(FreeGift)], NotGift) == [];
    } else if Subtotal(s.cart) < Threshold && HasId(s.cart, FreeGift.id) {
      FilterTwice(s.cart, NotGift);
    }
  }

  // ---------------------------------------------------------------------
  // Whole user actions: a cart change followed by the rule
  // ---------------------------------------------------------------------

  /** What the component keeps true between user actions. */
  predicate Valid(s: State)
  {
    && UniqueIds(s.cart)
    && AllPositive(s.cart)
    && GiftLinesFree(s.cart)
    && (HasId(s.cart, FreeGift.id) <==> Subtotal(s.cart) >= Threshold)
    && s.showGiftMessage == HasId(s.cart, FreeGift.id)
  }

  /** The "Add to Cart" click: addToCart, then the gift rule. */
  function AddStep(s: State, p: Product): State
  {
    Reconcile(State(AddToCart(s.cart, p), s.showGiftMessage))
  }

  /** A -/+ click: updateQuantity, then the gift rule. */
  function UpdateStep(s: State, id: int, change: int): State
  {
    Reconcile(State(UpdateQuantity(s.cart, id, change), s.showGiftMessage))
  }

  lemma InitialValid()
    ensures Valid(Initial)
  {
  }

  /** The catalog's ids are 1 to 4, none of them the gift's. */
  lemma CatalogNotGift(p: Product)
    requires p in Products
    ensures p.id != FreeGift.id && p.price >= 0
  {
  }

  /** Adding a catalog product keeps the component valid. */
  lemma AddStepValid(s: State, p: Product)
    requires Valid(s) && p in Products
    ensures Valid(AddStep(s, p))
  {
    CatalogNotGift(p);
    var c := AddToCart(s.cart, p);
    var m := State(c, s.showGiftMessage);
    AddToCartInvariants(s.cart, p);
    ReconcileInvariants(m);
    ReconcileGiftMatchesThreshold(m);
    assert HasId(c, FreeGift.id) == HasId(s.cart, FreeGift.id);
  }

  /** An update never creates a gift line. */
  lemma UpdateQuantityNoNewGift(cart: seq<Item>, id: int, change: int)
    requires AllPositive(cart)
    requires !HasId(cart, FreeGift.id)
    ensures !HasId(UpdateQuantity(cart, id, change), FreeGift.id)
  {
    var c := UpdateQuantity(cart, id, change);
    if id == FreeGift.id {
      UpdateQuantityUnknown(cart, id, change);
    } else {
      forall j | 0 <= j < |c|
        ensures c[j].id != FreeGift.id
      {
        if c[j].id != id {
          assert c[j] in c;
          var i :| 0 <= i < |cart| && cart[i] == c[j];
        }
      }
    }
  }

  /**
   * An update removes the gift line only when the gift itself is the target,
   * and then the subtotal is the one that earned the gift.
   */
  lemma UpdateQuantityGiftRemoved(cart: seq<Item>, id: int, change: int)
    requires UniqueIds(cart) && AllPositive(cart) && GiftLinesFree(cart)
    requires HasId(cart, FreeGift.id) && Subtotal(cart) >= Threshold
    ensures var c := UpdateQuantity(cart, id, change);
      HasId(c, FreeGift.id) || Subtotal(c) >= Threshold
  {
    var c := UpdateQuantity(cart, id, change);
    var g :| 0 <= g < |cart| && cart[g].id == FreeGift.id;
    if id != FreeGift.id {
      // Another line is the target: the gift line is kept as it was.
      assert cart[g] in c;
      var j :| 0 <= j < |c| && c[j] == cart[g];
      assert c[j].id == FreeGift.id;
    } else {
      UpdateQuantityExisting(cart, id, change, g);
      if cart[g].quantity + change > 0 {
        assert c[g].id == FreeGift.id;
      } else {
        UpdateQuantityFreeLine(cart, id, change, g);
      }
    }
  }


  /** Any quantity change, on any id, keeps the component valid. */
  lemma UpdateStepValid(s: State, id: int, change: int)
    requires Valid(s)
    ensures Valid(UpdateStep(s, id, change))
  {
    var c := UpdateQuantity(s.cart, id, change);
    var m := State(c, s.showGiftMessage);
    UpdateQuantityInvariants(s.cart, id, change);
    if HasId(s.cart, FreeGift.id) {
      UpdateQuantityGiftRemoved(s.cart, id, change);
    } else {
      UpdateQuantityNoNewGift(s.cart, id, change);
    }
    ReconcileInvariants(m);
    ReconcileGiftMatchesThreshold(m);
  }

  // ---------------------------------------------------------------------
  // Worked examples
  // ---------------------------------------------------------------------

  /** Laptop once: 500, no gift. Laptop again: quantity 2, 1000, gift line and message. */
  lemma ExampleLaptopTwice()
    ensures AddStep(Initial, Products[0]) == State([Item(1, "Laptop", 500, 1)], false)
    ensures AddStep(AddStep(Initial, Products[0]), Products[0]) ==
      State([Item(1, "Laptop", 500, 2), Item(99, "Wireless Mouse", 0, 1)], true)
  {
    var c1 := [Item(1, "Laptop", 500, 1)];
    assert Subtotal(c1) == 500 by { assert c1[1..] == []; }
    assert !HasId(c1, FreeGift.id);
    var c2 := AddToCart(c1, Products[0]);
    assert c2 == [Item(1, "Laptop", 500, 2)] by { AddToCartExisting(c1, Products[0], 0); }
    assert Subtotal(c2) == 1000 by { assert c2[1..] == []; }
  }

  /** Back down to one laptop: 500, the gift line and the message go away. */
  lemma ExampleGiftWithdrawn()
    ensures UpdateStep(State([Item(1, "Laptop", 500, 2), Item(99, "Wireless Mouse", 0, 1)], true), 1, -1) ==
      State([Item(1, "Laptop", 500, 1)], false)
  {
    var c := [Item(1, "Laptop", 500, 2), Item(99, "Wireless Mouse", 0, 1)];
    var d := UpdateQuantity(c, 1, -1);
    assert d == [Item(1, "Laptop", 500, 1), Item(99, "Wireless Mouse", 0, 1)] by {
      UpdateQuantityExisting(c, 1, -1, 0);
    }
    assert Subtotal(d) == 500 by { SubtotalCons(d[0], d[1..]); SubtotalCons(d[1], []); LineTotalZero(d[1]); }
    assert HasId(d, FreeGift.id) by { assert d[1].id == FreeGift.id; }
    assert Filter(d, NotGift) == [Item(1, "Laptop", 500, 1)];
  }

  /** The ninth headphones make 900 and earn no gift; the tenth reaches 1000 and brings it. */
  lemma ExampleTenthHeadphones()
    ensures AddStep(State([Item(3, "Headphones", 100, 8)], false), Products[2]) ==
      State([Item(3, "Headphones", 100, 9)], false)
    ensures AddStep(State([Item(3, "Headphones", 100, 9)], false), Products[2]) ==
      State([Item(3, "Headphones", 100, 10), Item(99, "Wireless Mouse", 0, 1)], true)
  {
    var b := [Item(3, "Headphones", 100, 8)];
    var c := AddToCart(b, Products[2]);
    assert c == [Item(3, "Headphones", 100, 9)] by { AddToCartExisting(b, Products[2], 0); }
    assert Subtotal(c) == 900 by { assert c[1..] == []; }
    var d := AddToCart(c, Products[2]);
    assert d == [Item(3, "Headphones", 100, 10)] by { AddToCartExisting(c, Products[2], 0); }
    assert Subtotal(d) == 1000 by { assert d[1..] == []; }
  }

  /** Changing a product that was never added changes nothing. */
  lemma ExampleUnknownProduct()
    ensures UpdateStep(State([Item(1, "Laptop", 500, 1)], false), 2, 1) ==
      State([Item(1, "Laptop", 500, 1)], false)
  {
    var c := [Item(1, "Laptop", 500, 1)];
    UpdateQuantityUnknown(c, 2, 1);
    assert Subtotal(c) == 500 by { assert c[1..] == []; }
  }

  /** Taking a line below one removes it rather than keeping it at zero. */
  lemma ExampleLineRemoved()
    ensures UpdateStep(State([Item(1, "Laptop", 500, 1), Item(3, "Headphones", 100, 2)], false), 3, -5) ==
      State([Item(1, "Laptop", 500, 1)], false)
  {
    var c := [Item(1, "Laptop", 500, 1), Item(3, "Headphones", 100, 2)];
    UpdateQuantityExisting(c, 3, -5, 1);
    assert c[..1] + c[2..] == [Item(1, "Laptop", 500, 1)];
    var d := [Item(1, "Laptop", 500, 1)];
    assert Subtotal(d) == 500 by { assert d[1..] == []; }
  }
}
