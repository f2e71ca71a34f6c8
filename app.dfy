/**
 * The component's state: the `cart` and `showGiftMessage` cells, updated in
 * place. Each click handler applies its transform from module Cart and then
 * runs the gift rule synchronously, standing in for the effect that the view
 * runs after every cart change.
 */
module CartView {
  import opened Cart

  class App {
    var cart: seq<Item>
    var showGiftMessage: bool

    /** The two cells as one value, for stating what each step does. */
    ghost function Current(): State
      reads this
    {
      State(cart, showGiftMessage)
    }

    ghost predicate Valid()
      reads this
    {
      Cart.Valid(Current())
    }

    /** Both cells start empty: no lines, no message. */
    constructor ()
      ensures Valid()
      ensures cart == [] && !showGiftMessage
    {
      cart := [];
      showGiftMessage := false;
      InitialValid();
    }

    /**
     * The gift rule, run on the current cells. At or above the threshold with
     * no gift line it appends the gift and shows the message; below it with a
     * gift line it removes the gift and hides the message; otherwise it leaves
     * both cells alone.
     */
    method Reconcile()
      modifies this
      ensures Current() == Cart.Reconcile(old(Current()))
    {
      var subtotal := CalculateSubtotal();
      var hasGift := HasId(cart, FreeGift.id);
      if subtotal >= Threshold && !hasGift {
        cart := cart + [NewLine(FreeGift)];
        showGiftMessage := true;
      } else if subtotal < Threshold && hasGift {
        cart := Filter(cart, NotGift);
        showGiftMessage := false;
      }
    }

    /** The "Add to Cart" button of a catalog product. */
    method AddToCart(p: Product)
      requires Valid()
      requires p in Products
      modifies this
      ensures Valid()
      ensures Current() == AddStep(old(Current()), p)
    {
      ghost var before := Current();
      cart := Cart.AddToCart(cart, p);
      Reconcile();
      AddStepValid(before, p);
    }

    /** The -/+ buttons of a cart line: change a line's quantity by `change`. */
    method UpdateQuantity(productId: int, change: int)
      requires Valid()
      modifies this
      ensures Valid()
      ensures Current() == UpdateStep(old(Current()), productId, change)
    {
      ghost var before := Current();
      cart := Cart.UpdateQuantity(cart, productId, change);
      Reconcile();
      UpdateStepValid(before, productId, change);
    }

    /** The subtotal shown in the cart summary and read by the gift rule. */
    method CalculateSubtotal() returns (subtotal: int)
      ensures subtotal == Subtotal(cart)
      ensures Valid() ==> (subtotal >= Threshold <==> HasId(cart, FreeGift.id))
    {
      subtotal := Subtotal(cart);
    }
  }
}
