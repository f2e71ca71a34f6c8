# Shopping cart with a free-gift promotion, in Dafny

This project models the cart logic of a single-page shopping-cart component.
The component has:

- a fixed catalog of four products with integer prices;
- a cart of lines, each a product's fields plus a quantity;
- "Add to Cart" and -/+ buttons that change the cart;
- a subtotal;
- a promotion rule: once the subtotal reaches 1000, a zero-price "Wireless Mouse" gift line (id 99) is added and a message is shown. When the subtotal drops below 1000, the gift line is removed and the message is hidden.

Two files:

- `cart.dfy`, module `Cart`. The catalog constants, and the transforms as pure functions on values:
  - `AddToCart` and `UpdateQuantity`, the updaters passed to the cart setter;
  - `Subtotal`;
  - `Filter`, JavaScript's `filter`;
  - `Reconcile`, the gift rule.

  It also holds the lemmas about these functions. `AddStep` and `UpdateStep` are one whole click each: the transform, then the rule. `Valid` is what holds between clicks:
  - ids are unique;
  - quantities are positive;
  - gift lines are free;
  - a gift line is present exactly when the subtotal is at least 1000;
  - the message flag says whether a gift line is present.

  `AddStepValid` and `UpdateStepValid` prove that every click keeps `Valid`. The `Example…` lemmas work through the concrete click sequences the component is meant to support.
- `app.dfy`, module `CartView`. Class `App` holds the component's two state cells, `cart` and `showGiftMessage`, as fields that its methods update in place:
  - `AddToCart` and `UpdateQuantity` apply the transform and then call `Reconcile` synchronously;
  - `Reconcile` is the effect that the view runs after each cart change;
  - each method's postcondition ties the new cells to `AddStep`/`UpdateStep` of the old ones.

Points where the code does something a reader might not expect:

- `updateQuantity` maps over every line with the id. It then filters out every line whose quantity is not positive, across the whole cart, not only the target line.
- `addToCart` bumps every line with the id.
- For carts that satisfy `Valid`, both reduce to "the one line", and the lemmas state them that way.
- `calculateSubtotal` folds from the left; `Subtotal` recurses from the front. Both add the same integers, and integer addition does not depend on the order.
- The effect re-runs after its own cart update. The model runs the rule once, and `ReconcileIdempotent` shows that a second run changes nothing.

`App.AddToCart` requires a catalog product. The component's only call site passes an entry of the catalog (src/App.tsx:91). `App.UpdateQuantity` takes any id and any change, including the gift's id, although the view shows no buttons for the gift line (src/App.tsx:150).

The constants `Cart.Products`, `Cart.FreeGift` and `Cart.Threshold` are the catalog, the gift and the threshold of src/App.tsx:5-13, with the same ids, names and prices. `Cart.CatalogNotGift` states the facts about them that the proofs rely on.

## Model

| member | source | states |
|---|---|---|
| `Cart.Subtotal` | src/App.tsx:30-32 | the sum of price × quantity over the lines; characterised by `SubtotalCons`, `SubtotalAppend`, `SubtotalSplit` and `SubtotalNonNegative` below |
| `Cart.HasId` | src/App.tsx:63 | some line carries the id, as `some` tests here and `find` tests at line 36; `AddToCart` and `Reconcile` state how each step changes it |
| `Cart.NewLine` | src/App.tsx:44 | a product's fields with quantity 1, as also built for the gift at line 66; `AddToCart` and `Reconcile` state that it is appended at the end |
| `Cart.SubtotalNonNegative` | src/App.tsx:30-32 | the sum of price × quantity over the cart is never negative when no price or quantity is |
| `Cart.SubtotalCons` | src/App.tsx:31 | a line put in front of a cart adds exactly its price × quantity to the subtotal |
| `Cart.SubtotalAppend` | src/App.tsx:31 | the subtotal of a concatenation is the sum of the two subtotals, so the fold is the plain sum over all lines |
| `Cart.SubtotalSplit` | src/App.tsx:31 | the subtotal is the lines before a position, plus that line's total, plus the lines after it |
| `Cart.SubtotalReplace` | src/App.tsx:31 | replacing one line changes the subtotal by exactly the difference of the two line totals |
| `Cart.SubtotalRemove` | src/App.tsx:31 | dropping one line lowers the subtotal by exactly that line's total |
| `Cart.Filter` | src/App.tsx:56 | the result is no longer than the input, and a line is in it exactly when it is in the input and passes the test |
| `Cart.FilterAppend` | src/App.tsx:56 | filtering distributes over concatenation, so the filter keeps the relative order of lines |
| `Cart.FilterAll` | src/App.tsx:56 | when every line passes, filtering returns the sequence unchanged |
| `Cart.FilterUniqueIds` | src/App.tsx:69 | filtering a cart with unique ids yields a cart with unique ids |
| `Cart.FilterTwice` | src/App.tsx:69 | filtering twice with the same test is the same as filtering once |
| `Cart.FilterDropsOne` | src/App.tsx:56 | when exactly one line fails the test, filtering removes that line and keeps all others in order |
| `Cart.LineTotalZero` | src/App.tsx:31 | a line with price 0 or quantity 0 contributes nothing to the subtotal |
| `Cart.LineTotalBump` | src/App.tsx:40 | one more unit raises a line's total by exactly its unit price |
| `Cart.AddToCart` | src/App.tsx:34-46 | the ids present afterwards are the old ids plus the product's; the length grows by one exactly when the id was absent; in that case the old lines are kept as they were and the new last line is the product with quantity 1 |
| `Cart.AddToCartExisting` | src/App.tsx:36-42 | with unique ids, adding a product already in the cart raises that one line's quantity by 1 and keeps every other line, the length and the order |
| `Cart.AddToCartInvariants` | src/App.tsx:36-44 | adding keeps ids unique, quantities positive and gift lines free |
| `Cart.SubtotalBump` | src/App.tsx:38-42 | raising one line's quantity by 1 raises the subtotal by exactly that line's price |
| `Cart.AddToCartSubtotal` | src/App.tsx:34-46 | when the product's existing line carries the product's price, adding raises the subtotal by exactly that price |
| `Cart.UpdateQuantity` | src/App.tsx:48-59 | every remaining line has positive quantity; the cart never grows; lines of other ids are only ever old lines; every old positive line of another id survives |
| `Cart.UpdateQuantityUnknown` | src/App.tsx:50-56 | an id no line carries leaves a cart of positive lines unchanged |
| `Cart.Adjust` | src/App.tsx:50-55 | the `map` step of an update; `AdjustOne` states its result on carts with unique ids |
| `Cart.AdjustOne` | src/App.tsx:50-55 | with unique ids, the mapping step changes only the target line, to quantity max(0, q + change) |
| `Cart.UpdateQuantityExisting` | src/App.tsx:50-56 | in a valid cart, the target takes quantity q + change in place when that is positive, and is removed otherwise; all other lines stay, in order |
| `Cart.UpdateQuantitySubtotal` | src/App.tsx:50-56 | the new subtotal replaces the target's line total with the total of the line at quantity max(0, q + change) |
| `Cart.UpdateQuantityKeptSubtotal` | src/App.tsx:50-56 | when q + change is positive, the target's old line total is replaced by its total at the new quantity |
| `Cart.UpdateQuantityRemovedSubtotal` | src/App.tsx:50-56 | when q + change is not positive, the subtotal drops by exactly the target's old line total |
| `Cart.UpdateQuantityFreeLine` | src/App.tsx:50-56 | changing the quantity of a zero-price line, such as the gift, never changes the subtotal |
| `Cart.UpdateQuantityInvariants` | src/App.tsx:50-56 | updating keeps ids unique and gift lines free |
| `Cart.UpdateQuantityNoNewGift` | src/App.tsx:50-56 | an update never creates a gift line |
| `Cart.UpdateQuantityGiftRemoved` | src/App.tsx:50-56 | when an update removes the gift line, the subtotal still reaches the threshold, so the rule puts the gift back |
| `Cart.Reconcile` | src/App.tsx:61-72 | when the gift's presence already matches the threshold, nothing changes; when the subtotal reaches 1000 with no gift line, exactly one gift line of quantity 1 is appended at the end and the old lines are kept; when the rule changes the cart, the message flag ends up saying whether a gift line is present, and otherwise it is untouched |
| `Cart.SubtotalWithGift` | src/App.tsx:66 | appending the zero-price gift line leaves the subtotal unchanged |
| `Cart.SubtotalWithoutGift` | src/App.tsx:69 | filtering out free gift lines leaves the subtotal unchanged |
| `Cart.ReconcileSubtotal` | src/App.tsx:61-72 | the rule never changes the subtotal it reacts to |
| `Cart.ReconcileGiftMatchesThreshold` | src/App.tsx:61-72 | after the rule, a gift line is present exactly when the subtotal is at least 1000 |
| `Cart.ReconcileIdempotent` | src/App.tsx:61-72 | running the rule on its own result changes neither the cart nor the flag |
| `Cart.ReconcileInvariants` | src/App.tsx:61-72 | the rule keeps ids unique, quantities positive and gift lines free |
| `Cart.ReconcileOnlyTouchesGift` | src/App.tsx:63-69 | with gift lines set aside, the cart after the rule is the cart before it, in the same order |
| `Cart.AddStep` | src/App.tsx:34-72 | one "Add to Cart" click followed by the effect; `AddStepValid` states that it keeps the invariant |
| `Cart.UpdateStep` | src/App.tsx:48-72 | one -/+ click followed by the effect; `UpdateStepValid` states that it keeps the invariant |
| `Cart.InitialValid` | src/App.tsx:27-28 | the initial state (empty cart, no message) satisfies the invariant |
| `Cart.CatalogNotGift` | src/App.tsx:5-13 | no catalog product has the gift's id, and every catalog price is non-negative |
| `Cart.AddStepValid` | src/App.tsx:34-72 | adding a catalog product and then running the rule keeps every part of the invariant |
| `Cart.UpdateStepValid` | src/App.tsx:48-72 | any quantity change on any id, then the rule, keeps every part of the invariant |
| `Cart.ExampleLaptopTwice` | src/App.tsx:34-72 | one laptop gives 500 and no gift; a second gives quantity 2, 1000, the gift line and the message |
| `Cart.ExampleGiftWithdrawn` | src/App.tsx:48-72 | going back to one laptop removes the gift line and hides the message |
| `Cart.ExampleTenthHeadphones` | src/App.tsx:34-72 | a ninth headphone click from eight gives 900, no gift and no message; the tenth reaches 1000 and adds the gift line and the message |
| `Cart.ExampleUnknownProduct` | src/App.tsx:48-72 | changing a product that was never added changes nothing |
| `Cart.ExampleLineRemoved` | src/App.tsx:48-72 | taking a line below one removes it instead of keeping it at zero |
| `CartView.App.constructor` | src/App.tsx:27-28 | both cells start empty and the invariant holds |
| `CartView.App.Reconcile` | src/App.tsx:61-72 | the cells after the effect are the rule applied to the cells before it |
| `CartView.App.AddToCart` | src/App.tsx:34-46 | the cells become the add-then-rule step of the old cells, and the invariant is kept |
| `CartView.App.UpdateQuantity` | src/App.tsx:48-59 | the cells become the update-then-rule step of the old cells, and the invariant is kept |
| `CartView.App.CalculateSubtotal` | src/App.tsx:30-32 | returns the subtotal of the current cart, in any state; in a valid state it reaches 1000 exactly when a gift line is present |

## Left out

- Rendering, styling and icons (src/App.tsx:77-183): presentation only.
- The progress percentage (src/App.tsx:75): a floating-point value used only for the progress bar.
- The "remaining amount" and line-total strings: formatting only.
- React's scheduling of state updates and effects: the model runs the gift rule synchronously after each change. The re-run that React performs after the rule's own update is covered by `Cart.ReconcileIdempotent`, not by a second call.
- JavaScript `number` semantics: all prices, quantities and changes are integers, so they are modelled as unbounded `int`. There is no floating point and no overflow.
- Product names are kept as plain strings and play no part in any property.
- `Cart.UpdateQuantityExisting`: the exact resulting cart is stated only for carts with unique ids and positive quantities, the only carts the component reaches. For other carts, `Cart.UpdateQuantity` states only the general facts in its own contract.
- `Cart.AddToCartExisting`: the exact resulting cart is stated only for carts with unique ids. With repeated ids, the code bumps every matching line.
