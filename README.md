# TeeRex storefront: cart store and catalogue filter

A Dafny model of the two pieces of logic in this React storefront.

- **The cart store** (`src/context/cartContext.jsx`). The cart is an ordered list of lines held in one state cell. Each line is a product record plus a quantity. Four operations replace the list: `addToCart`, `incrementQuantity`, `decrementQuantity` and `removeFromCart`. `totalPrice` is derived from it. Each operation passes the state cell an updater from the previous list to the next. The updaters are the pure functions `Cart.Added`, `Cart.Incremented`, `Cart.Decremented` and `Cart.Removed`. `Cart.CartStore` is the state cell; its methods apply the updaters. `DecrementQuantity` builds its result with a loop, as the source's `reduce` pushes onto an accumulator. The browser `alert("Cannot add more. Out of stock!")` is the `alerted` flag an updater returns.
- **The catalogue page** (`src/components/Home.jsx`). `filteredProducts` is an order-preserving selection over the catalogue. It ANDs five conditions:
  - a case-insensitive substring search over name, colour and type;
  - case-insensitive exact matches on colour, gender and type;
  - an inclusive price bucket parsed from a `"min-max"` string.

  Beside it sits the per-product stock decision that chooses the control shown under a product: the `-`/`+` stepper, the "Out of Stock" badge or the "Add to cart" button.

Modules:
- `Wrappers`: `Option`, which stands for JavaScript's `undefined`.
- `Sequences`: `Array.prototype.filter`, with its order and counting lemmas.
- `Strings`: ASCII `toLowerCase`, `includes`, `split` on one character, and `Number` on a price bound.
- `Products`: the product record.
- `Cart`: the cart store.
- `Home`: the catalogue page.

A cart line keeps the whole record it was added with (`Line.item`), and its count is `Line.quantity`. The record's own `quantity` field inside `Line.item` is the catalogue's stock count; the source's `{ ...product, quantity: 1 }` overwrites that field with the count, and nothing in the model reads the record's copy. A line's ceiling is the `stock` that record carried, captured once when the line was added and never re-read from the catalogue. The product's `type` field is called `kind`, because `type` is a Dafny keyword.

Two invariants are kept apart:
- `CartStore.Valid()`: ids are unique and every quantity is at least 1. Every operation keeps it, whatever it is passed.
- `Cart.WithinStock`: every line has `1 <= quantity <= stock`. This one depends on what the caller passes. The cart view passes a cart line back to `incrementQuantity`, so the argument carries the line's own ceiling and the clamp at `cartContext.jsx:37` applies (`IncrementKeepsCeiling`). The catalogue page passes the raw catalogue record (`Home.jsx:275`). That record has no `stock`, so `item.quantity >= product.stock` compares against `undefined` and is always false. There, only the disabled `+` button (`Home.jsx:281`) keeps the line within its ceiling (`PlusButtonKeepsCeiling`, `DisabledPlusIsTheGuard`).

Three details of the code that the model keeps as written:
- `incrementQuantity` clamps only when its argument carries a `stock` value (`cartContext.jsx:37`); without one the comparison is with `undefined` and never holds.
- `addToCart` takes one record that carries its own `stock` field (`Home.jsx:296`); there is no separate stock argument.
- `decrementQuantity` deletes a line whose quantity is at most 1, not only one equal to 1 (`cartContext.jsx:52`).

## Model

| member | source | states |
|---|---|---|
| Strings.Lower | src/components/Home.jsx:71-73 | lower-casing keeps the length, turns each ASCII capital into its small letter (code point plus 32), leaves no capital and keeps every other character |
| Strings.LowerIgnoresCase | src/components/Home.jsx:71-73 | two strings equal up to the case of their ASCII letters lower-case to the same string |
| Strings.LowerIdempotent | src/components/Home.jsx:71-73 | lower-casing twice is lower-casing once |
| Strings.Includes | src/components/Home.jsx:71-73 | `includes` can hold only when the term is no longer than the text |
| Strings.IncludesIffOccurs | src/components/Home.jsx:71-73 | `includes` holds exactly when the term occurs at some position of the text (both directions) |
| Strings.IncludesEmpty | src/components/Home.jsx:70-73 | the empty term is included in every text |
| Strings.SplitOn | src/components/Home.jsx:96 | `split("-")` gives at least one piece, no piece holds the dash, and joining the pieces with dashes gives the input back |
| Strings.SplitJoin | src/components/Home.jsx:96 | joining dash-free pieces and splitting again gives the pieces back |
| Strings.NumberOf | src/components/Home.jsx:96 | `Number` of a bound is a value exactly when the bound is all digits; the empty bound is 0, and a longer bound is ten times the value of all but its last digit plus that digit |
| Cart.IndexOf | src/context/cartContext.jsx:12 | `find` returns the first line with the id, or none when no line has it |
| Cart.IndexOfUnique | src/context/cartContext.jsx:12 | with unique ids, the line at `k` is the one found for its id |
| Cart.Exhausted | src/context/cartContext.jsx:15 | `quantity >= stock` can hold only when the stock is present (a comparison with `undefined` is false), and then holds exactly when the quantity has reached it; line 37 uses the same test |
| Cart.Bumped | src/context/cartContext.jsx:20-24 | the map of `addToCart` keeps length and records, leaves other products' lines as they were and gives each line with the id one more unit; `AddExisting` and `IncrementWithoutStock` use it |
| Cart.BumpedBelow | src/context/cartContext.jsx:35-44 | the map of `incrementQuantity` keeps length and other products' lines, is the unguarded map when the argument has no stock, and never lifts a line past a stock it was within; `IncrementExisting` gives its exact result |
| Cart.Added | src/context/cartContext.jsx:11-29 | `addToCart`'s updater: an alert leaves the cart as it was; the cart grows by one line exactly when no line has the id; every earlier line keeps its product and position |
| Cart.AddNew | src/context/cartContext.jsx:25-27 | a product not in the cart is appended as one unit after the unchanged earlier lines, with no alert, and the total rises by its price |
| Cart.AddExisting | src/context/cartContext.jsx:13-24 | a product in the cart gains one unit on its own line only, keeping length and order; at the argument's stock the cart is unchanged and the alert fires |
| Cart.Incremented | src/context/cartContext.jsx:34-45 | `incrementQuantity`'s updater keeps the length; each line gains one unit or stays; with no alert, every line with the id gains one |
| Cart.IncrementMissing | src/context/cartContext.jsx:34-45 | incrementing an id not in the cart changes nothing and raises no alert |
| Cart.IncrementExisting | src/context/cartContext.jsx:34-45 | the matching line gains one unit, or at the argument's stock stays unchanged with the alert |
| Cart.IncrementWithoutStock | src/context/cartContext.jsx:37 | an argument without `stock` never triggers the clamp: the matching line always gains one unit, with no alert |
| Cart.IncrementShape | src/context/cartContext.jsx:35-44 | increment keeps the length, the order, every line's product and every line of another product |
| Cart.IncrementSaturates | src/context/cartContext.jsx:34-45 | in any cart with unique ids, `n` increments of a line whose argument carries the line's ceiling raise it to the smaller of quantity plus `n` and the ceiling, and leave every other line as it was |
| Cart.IncrementAtCeiling | src/context/cartContext.jsx:37-40 | in any cart with unique ids, when a line is at the stock the argument carries, a further increment leaves the whole cart unchanged and raises the alert |
| Cart.DecrementStep | src/context/cartContext.jsx:51-57 | one line of the fold yields at most one line; a line of another product is pushed unchanged; it yields none exactly when the line has the id and a quantity of at most 1; a line with the id comes out one unit lower and still at least 1 |
| Cart.Decremented | src/context/cartContext.jsx:49-60 | decrementing never lengthens the cart |
| Cart.DecrementMissing | src/context/cartContext.jsx:49-60 | decrementing an id not in the cart changes nothing |
| Cart.DecrementExisting | src/context/cartContext.jsx:51-54 | the matching line loses one unit when above 1 and is deleted otherwise; the other lines keep their order |
| Cart.DecrementKeepsOthers | src/context/cartContext.jsx:55-57 | whatever the ids, every line of another product is kept, in order |
| Cart.Removed | src/context/cartContext.jsx:64 | `removeFromCart`'s updater never lengthens the cart and leaves no line with the id |
| Cart.RemoveLeavesNone | src/context/cartContext.jsx:63-65 | after a removal no line has the id; the rest are exactly the other lines, as an order-preserving selection |
| Cart.RemoveMissing | src/context/cartContext.jsx:63-65 | removing an id not in the cart changes nothing |
| Cart.RemoveExisting | src/context/cartContext.jsx:63-65 | with unique ids, removal deletes exactly the matching line |
| Cart.RemoveIdempotent | src/context/cartContext.jsx:63-65 | removing twice is removing once |
| Cart.Total | src/context/cartContext.jsx:67-69 | the total of lines with non-negative prices and quantities is non-negative |
| Cart.TotalAppend | src/context/cartContext.jsx:68 | the total of two carts placed end to end is the sum of their totals |
| Cart.TotalBump | src/context/cartContext.jsx:20-24 | one more unit on a line raises the total by that product's price |
| Cart.TotalDecrement | src/context/cartContext.jsx:49-60 | a decrement lowers the total by one unit's price, also when it deletes the line |
| Cart.TotalRemove | src/context/cartContext.jsx:63-69 | removing a line lowers the total by its price times its quantity |
| Cart.AddKeepsValid | src/context/cartContext.jsx:10-30 | `addToCart` keeps ids unique and quantities at least 1 |
| Cart.AddKeepsCeiling | src/context/cartContext.jsx:10-30 | `addToCart` keeps every line within its ceiling when the argument carries a ceiling of at least 1 that matches the product's existing line |
| Cart.IncrementKeepsValid | src/context/cartContext.jsx:33-46 | `incrementQuantity` keeps ids unique and quantities at least 1 |
| Cart.IncrementKeepsCeiling | src/context/cartContext.jsx:37-41 | `incrementQuantity` keeps every line within its ceiling when the argument carries the targeted line's own ceiling |
| Cart.IncrementPastCeiling | src/context/cartContext.jsx:37 | passed a record without `stock`, `incrementQuantity` pushes a line already at its ceiling past it |
| Cart.DecrementKeepsInvariants | src/context/cartContext.jsx:48-61 | `decrementQuantity` keeps ids unique, quantities at least 1 and every line within its ceiling |
| Cart.RemoveKeepsInvariants | src/context/cartContext.jsx:63-65 | `removeFromCart` keeps ids unique, quantities at least 1 and every line within its ceiling |
| Cart.CartStore.TotalPrice | src/context/cartContext.jsx:67-69 | `totalPrice` is the sum over the current lines; with non-negative prices and valid lines it is non-negative |
| Cart.CartStore.constructor | src/context/cartContext.jsx:8 | the cart starts empty and valid |
| Cart.CartStore.AddToCart | src/context/cartContext.jsx:10-30 | the new cart and the alert are those of the `addToCart` updater; validity is kept, and so is the ceiling invariant under the conditions of `AddKeepsCeiling` |
| Cart.CartStore.IncrementQuantity | src/context/cartContext.jsx:33-46 | the new cart and the alert are those of the `incrementQuantity` updater; validity is kept, and so is the ceiling invariant when the argument carries each targeted line's ceiling |
| Cart.CartStore.DecrementQuantity | src/context/cartContext.jsx:48-61 | the loop pushing line by line produces the `decrementQuantity` fold; validity and the ceiling invariant are kept |
| Cart.CartStore.RemoveFromCart | src/context/cartContext.jsx:63-65 | the new cart is the filtered one; validity and the ceiling invariant are kept |
| Home.MatchesSearch | src/components/Home.jsx:70-75 | a term can match only when it is no longer than the name, the colour or the type; `SearchIsSubstring` gives its full meaning |
| Home.MatchesExactly | src/components/Home.jsx:77-93 | an unset filter passes every field, and a set one passes only a field of its length; `ExactMatchIgnoresCase` and `SetFiltersMatchExactly` characterise it |
| Home.MatchesPrice | src/components/Home.jsx:95-101 | an unset price filter passes every price, and a set range with a lower bound rejects a negative price; `PriceBucketsInclusive` characterises the page's buckets |
| Home.Matches | src/components/Home.jsx:69-104 | the filter predicate passes every product when no term and no filter is set |
| Home.FilteredProducts | src/components/Home.jsx:69-104 | `filteredProducts` is never longer than the catalogue, and each product it shows is in the catalogue and passes every filter |
| Home.FilteredExactly | src/components/Home.jsx:69-104 | the visible products are an order-preserving selection from the catalogue, keeping every occurrence of each product that satisfies all the filters and nothing else |
| Home.EmptySearchMatches | src/components/Home.jsx:70-75 | the empty search term matches every product |
| Home.UnfilteredShowsAll | src/components/Home.jsx:69-104 | with no term and no filter set, the whole catalogue is shown in its order |
| Home.SearchIsSubstring | src/components/Home.jsx:70-75 | the search matches exactly when the lower-cased term occurs in the lower-cased name, colour or type |
| Home.SearchIgnoresCase | src/components/Home.jsx:70-75 | two search terms equal up to the case of their letters select the same products |
| Home.ExactMatchIgnoresCase | src/components/Home.jsx:77-93 | a colour, gender or type filter gives the same verdict when the product's field or the setting changes only in case |
| Home.SearchRedFindsRed | src/components/Home.jsx:70-75 | searching "RED" finds a product whose colour is "Red" |
| Home.SetFiltersMatchExactly | src/components/Home.jsx:77-101 | a visible product equals every set colour, gender and type filter ignoring case, and lies within a set price range's bounds |
| Home.Bounds | src/components/Home.jsx:96 | each parsed bound is absent or non-negative; a range without a dash is its own lower bound with no upper bound; a `"lo-hi"` range is characterised by `Home.BoundsOfRange` |
| Home.WithinBounds | src/components/Home.jsx:98-100 | a price passes exactly when it is at least the lower bound and at most the upper one, both ends included, an absent bound excluding nothing |
| Home.BoundsOfRange | src/components/Home.jsx:96 | a range `"lo-hi"` whose two bounds hold no dash parses to `Number(lo)` as the lower and `Number(hi)` as the upper bound |
| Home.PriceRangeBounds | src/components/Home.jsx:11-16 | each price range value parses to its two bounds: 0 and 250, 251 and 450, 451 and 850 |
| Home.PriceBucketsInclusive | src/components/Home.jsx:95-100 | each bucket keeps exactly the prices between its bounds, both ends included |
| Home.PriceBucketEdge | src/components/Home.jsx:95-100 | 250 is in the "0-250" bucket and 251 is not |
| Home.PriceBucketsPartition | src/components/Home.jsx:11-16 | the three buckets never overlap, and together they cover exactly the prices 0 to 850 |
| Home.FilterIdempotent | src/components/Home.jsx:69-104 | filtering the visible products again with the same settings changes nothing |
| Home.MoreFiltersNarrow | src/components/Home.jsx:69-104 | setting more filters never brings a product back: the result is a subsequence of the earlier one, and equals filtering that one |
| Home.StockOf | src/components/Home.jsx:248 | the stock is the record's `quantity` when it has one and 0 when it has none; so it is 0 exactly when the quantity is missing or 0, and never negative for a non-negative quantity |
| Home.CartLineFor | src/components/Home.jsx:249 | the cart line found is in the cart and has the product's id, and none is found exactly when no line has that id |
| Home.IsOutOfStock | src/components/Home.jsx:250-251 | with no cart line a product is out of stock exactly when its stock is 0; with unique ids, exactly when its stock is 0 or its line is at or above the stock |
| Home.AddPayload | src/components/Home.jsx:296 | "Add to cart" passes the product with `stock` set to its stock and every other field unchanged |
| Home.ControlFor | src/components/Home.jsx:265-300 | a product in the cart shows the stepper; otherwise "Add to cart" shows exactly when the stock is not 0 and the "Out of Stock" badge exactly when it is 0 |
| Home.ControlChoice | src/components/Home.jsx:274-281 | with quantities at least 1, the stepper's `+` is disabled exactly when the product is out of stock |
| Home.AddButtonKeepsCeiling | src/components/Home.jsx:294-296 | for a product whose catalogue stock is not negative, "Add to cart" appends one unit carrying that stock as its ceiling, and every line stays within its ceiling |
| Home.PlusButtonKeepsCeiling | src/components/Home.jsx:274-281 | when the line's captured ceiling is the catalogue's stock, an enabled `+` passes a record without `stock`, yet the line gains one unit and stays within its ceiling |
| Home.DisabledPlusIsTheGuard | src/components/Home.jsx:274-281 | when the line's captured ceiling is the catalogue's stock and the line is at it, the store would raise no alert and would exceed the ceiling, so only the disabled button prevents it |
| Home.TeeScenario | src/context/cartContext.jsx:10-69 | a product priced 300 with two in stock, added twice and then incremented: the line holds two, the third request alerts, and the total is 600 |

## Left out

- The catalogue `fetch` and its loading and error states (`Home.jsx:35-54`). They are network I/O and asynchronous; the model takes the catalogue as a parameter.
- All JSX rendering, the radio-button wiring, `handleSearch` and the `focusOn` search-icon state, and navigation to `/cart`. They are presentation only.
- `src/components/shoppingCart.jsx` is not part of this model beyond what it passes to the store. It passes a cart line back to `incrementQuantity`, which is the case `IncrementKeepsCeiling` covers. Its `toFixed(2)` is float formatting.
- `src/App.jsx` is not part of this model: it only composes the router and the provider.
- React mechanics (`useState`, `useMemo`, `createContext`). Updaters are applied at once. `totalPrice` is the function `CartStore.TotalPrice`, recomputed from the lines rather than cached.
- The `alert` dialog itself. `Cart.Incremented` reports whether any line raised it, not how many times. With unique ids it can fire at most once.
- Prices and bounds are integers, not floating-point numbers.
- Lower-casing covers ASCII letters only; Unicode case mapping is not modelled.
- Strings.NumberOf: models `Number` only for the empty string and strings of decimal digits. Every other string is NaN in the model. This includes strings that `Number` would accept, such as surrounding whitespace, signs, fractions, exponents and hexadecimal. The price filter only ever holds the three range values of `PRICE_RANGES`.
- Product images (`imageURL`) are not modelled: they are rendering only.
