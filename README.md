# Dhiraj Chana Shop: cart and pricing core in Dafny

This project models the cart and pricing logic of the Dhiraj Chana Shop
storefront, a single-page snack shop. It covers:

- the cart, a dictionary from `"<itemId>_<weight>"` keys to quantities, and
  the page's four handlers that replace it (`updateQuantity`, `addToCart`,
  `removeFromCart`, `clearCart`);
- the derived item count and order total, with the pack-size price
  multiplier (500g → 0.5, 250g → 0.25, 100g → 0.1, any other label → 1);
- the WhatsApp order message built by the page and by the cart drawer;
- the drawer's list of cart lines, its total, its item count and its −/+
  buttons;
- each menu card's derived view: the item's quantity over all pack sizes,
  the selected size's quantity, the price badge, the Add button and the
  "Includes other sizes" note;
- the product details dialog: the quantity field, its push to the cart and
  its sync back from the cart;
- the catalog `MENU_ITEMS`, the derived `CATEGORIES` list and the search
  and category filter.

Modules, one per source file, plus shared ones:

| module | file | models |
|---|---|---|
| `Wrappers` | wrappers.dfy | `Option` |
| `Sequences` | sequences.dfy | what `Array.prototype.filter` returns: the elements that pass, each as many times as it occurs, in their order |
| `Text` | text.dfy | `split`/`join`, `startsWith`/`includes`, ASCII `toLowerCase`, integer and exact-amount rendering as a template literal prints values below 1e21 |
| `Catalog` | catalog.dfy | `MenuItem`, `MENU_ITEMS`, `find` by id, `CATEGORIES` (constants.ts, types.ts) |
| `Pricing` | pricing.dfy | the pack-size multiplier, modelled once, and the unit and line prices |
| `CartKey` | cart_key.dfy | building a cart key and taking it apart again |
| `CartModel` | cart_model.dfy | the cart value: an insertion-ordered dictionary, and sums over its entries |
| `App` | app.dfy | App.tsx: the updaters, the `ShoppingCart` state, count, total, checkout message, filter |
| `CartDrawer` | cart_drawer.dfy | components/CartDrawer.tsx |
| `MenuCard` | menu.dfy | `MenuCard` in components/Menu.tsx |
| `ProductDetails` | product_modal.dfy | components/ProductDetailsModal.tsx |

Modelling choices:

- **Money.** Amounts are exact integers in paise, hundredths of a rupee.
  The multiplier is a percentage: 100, 50, 25 or 10.
  `Pricing.SourceMultiplier` is the real-valued multiplier the source
  writes. `Pricing.MultiplierPercent` is proved to be exactly 100 times
  it, so every price agrees with the source's `price * priceMultiplier`
  read as an exact number.
- **Cart value.** A cart is an insertion-ordered dictionary:
  - `keys` holds the keys in the order `Object.entries` lists them. Every
    key the handlers build contains `_`, so none is an array index, and
    JavaScript lists such keys in insertion order. `App.SeparatedKeys`
    states this, and it is part of the invariant `App.ShoppingCart` keeps.
  - `quantities` maps each key to its quantity.
- **Cart updaters.** Each `setCart(prev => next)` updater is a pure
  transition function on cart values (`App.AfterUpdateQuantity`, …).
- **Cart state.** `App.ShoppingCart` holds the cart state and applies
  the updaters in place. Each method promises that its new value is the
  transition of the old one.
- **Catalog as input.** Every derived view takes the catalog as a
  parameter, and the page passes `MENU_ITEMS`.

## Model

| member | source | states |
|---|---|---|
| Sequences.FilterStep | App.tsx:108 | if the rest is the filter of the tail, keeping the head when it passes and dropping it otherwise gives the filter of the whole list: only passing elements, each passing element as many times as in the list, in order |
| Text.Split | App.tsx:79 | `split` yields at least one part and no part contains the separator |
| Text.JoinSplit | App.tsx:79 | joining the parts of a split with the separator gives back the string |
| Text.SplitJoin | App.tsx:79 | splitting a join of separator-free parts gives back the parts |
| Text.SplitWithoutSeparator | App.tsx:79 | a string without the separator splits into itself alone |
| Text.SplitAfterSeparator | App.tsx:79 | the first part ends at the first separator |
| Text.SplitHead | App.tsx:79 | the first part is everything before the first separator, and there is a second part exactly when the separator occurs |
| Text.IncludesAt | App.tsx:30-32 | `includes` holds exactly when the term starts at some position |
| Text.IncludesEmpty | App.tsx:30-32 | every string includes the empty term |
| Text.LowerChar | App.tsx:30-32 | upper-case ASCII letters are lowered and every other character is kept |
| Text.ToLower | App.tsx:30-32 | lower-casing keeps the length and lowers each character |
| Text.NatToString | App.tsx:107 | decimal digits with no leading zero |
| Text.NatToStringValue | App.tsx:107 | reading the digits back gives the number |
| Text.NatToStringInjective | App.tsx:107 | different numbers print differently |
| Text.IntToString | App.tsx:107 | a minus sign exactly for negative numbers, then decimal digits with no leading zero that read back as the number's absolute value |
| Text.RenderAmountValue | App.tsx:107 | reading a rendered amount back gives the exact amount in paise, so the rendering loses nothing |
| Text.RenderMagnitudeValue | App.tsx:107 | the same for non-negative amounts, which never start with `-` |
| Text.RenderKalaChana | App.tsx:107 | 3 prints as "3" and 18750 paise as "187.5" |
| Text.RenderAmount | App.tsx:107 | an amount in paise prints as at least one character; `Text.RenderAmountValue` reads it back exactly |
| Text.Join | App.tsx:112 | `join`; `Text.JoinSplit`, `Text.SplitJoin` and `Text.JoinIncludesPart` state what it keeps |
| Text.JoinIncludesPart | App.tsx:112 | every part of a join occurs in the joined string |
| Text.Pieces | App.tsx:107 | a string built as head, middle and tail starts with the head, ends with the tail, and has exactly the middle between them |
| Text.StartsWith | components/Menu.tsx:25 | `startsWith`; `CartKey.PrefixMatchesParsedId` states what it selects |
| Text.Includes | App.tsx:30-32 | `includes`; `Text.IncludesAt` states it holds exactly when the term occurs at some position |
| Catalog.CategoryName | types.ts:5 | every category has a non-empty name |
| Catalog.FindById | App.tsx:80 | `find` returns the first item of the list with that id, and nothing exactly when no item has that id |
| Catalog.FindListed | constants.ts:9-56 | with distinct ids, looking up an item's id finds that item |
| Catalog.Dedup | constants.ts:58 | `Array.from(new Set(...))` keeps every element and no duplicate |
| Catalog.CategoriesOf | constants.ts:58 | the `map` to categories keeps length and order |
| Catalog.DedupFirstAppearance | constants.ts:58 | the de-duplicated list is in order of first appearance |
| Catalog.CategoriesComplete | constants.ts:58 | `CATEGORIES` holds every item's category, only items' categories, and no duplicate |
| Catalog.CatalogFirstOccurrences | constants.ts:11-49 | Legumes, Snacks and Specials first appear at positions 0, 10 and 29 |
| Catalog.CategoriesInOrder | constants.ts:58 | `CATEGORIES` is exactly Legumes, Snacks, Specials |
| Catalog.IncreasingIdsDistinct | constants.ts:9-56 | a list whose ids increase numerically has distinct ids |
| Catalog.CatalogIdsIncreasing | constants.ts:9-56 | each catalog id is numerically below the next one |
| Catalog.CatalogIdsDistinct | constants.ts:9-56 | the catalog's ids are pairwise distinct, so lookup by any item's id finds that item |
| Catalog.CatalogIdsNumeric | constants.ts:11-55 | every catalog id is a string of digits, so none contains `_` |
| Catalog.CatalogPrices | constants.ts:11-55 | every price is positive and a multiple of 10 |
| Catalog.KalaChanaListed | constants.ts:12 | Kala Chana, priced at 250, is the second catalog item |
| Pricing.SourceMultiplier | App.tsx:83-86 | the multiplier as the source writes it, an exact real; `Pricing.MultiplierPercent` and `Pricing.PackSizeTable` state its values |
| Pricing.MultiplierPercent | App.tsx:83-86 | the percentage is exactly 100 times the source's multiplier, between 1 and 100 |
| Pricing.PackSizeTable | App.tsx:83-86 | 500g, 250g and 100g give 50, 25 and 10, and every other label (1kg included) gives 100 |
| Pricing.UnitPrice | App.tsx:105 | the unit price in paise is exactly price × multiplier × 100, never more than the 1 kg price |
| Pricing.LineSubtotal | App.tsx:88 | the line subtotal in paise is exactly price × multiplier × quantity × 100 |
| Pricing.UnitPriceOrder | App.tsx:83-86 | smaller packs never cost more, and a price that is a multiple of 10 gives a whole-rupee 100g price |
| Pricing.CatalogUnitPrices | constants.ts:11-55 | every catalog item's 100g price is whole rupees and its 250g price is positive; Kala Chana's 250g price is 62.5 rupees |
| CartKey.Key | App.tsx:41 | the key is the id, one `_` and the weight, so every built key contains `_` |
| CartKey.WeightText | App.tsx:107 | the parsed weight as a template literal prints it, "undefined" when the key has no `_`; `CartDrawer.DrawerEntryOfKey` states it gives back a built key's weight |
| CartKey.ParseKey | App.tsx:79 | the parsed id has no `_`, and the weight is present exactly when the key contains `_` |
| CartKey.KeyRoundTrip | App.tsx:41 | splitting a built key gives back the id and the weight when neither contains `_` |
| CartKey.ParsedItemId | App.tsx:79 | the id comes back whatever the weight, as long as the id has no `_` |
| CartKey.KeyInjective | App.tsx:41 | different (id, weight) pairs without `_` build different keys |
| CartKey.PrefixMatchesParsedId | components/Menu.tsx:25 | a key starts with `id + "_"` exactly when its parsed id is `id` |
| CartKey.PrefixExample | components/Menu.tsx:25 | a key of item 12 does not start with item 1's prefix, and one of item 1 does |
| CartModel.QuantityOr0 | App.tsx:56 | `prev[key]` defaulted to 0: the stored quantity, or 0 for an absent key |
| CartModel.Entries | App.tsx:78 | `Object.entries` lists every key once, in order, with its quantity |
| CartModel.RemoveKey | App.tsx:44 | dropping a key from the order keeps exactly the other keys |
| CartModel.Put | App.tsx:47 | `{ ...prev, [key]: v }` sets that key and keeps the others; a new key goes last |
| CartModel.Delete | App.tsx:44 | `const { [key]: _, ...rest } = prev` drops that key and keeps the others; an absent key leaves the cart as it is |
| CartModel.SumIgnoresOrder | App.tsx:75 | a sum over the entries depends only on the keys and quantities, not on their order |
| CartModel.SumAfterPut | App.tsx:75 | setting a key replaces its term in a sum over the entries |
| CartModel.SumAfterDelete | App.tsx:75 | deleting a key takes its term out of a sum over the entries |
| CartModel.SumPositive | App.tsx:75 | with no negative term, a sum over the entries is non-negative, and positive exactly when some term is |
| App.AfterUpdateQuantity | App.tsx:40-49 | 0 or less deletes the key, more sets it to exactly that; every other key is unchanged; lines of at least 1 stay so |
| App.AfterAddToCart | App.tsx:52-58 | the line is present and one more than before (an absent line counts as 0); every other key is unchanged; lines of at least 1 stay so |
| App.AfterRemoveFromCart | App.tsx:61-71 | a line at 1 or less is deleted, a higher one lowered by one; every other key is unchanged; lines of at least 1 stay so |
| App.RemoveAbsent | App.tsx:61-71 | removing a line that is not in the cart leaves the cart exactly as it was |
| App.UpdateQuantityIdempotent | App.tsx:40-49 | the same `updateQuantity` twice equals it once |
| App.AddTimesQuantity | App.tsx:52-58 | `n` adds raise the line by `n` and keep every line at least 1 |
| App.RemoveTimesQuantity | App.tsx:61-71 | `m` removes lower the line by `m`, stopping at 0, and keep every line at least 1 |
| App.AddsThenRemoves | App.tsx:52-71 | `n` adds then `m` removes leave the line at max(0, q + n − m), absent exactly at 0 |
| App.ShoppingCart.constructor | App.tsx:12 | the cart starts empty |
| App.ShoppingCart.UpdateQuantity | App.tsx:40-49 | the new cart is the `updateQuantity` transition of the old one, and lines stay at least 1 |
| App.ShoppingCart.AddToCart | App.tsx:52-58 | the new cart is the `addToCart` transition of the old one (weight defaults to 1kg), and lines stay at least 1 |
| App.ShoppingCart.RemoveFromCart | App.tsx:61-71 | the new cart is the `removeFromCart` transition of the old one (weight defaults to 1kg), and lines stay at least 1 |
| App.ShoppingCart.ClearCart | App.tsx:73-75 | the cart is empty and its item count is 0 |
| App.CartItemCount | App.tsx:75 | the sum of the stored quantities; `App.CartItemCountZero` and the `App.CountAfter…` lemmas state its properties |
| App.CartItemCountZero | App.tsx:75 | for lines of at least 1 the count is never negative, and it is 0 exactly for the empty cart |
| App.CountAfterUpdate | App.tsx:75 | `updateQuantity` replaces the line's share of the count by the new quantity (0 when it deletes) |
| App.CountAfterPut | App.tsx:75 | setting a line swaps its old quantity in the count for the new one |
| App.CountAfterAdd | App.tsx:75 | `addToCart` raises the count by one |
| App.CountAfterRemove | App.tsx:75 | `removeFromCart` lowers the count by one exactly when the line is present |
| App.LineTotal | App.tsx:79-88 | one entry's share of the total, 0 for an id not in the catalog; `App.LineTotalOfKey` and `App.TotalIgnoresUnknown` state it |
| App.CalculateTotal | App.tsx:77-90 | the sum of the line totals; the `App.TotalAfter…` lemmas, `App.TotalNonNegative` and `CartDrawer.DrawerTotalAgrees` state its properties |
| App.LineTotalOfKey | App.tsx:79-88 | the share of a built key is its item's price × multiplier × quantity |
| App.CatalogItem | App.tsx:80 | every catalog item is found by its id, and its id contains no `_` |
| App.TotalAfterAdd | App.tsx:77-90 | `addToCart` raises the total by exactly the pack's unit price |
| App.TotalAfterPutFound | App.tsx:77-90 | setting a catalog item's line to `v` swaps its old subtotal in the total for the subtotal of `v` packs |
| App.TotalAfterAddFound | App.tsx:77-90 | the same for any catalog that lists the item |
| App.TotalAfterUpdate | App.tsx:77-90 | `updateQuantity` replaces the line's share of the total by the new quantity's |
| App.TotalIgnoresUnknown | App.tsx:81 | a key whose id is not in the catalog adds nothing to the total, whatever its quantity |
| App.TotalNonNegative | App.tsx:77-90 | for lines of at least 1 the total is never negative |
| App.OrderMessage | App.tsx:112 | the message is the greeting and two `%0A`, then exactly the lines joined by `%0A`, then two `%0A`, the total and the closing |
| App.OrderMessageHasLines | App.tsx:108-112 | every order line occurs in the message |
| App.OrderMessageShowsTotal | App.tsx:112 | the amount after "Total: ₹" reads back as exactly the total in paise |
| App.OrderLine | App.tsx:107 | the line is `- name (weight) x `, then exactly the quantity's digits, then ` (₹subtotal)` |
| App.OrderLineReadsBack | App.tsx:107 | the quantity and the line subtotal read back from the line exactly |
| App.EntryLine | App.tsx:95-107 | an entry's line is empty exactly when its id is not in the catalog; `App.EntryLineOfKey` states the line's contents otherwise |
| App.EntryLineOfKey | App.tsx:95-107 | the line of a built key is the order line of the item with that id, for that pack size and quantity, and empty when no item has the id |
| App.EntryLines | App.tsx:95-107 | one line per entry, the i-th being the i-th entry's line |
| App.NonEmptyLines | App.tsx:108 | keeps exactly the non-empty lines, each as many times as it occurs, in their order, and is empty exactly when every line is |
| App.FilterKeepsRepeats | App.tsx:108 | keeping one copy of two equal non-empty lines is not what `filter(Boolean)` returns |
| App.ResolvedEntries | App.tsx:108 | keeps exactly the entries whose id resolves, each as many times as it occurs, in cart order, and is empty exactly when none does |
| App.MessageLinesResolved | App.tsx:95-108 | dropping empty lines gives exactly the lines of the resolvable entries, in cart order |
| App.CheckoutMessage | App.tsx:94-112 | no message exactly when no key's id is in the catalog; otherwise the message starts with the greeting |
| App.KalaChanaExample | constants.ts:12 | three 250g Kala Chana packs total 18750 paise, and the line reads `- Kala Chana (250g) x 3 (₹187.5)` |
| App.KalaChanaTotal | App.tsx:77-90 | three 250g packs of an item priced at 250 total 18750 paise |
| App.KalaChanaLine | App.tsx:107 | the Kala Chana order line, rendered |
| App.MatchesSearch | App.tsx:30-32 | the lower-cased term occurs in the lower-cased name, category or non-empty description; `App.FilteredItems` states the filter it drives |
| App.MatchesCategory | App.tsx:34 | "All" or the item's own category; `App.FilteredItems` states the filter it drives |
| App.FilteredItems | App.tsx:29-37 | exactly the items matching search and category, each as many times as it occurs, in catalog order, all of the chosen category unless it is "All" |
| App.FilterShowsAll | App.tsx:29-37 | an empty search under "All" shows the whole list |
| CartDrawer.ToDrawerEntry | components/CartDrawer.tsx:22-37 | keeps the key and quantity; the item is present exactly when the id resolves; the multiplier is the source's |
| CartDrawer.MapEntries | components/CartDrawer.tsx:22-37 | one drawer entry per cart entry |
| CartDrawer.KeepEntries | components/CartDrawer.tsx:38 | keeps exactly the entries with an item and a positive quantity, each as many times as it occurs, in their order, and is empty exactly when none has both |
| CartDrawer.CartEntries | components/CartDrawer.tsx:22-38 | the listed lines; `CartDrawer.CartEntriesExactly` states which cart entries are listed |
| CartDrawer.KeepIsResolved | components/CartDrawer.tsx:22-38 | for positive lines, the kept list is the mapped list of the resolvable entries |
| CartDrawer.CartEntriesExactly | components/CartDrawer.tsx:22-38 | a cart entry is listed exactly when its id resolves and its quantity is positive |
| CartDrawer.DrawerTotal | components/CartDrawer.tsx:40-42 | price × multiplier × quantity summed over the listed lines; `CartDrawer.DrawerTotalAgrees` states it is the page's total |
| CartDrawer.TotalItemsCount | components/CartDrawer.tsx:54 | with every listed line at least 1, the count is at least the number of lines; `CartDrawer.DrawerCountAgrees` states it is the page's count |
| CartDrawer.DrawerTotalOfResolved | components/CartDrawer.tsx:40-42 | the drawer total over resolvable entries is the page's sum of line totals |
| CartDrawer.DrawerTotalAgrees | components/CartDrawer.tsx:40-42 | for lines of at least 1 the drawer's total equals the page's `calculateTotal` |
| CartDrawer.CountOfAllResolved | components/CartDrawer.tsx:54 | over resolvable entries the drawer count is the sum of quantities |
| CartDrawer.DrawerCountAgrees | components/CartDrawer.tsx:54 | when every id resolves, the drawer's count equals the page's `cartItemCount` |
| CartDrawer.DrawerLines | components/CartDrawer.tsx:45-48 | one message line per listed entry, the i-th being the order line of that entry's item, weight and quantity |
| CartDrawer.DrawerMessage | components/CartDrawer.tsx:44-50 | the order template over the drawer's lines and total; `CartDrawer.DrawerMessageAgrees` states it is the page's message |
| CartDrawer.ShowFooter | components/CartDrawer.tsx:128 | the footer shows when a line is listed; `CartDrawer.DrawerMessageAgrees` states that is exactly when the page has a message |
| CartDrawer.DrawerLinesArePageLines | components/CartDrawer.tsx:45-48 | for lines of at least 1, the drawer's message lines are the page's non-empty lines, in the same order |
| CartDrawer.DrawerMessageAgrees | components/CartDrawer.tsx:44-50 | the footer shows exactly when the page would send a message, and the drawer's message is the page's |
| CartDrawer.DrawerEntryOfKey | components/CartDrawer.tsx:22-37 | the drawer entry of a built key carries its item, weight and quantity |
| CartDrawer.MinusClick | components/CartDrawer.tsx:106 | `updateQuantity` with one less; `CartDrawer.MinusIsRemove` states it is `removeFromCart` |
| CartDrawer.PlusClick | components/CartDrawer.tsx:113 | `updateQuantity` with one more; `CartDrawer.PlusIsAdd` states it is `addToCart` |
| CartDrawer.MinusIsRemove | components/CartDrawer.tsx:106 | − on a listed line is `removeFromCart` on it, deleting the line at 1 |
| CartDrawer.PlusIsAdd | components/CartDrawer.tsx:113 | + on a listed line is `addToCart` on it |
| CartDrawer.ButtonsMatchCard | components/CartDrawer.tsx:105-113 | for any catalog item in the cart, the drawer's −/+ equal the card's −/+ |
| MenuCard.EntriesWithPrefix | components/Menu.tsx:24-25 | keeps exactly the entries whose key starts with the prefix, each as many times as it occurs, in cart order, and is empty exactly when none does |
| MenuCard.ItemTotalQty | components/Menu.tsx:23-27 | the item's quantity over all pack sizes; `MenuCard.PrefixSum`, `MenuCard.ItemTotalSplit` and `MenuCard.TotalAtLeastCurrent` state it |
| MenuCard.CurrentVariantQty | components/Menu.tsx:30 | the selected size's quantity or 0; `MenuCard.AddButtonIff` states when it is 0 |
| MenuCard.ShowAddButton | components/Menu.tsx:80 | Add shows at quantity 0; `MenuCard.AddButtonIff` states that is exactly when the size is not in the cart |
| MenuCard.ShowOtherSizes | components/Menu.tsx:107 | the note shows when the item's total is positive and differs from the selected size's; `MenuCard.OtherSizesIff` states when that is |
| MenuCard.PrefixSum | components/Menu.tsx:23-27 | `getItemTotalQty` is the sum of the prefix-matching lines |
| MenuCard.OptionsAgreeWithTable | components/Menu.tsx:69-72 | the four option labels show the unit prices of the pack-size table |
| MenuCard.CardPrice | components/Menu.tsx:32-37 | the badge shows the selected option's price, and the full price for any other label |
| MenuCard.ItemTotalSplit | components/Menu.tsx:23-30 | the item's total is the selected size's quantity plus the other prefix-matching lines |
| MenuCard.TotalAtLeastCurrent | components/Menu.tsx:23-30 | with no negative line, the item's total is at least the selected size's quantity |
| MenuCard.OtherSizesIff | components/Menu.tsx:107 | for lines of at least 1, the note shows exactly when another key of the item is in the cart |
| MenuCard.PrefixIsParsedId | components/Menu.tsx:25 | the prefix counts exactly the lines whose parsed id is the item's |
| MenuCard.AddButtonIff | components/Menu.tsx:80 | for lines of at least 1, Add shows exactly when the selected size is not in the cart |
| MenuCard.PlusOnCard | components/Menu.tsx:99-100 | + raises the selected size and the item's total by one and hides Add |
| MenuCard.MinusOnCard | components/Menu.tsx:90-91 | − lowers both by one, bringing Add back exactly from 1 |
| ProductDetails.QtyChangeTarget | components/ProductDetailsModal.tsx:40-49 | a parsed number of at least 0 is pushed as is, an empty field pushes 0, anything else pushes nothing |
| ProductDetails.PushThenSync | components/ProductDetailsModal.tsx:24-29 | after pushing `n` the sync reads back `n`; at 0 the line is gone |
| ProductDetails.PackButtonsMatchTable | components/ProductDetailsModal.tsx:129 | the four buttons are the table's labels from the smallest pack to 1kg, with unit prices never falling |
| ProductDetails.Subtotal | components/ProductDetailsModal.tsx:171-175 | unit price × field; `ProductDetails.SubtotalIsLineShare` states it is the line's share of the total |
| ProductDetails.ShowSubtotal | components/ProductDetailsModal.tsx:171 | the row shows for a positive field; `ProductDetails.SubtotalShownIff` states when that is |
| ProductDetails.SubtotalShownIff | components/ProductDetailsModal.tsx:171 | with the field in step with the cart, the subtotal row shows exactly when the selected size is in the cart |
| ProductDetails.SubtotalIsLineShare | components/ProductDetailsModal.tsx:171-175 | with the field in step, the subtotal is that line's share of the page total |
| ProductDetails.SubtotalIsLineShareFound | components/ProductDetailsModal.tsx:171-175 | the same for any catalog that lists the item |
| ProductDetails.DetailsModal.constructor | components/ProductDetailsModal.tsx:20-21 | closed, 1kg selected, field at 0 |
| ProductDetails.DetailsModal.Open | components/ProductDetailsModal.tsx:24-36 | opening from closed resets the pack size to 1kg; the field is synced with the cart |
| ProductDetails.DetailsModal.Close | App.tsx:475 | closing keeps the pack size and the field, and the dialog's invariant |
| ProductDetails.DetailsModal.SyncFromCart | components/ProductDetailsModal.tsx:24-29 | the field becomes the cart's quantity for the selected size, or 0 |
| ProductDetails.DetailsModal.SelectWeight | components/ProductDetailsModal.tsx:129-132 | the new pack size is selected and the field synced to it |
| ProductDetails.DetailsModal.HandleQtyChange | components/ProductDetailsModal.tsx:40-49 | a valid number or an empty field sets the field and the cart line together; anything else changes neither |
| ProductDetails.DetailsModal.Increment | components/ProductDetailsModal.tsx:51-55 | the field goes up by one and the cart line follows |
| ProductDetails.DetailsModal.Decrement | components/ProductDetailsModal.tsx:57-63 | nothing at 0; otherwise down by one with the cart following, deleting the line from 1 |

## Left out

- Floating-point arithmetic. Amounts are exact in paise, and rendering
  prints the exact decimal value. JavaScript's binary arithmetic can print
  a nearby value with extra digits instead; that rounding is not modelled.
- Number width. Quantities and amounts are unbounded integers. JavaScript
  numbers lose integer precision above 2^53 and print in exponent form
  from 1e21 on (a quantity of 10^21 typed into the dialog shows as
  `x 1e+21`); `Text.IntToString` and `Text.RenderAmount` print every
  digit instead.
- `parseInt`. The quantity dialog takes its result as an input, with
  `None` standing for `NaN`.
- Case folding is ASCII-only. `toLowerCase` on non-ASCII letters is not
  modelled.
- Markup, styling, scroll handling, images and the review and AI chef
  widgets (components/Reviews.tsx, components/AIChef.tsx,
  services/geminiService.ts). They are not part of this model.
- `window.open` and the `wa.me` link. Only the message string is modelled.
- React scheduling. Each handler is one atomic transition. The dialog's
  effects are explicit methods (`SyncFromCart`, the sync inside `Open` and
  `SelectWeight`), run after the change that triggers them.
- `CartDrawer.DrawerTotal` requires every listed entry to have an item.
  The source asserts this with `!`, and the filter before it guarantees it.
- `App.CheckoutMessage`: its own contract says when there is a message and
  how it starts. The full shape is the shared `OrderMessage` template.
  `App.MessageLinesResolved` and `CartDrawer.DrawerMessageAgrees` relate
  it to the lines and to the drawer's message, and `App.EntryLines` with
  `App.EntryLineOfKey` give each line's contents.
- The five copies of the multiplier chain are identical up to the name
  of the weight variable. The model writes the chain once
  (`Pricing.SourceMultiplier`). The menu
  card's option labels use their own constants (`MenuCard.OPTION_MULTIPLIERS`),
  proved to agree with the table.
- Amounts are exact: half-rupee amounts such as 62.5 are kept, and the
  line break in the message is the literal three-character `%0A` the
  source writes.
