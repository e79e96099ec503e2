/**
 * The storefront page (App.tsx): the cart state and its four handlers, the
 * derived item count and total, the WhatsApp order message, and the
 * catalog filter. Each `setCart(prev => next)` updater is a pure
 * transition on cart values; the `ShoppingCart` class holds the state and
 * applies them in place.
 */
module App {
  import opened Wrappers
  import opened Text
  import opened Catalog
  import opened Pricing
  import opened CartKey
  import opened CartModel
  import opened Sequences

  // ---------------------------------------------------------------------
  // The cart updaters
  // ---------------------------------------------------------------------

  /** `updateQuantity(itemId, weight, newQuantity)`: a quantity of 0 or
      less deletes the line, any other sets it outright; no other line
      changes. */
  function AfterUpdateQuantity(c: CartValue, itemId: string, weight: string, newQuantity: int): (r: CartValue)
    requires WellFormed(c)
    ensures WellFormed(r)
    ensures newQuantity <= 0 ==> Key(itemId, weight) !in r.quantities
    ensures newQuantity > 0 ==> Key(itemId, weight) in r.quantities && r.quantities[Key(itemId, weight)] == newQuantity
    ensures r.quantities - {Key(itemId, weight)} == c.quantities - {Key(itemId, weight)}
    ensures AllPositive(c) ==> AllPositive(r)
  {
    var key := Key(itemId, weight);
    if newQuantity <= 0 then Delete(c, key) else Put(c, key, newQuantity)
  }

  /** `addToCart(item, weight)`: the line goes up by one, an absent line
      counting as 0; no other line changes. */
  function AfterAddToCart(c: CartValue, item: MenuItem, weight: string): (r: CartValue)
    requires WellFormed(c)
    ensures WellFormed(r)
    ensures Key(item.id, weight) in r.quantities
    ensures QuantityOr0(r, Key(item.id, weight)) == QuantityOr0(c, Key(item.id, weight)) + 1
    ensures r.quantities - {Key(item.id, weight)} == c.quantities - {Key(item.id, weight)}
    ensures AllPositive(c) ==> AllPositive(r)
  {
    var key := Key(item.id, weight);
    Put(c, key, QuantityOr0(c, key) + 1)
  }

  /** `removeFromCart(itemId, weight)`: a line at 1 or less (or absent) is
      deleted, any other goes down by one; no other line changes. */
  function AfterRemoveFromCart(c: CartValue, itemId: string, weight: string): (r: CartValue)
    requires WellFormed(c)
    ensures WellFormed(r)
    ensures QuantityOr0(c, Key(itemId, weight)) <= 1 ==> Key(itemId, weight) !in r.quantities
    ensures QuantityOr0(c, Key(itemId, weight)) > 1 ==>
      Key(itemId, weight) in r.quantities && r.quantities[Key(itemId, weight)] == QuantityOr0(c, Key(itemId, weight)) - 1
    ensures r.quantities - {Key(itemId, weight)} == c.quantities - {Key(itemId, weight)}
    ensures AllPositive(c) ==> AllPositive(r)
  {
    var key := Key(itemId, weight);
    var current := QuantityOr0(c, key);
    if current <= 1 then Delete(c, key) else Put(c, key, current - 1)
  }

  /** Removing a line that is not in the cart leaves the cart exactly as
      it was, key order included. */
  lemma RemoveAbsent(c: CartValue, itemId: string, weight: string)
    requires WellFormed(c)
    requires Key(itemId, weight) !in c.quantities
    ensures AfterRemoveFromCart(c, itemId, weight) == c
  {
  }

  /** Setting the same quantity twice is the same as setting it once. */
  lemma UpdateQuantityIdempotent(c: CartValue, itemId: string, weight: string, q: int)
    requires WellFormed(c)
    ensures AfterUpdateQuantity(AfterUpdateQuantity(c, itemId, weight, q), itemId, weight, q)
         == AfterUpdateQuantity(c, itemId, weight, q)
  {
    var once := AfterUpdateQuantity(c, itemId, weight, q);
    var key := Key(itemId, weight);
    if q > 0 {
      assert once.quantities[key := q] == once.quantities;
    }
  }

  /** `n` calls of `addToCart` on one line. */
  function AddTimes(c: CartValue, item: MenuItem, weight: string, n: nat): (r: CartValue)
    requires WellFormed(c)
    ensures WellFormed(r)
    decreases n
  {
    if n == 0 then c else AfterAddToCart(AddTimes(c, item, weight, n - 1), item, weight)
  }

  /** `m` calls of `removeFromCart` on one line. */
  function RemoveTimes(c: CartValue, itemId: string, weight: string, m: nat): (r: CartValue)
    requires WellFormed(c)
    ensures WellFormed(r)
    decreases m
  {
    if m == 0 then c else AfterRemoveFromCart(RemoveTimes(c, itemId, weight, m - 1), itemId, weight)
  }

  lemma {:induction false} AddTimesQuantity(c: CartValue, item: MenuItem, weight: string, n: nat)
    requires WellFormed(c) && AllPositive(c)
    ensures AllPositive(AddTimes(c, item, weight, n))
    ensures QuantityOr0(AddTimes(c, item, weight, n), Key(item.id, weight)) == QuantityOr0(c, Key(item.id, weight)) + n
    decreases n
  {
    if n > 0 {
      var prev := AddTimes(c, item, weight, n - 1);
      AddTimesQuantity(c, item, weight, n - 1);
      AddStep(prev, item, weight);
      assert AddTimes(c, item, weight, n) == AfterAddToCart(prev, item, weight);
    }
  }

  /** One `addToCart` on a cart of lines at least 1 takes the line to
      q + 1. */
  lemma AddStep(c: CartValue, item: MenuItem, weight: string)
    requires WellFormed(c) && AllPositive(c)
    ensures var r := AfterAddToCart(c, item, weight);
      AllPositive(r) && QuantityOr0(r, Key(item.id, weight)) == QuantityOr0(c, Key(item.id, weight)) + 1
  {
  }

  lemma {:induction false} RemoveTimesQuantity(c: CartValue, itemId: string, weight: string, m: nat)
    requires WellFormed(c) && AllPositive(c)
    ensures AllPositive(RemoveTimes(c, itemId, weight, m))
    ensures var q := QuantityOr0(c, Key(itemId, weight));
      QuantityOr0(RemoveTimes(c, itemId, weight, m), Key(itemId, weight)) == if q >= m then q - m else 0
    decreases m
  {
    if m > 0 {
      RemoveTimesQuantity(c, itemId, weight, m - 1);
      var prev := RemoveTimes(c, itemId, weight, m - 1);
      RemoveStep(prev, itemId, weight);
      var key := Key(itemId, weight);
      FloorStep(QuantityOr0(c, key), m);
    }
  }

  /** Taking one more step down from max(0, q - (m - 1)) gives
      max(0, q - m). */
  lemma FloorStep(q: int, m: nat)
    requires m > 0
    ensures var p := if q >= m - 1 then q - (m - 1) else 0;
      (if p >= 1 then p - 1 else 0) == (if q >= m then q - m else 0)
  {
  }

  /** One `removeFromCart` on a cart of lines at least 1 takes the line
      to max(0, q - 1). */
  lemma RemoveStep(c: CartValue, itemId: string, weight: string)
    requires WellFormed(c) && AllPositive(c)
    ensures var q := QuantityOr0(c, Key(itemId, weight));
      var r := AfterRemoveFromCart(c, itemId, weight);
      AllPositive(r) && QuantityOr0(r, Key(itemId, weight)) == if q >= 1 then q - 1 else 0
  {
  }

  /** Starting from any cart whose lines are all at least 1, `n` adds and
      then `m` removes on one line leave it at max(0, q + n - m), where
      `q` is where it started, and the line is absent exactly when that
      is 0. */
  lemma AddsThenRemoves(c: CartValue, item: MenuItem, weight: string, n: nat, m: nat)
    requires WellFormed(c) && AllPositive(c)
    ensures var q := QuantityOr0(c, Key(item.id, weight));
      var r := RemoveTimes(AddTimes(c, item, weight, n), item.id, weight, m);
      && QuantityOr0(r, Key(item.id, weight)) == (if q + n >= m then q + n - m else 0)
      && (Key(item.id, weight) in r.quantities <==> q + n > m)
  {
    AddTimesQuantity(c, item, weight, n);
    var added := AddTimes(c, item, weight, n);
    RemoveTimesQuantity(added, item.id, weight, m);
  }

  // ---------------------------------------------------------------------
  // The cart state
  // ---------------------------------------------------------------------

  /** Every key holds `_`, as every key the handlers build does. A key
      with `_` is not an array index, so `Object.entries` lists the keys
      in insertion order, which is the order of `keys`. */
  ghost predicate SeparatedKeys(c: CartValue)
  {
    forall k :: k in c.keys ==> '_' in k
  }

  /** The page's `cart` state. Its value is always well formed and never
      holds a line below 1. */
  class ShoppingCart {
    var keys: seq<string>
    var quantities: map<string, int>

    function Value(): CartValue
      reads this
    {
      CartValue(keys, quantities)
    }

    ghost predicate Valid()
      reads this
    {
      WellFormed(Value()) && AllPositive(Value()) && SeparatedKeys(Value())
    }

    /** `useState({})`. */
    constructor ()
      ensures Valid()
      ensures Value() == EMPTY
    {
      keys := [];
      quantities := map[];
    }

    method UpdateQuantity(itemId: string, weight: string, newQuantity: int)
      requires Valid()
      modifies this
      ensures Valid()
      ensures Value() == AfterUpdateQuantity(old(Value()), itemId, weight, newQuantity)
    {
      var key := Key(itemId, weight);
      if newQuantity <= 0 {
        if key in quantities {
          RemoveKeyDistinct(keys, key);
          keys := RemoveKey(keys, key);
          quantities := quantities - {key};
        }
      } else {
        if key !in quantities {
          keys := keys + [key];
        }
        quantities := quantities[key := newQuantity];
      }
    }

    method AddToCart(item: MenuItem, weight: string := "1kg")
      requires Valid()
      modifies this
      ensures Valid()
      ensures Value() == AfterAddToCart(old(Value()), item, weight)
    {
      var key := Key(item.id, weight);
      var current := if key in quantities then quantities[key] else 0;
      if key !in quantities {
        keys := keys + [key];
      }
      quantities := quantities[key := current + 1];
    }

    method RemoveFromCart(itemId: string, weight: string := "1kg")
      requires Valid()
      modifies this
      ensures Valid()
      ensures Value() == AfterRemoveFromCart(old(Value()), itemId, weight)
    {
      var key := Key(itemId, weight);
      var current := if key in quantities then quantities[key] else 0;
      if current <= 1 {
        if key in quantities {
          RemoveKeyDistinct(keys, key);
          keys := RemoveKey(keys, key);
          quantities := quantities - {key};
        }
      } else {
        quantities := quantities[key := current - 1];
      }
    }

    method ClearCart()
      modifies this
      ensures Valid()
      ensures Value() == EMPTY
      ensures CartItemCount(Value()) == 0
    {
      keys := [];
      quantities := map[];
    }
  }

  // ---------------------------------------------------------------------
  // Item count
  // ---------------------------------------------------------------------

  function Qty(e: Entry): int
  {
    e.qty
  }

  /** `cartItemCount`: the sum of all stored quantities. */
  function CartItemCount(c: CartValue): int
  {
    Sum(Entries(c), Qty)
  }

  /** For a cart of lines at least 1 the count is never negative, and it
      is 0 (hiding the floating checkout bar) exactly for the empty cart. */
  lemma CartItemCountZero(c: CartValue)
    requires WellFormed(c) && AllPositive(c)
    ensures CartItemCount(c) >= 0
    ensures CartItemCount(c) == 0 <==> c.quantities == map[]
  {
    SumPositive(c, Qty);
    if c.quantities != map[] {
      var k :| k in c.quantities;
      assert Qty(Entry(k, c.quantities[k])) > 0;
    }
  }

  /** `updateQuantity` replaces the line's share of the count: the old
      quantity goes out and the new one (0 when it deletes) comes in. */
  lemma CountAfterUpdate(c: CartValue, itemId: string, weight: string, q: int)
    requires WellFormed(c)
    ensures CartItemCount(AfterUpdateQuantity(c, itemId, weight, q))
         == CartItemCount(c) - QuantityOr0(c, Key(itemId, weight)) + (if q > 0 then q else 0)
  {
    if q > 0 {
      SumAfterPut(c, Key(itemId, weight), q, Qty);
    } else {
      SumAfterDelete(c, Key(itemId, weight), Qty);
    }
  }

  /** `addToCart` raises the count by exactly one. */
  lemma CountAfterAdd(c: CartValue, item: MenuItem, weight: string)
    requires WellFormed(c)
    ensures CartItemCount(AfterAddToCart(c, item, weight)) == CartItemCount(c) + 1
  {
    var key := Key(item.id, weight);
    var q := QuantityOr0(c, key);
    calc {
      CartItemCount(AfterAddToCart(c, item, weight));
      CartItemCount(Put(c, key, q + 1));
      { CountAfterPut(c, key, q + 1); }
      CartItemCount(c) + 1;
    }
  }

  /** Storing `v` under `key` replaces the key's share of the count. */
  lemma CountAfterPut(c: CartValue, key: string, v: int)
    requires WellFormed(c)
    ensures CartItemCount(Put(c, key, v)) == CartItemCount(c) - QuantityOr0(c, key) + v
  {
    SumAfterPut(c, key, v, Qty);
  }

  /** `removeFromCart` lowers the count by one when the line is present
      and leaves it alone otherwise. */
  lemma CountAfterRemove(c: CartValue, itemId: string, weight: string)
    requires WellFormed(c) && AllPositive(c)
    ensures CartItemCount(AfterRemoveFromCart(c, itemId, weight))
         == CartItemCount(c) - (if Key(itemId, weight) in c.quantities then 1 else 0)
  {
    var key := Key(itemId, weight);
    var current := QuantityOr0(c, key);
    if current <= 1 {
      SumAfterDelete(c, key, Qty);
    } else {
      SumAfterPut(c, key, current - 1, Qty);
    }
  }

  // ---------------------------------------------------------------------
  // Total
  // ---------------------------------------------------------------------

  /** The key's item id names an item of the catalog. */
  predicate KeyResolves(catalog: seq<MenuItem>, key: string)
  {
    FindById(catalog, ParseKey(key).itemId).Some?
  }

  /** One entry's share of `calculateTotal`, in paise: price times the
      pack-size multiplier times the quantity, or nothing when the key's
      id is not in the catalog. */
  function LineTotal(catalog: seq<MenuItem>, e: Entry): int
  {
    var p := ParseKey(e.key);
    match FindById(catalog, p.itemId)
    case None => 0
    case Some(item) => LineSubtotal(item.price, WeightText(p.weight), e.qty)
  }

  function LineTotalOf(catalog: seq<MenuItem>): Entry -> int
  {
    e => LineTotal(catalog, e)
  }

  /** `calculateTotal()`, in paise. */
  function CalculateTotal(catalog: seq<MenuItem>, c: CartValue): int
  {
    Sum(Entries(c), LineTotalOf(catalog))
  }

  /** The share of a key the handlers built: the split gets the item id
      and the pack size back, so the share is that item's price for that
      pack size times the quantity. */
  lemma LineTotalOfKey(catalog: seq<MenuItem>, itemId: string, weight: string, q: int)
    requires '_' !in itemId && '_' !in weight
    ensures LineTotal(catalog, Entry(Key(itemId, weight), q))
         == match FindById(catalog, itemId)
            case None => 0
            case Some(item) => LineSubtotal(item.price, weight, q)
  {
    KeyRoundTrip(itemId, weight);
  }

  /** Every catalog item is found by its own id, and its id can go into
      a cart key. */
  lemma CatalogItem(item: MenuItem)
    requires item in MENU_ITEMS
    ensures FindById(MENU_ITEMS, item.id) == Some(item)
    ensures '_' !in item.id
  {
    CatalogIdsDistinct();
    CatalogIdsNumeric();
    var k :| 0 <= k < |MENU_ITEMS| && MENU_ITEMS[k] == item;
  }

  /** Adding one pack of a catalog item raises the total by that pack's
      price. */
  lemma TotalAfterAdd(c: CartValue, item: MenuItem, weight: string)
    requires WellFormed(c)
    requires item in MENU_ITEMS && '_' !in weight
    ensures CalculateTotal(MENU_ITEMS, AfterAddToCart(c, item, weight))
         == CalculateTotal(MENU_ITEMS, c) + UnitPrice(item.price, weight)
  {
    CatalogItem(item);
    TotalAfterAddFound(MENU_ITEMS, c, item, weight);
  }

  /** One more pack adds one unit price to a line's subtotal. */
  lemma SubtotalSucc(price: nat, weight: string, q: int)
    ensures LineSubtotal(price, weight, q + 1) == LineSubtotal(price, weight, q) + UnitPrice(price, weight)
  {
    var u := UnitPrice(price, weight);
    assert u * (q + 1) == u * q + u;
  }

  /** Setting a found item's line to `v` swaps its old subtotal for the
      subtotal of `v` packs. */
  lemma TotalAfterPutFound(catalog: seq<MenuItem>, c: CartValue, item: MenuItem, weight: string, v: int)
    requires WellFormed(c)
    requires FindById(catalog, item.id) == Some(item) && '_' !in item.id && '_' !in weight
    ensures CalculateTotal(catalog, Put(c, Key(item.id, weight), v))
         == CalculateTotal(catalog, c) - LineSubtotal(item.price, weight, QuantityOr0(c, Key(item.id, weight)))
            + LineSubtotal(item.price, weight, v)
  {
    var key := Key(item.id, weight);
    var q := QuantityOr0(c, key);
    SumAfterPut(c, key, v, LineTotalOf(catalog));
    LineTotalOfKey(catalog, item.id, weight, v);
    LineTotalOfKey(catalog, item.id, weight, q);
  }

  lemma TotalAfterAddFound(catalog: seq<MenuItem>, c: CartValue, item: MenuItem, weight: string)
    requires WellFormed(c)
    requires FindById(catalog, item.id) == Some(item) && '_' !in item.id && '_' !in weight
    ensures CalculateTotal(catalog, AfterAddToCart(c, item, weight))
         == CalculateTotal(catalog, c) + UnitPrice(item.price, weight)
  {
    var key := Key(item.id, weight);
    var q := QuantityOr0(c, key);
    assert AfterAddToCart(c, item, weight) == Put(c, key, q + 1);
    TotalAfterPutFound(catalog, c, item, weight, q + 1);
    SubtotalSucc(item.price, weight, q);
  }

  /** Setting a catalog item's line to `q` replaces its share of the total
      by `q` packs (none when `q` is 0 or less). */
  lemma TotalAfterUpdate(c: CartValue, item: MenuItem, weight: string, q: int)
    requires WellFormed(c)
    requires item in MENU_ITEMS && '_' !in weight
    ensures CalculateTotal(MENU_ITEMS, AfterUpdateQuantity(c, item.id, weight, q))
         == CalculateTotal(MENU_ITEMS, c)
            - UnitPrice(item.price, weight) * QuantityOr0(c, Key(item.id, weight))
            + UnitPrice(item.price, weight) * (if q > 0 then q else 0)
  {
    CatalogItem(item);
    var key := Key(item.id, weight);
    LineTotalOfKey(MENU_ITEMS, item.id, weight, QuantityOr0(c, key));
    if q > 0 {
      SumAfterPut(c, key, q, LineTotalOf(MENU_ITEMS));
      LineTotalOfKey(MENU_ITEMS, item.id, weight, q);
    } else {
      SumAfterDelete(c, key, LineTotalOf(MENU_ITEMS));
    }
  }

  /** A key whose id is not in the catalog adds nothing to the total,
      whatever its quantity. */
  lemma TotalIgnoresUnknown(catalog: seq<MenuItem>, c: CartValue, key: string, q: int)
    requires WellFormed(c)
    requires !KeyResolves(catalog, key)
    ensures CalculateTotal(catalog, Put(c, key, q)) == CalculateTotal(catalog, Delete(c, key))
  {
    SumPut(c, key, q, LineTotalOf(catalog));
  }

  /** A cart of lines at least 1 never has a negative total. */
  lemma TotalNonNegative(catalog: seq<MenuItem>, c: CartValue)
    requires WellFormed(c) && AllPositive(c)
    ensures CalculateTotal(catalog, c) >= 0
  {
    var f := LineTotalOf(catalog);
    forall k | k in c.quantities ensures f(Entry(k, c.quantities[k])) >= 0 {
      LineTotalNonNegative(catalog, Entry(k, c.quantities[k]));
    }
    SumPositive(c, f);
  }

  lemma LineTotalNonNegative(catalog: seq<MenuItem>, e: Entry)
    requires e.qty >= 0
    ensures LineTotal(catalog, e) >= 0
  {
    var p := ParseKey(e.key);
    if FindById(catalog, p.itemId).Some? {
      var u := UnitPrice(FindById(catalog, p.itemId).value.price, WeightText(p.weight));
      assert u * e.qty >= 0;
    }
  }

  // ---------------------------------------------------------------------
  // The order message
  // ---------------------------------------------------------------------

  const RUPEE: string := "\U{20B9}"

  /** The percent-encoded line feed (`%0A`, section 2.1 of RFC 3986) the
      message uses between its parts. */
  const LINE_BREAK: string := "%0A"

  const GREETING: string := "Hello Dhiraj Chana Shop! I would like to order:"

  const CLOSING: string := "Please confirm my order."

  /** `- ${name} (${weight}) x ${quantity} (₹${itemPrice * quantity})`:
      the name and pack size, then the quantity, then the subtotal. */
  function OrderLine(item: MenuItem, weight: string, qty: int): (line: string)
    ensures StartsWith(line, "- " + item.name + " (" + weight + ") x ")
    ensures EndsWith(line, " (" + RUPEE + RenderAmount(LineSubtotal(item.price, weight, qty)) + ")")
    ensures |line| == |"- " + item.name + " (" + weight + ") x "| + |IntToString(qty)|
                    + |" (" + RUPEE + RenderAmount(LineSubtotal(item.price, weight, qty)) + ")"|
    ensures Between(line, "- " + item.name + " (" + weight + ") x ",
                    " (" + RUPEE + RenderAmount(LineSubtotal(item.price, weight, qty)) + ")") == IntToString(qty)
  {
    var head := "- " + item.name + " (" + weight + ") x ";
    var tail := " (" + RUPEE + RenderAmount(LineSubtotal(item.price, weight, qty)) + ")";
    Pieces(head, IntToString(qty), tail);
    head + IntToString(qty) + tail
  }

  /** The order line shows the quantity and the subtotal exactly: the
      text between the name and the subtotal reads back to the quantity,
      and the amount after the rupee sign reads back to the subtotal in
      paise. */
  lemma OrderLineReadsBack(item: MenuItem, weight: string, qty: nat)
    ensures var line := OrderLine(item, weight, qty);
      var head := "- " + item.name + " (" + weight + ") x ";
      var amount := RenderAmount(LineSubtotal(item.price, weight, qty));
      && DigitsValue(Between(line, head, " (" + RUPEE + amount + ")")) == qty
      && AmountValue(Between(line, head + IntToString(qty) + " (" + RUPEE, ")")) == LineSubtotal(item.price, weight, qty)
  {
    var head := "- " + item.name + " (" + weight + ") x ";
    var amount := RenderAmount(LineSubtotal(item.price, weight, qty));
    Regroup(head, IntToString(qty), " (" + RUPEE, amount, ")");
    Pieces(head + IntToString(qty) + " (" + RUPEE, amount, ")");
    RenderAmountValue(LineSubtotal(item.price, weight, qty));
  }

  /** What comes before the order lines. */
  const MESSAGE_HEAD: string := GREETING + LINE_BREAK + LINE_BREAK

  /** What comes between the order lines and the total. */
  const BEFORE_TOTAL: string := LINE_BREAK + LINE_BREAK + "Total: " + RUPEE

  /** What comes after the total. */
  const AFTER_TOTAL: string := LINE_BREAK + LINE_BREAK + CLOSING

  /** What comes after the order lines: the total and the closing. */
  function MessageTail(total: int): string
  {
    BEFORE_TOTAL + RenderAmount(total) + AFTER_TOTAL
  }

  /** The message around the lines: greeting, a blank line, the lines, a
      blank line, the total, a blank line, the closing sentence. */
  function OrderMessage(lines: seq<string>, total: int): (msg: string)
    ensures StartsWith(msg, MESSAGE_HEAD) && StartsWith(msg, GREETING)
    ensures EndsWith(msg, MessageTail(total))
    ensures |msg| == |MESSAGE_HEAD| + |Join(lines, LINE_BREAK)| + |MessageTail(total)|
    ensures Between(msg, MESSAGE_HEAD, MessageTail(total)) == Join(lines, LINE_BREAK)
  {
    var msg := MESSAGE_HEAD + Join(lines, LINE_BREAK) + MessageTail(total);
    Pieces(MESSAGE_HEAD, Join(lines, LINE_BREAK), MessageTail(total));
    assert msg[..|GREETING|] == GREETING;
    msg
  }

  /** Every order line appears in the message. */
  lemma OrderMessageHasLines(lines: seq<string>, total: int)
    ensures forall i :: 0 <= i < |lines| ==> Includes(OrderMessage(lines, total), lines[i])
  {
    forall i | 0 <= i < |lines| ensures Includes(OrderMessage(lines, total), lines[i]) {
      JoinIncludesPart(lines, LINE_BREAK, i);
      IncludesWithin(MESSAGE_HEAD, Join(lines, LINE_BREAK), MessageTail(total), lines[i]);
    }
  }

  /** The amount after "Total: ₹" reads back to the total in paise. */
  lemma OrderMessageShowsTotal(lines: seq<string>, total: int)
    ensures AmountValue(Between(OrderMessage(lines, total),
                                MESSAGE_HEAD + Join(lines, LINE_BREAK) + BEFORE_TOTAL, AFTER_TOTAL)) == total
  {
    var amount := RenderAmount(total);
    Regroup(MESSAGE_HEAD, Join(lines, LINE_BREAK), BEFORE_TOTAL, amount, AFTER_TOTAL);
    Pieces(MESSAGE_HEAD + Join(lines, LINE_BREAK) + BEFORE_TOTAL, amount, AFTER_TOTAL);
    RenderAmountValue(total);
  }

  /** The `map` callback of `handleCheckout`: the entry's order line, or
      the empty string when its id is not in the catalog. */
  function EntryLine(catalog: seq<MenuItem>, e: Entry): (line: string)
    ensures line == "" <==> !KeyResolves(catalog, e.key)
  {
    var p := ParseKey(e.key);
    match FindById(catalog, p.itemId)
    case None => ""
    case Some(item) =>
      var line := OrderLine(item, WeightText(p.weight), e.qty);
      assert |line| >= 2;
      line
  }

  /** The line of an entry under a key the handlers built: the order line
      of the item with that id, for that pack size and quantity, or the
      empty string when no item has that id. */
  lemma EntryLineOfKey(catalog: seq<MenuItem>, itemId: string, weight: string, q: int)
    requires '_' !in itemId && '_' !in weight
    ensures EntryLine(catalog, Entry(Key(itemId, weight), q))
         == match FindById(catalog, itemId)
            case None => ""
            case Some(item) => OrderLine(item, weight, q)
  {
    KeyRoundTrip(itemId, weight);
  }

  /** `.map(...)`: one line per entry, the i-th being the i-th entry's. */
  function EntryLines(catalog: seq<MenuItem>, es: seq<Entry>): (lines: seq<string>)
    ensures |lines| == |es|
    ensures forall i :: 0 <= i < |es| ==> lines[i] == EntryLine(catalog, es[i])
  {
    if |es| == 0 then [] else [EntryLine(catalog, es[0])] + EntryLines(catalog, es[1..])
  }

  /** `.filter(Boolean)`: drops the empty strings. */
  function NonEmptyLines(lines: seq<string>): (r: seq<string>)
    ensures IsFilter(NonEmpty, r, lines)
  {
    if |lines| == 0 then []
    else
      var rest := NonEmptyLines(lines[1..]);
      FilterStep(NonEmpty, lines, rest);
      if lines[0] != "" then [lines[0]] + rest else rest
  }

  /** `filter(Boolean)` keeps a repeated line as often as it occurs:
      keeping one copy of two equal lines is not the filter. */
  lemma FilterKeepsRepeats()
    ensures !IsFilter(NonEmpty, ["a"], ["a", "a"])
  {
    assert multiset(["a"])["a"] == 1;
    assert multiset(["a", "a"])["a"] == 2;
  }

  /** `Boolean(line)` for a string: it is not empty. */
  predicate NonEmpty(line: string)
  {
    line != ""
  }

  /** Whether an entry's key names a catalog item. */
  function Resolves(catalog: seq<MenuItem>): Entry -> bool
  {
    (e: Entry) => KeyResolves(catalog, e.key)
  }

  /** The entries whose id is in the catalog, in cart order: empty exactly
      when none resolves, only and all the resolving entries, in order. */
  function ResolvedEntries(catalog: seq<MenuItem>, es: seq<Entry>): (rs: seq<Entry>)
    ensures IsFilter(Resolves(catalog), rs, es)
  {
    if |es| == 0 then []
    else
      var rest := ResolvedEntries(catalog, es[1..]);
      FilterStep(Resolves(catalog), es, rest);
      if KeyResolves(catalog, es[0].key) then [es[0]] + rest else rest
  }

  /** The message has one line for each entry whose id is in the catalog,
      in cart order, and no others. */
  lemma {:induction false} MessageLinesResolved(catalog: seq<MenuItem>, es: seq<Entry>)
    ensures NonEmptyLines(EntryLines(catalog, es)) == EntryLines(catalog, ResolvedEntries(catalog, es))
  {
    if |es| > 0 {
      MessageLinesResolved(catalog, es[1..]);
    }
  }

  /** `handleCheckout`'s message, or `None` when it returns early because
      no key of the cart names a catalog item. */
  function CheckoutMessage(catalog: seq<MenuItem>, c: CartValue): (m: Option<string>)
    requires WellFormed(c)
    ensures m.None? <==> forall k :: k in c.quantities ==> !KeyResolves(catalog, k)
    ensures m.Some? ==> StartsWith(m.value, GREETING)
  {
    var es := Entries(c);
    MessageLinesResolved(catalog, es);
    NoKeyResolves(catalog, c);
    var lines := NonEmptyLines(EntryLines(catalog, es));
    if |lines| == 0 then None
    else Some(OrderMessage(lines, CalculateTotal(catalog, c)))
  }

  /** No key of the cart resolves exactly when no entry's key does. */
  lemma NoKeyResolves(catalog: seq<MenuItem>, c: CartValue)
    requires WellFormed(c)
    ensures (forall k :: k in c.quantities ==> !KeyResolves(catalog, k))
       <==> (forall i :: 0 <= i < |Entries(c)| ==> !KeyResolves(catalog, Entries(c)[i].key))
  {
    var es := Entries(c);
    assert forall k :: k in c.quantities <==> exists i :: 0 <= i < |es| && es[i].key == k;
  }

  /** A worked case: three 250g packs of Kala Chana (250 rupees per kg)
      cost 187.50 rupees, which the order line shows as "187.5". */
  lemma KalaChanaExample()
    ensures var c := AddTimes(EMPTY, KALA_CHANA, "250g", 3);
      && CalculateTotal(MENU_ITEMS, c) == 18750
      && OrderLine(KALA_CHANA, "250g", 3)
         == "- " + "Kala Chana" + " (" + "250g" + ") x " + "3" + (" (" + RUPEE + "187.5" + ")")
  {
    KalaChanaListed();
    CatalogItem(KALA_CHANA);
    KalaChanaTotal(MENU_ITEMS, KALA_CHANA);
    KalaChanaLine();
  }

  lemma KalaChanaTotal(catalog: seq<MenuItem>, item: MenuItem)
    requires item.price == 250 && FindById(catalog, item.id) == Some(item) && '_' !in item.id
    ensures CalculateTotal(catalog, AddTimes(EMPTY, item, "250g", 3)) == 18750
  {
    var c1 := AddTimes(EMPTY, item, "250g", 1);
    var c2 := AddTimes(EMPTY, item, "250g", 2);
    assert CalculateTotal(catalog, EMPTY) == 0;
    TotalAfterAddFound(catalog, EMPTY, item, "250g");
    TotalAfterAddFound(catalog, c1, item, "250g");
    TotalAfterAddFound(catalog, c2, item, "250g");
    assert UnitPrice(item.price, "250g") == 6250;
  }

  lemma KalaChanaLine()
    ensures OrderLine(KALA_CHANA, "250g", 3)
         == "- " + "Kala Chana" + " (" + "250g" + ") x " + "3" + (" (" + RUPEE + "187.5" + ")")
  {
    assert LineSubtotal(KALA_CHANA.price, "250g", 3) == 18750 by {
      assert UnitPrice(250, "250g") == 6250;
    }
    RenderKalaChana();
  }

  // ---------------------------------------------------------------------
  // The catalog filter
  // ---------------------------------------------------------------------

  /** The search box: the lower-cased term occurs in the lower-cased name,
      category or (non-empty) description. */
  predicate MatchesSearch(item: MenuItem, searchTerm: string)
  {
    var term := ToLower(searchTerm);
    || Includes(ToLower(item.name), term)
    || Includes(ToLower(CategoryName(item.category)), term)
    || (item.description.Some? && item.description.value != "" && Includes(ToLower(item.description.value), term))
  }

  /** The category tabs: "All" or the item's own category. */
  predicate MatchesCategory(item: MenuItem, selectedCategory: string)
  {
    selectedCategory == "All" || CategoryName(item.category) == selectedCategory
  }

  /** `filteredItems`: the items passing both tests, in catalog order. */
  function FilteredItems(items: seq<MenuItem>, searchTerm: string, selectedCategory: string): (r: seq<MenuItem>)
    ensures forall x :: x in r <==> x in items && MatchesSearch(x, searchTerm) && MatchesCategory(x, selectedCategory)
    ensures selectedCategory != "All" ==> forall i :: 0 <= i < |r| ==> CategoryName(r[i].category) == selectedCategory
    ensures IsFilter(Matches(searchTerm, selectedCategory), r, items)
  {
    if |items| == 0 then []
    else
      var rest := FilteredItems(items[1..], searchTerm, selectedCategory);
      FilterStep(Matches(searchTerm, selectedCategory), items, rest);
      if MatchesSearch(items[0], searchTerm) && MatchesCategory(items[0], selectedCategory) then [items[0]] + rest
      else rest
  }

  /** The callback `filteredItems` passes to `filter`. */
  function Matches(searchTerm: string, selectedCategory: string): MenuItem -> bool
  {
    (item: MenuItem) => MatchesSearch(item, searchTerm) && MatchesCategory(item, selectedCategory)
  }

  /** With no search term and the "All" tab, the whole catalog shows. */
  lemma {:induction false} FilterShowsAll(items: seq<MenuItem>)
    ensures FilteredItems(items, "", "All") == items
  {
    if |items| > 0 {
      IncludesEmpty(ToLower(items[0].name));
      assert MatchesSearch(items[0], "") && MatchesCategory(items[0], "All");
      FilterShowsAll(items[1..]);
      assert items == [items[0]] + items[1..];
    }
  }
}
