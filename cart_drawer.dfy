/**
 * The cart drawer (components/CartDrawer.tsx). It parses the cart again on
 * its own: each entry is split into item and pack size and looked up in the
 * catalog, then the entries with a catalog item and a positive quantity are
 * kept. The drawer's total, item count and order message are computed from
 * that list; its −/+ buttons call the page's `updateQuantity`.
 */
module CartDrawer {
  import opened Wrappers
  import opened Catalog
  import opened Pricing
  import opened CartKey
  import opened CartModel
  import opened App
  import opened Sequences

  /** One element of `cartEntries`. */
  datatype DrawerEntry = DrawerEntry(
    key: string,
    item: Option<MenuItem>,
    weight: Option<string>,
    qty: int,
    multiplier: nat)

  /** The `map` callback: parse the key, look the id up, and take the
      multiplier for the parsed pack size from the pack-size table. */
  function ToDrawerEntry(catalog: seq<MenuItem>, e: Entry): (d: DrawerEntry)
    ensures d.key == e.key && d.qty == e.qty
    ensures d.item.Some? <==> KeyResolves(catalog, e.key)
    ensures d.multiplier as real == SourceMultiplier(WeightText(d.weight)) * 100.0
  {
    var p := ParseKey(e.key);
    DrawerEntry(e.key, FindById(catalog, p.itemId), p.weight, e.qty, MultiplierPercent(WeightText(p.weight)))
  }

  function MapEntries(catalog: seq<MenuItem>, es: seq<Entry>): (ds: seq<DrawerEntry>)
    ensures |ds| == |es|
  {
    if |es| == 0 then [] else [ToDrawerEntry(catalog, es[0])] + MapEntries(catalog, es[1..])
  }

  /** The `filter` callback: a catalog item and a positive quantity. */
  predicate Keep(d: DrawerEntry)
  {
    d.item.Some? && d.qty > 0
  }

  function KeepEntries(ds: seq<DrawerEntry>): (r: seq<DrawerEntry>)
    ensures IsFilter(Keep, r, ds)
  {
    if |ds| == 0 then []
    else
      var rest := KeepEntries(ds[1..]);
      FilterStep(Keep, ds, rest);
      if Keep(ds[0]) then [ds[0]] + rest else rest
  }

  /** `cartEntries`. */
  function CartEntries(catalog: seq<MenuItem>, c: CartValue): seq<DrawerEntry>
  {
    KeepEntries(MapEntries(catalog, Entries(c)))
  }

  /** When no quantity is 0 or less the filter drops exactly the entries
      whose id is not in the catalog, so the drawer lists the same entries,
      in the same order, as the page's checkout. */
  lemma {:induction false} KeepIsResolved(catalog: seq<MenuItem>, es: seq<Entry>)
    requires forall i :: 0 <= i < |es| ==> es[i].qty > 0
    ensures KeepEntries(MapEntries(catalog, es)) == MapEntries(catalog, ResolvedEntries(catalog, es))
  {
    if |es| > 0 {
      KeepIsResolved(catalog, es[1..]);
      assert MapEntries(catalog, es)[1..] == MapEntries(catalog, es[1..]);
    }
  }

  /** An entry is kept exactly when its id is in the catalog and its
      quantity is positive. */
  lemma CartEntriesExactly(catalog: seq<MenuItem>, c: CartValue, e: Entry)
    requires e in Entries(c)
    ensures ToDrawerEntry(catalog, e) in CartEntries(catalog, c) <==> KeyResolves(catalog, e.key) && e.qty > 0
  {
    var es := Entries(c);
    var i :| 0 <= i < |es| && es[i] == e;
    MapEntriesAt(catalog, es, i);
  }

  lemma {:induction false} MapEntriesAt(catalog: seq<MenuItem>, es: seq<Entry>, i: nat)
    requires i < |es|
    ensures MapEntries(catalog, es)[i] == ToDrawerEntry(catalog, es[i])
  {
    if i > 0 {
      MapEntriesAt(catalog, es[1..], i - 1);
    }
  }

  /** A cart of lines at least 1 lists only positive entries. */
  lemma EntriesPositive(c: CartValue)
    requires WellFormed(c) && AllPositive(c)
    ensures forall i :: 0 <= i < |Entries(c)| ==> Entries(c)[i].qty > 0
  {
    forall i | 0 <= i < |Entries(c)| ensures Entries(c)[i].qty > 0 {
      assert c.keys[i] in c.quantities;
    }
  }

  // ---------------------------------------------------------------------
  // Total and item count
  // ---------------------------------------------------------------------

  /** `total`, in paise: price times multiplier times quantity over the
      listed entries, all of which have an item. */
  function DrawerTotal(ds: seq<DrawerEntry>): int
    requires forall i :: 0 <= i < |ds| ==> ds[i].item.Some?
  {
    if |ds| == 0 then 0
    else ds[0].item.value.price * ds[0].multiplier * ds[0].qty + DrawerTotal(ds[1..])
  }

  /** `totalItemsCount`: with every listed line at least 1, it is at least
      the number of lines, so it is 0 only for an empty list. */
  function TotalItemsCount(ds: seq<DrawerEntry>): (n: int)
    ensures (forall i :: 0 <= i < |ds| ==> ds[i].qty >= 1) ==> n >= |ds|
  {
    if |ds| == 0 then 0 else ds[0].qty + TotalItemsCount(ds[1..])
  }

  lemma {:induction false} DrawerTotalOfResolved(catalog: seq<MenuItem>, es: seq<Entry>)
    ensures var ds := MapEntries(catalog, ResolvedEntries(catalog, es));
      (forall i :: 0 <= i < |ds| ==> ds[i].item.Some?) && DrawerTotal(ds) == Sum(es, LineTotalOf(catalog))
  {
    if |es| > 0 {
      DrawerTotalOfResolved(catalog, es[1..]);
      var rs := ResolvedEntries(catalog, es);
      forall i | 0 <= i < |rs| ensures MapEntries(catalog, rs)[i].item.Some? {
        MapEntriesAt(catalog, rs, i);
      }
      var p := ParseKey(es[0].key);
      assert LineTotalOf(catalog)(es[0]) == LineTotal(catalog, es[0]);
      if KeyResolves(catalog, es[0].key) {
        var item := FindById(catalog, p.itemId).value;
        assert LineTotal(catalog, es[0]) == item.price * MultiplierPercent(WeightText(p.weight)) * es[0].qty;
        assert MapEntries(catalog, rs)[1..] == MapEntries(catalog, ResolvedEntries(catalog, es[1..]));
      }
    }
  }

  /** For a cart whose lines are all at least 1, the drawer's total is the
      page's `calculateTotal`. */
  lemma DrawerTotalAgrees(catalog: seq<MenuItem>, c: CartValue)
    requires WellFormed(c) && AllPositive(c)
    ensures var ds := CartEntries(catalog, c);
      (forall i :: 0 <= i < |ds| ==> ds[i].item.Some?) && DrawerTotal(ds) == CalculateTotal(catalog, c)
  {
    EntriesPositive(c);
    KeepIsResolved(catalog, Entries(c));
    DrawerTotalOfResolved(catalog, Entries(c));
  }

  lemma {:induction false} CountOfAllResolved(catalog: seq<MenuItem>, es: seq<Entry>)
    requires forall i :: 0 <= i < |es| ==> KeyResolves(catalog, es[i].key)
    ensures TotalItemsCount(MapEntries(catalog, es)) == Sum(es, Qty)
  {
    if |es| > 0 {
      CountOfAllResolved(catalog, es[1..]);
    }
  }

  /** When every key names a catalog item and no line is below 1, the
      drawer's item count is the page's `cartItemCount`. */
  lemma DrawerCountAgrees(catalog: seq<MenuItem>, c: CartValue)
    requires WellFormed(c) && AllPositive(c)
    requires forall k :: k in c.quantities ==> KeyResolves(catalog, k)
    ensures TotalItemsCount(CartEntries(catalog, c)) == CartItemCount(c)
  {
    var es := Entries(c);
    EntriesPositive(c);
    assert forall i :: 0 <= i < |es| ==> es[i].key in c.quantities;
    KeepIsResolved(catalog, es);
    ResolvedAll(catalog, es);
    CountOfAllResolved(catalog, es);
  }

  lemma {:induction false} ResolvedAll(catalog: seq<MenuItem>, es: seq<Entry>)
    requires forall i :: 0 <= i < |es| ==> KeyResolves(catalog, es[i].key)
    ensures ResolvedEntries(catalog, es) == es
  {
    if |es| > 0 {
      ResolvedAll(catalog, es[1..]);
    }
  }

  // ---------------------------------------------------------------------
  // Order message and footer
  // ---------------------------------------------------------------------

  /** The drawer's `messageLines`: one order line per listed entry. */
  function DrawerLines(ds: seq<DrawerEntry>): (lines: seq<string>)
    requires forall i :: 0 <= i < |ds| ==> ds[i].item.Some?
    ensures |lines| == |ds|
    ensures forall i :: 0 <= i < |ds| ==>
      lines[i] == OrderLine(ds[i].item.value, WeightText(ds[i].weight), ds[i].qty)
  {
    if |ds| == 0 then []
    else [OrderLine(ds[0].item.value, WeightText(ds[0].weight), ds[0].qty)] + DrawerLines(ds[1..])
  }

  /** The drawer's `handleCheckout` message. It has no empty-cart check of
      its own: the button is only there when the list is non-empty. */
  function DrawerMessage(catalog: seq<MenuItem>, c: CartValue): string
  {
    var ds := CartEntries(catalog, c);
    OrderMessage(DrawerLines(ds), DrawerTotal(ds))
  }

  /** The footer with the total and the checkout and clear buttons. */
  predicate ShowFooter(catalog: seq<MenuItem>, c: CartValue)
  {
    |CartEntries(catalog, c)| > 0
  }

  lemma {:induction false} DrawerLinesOfResolved(catalog: seq<MenuItem>, rs: seq<Entry>)
    requires forall i :: 0 <= i < |rs| ==> KeyResolves(catalog, rs[i].key)
    ensures var ds := MapEntries(catalog, rs);
      (forall i :: 0 <= i < |ds| ==> ds[i].item.Some?) && DrawerLines(ds) == EntryLines(catalog, rs)
  {
    if |rs| > 0 {
      DrawerLinesOfResolved(catalog, rs[1..]);
      forall i | 0 <= i < |rs| ensures MapEntries(catalog, rs)[i].item.Some? {
        MapEntriesAt(catalog, rs, i);
      }
    }
  }

  /** For a cart whose lines are all at least 1, the drawer shows its
      footer exactly when the page's checkout would send a message, and
      the drawer's message is that same message: the same lines in the
      same order and the same total. */
  lemma DrawerMessageAgrees(catalog: seq<MenuItem>, c: CartValue)
    requires WellFormed(c) && AllPositive(c)
    ensures ShowFooter(catalog, c) <==> CheckoutMessage(catalog, c).Some?
    ensures ShowFooter(catalog, c) ==> CheckoutMessage(catalog, c) == Some(DrawerMessage(catalog, c))
  {
    DrawerLinesArePageLines(catalog, c);
    DrawerTotalAgrees(catalog, c);
  }

  /** The drawer's message lines are the page's non-empty lines. */
  lemma DrawerLinesArePageLines(catalog: seq<MenuItem>, c: CartValue)
    requires WellFormed(c) && AllPositive(c)
    ensures var ds := CartEntries(catalog, c);
      && (forall i :: 0 <= i < |ds| ==> ds[i].item.Some?)
      && DrawerLines(ds) == NonEmptyLines(EntryLines(catalog, Entries(c)))
  {
    var es := Entries(c);
    var rs := ResolvedEntries(catalog, es);
    EntriesPositive(c);
    KeepIsResolved(catalog, es);
    MessageLinesResolved(catalog, es);
    DrawerLinesOfResolved(catalog, rs);
  }

  // ---------------------------------------------------------------------
  // The − and + buttons
  // ---------------------------------------------------------------------

  /** − : `updateQuantity(item.id, weight, qty - 1)`. */
  function MinusClick(c: CartValue, d: DrawerEntry): CartValue
    requires WellFormed(c) && d.item.Some?
  {
    AfterUpdateQuantity(c, d.item.value.id, WeightText(d.weight), d.qty - 1)
  }

  /** + : `updateQuantity(item.id, weight, qty + 1)`. */
  function PlusClick(c: CartValue, d: DrawerEntry): CartValue
    requires WellFormed(c) && d.item.Some?
  {
    AfterUpdateQuantity(c, d.item.value.id, WeightText(d.weight), d.qty + 1)
  }

  /** On the drawer's line for a catalog item, − does what the menu card's
      − (`removeFromCart`) does and + what its + (`addToCart`) does; in
      particular − on a line at 1 deletes it. */
  lemma ButtonsMatchCard(c: CartValue, item: MenuItem, weight: string)
    requires WellFormed(c) && AllPositive(c)
    requires item in MENU_ITEMS && '_' !in weight
    requires Key(item.id, weight) in c.quantities
    ensures var d := ToDrawerEntry(MENU_ITEMS, Entry(Key(item.id, weight), c.quantities[Key(item.id, weight)]));
      && d.item == Some(item)
      && MinusClick(c, d) == AfterRemoveFromCart(c, item.id, weight)
      && PlusClick(c, d) == AfterAddToCart(c, item, weight)
      && (c.quantities[Key(item.id, weight)] == 1 ==> Key(item.id, weight) !in MinusClick(c, d).quantities)
  {
    CatalogItem(item);
    var d := DrawerEntryOfKey(MENU_ITEMS, c, item, weight);
    MinusIsRemove(c, d, item, weight);
    PlusIsAdd(c, d, item, weight);
  }

  /** The drawer entry of a catalog item's line carries that item, the
      pack size and the stored quantity. */
  lemma DrawerEntryOfKey(catalog: seq<MenuItem>, c: CartValue, item: MenuItem, weight: string) returns (d: DrawerEntry)
    requires FindById(catalog, item.id) == Some(item) && '_' !in item.id && '_' !in weight
    requires Key(item.id, weight) in c.quantities
    ensures d == ToDrawerEntry(catalog, Entry(Key(item.id, weight), c.quantities[Key(item.id, weight)]))
    ensures d.item == Some(item) && WeightText(d.weight) == weight && d.qty == c.quantities[Key(item.id, weight)]
  {
    KeyRoundTrip(item.id, weight);
    d := ToDrawerEntry(catalog, Entry(Key(item.id, weight), c.quantities[Key(item.id, weight)]));
  }

  lemma MinusIsRemove(c: CartValue, d: DrawerEntry, item: MenuItem, weight: string)
    requires WellFormed(c)
    requires Key(item.id, weight) in c.quantities
    requires d.item == Some(item) && WeightText(d.weight) == weight && d.qty == c.quantities[Key(item.id, weight)]
    ensures MinusClick(c, d) == AfterRemoveFromCart(c, item.id, weight)
    ensures d.qty == 1 ==> Key(item.id, weight) !in MinusClick(c, d).quantities
  {
    assert QuantityOr0(c, Key(item.id, weight)) == d.qty;
  }

  lemma PlusIsAdd(c: CartValue, d: DrawerEntry, item: MenuItem, weight: string)
    requires WellFormed(c) && AllPositive(c)
    requires Key(item.id, weight) in c.quantities
    requires d.item == Some(item) && WeightText(d.weight) == weight && d.qty == c.quantities[Key(item.id, weight)]
    ensures PlusClick(c, d) == AfterAddToCart(c, item, weight)
  {
    assert QuantityOr0(c, Key(item.id, weight)) == d.qty;
  }
}
