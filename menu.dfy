/**
 * One card of the menu grid (`MenuCard` in components/Menu.tsx). The card
 * keeps only the selected pack size as state, an input here; everything it
 * shows is computed from the cart: the item's quantity over all pack sizes,
 * the quantity of the selected one, the price badge and the size options,
 * and which controls appear.
 */
module MenuCard {
  import opened Text
  import opened Catalog
  import opened Pricing
  import opened CartKey
  import opened CartModel
  import opened App
  import opened Sequences

  /** The `filter` of `getItemTotalQty`: the entries whose key starts with
      the prefix, in cart order. */
  function EntriesWithPrefix(es: seq<Entry>, prefix: string): (r: seq<Entry>)
    ensures IsFilter(HasPrefix(prefix), r, es)
  {
    if |es| == 0 then []
    else
      var rest := EntriesWithPrefix(es[1..], prefix);
      FilterStep(HasPrefix(prefix), es, rest);
      if StartsWith(es[0].key, prefix) then [es[0]] + rest else rest
  }

  /** Whether an entry's key starts with `prefix`. */
  function HasPrefix(prefix: string): Entry -> bool
  {
    (e: Entry) => StartsWith(e.key, prefix)
  }

  /** `getItemTotalQty(itemId)`: the quantities of all keys starting with
      `itemId + "_"`, summed. */
  function ItemTotalQty(c: CartValue, itemId: string): int
  {
    Sum(EntriesWithPrefix(Entries(c), itemId + "_"), Qty)
  }

  /** A line's share of `getItemTotalQty`. */
  function PrefixQty(prefix: string): Entry -> int
  {
    (e: Entry) => if StartsWith(e.key, prefix) then e.qty else 0
  }

  lemma {:induction false} PrefixSum(es: seq<Entry>, prefix: string)
    ensures Sum(EntriesWithPrefix(es, prefix), Qty) == Sum(es, PrefixQty(prefix))
  {
    if |es| > 0 {
      PrefixSum(es[1..], prefix);
    }
  }

  /** `currentVariantQty`: `cart[key] || 0` for the selected pack size. */
  function CurrentVariantQty(c: CartValue, item: MenuItem, selectedWeight: string): int
  {
    QuantityOr0(c, Key(item.id, selectedWeight))
  }

  /** The multipliers written into the four size options, in the order of
      `PACK_SIZES`. */
  const OPTION_MULTIPLIERS: seq<real> := [1.0, 0.5, 0.25, 0.1]

  /** The price in the label of size option `i`, in rupees. */
  function OptionPrice(item: MenuItem, i: nat): real
    requires i < |OPTION_MULTIPLIERS|
  {
    item.price as real * OPTION_MULTIPLIERS[i]
  }

  /** The size options agree with the pack-size table: option `i` shows,
      in paise, the unit price of pack size `PACK_SIZES[i]`. */
  lemma OptionsAgreeWithTable(item: MenuItem)
    ensures |OPTION_MULTIPLIERS| == |PACK_SIZES|
    ensures forall i :: 0 <= i < |PACK_SIZES| ==>
      OptionPrice(item, i) * 100.0 == UnitPrice(item.price, PACK_SIZES[i].0) as real
  {
    PackSizeTable("");
  }

  /** `currentPrice`, in paise: the badge shows the price of the option
      selected in the size list, and the full 1 kg price for any label
      that is not one of the options. */
  function CardPrice(item: MenuItem, selectedWeight: string): (paise: nat)
    ensures forall i :: 0 <= i < |PACK_SIZES| && PACK_SIZES[i].0 == selectedWeight ==>
      paise as real == OptionPrice(item, i) * 100.0
    ensures (forall i :: 0 <= i < |PACK_SIZES| ==> PACK_SIZES[i].0 != selectedWeight) ==> paise == item.price * 100
  {
    OptionsAgreeWithTable(item);
    PackSizeTable(selectedWeight);
    UnitPrice(item.price, selectedWeight)
  }

  /** The Add button is shown in place of the −/+ controls. */
  predicate ShowAddButton(c: CartValue, item: MenuItem, selectedWeight: string)
  {
    CurrentVariantQty(c, item, selectedWeight) == 0
  }

  /** "Includes other sizes" is shown. */
  predicate ShowOtherSizes(c: CartValue, item: MenuItem, selectedWeight: string)
  {
    var total := ItemTotalQty(c, item.id);
    total > 0 && total != CurrentVariantQty(c, item, selectedWeight)
  }

  /** The item's total is the selected size's quantity plus what the other
      keys with the item's prefix hold. */
  lemma ItemTotalSplit(c: CartValue, item: MenuItem, selectedWeight: string)
    requires WellFormed(c)
    ensures ItemTotalQty(c, item.id)
         == CurrentVariantQty(c, item, selectedWeight)
          + Sum(Entries(Delete(c, Key(item.id, selectedWeight))), PrefixQty(item.id + "_"))
  {
    var key := Key(item.id, selectedWeight);
    PrefixSum(Entries(c), item.id + "_");
    SumAfterDelete(c, key, PrefixQty(item.id + "_"));
    assert key[..|item.id + "_"|] == item.id + "_";
  }

  /** With no negative line, the item's total is at least the selected
      size's quantity. */
  lemma TotalAtLeastCurrent(c: CartValue, item: MenuItem, selectedWeight: string)
    requires WellFormed(c)
    requires forall k :: k in c.quantities ==> c.quantities[k] >= 0
    ensures ItemTotalQty(c, item.id) >= CurrentVariantQty(c, item, selectedWeight)
  {
    ItemTotalSplit(c, item, selectedWeight);
    var d := Delete(c, Key(item.id, selectedWeight));
    SumPositive(d, PrefixQty(item.id + "_"));
  }

  /** For a cart of lines at least 1, "Includes other sizes" shows exactly
      when some other key with the item's prefix is in the cart. */
  lemma OtherSizesIff(c: CartValue, item: MenuItem, selectedWeight: string)
    requires WellFormed(c) && AllPositive(c)
    ensures ShowOtherSizes(c, item, selectedWeight) <==>
      exists k :: k in c.quantities && k != Key(item.id, selectedWeight) && StartsWith(k, item.id + "_")
  {
    var key := Key(item.id, selectedWeight);
    var d := Delete(c, key);
    ItemTotalSplit(c, item, selectedWeight);
    OtherPrefixedLines(c, key, item.id + "_");
    SumPositive(d, PrefixQty(item.id + "_"));
  }

  /** With every line at least 1, a line left after deleting `key` adds to
      the prefix sum exactly when it is another key with the prefix. */
  lemma OtherPrefixedLines(c: CartValue, key: string, prefix: string)
    requires WellFormed(c) && AllPositive(c)
    ensures var d := Delete(c, key);
      && (forall k :: k in d.quantities ==> PrefixQty(prefix)(Entry(k, d.quantities[k])) >= 0)
      && ((exists k :: k in d.quantities && PrefixQty(prefix)(Entry(k, d.quantities[k])) > 0)
          <==> (exists k :: k in c.quantities && k != key && StartsWith(k, prefix)))
  {
    var d := Delete(c, key);
    var f := PrefixQty(prefix);
    if exists k :: k in c.quantities && k != key && StartsWith(k, prefix) {
      var k :| k in c.quantities && k != key && StartsWith(k, prefix);
      assert k in d.quantities && f(Entry(k, d.quantities[k])) > 0;
    }
  }

  /** When item ids hold no separator, the prefix picks exactly the keys
      whose parsed id is the card's item: a key of item "12" adds nothing
      to the total of item "1". */
  lemma PrefixIsParsedId(itemId: string, k: string, q: int)
    requires '_' !in itemId
    ensures PrefixQty(itemId + "_")(Entry(k, q)) == if '_' in k && ParseKey(k).itemId == itemId then q else 0
  {
    PrefixMatchesParsedId(k, itemId);
  }

  /** For a cart of lines at least 1, the Add button shows exactly when the
      selected size is not in the cart. */
  lemma AddButtonIff(c: CartValue, item: MenuItem, selectedWeight: string)
    requires AllPositive(c)
    ensures ShowAddButton(c, item, selectedWeight) <==> Key(item.id, selectedWeight) !in c.quantities
  {
  }

  /** The + control (`addToCart(item, selectedWeight)`) raises both the
      selected size and the item's total by one and hides the Add button. */
  lemma PlusOnCard(c: CartValue, item: MenuItem, selectedWeight: string)
    requires WellFormed(c) && AllPositive(c)
    ensures var r := AfterAddToCart(c, item, selectedWeight);
      && CurrentVariantQty(r, item, selectedWeight) == CurrentVariantQty(c, item, selectedWeight) + 1
      && ItemTotalQty(r, item.id) == ItemTotalQty(c, item.id) + 1
      && !ShowAddButton(r, item, selectedWeight)
  {
    var key := Key(item.id, selectedWeight);
    var r := AfterAddToCart(c, item, selectedWeight);
    ItemTotalSplit(c, item, selectedWeight);
    ItemTotalSplit(r, item, selectedWeight);
    assert Delete(r, key).quantities == Delete(c, key).quantities;
    SumIgnoresOrder(Delete(r, key), Delete(c, key), PrefixQty(item.id + "_"));
  }

  /** The − control (`removeFromCart(item.id, selectedWeight)`), shown only
      while the selected size is in the cart, lowers both the selected size
      and the item's total by one; from 1 it brings the Add button back. */
  lemma MinusOnCard(c: CartValue, item: MenuItem, selectedWeight: string)
    requires WellFormed(c) && AllPositive(c)
    requires !ShowAddButton(c, item, selectedWeight)
    ensures var r := AfterRemoveFromCart(c, item.id, selectedWeight);
      && CurrentVariantQty(r, item, selectedWeight) == CurrentVariantQty(c, item, selectedWeight) - 1
      && ItemTotalQty(r, item.id) == ItemTotalQty(c, item.id) - 1
      && (ShowAddButton(r, item, selectedWeight) <==> CurrentVariantQty(c, item, selectedWeight) == 1)
  {
    var key := Key(item.id, selectedWeight);
    var r := AfterRemoveFromCart(c, item.id, selectedWeight);
    ItemTotalSplit(c, item, selectedWeight);
    ItemTotalSplit(r, item, selectedWeight);
    assert Delete(r, key).quantities == Delete(c, key).quantities;
    SumIgnoresOrder(Delete(r, key), Delete(c, key), PrefixQty(item.id + "_"));
  }
}
