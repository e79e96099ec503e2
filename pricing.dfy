/**
 * The pack-size price table. Every view (the cart total and checkout
 * message in App.tsx, the drawer, the menu card and the product modal)
 * applies the same rule: 500g costs half the 1 kg price, 250g a quarter,
 * 100g a tenth, and any other label, "1kg" and typos included, the full
 * price. Amounts are kept exactly, in paise (hundredths of a rupee), so the
 * multiplier is a whole percentage.
 */
module Pricing {
  import opened Catalog

  /** The multiplier as the source computes it, with exact reals: start
      from 1 and let each of the three label tests overwrite it. */
  function SourceMultiplier(weight: string): real
  {
    var m0 := 1.0;
    var m1 := if weight == "500g" then 0.5 else m0;
    var m2 := if weight == "250g" then 0.25 else m1;
    if weight == "100g" then 0.1 else m2
  }

  /** The multiplier in percent. */
  function MultiplierPercent(weight: string): (pct: nat)
    ensures pct as real == SourceMultiplier(weight) * 100.0
    ensures 0 < pct <= 100
  {
    if weight == "500g" then 50
    else if weight == "250g" then 25
    else if weight == "100g" then 10
    else 100
  }

  /** The pack sizes the storefront offers, each with the multiplier the
      menu card's size options apply to the base price. */
  const PACK_SIZES: seq<(string, nat)> := [("1kg", 100), ("500g", 50), ("250g", 25), ("100g", 10)]

  /** The table and the rule agree on every offered size, and any label
      that is not offered is charged the full 1 kg price. */
  lemma PackSizeTable(weight: string)
    ensures forall i :: 0 <= i < |PACK_SIZES| ==> MultiplierPercent(PACK_SIZES[i].0) == PACK_SIZES[i].1
    ensures (forall i :: 0 <= i < |PACK_SIZES| ==> PACK_SIZES[i].0 != weight) ==> MultiplierPercent(weight) == 100
  {
    if forall i :: 0 <= i < |PACK_SIZES| ==> PACK_SIZES[i].0 != weight {
      assert PACK_SIZES[1].0 != weight && PACK_SIZES[2].0 != weight && PACK_SIZES[3].0 != weight;
    }
  }

  /** `price * priceMultiplier`, in paise. */
  function UnitPrice(price: nat, weight: string): (paise: nat)
    ensures paise as real == price as real * SourceMultiplier(weight) * 100.0
    ensures paise <= price * 100
  {
    price * MultiplierPercent(weight)
  }

  /** `price * priceMultiplier * qty`, in paise. */
  function LineSubtotal(price: nat, weight: string, qty: int): (paise: int)
    ensures paise as real == price as real * SourceMultiplier(weight) * qty as real * 100.0
  {
    UnitPrice(price, weight) * qty
  }

  /** Smaller packs never cost more, and a 100g pack of an item priced in
      multiples of 10 rupees is a whole number of rupees. */
  lemma UnitPriceOrder(price: nat)
    ensures UnitPrice(price, "100g") <= UnitPrice(price, "250g") <= UnitPrice(price, "500g") <= UnitPrice(price, "1kg")
    ensures price % 10 == 0 ==> UnitPrice(price, "100g") % 100 == 0
  {
    if price % 10 == 0 {
      var k := price / 10;
      assert UnitPrice(price, "100g") == 100 * k;
    }
  }

  /** Across the catalog every 100g price is a whole rupee and every price
      is positive, while a 250g price can end in half a rupee: Kala Chana
      (item "3", 250 rupees) costs 62.50 for 250g. */
  lemma CatalogUnitPrices()
    ensures forall i :: 0 <= i < |MENU_ITEMS| ==>
      UnitPrice(MENU_ITEMS[i].price, "100g") % 100 == 0 && UnitPrice(MENU_ITEMS[i].price, "250g") > 0
    ensures MENU_ITEMS[1].id == "3" && UnitPrice(MENU_ITEMS[1].price, "250g") == 6250
  {
    CatalogPrices();
    forall i | 0 <= i < |MENU_ITEMS|
      ensures UnitPrice(MENU_ITEMS[i].price, "100g") % 100 == 0 && UnitPrice(MENU_ITEMS[i].price, "250g") > 0
    {
      UnitPriceOrder(MENU_ITEMS[i].price);
    }
  }
}
