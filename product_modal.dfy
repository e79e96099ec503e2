/**
 * The product details dialog (components/ProductDetailsModal.tsx). It keeps
 * a selected pack size and a quantity field `inputQty`; every change to the
 * field is pushed straight to the page's cart with `updateQuantity`, and an
 * effect pulls the field back from the cart whenever the cart, the item or
 * the pack size changes. The page opens it by setting `item` (`isOpen` is
 * `!!item`).
 */
module ProductDetails {
  import opened Wrappers
  import opened Catalog
  import opened Pricing
  import opened CartKey
  import opened CartModel
  import opened App

  /** The pack-size buttons, in the order shown. */
  const PACK_BUTTONS: seq<string> := ["100g", "250g", "500g", "1kg"]

  /** The dialog offers the menu card's pack sizes, smallest first, so its
      buttons run from the cheapest pack to the dearest. */
  lemma PackButtonsMatchTable(price: nat)
    ensures |PACK_BUTTONS| == |PACK_SIZES|
    ensures forall i :: 0 <= i < |PACK_BUTTONS| ==> PACK_BUTTONS[i] == PACK_SIZES[|PACK_SIZES| - 1 - i].0
    ensures forall i :: 0 <= i < |PACK_BUTTONS| - 1 ==> UnitPrice(price, PACK_BUTTONS[i]) <= UnitPrice(price, PACK_BUTTONS[i + 1])
  {
    UnitPriceOrder(price);
  }

  /** What `handleQtyChange(val)` pushes, given what `parseInt(val)`
      returned (`None` for NaN): a parsed number of at least 0 as it is,
      0 for an empty field, and nothing for anything else. */
  function QtyChangeTarget(val: string, parsed: Option<int>): (t: Option<int>)
    ensures t.Some? ==> t.value >= 0
    ensures t.None? <==> val != "" && (parsed.None? || parsed.value < 0)
    ensures parsed.Some? && parsed.value >= 0 ==> t == parsed
  {
    if parsed.Some? && parsed.value >= 0 then parsed
    else if val == "" then Some(0)
    else None
  }

  /** After pushing `n >= 0` for a line, the cart holds `n` for it (absent
      when `n` is 0), so the sync effect reads back exactly `n`. */
  lemma PushThenSync(c: CartValue, itemId: string, weight: string, n: int)
    requires WellFormed(c) && n >= 0
    ensures QuantityOr0(AfterUpdateQuantity(c, itemId, weight, n), Key(itemId, weight)) == n
    ensures n == 0 ==> Key(itemId, weight) !in AfterUpdateQuantity(c, itemId, weight, n).quantities
  {
  }

  /** The subtotal row is shown. */
  predicate ShowSubtotal(inputQty: int)
  {
    inputQty > 0
  }

  /** With every line at least 1 and the field in step with the cart, the
      subtotal row shows exactly when the selected pack size is in the
      cart. */
  lemma SubtotalShownIff(c: CartValue, item: MenuItem, selectedWeight: string)
    requires AllPositive(c)
    ensures ShowSubtotal(QuantityOr0(c, Key(item.id, selectedWeight))) <==> Key(item.id, selectedWeight) in c.quantities
  {
  }

  /** `currentPrice * inputQty`, in paise. */
  function Subtotal(item: MenuItem, selectedWeight: string, inputQty: int): int
  {
    UnitPrice(item.price, selectedWeight) * inputQty
  }

  /** With the field in step with the cart, the subtotal is exactly that
      line's share of the page's total. */
  lemma SubtotalIsLineShare(c: CartValue, item: MenuItem, selectedWeight: string)
    requires WellFormed(c)
    requires item in MENU_ITEMS && '_' !in selectedWeight
    ensures Subtotal(item, selectedWeight, QuantityOr0(c, Key(item.id, selectedWeight)))
         == CalculateTotal(MENU_ITEMS, c) - CalculateTotal(MENU_ITEMS, Delete(c, Key(item.id, selectedWeight)))
  {
    CatalogItem(item);
    SubtotalIsLineShareFound(MENU_ITEMS, c, item, selectedWeight);
  }

  lemma SubtotalIsLineShareFound(catalog: seq<MenuItem>, c: CartValue, item: MenuItem, selectedWeight: string)
    requires WellFormed(c)
    requires FindById(catalog, item.id) == Some(item) && '_' !in item.id && '_' !in selectedWeight
    ensures Subtotal(item, selectedWeight, QuantityOr0(c, Key(item.id, selectedWeight)))
         == CalculateTotal(catalog, c) - CalculateTotal(catalog, Delete(c, Key(item.id, selectedWeight)))
  {
    var key := Key(item.id, selectedWeight);
    SumAfterDelete(c, key, LineTotalOf(catalog));
    LineTotalOfKey(catalog, item.id, selectedWeight, QuantityOr0(c, key));
  }

  /** The dialog's state. It shares the page's cart. */
  class DetailsModal {
    const cart: ShoppingCart
    var item: Option<MenuItem>
    var selectedWeight: string
    var inputQty: int

    ghost predicate Valid()
      reads this, cart
    {
      cart.Valid() && inputQty >= 0
    }

    /** The field shows what the cart holds for the selected pack size. */
    ghost predicate Synced()
      reads this, cart
      requires item.Some?
    {
      inputQty == QuantityOr0(cart.Value(), Key(item.value.id, selectedWeight))
    }

    /** `useState('1kg')`, `useState(0)`, closed. */
    constructor (cart: ShoppingCart)
      requires cart.Valid()
      ensures this.cart == cart && Valid()
      ensures item.None? && selectedWeight == "1kg" && inputQty == 0
    {
      this.cart := cart;
      item := None;
      selectedWeight := "1kg";
      inputQty := 0;
    }

    /** The page selects an item. Going from closed to open resets the
      pack size to 1 kg; the sync effect then reads the field from the
      cart. */
    method Open(it: MenuItem)
      requires Valid()
      modifies this
      ensures Valid() && item == Some(it) && Synced()
      ensures old(item).None? ==> selectedWeight == "1kg"
      ensures old(item).Some? ==> selectedWeight == old(selectedWeight)
    {
      if item.None? {
        selectedWeight := "1kg";
      }
      item := Some(it);
      inputQty := QuantityOr0(cart.Value(), Key(it.id, selectedWeight));
    }

    method Close()
      requires Valid()
      modifies this
      ensures Valid()
      ensures item.None?
      ensures selectedWeight == old(selectedWeight) && inputQty == old(inputQty)
    {
      item := None;
    }

    /** The sync effect after the cart changed elsewhere. */
    method SyncFromCart()
      requires Valid() && item.Some?
      modifies this
      ensures item == old(item) && selectedWeight == old(selectedWeight)
      ensures Valid() && Synced()
    {
      inputQty := QuantityOr0(cart.Value(), Key(item.value.id, selectedWeight));
    }

    /** A pack-size button, followed by the sync effect. */
    method SelectWeight(weight: string)
      requires Valid() && item.Some?
      modifies this
      ensures item == old(item) && selectedWeight == weight
      ensures Valid() && Synced()
    {
      selectedWeight := weight;
      inputQty := QuantityOr0(cart.Value(), Key(item.value.id, selectedWeight));
    }

    /** `handleQtyChange(val)`, with `parseInt(val)` given as `parsed`. */
    method HandleQtyChange(val: string, parsed: Option<int>)
      requires Valid() && item.Some?
      modifies this, cart
      ensures Valid() && item == old(item) && selectedWeight == old(selectedWeight)
      ensures var t := QtyChangeTarget(val, parsed);
        t.Some? ==> (inputQty == t.value && Synced()
          && cart.Value() == AfterUpdateQuantity(old(cart.Value()), item.value.id, selectedWeight, t.value))
      ensures QtyChangeTarget(val, parsed).None? ==> inputQty == old(inputQty) && cart.Value() == old(cart.Value())
      ensures val == "" && parsed.None? ==> inputQty == 0 && Key(item.value.id, selectedWeight) !in cart.Value().quantities
    {
      if parsed.Some? && parsed.value >= 0 {
        inputQty := parsed.value;
        PushThenSync(cart.Value(), item.value.id, selectedWeight, parsed.value);
        cart.UpdateQuantity(item.value.id, selectedWeight, parsed.value);
      } else if val == "" {
        inputQty := 0;
        PushThenSync(cart.Value(), item.value.id, selectedWeight, 0);
        cart.UpdateQuantity(item.value.id, selectedWeight, 0);
      }
    }

    /** `increment`. */
    method Increment()
      requires Valid() && item.Some?
      modifies this, cart
      ensures Valid() && item == old(item) && selectedWeight == old(selectedWeight)
      ensures inputQty == old(inputQty) + 1 && Synced()
      ensures cart.Value() == AfterUpdateQuantity(old(cart.Value()), item.value.id, selectedWeight, inputQty)
    {
      var newQty := inputQty + 1;
      inputQty := newQty;
      PushThenSync(cart.Value(), item.value.id, selectedWeight, newQty);
      cart.UpdateQuantity(item.value.id, selectedWeight, newQty);
    }

    /** `decrement`: nothing at 0, so the field never goes negative; from 1
      it pushes 0, which deletes the line. */
    method Decrement()
      requires Valid() && item.Some?
      modifies this, cart
      ensures Valid() && item == old(item) && selectedWeight == old(selectedWeight)
      ensures old(inputQty) == 0 ==> inputQty == 0 && cart.Value() == old(cart.Value())
      ensures old(inputQty) > 0 ==> (inputQty == old(inputQty) - 1 && Synced()
        && cart.Value() == AfterUpdateQuantity(old(cart.Value()), item.value.id, selectedWeight, inputQty))
      ensures old(inputQty) == 1 ==> Key(item.value.id, selectedWeight) !in cart.Value().quantities
    {
      if inputQty > 0 {
        var newQty := inputQty - 1;
        inputQty := newQty;
        PushThenSync(cart.Value(), item.value.id, selectedWeight, newQty);
        cart.UpdateQuantity(item.value.id, selectedWeight, newQty);
      }
    }
  }
}
