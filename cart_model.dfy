/**
 * The cart as the source holds it: a plain object `{ [key: string]: number }`.
 * Its keys always contain `_`, so a JavaScript object keeps them in
 * insertion order; `Object.entries` lists them in that order. The value is
 * modelled as that key order plus a map from key to quantity. Overwriting
 * an existing key keeps its place, a new key goes last, and deleting a key
 * leaves the others in order.
 */
module CartModel {
  import opened Wrappers

  datatype Entry = Entry(key: string, qty: int)

  datatype CartValue = CartValue(keys: seq<string>, quantities: map<string, int>)

  const EMPTY: CartValue := CartValue([], map[])

  /** No key appears twice in a key order. */
  ghost predicate NoDuplicates(keys: seq<string>)
  {
    forall i, j :: 0 <= i < j < |keys| ==> keys[i] != keys[j]
  }

  /** The key order lists each stored key exactly once. */
  ghost predicate WellFormed(c: CartValue)
  {
    && NoDuplicates(c.keys)
    && (forall k :: k in c.quantities <==> k in c.keys)
  }

  /** No line is stored with a quantity below 1. */
  ghost predicate AllPositive(c: CartValue)
  {
    forall k :: k in c.quantities ==> c.quantities[k] >= 1
  }

  /** `cart[key] || 0`: the stored quantity, or 0 for an absent key. */
  function QuantityOr0(c: CartValue, key: string): (q: int)
    ensures key !in c.quantities ==> q == 0
    ensures key in c.quantities ==> q == c.quantities[key]
  {
    if key in c.quantities then c.quantities[key] else 0
  }

  /** `Object.entries(cart)`: one entry per key, in key order. */
  function Entries(c: CartValue): (es: seq<Entry>)
    ensures |es| == |c.keys|
    ensures forall i :: 0 <= i < |es| ==> es[i].key == c.keys[i] && es[i].qty == QuantityOr0(c, c.keys[i])
  {
    seq(|c.keys|, i requires 0 <= i < |c.keys| => Entry(c.keys[i], QuantityOr0(c, c.keys[i])))
  }

  /** The key order with `key` taken out, the rest kept in order. */
  function RemoveKey(keys: seq<string>, key: string): (r: seq<string>)
    ensures forall k :: k in r <==> k in keys && k != key
    ensures key !in keys ==> r == keys
  {
    if |keys| == 0 then []
    else if keys[0] == key then RemoveKey(keys[1..], key)
    else [keys[0]] + RemoveKey(keys[1..], key)
  }

  /** `{ ...prev, [key]: value }`. */
  function Put(c: CartValue, key: string, value: int): (r: CartValue)
    requires WellFormed(c)
    ensures WellFormed(r)
    ensures r.quantities == c.quantities[key := value]
    ensures key in c.quantities ==> r.keys == c.keys
    ensures key !in c.quantities ==> r.keys == c.keys + [key]
  {
    if key in c.quantities then CartValue(c.keys, c.quantities[key := value])
    else CartValue(c.keys + [key], c.quantities[key := value])
  }

  /** `const { [key]: _, ...rest } = prev; rest`. */
  function Delete(c: CartValue, key: string): (r: CartValue)
    requires WellFormed(c)
    ensures WellFormed(r)
    ensures r.quantities == c.quantities - {key}
    ensures key !in c.quantities ==> r == c
  {
    RemoveKeyDistinct(c.keys, key);
    if key in c.quantities then CartValue(RemoveKey(c.keys, key), c.quantities - {key})
    else c
  }

  lemma NoDuplicatesTail(keys: seq<string>)
    requires NoDuplicates(keys) && |keys| > 0
    ensures NoDuplicates(keys[1..]) && keys[0] !in keys[1..]
  {
    forall a, b | 0 <= a < b < |keys[1..]| ensures keys[1..][a] != keys[1..][b] {
      assert keys[1..][a] == keys[a + 1] && keys[1..][b] == keys[b + 1];
    }
  }

  lemma {:induction false} RemoveKeyDistinct(keys: seq<string>, key: string)
    requires NoDuplicates(keys)
    ensures NoDuplicates(RemoveKey(keys, key))
  {
    if |keys| > 0 {
      NoDuplicatesTail(keys);
      RemoveKeyDistinct(keys[1..], key);
      var rest := RemoveKey(keys[1..], key);
      if keys[0] != key {
        assert keys[0] !in keys[1..];
        assert keys[0] !in rest;
        var r := [keys[0]] + rest;
        forall i, j | 0 <= i < j < |r| ensures r[i] != r[j] {
          assert r[j] == rest[j - 1];
          if i > 0 { assert r[i] == rest[i - 1]; }
          else { assert r[j] in rest; }
        }
        assert RemoveKey(keys, key) == r;
      }
    }
  }

  /** When `key` sits at position `i` of a duplicate-free key order, taking
      it out splices the sequence at `i`. */
  lemma {:induction false} RemoveKeyAt(keys: seq<string>, i: nat)
    requires NoDuplicates(keys)
    requires i < |keys|
    ensures RemoveKey(keys, keys[i]) == keys[..i] + keys[i + 1..]
  {
    if i == 0 {
      RemoveKeyHead(keys);
    } else {
      var tail := keys[1..];
      NoDuplicatesTail(keys);
      assert tail[i - 1] == keys[i];
      RemoveKeyAt(tail, i - 1);
      RemoveKeyCons(keys, i);
    }
  }

  /** One step of `RemoveKeyAt`: a splice of the tail, with the head kept
      in front, is a splice of the whole order. */
  lemma RemoveKeyCons(keys: seq<string>, i: nat)
    requires 0 < i < |keys| && keys[0] != keys[i]
    requires RemoveKey(keys[1..], keys[i]) == keys[1..][..i - 1] + keys[1..][i..]
    ensures RemoveKey(keys, keys[i]) == keys[..i] + keys[i + 1..]
  {
    var tail := keys[1..];
    assert tail[..i - 1] == keys[1..i] && tail[i..] == keys[i + 1..];
    calc {
      RemoveKey(keys, keys[i]);
      [keys[0]] + RemoveKey(tail, keys[i]);
      [keys[0]] + (keys[1..i] + keys[i + 1..]);
      ([keys[0]] + keys[1..i]) + keys[i + 1..];
      { assert keys[..i] == [keys[0]] + keys[1..i]; }
      keys[..i] + keys[i + 1..];
    }
  }

  lemma RemoveKeyHead(keys: seq<string>)
    requires NoDuplicates(keys) && |keys| > 0
    ensures RemoveKey(keys, keys[0]) == keys[1..]
  {
    NoDuplicatesTail(keys);
  }

  // ---------------------------------------------------------------------
  // Sums over the entries (`reduce((sum, e) => sum + f(e), 0)`)
  // ---------------------------------------------------------------------

  function Sum(es: seq<Entry>, f: Entry -> int): int
  {
    if |es| == 0 then 0 else f(es[0]) + Sum(es[1..], f)
  }

  lemma {:induction false} SumAppend(a: seq<Entry>, b: seq<Entry>, f: Entry -> int)
    ensures Sum(a + b, f) == Sum(a, f) + Sum(b, f)
  {
    if |a| == 0 {
      assert a + b == b;
    } else {
      SumAppend(a[1..], b, f);
      assert (a + b)[1..] == a[1..] + b;
    }
  }

  /** The entries of a cart after deleting a stored key are its entries
      with that one entry cut out. */
  lemma EntriesDelete(c: CartValue, i: nat)
    requires WellFormed(c)
    requires i < |c.keys|
    ensures Entries(Delete(c, c.keys[i])) == Entries(c)[..i] + Entries(c)[i + 1..]
  {
    RemoveKeyAt(c.keys, i);
    var d := Delete(c, c.keys[i]);
    var lhs, rhs := Entries(d), Entries(c)[..i] + Entries(c)[i + 1..];
    assert |lhs| == |rhs|;
    forall j | 0 <= j < |lhs| ensures lhs[j] == rhs[j] {
      if j < i {
        assert d.keys[j] == c.keys[j];
      } else {
        assert d.keys[j] == c.keys[j + 1];
        assert c.keys[j + 1] != c.keys[i];
      }
    }
  }

  /** Cutting one term out of a sequence takes it out of the sum. */
  lemma SumSplice(es: seq<Entry>, i: nat, f: Entry -> int)
    requires i < |es|
    ensures Sum(es, f) == f(es[i]) + Sum(es[..i] + es[i + 1..], f)
  {
    assert es == es[..i] + ([es[i]] + es[i + 1..]);
    SumAppend(es[..i], [es[i]] + es[i + 1..], f);
    SumAppend(es[..i], es[i + 1..], f);
    assert ([es[i]] + es[i + 1..])[1..] == es[i + 1..];
  }

  /** A sum over a cart is the stored line's term plus the sum over the
      cart without that line. */
  lemma SumDelete(c: CartValue, key: string, f: Entry -> int)
    requires WellFormed(c)
    requires key in c.quantities
    ensures Sum(Entries(c), f) == f(Entry(key, c.quantities[key])) + Sum(Entries(Delete(c, key)), f)
  {
    var i :| 0 <= i < |c.keys| && c.keys[i] == key;
    EntriesDelete(c, i);
    SumSplice(Entries(c), i, f);
  }

  /** Duplicate-free key orders have as many keys as the cart has lines. */
  lemma {:induction false} DistinctCard(keys: seq<string>)
    requires NoDuplicates(keys)
    ensures |set k | k in keys| == |keys|
  {
    if |keys| > 0 {
      NoDuplicatesTail(keys);
      DistinctCard(keys[1..]);
      assert (set k | k in keys) == {keys[0]} + (set k | k in keys[1..]);
      assert keys[0] !in keys[1..];
    }
  }

  lemma KeysCount(c: CartValue)
    requires WellFormed(c)
    ensures |c.quantities.Keys| == |c.keys|
  {
    DistinctCard(c.keys);
    assert c.quantities.Keys == set k | k in c.keys;
  }

  /** Sums over a cart depend only on which quantity is stored under which
      key, not on the order the keys were inserted in. */
  lemma {:induction false} SumIgnoresOrder(c: CartValue, d: CartValue, f: Entry -> int)
    requires WellFormed(c) && WellFormed(d)
    requires c.quantities == d.quantities
    ensures Sum(Entries(c), f) == Sum(Entries(d), f)
    decreases |c.keys|
  {
    KeysCount(c);
    KeysCount(d);
    if |c.keys| > 0 {
      var key := c.keys[0];
      SumDelete(c, key, f);
      SumDelete(d, key, f);
      RemoveKeyHead(c.keys);
      SumIgnoresOrder(Delete(c, key), Delete(d, key), f);
    }
  }

  /** Appending a new key adds its term to the sum. */
  lemma EntriesAppend(c: CartValue, key: string, value: int, f: Entry -> int)
    requires WellFormed(c)
    requires key !in c.quantities
    ensures Sum(Entries(Put(c, key, value)), f) == Sum(Entries(c), f) + f(Entry(key, value))
  {
    var r := Put(c, key, value);
    assert Entries(r) == Entries(c) + [Entry(key, value)] by {
      forall j | 0 <= j < |c.keys| ensures c.keys[j] != key {
        assert c.keys[j] in c.quantities;
      }
    }
    SumAppend(Entries(c), [Entry(key, value)], f);
  }

  /** Storing `value` under `key` replaces that key's term in every sum. */
  lemma SumPut(c: CartValue, key: string, value: int, f: Entry -> int)
    requires WellFormed(c)
    ensures Sum(Entries(Put(c, key, value)), f)
         == Sum(Entries(Delete(c, key)), f) + f(Entry(key, value))
  {
    var d := Delete(c, key);
    var r := Put(c, key, value);
    var appended := Put(d, key, value);
    EntriesAppend(d, key, value, f);
    SumIgnoresOrder(r, appended, f);
  }

  /** Storing `value` under `key` swaps that key's old term, if any, for
      the new one. */
  lemma SumAfterPut(c: CartValue, key: string, value: int, f: Entry -> int)
    requires WellFormed(c)
    ensures Sum(Entries(Put(c, key, value)), f)
         == Sum(Entries(c), f) - (if key in c.quantities then f(Entry(key, c.quantities[key])) else 0) + f(Entry(key, value))
  {
    SumPut(c, key, value, f);
    if key in c.quantities {
      SumDelete(c, key, f);
    }
  }

  /** Deleting `key` takes its term, if any, out of the sum. */
  lemma SumAfterDelete(c: CartValue, key: string, f: Entry -> int)
    requires WellFormed(c)
    ensures Sum(Entries(Delete(c, key)), f)
         == Sum(Entries(c), f) - (if key in c.quantities then f(Entry(key, c.quantities[key])) else 0)
  {
    if key in c.quantities {
      SumDelete(c, key, f);
    }
  }

  /** A sum of non-negative terms is non-negative, and positive exactly
      when some stored line has a positive term. */
  lemma {:induction false} SumPositive(c: CartValue, f: Entry -> int)
    requires WellFormed(c)
    requires forall k :: k in c.quantities ==> f(Entry(k, c.quantities[k])) >= 0
    ensures Sum(Entries(c), f) >= 0
    ensures Sum(Entries(c), f) > 0 <==> exists k :: k in c.quantities && f(Entry(k, c.quantities[k])) > 0
    decreases |c.keys|
  {
    KeysCount(c);
    if |c.keys| > 0 {
      var key := c.keys[0];
      var d := Delete(c, key);
      SumDelete(c, key, f);
      RemoveKeyHead(c.keys);
      SumPositive(d, f);
      if exists k :: k in c.quantities && f(Entry(k, c.quantities[k])) > 0 {
        var k :| k in c.quantities && f(Entry(k, c.quantities[k])) > 0;
        if k != key {
          assert k in d.quantities && d.quantities[k] == c.quantities[k];
        }
      }
    } else {
      assert c.quantities.Keys == {};
    }
  }
}
