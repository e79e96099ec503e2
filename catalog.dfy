/**
 * The product catalog: the `MenuItem` record with its closed set of
 * categories (types.ts), the literal list `MENU_ITEMS`, the lookup
 * `MENU_ITEMS.find(i => i.id === itemId)` used by every view, and the
 * de-duplicated category list `CATEGORIES` (constants.ts).
 */
module Catalog {
  import opened Wrappers
  import opened Text

  datatype Category = Legumes | Snacks | Specials

  /** The category as the string the source compares and searches. */
  function CategoryName(c: Category): (name: string)
    ensures |name| > 0
  {
    match c
    case Legumes => "Legumes"
    case Snacks => "Snacks"
    case Specials => "Specials"
  }

  /** A product; `price` is whole rupees for the 1 kg pack. The picture URL
      is display-only and is not part of this model. */
  datatype MenuItem = MenuItem(
    id: string,
    name: string,
    price: nat,
    category: Category,
    description: Option<string>)

  // The literal catalog, in the order and sections of the source file.

  const LEGUMES_AND_ROASTED: seq<MenuItem> := [
    MenuItem("2", "Roasted Chana", 200, Legumes, Some("Roasted chickpeas with skin intact.")),
    MenuItem("3", "Kala Chana", 250, Legumes, Some("Black chickpeas, rich in fiber and iron.")),
    MenuItem("4", "Peanuts Plain", 220, Legumes, Some("Classic roasted peanuts.")),
    MenuItem("5", "Peanuts Salted", 220, Legumes, Some("Salted roasted peanuts.")),
    MenuItem("6", "Peanuts Masala", 240, Legumes, Some("Spicy coated roasted peanuts.")),
    MenuItem("7", "Masala Dal", 240, Legumes, Some("Spicy roasted chana dal.")),
    MenuItem("8", "Sada Daliya", 180, Legumes, Some("Roasted split chickpeas (Dalia).")),
    MenuItem("10", "Vatana (Yellow Peas)", 200, Legumes, Some("Roasted dried Yellow peas.")),
    MenuItem("11", "Green Gram", 260, Legumes, Some("Roasted green gram.")),
    MenuItem("12", "Chana Jor", 240, Legumes, Some("Flattened roasted chickpeas.")),
    MenuItem("13", "Sing Bhujia", 240, Snacks, Some("Spicy besan coated peanuts."))
  ]

  const KURMURA_POHA_AND_CORN: seq<MenuItem> := [
    MenuItem("16", "Bhadang Kurmura", 200, Snacks, Some("Spicy puffed rice snack from Western India.")),
    MenuItem("18", "Makai (Corn) Plain", 180, Legumes, Some("Roasted corn kernels."))
  ]

  const SEV_AND_FARSAN: seq<MenuItem> := [
    MenuItem("23", "Nylon Sev", 180, Snacks, Some("Fine sev for chaat toppings.")),
    MenuItem("25", "Ratlami Sev", 200, Snacks, Some("Spicy clove-flavored sev.")),
    MenuItem("28", "Aloo Bhujia", 220, Snacks, Some("Potato and gram flour noodles.")),
    MenuItem("29", "Bhavnagri Gathiya", 200, Snacks, Some("Thick, soft spiced gram flour sticks.")),
    MenuItem("31", "Papdi Gathiya", 200, Snacks, Some("Flat crispy gathiya."))
  ]

  const MIXTURES_AND_CHIVDA: seq<MenuItem> := [
    MenuItem("32", "Mix Farsan", 180, Snacks, Some("Spicy mixture for Misal and Usal.")),
    MenuItem("33", "Cornflakes Chivda", 200, Snacks, Some("Sweet and spicy cornflakes mixture.")),
    MenuItem("34", "Lasun Chivda", 200, Snacks, Some("Roasted Chivda mixture.")),
    MenuItem("36", "Khatta Meetha Mix", 200, Snacks, Some("Sweet and sour savory mix.")),
    MenuItem("37", "Chakli", 220, Snacks, Some("Spiraled savory crunchy snack.")),
    MenuItem("38", "Bakarwadi", 240, Snacks, Some("Crispy fried rolls stuffed with spices.")),
    MenuItem("39", "Soya Sticks", 200, Snacks, Some("Crunchy soya flavored sticks."))
  ]

  const CHIPS_AND_WAFERS: seq<MenuItem> := [
    MenuItem("40", "Banana Chips (Yellow)", 240, Snacks, Some("Salted banana chips.")),
    MenuItem("41", "Banana Chips (Mari)", 240, Snacks, Some("Black pepper banana chips.")),
    MenuItem("42", "Potato Wafers (Salted)", 280, Snacks, Some("Classic salted potato chips.")),
    MenuItem("43", "Potato Wafers (Masala)", 280, Snacks, Some("Spiced potato chips."))
  ]

  const CHAAT_ESSENTIALS: seq<MenuItem> := [
    MenuItem("45", "Pani Puri (100 pcs)", 50, Specials, Some("Ready to fry or eat Pani Puris.")),
    MenuItem("46", "Sev Puri", 160, Specials, Some("Flat puris for Sev Puri.")),
    MenuItem("47", "Khari Boondi", 200, Specials, Some("Salted boondi for Raita or Pani Puri.")),
    MenuItem("48", "Masala Boondi", 180, Specials, Some("Spiced boondi."))
  ]

  const SWEETS_AND_DRY_FRUITS: seq<MenuItem> := [
    MenuItem("51", "Rajgira", 280, Specials, Some("Amaranth seed."))
  ]

  const MENU_ITEMS: seq<MenuItem> :=
    LEGUMES_AND_ROASTED + KURMURA_POHA_AND_CORN + SEV_AND_FARSAN + MIXTURES_AND_CHIVDA
    + CHIPS_AND_WAFERS + CHAAT_ESSENTIALS + SWEETS_AND_DRY_FRUITS

  // ---------------------------------------------------------------------
  // Lookup by id
  // ---------------------------------------------------------------------

  /** `items.find(i => i.id === id)`: the first item with that id, if any. */
  function FindById(items: seq<MenuItem>, id: string): (r: Option<MenuItem>)
    ensures r.Some? ==> r.value in items && r.value.id == id
    ensures r.None? <==> forall i :: 0 <= i < |items| ==> items[i].id != id
    ensures r.Some? ==> exists k :: 0 <= k < |items| && items[k] == r.value && forall j :: 0 <= j < k ==> items[j].id != id
  {
    if |items| == 0 then None
    else if items[0].id == id then Some(items[0])
    else
      var r := FindById(items[1..], id);
      if r.Some? then
        var k :| 0 <= k < |items| - 1 && items[1..][k] == r.value && forall j :: 0 <= j < k ==> items[1..][j].id != id;
        assert items[k + 1] == r.value;
        assert forall j :: 0 <= j < k + 1 ==> items[j].id != id by {
          forall j | 0 <= j < k + 1 ensures items[j].id != id {
            if j > 0 { assert items[j] == items[1..][j - 1]; }
          }
        }
        r
      else r
  }

  /** No two items share an id. */
  ghost predicate DistinctIds(items: seq<MenuItem>)
  {
    forall i, j :: 0 <= i < j < |items| ==> items[i].id != items[j].id
  }

  /** With distinct ids, the lookup returns exactly the item listed under
      that id. */
  lemma {:induction false} FindListed(items: seq<MenuItem>, k: nat)
    requires DistinctIds(items)
    requires k < |items|
    ensures FindById(items, items[k].id) == Some(items[k])
  {
    if k > 0 {
      assert items[0].id != items[k].id;
      assert items[1..][k - 1] == items[k];
      FindListed(items[1..], k - 1);
    }
  }

  // ---------------------------------------------------------------------
  // CATEGORIES = Array.from(new Set(MENU_ITEMS.map(i => i.category)))
  // ---------------------------------------------------------------------

  /** The values of `s` in order of first appearance, each once: what
      inserting them one by one into a `Set` and reading it back gives. */
  function Dedup(s: seq<Category>): (r: seq<Category>)
    ensures forall x :: x in r <==> x in s
    ensures forall i, j :: 0 <= i < j < |r| ==> r[i] != r[j]
  {
    if |s| == 0 then []
    else
      var d := Dedup(s[..|s| - 1]);
      if s[|s| - 1] in d then d else d + [s[|s| - 1]]
  }

  function CategoriesOf(items: seq<MenuItem>): (cs: seq<Category>)
    ensures |cs| == |items|
    ensures forall i :: 0 <= i < |items| ==> cs[i] == items[i].category
  {
    seq(|items|, i requires 0 <= i < |items| => items[i].category)
  }

  const CATEGORIES: seq<Category> := Dedup(CategoriesOf(MENU_ITEMS))

  /** First position of `x` in `s`. */
  function FirstIndex(s: seq<Category>, x: Category): (k: nat)
    requires x in s
    ensures k < |s| && s[k] == x
    ensures forall i :: 0 <= i < k ==> s[i] != x
  {
    if s[0] == x then 0 else 1 + FirstIndex(s[1..], x)
  }

  /** A value's first position does not move when the sequence grows. */
  lemma FirstIndexPrefix(s: seq<Category>, n: nat, x: Category)
    requires n <= |s|
    requires x in s[..n]
    ensures FirstIndex(s, x) == FirstIndex(s[..n], x)
  {
    var k := FirstIndex(s[..n], x);
    assert s[k] == x;
    var m := FirstIndex(s, x);
    assert m <= k;
    assert s[..n][m] == x;
  }

  /** `Dedup` lists values in order of their first appearance in `s`. */
  lemma {:induction false} DedupFirstAppearance(s: seq<Category>)
    ensures forall i, j :: 0 <= i < j < |Dedup(s)| ==>
      FirstIndex(s, Dedup(s)[i]) < FirstIndex(s, Dedup(s)[j])
  {
    if |s| > 0 {
      var n := |s| - 1;
      var p := s[..n];
      var d := Dedup(p);
      DedupFirstAppearance(p);
      forall y | y in d ensures FirstIndex(s, y) == FirstIndex(p, y) && FirstIndex(p, y) < n {
        FirstIndexPrefix(s, n, y);
      }
      if s[n] !in d {
        assert s[n] !in p;
        assert FirstIndex(s, s[n]) == n by {
          forall i | 0 <= i < n ensures s[i] != s[n] { assert s[i] == p[i]; }
        }
      }
      var r := Dedup(s);
      forall i, j | 0 <= i < j < |r|
        ensures FirstIndex(s, r[i]) < FirstIndex(s, r[j])
      {
        assert r[i] == d[i];
        if j < |d| {
          assert r[j] == d[j];
        }
      }
    }
  }

  /** `CATEGORIES` holds every category of the catalog and nothing else. */
  lemma CategoriesComplete()
    ensures forall i :: 0 <= i < |MENU_ITEMS| ==> MENU_ITEMS[i].category in CATEGORIES
    ensures forall c :: c in CATEGORIES ==> exists i :: 0 <= i < |MENU_ITEMS| && MENU_ITEMS[i].category == c
    ensures forall i, j :: 0 <= i < j < |CATEGORIES| ==> CATEGORIES[i] != CATEGORIES[j]
  {
    var cs := CategoriesOf(MENU_ITEMS);
    forall i | 0 <= i < |MENU_ITEMS| ensures MENU_ITEMS[i].category in CATEGORIES {
      assert cs[i] in cs;
    }
    forall c | c in CATEGORIES ensures exists i :: 0 <= i < |MENU_ITEMS| && MENU_ITEMS[i].category == c {
      var i := FirstIndex(cs, c);
      assert MENU_ITEMS[i].category == c;
    }
  }

  /** The first Legumes item is "2" (position 0), the first Snacks item
      "13" (position 10) and the first Specials item "45" (position 29). */
  lemma CatalogFirstOccurrences()
    ensures Legumes in CategoriesOf(MENU_ITEMS) && Snacks in CategoriesOf(MENU_ITEMS)
    ensures Specials in CategoriesOf(MENU_ITEMS)
    ensures FirstIndex(CategoriesOf(MENU_ITEMS), Legumes) == 0
    ensures FirstIndex(CategoriesOf(MENU_ITEMS), Snacks) == 10
    ensures FirstIndex(CategoriesOf(MENU_ITEMS), Specials) == 29
  {
    var cs := CategoriesOf(MENU_ITEMS);
    assert cs[0] == Legumes && cs[10] == Snacks && cs[29] == Specials;
    assert Legumes in cs && Snacks in cs && Specials in cs;
    LegumesLead();
    NoSpecialsBefore29();
  }

  /** The first ten items are all Legumes. */
  lemma LegumesLead()
    ensures forall i :: 0 <= i < 10 ==> MENU_ITEMS[i].category == Legumes
  {
    forall i | 0 <= i < 10 ensures MENU_ITEMS[i].category == Legumes {
      assert MENU_ITEMS[i] == LEGUMES_AND_ROASTED[i];
    }
  }

  /** No item before position 29 is a Special. */
  lemma NoSpecialsBefore29()
    ensures forall i :: 0 <= i < 29 ==> MENU_ITEMS[i].category != Specials
  {
  }

  /** A duplicate-free list that holds all three categories and lists them
      by increasing `rank` is the three categories in rank order. */
  lemma ThreeInRankOrder(r: seq<Category>, rank: Category -> int)
    requires forall i, j :: 0 <= i < j < |r| ==> r[i] != r[j]
    requires Legumes in r && Snacks in r && Specials in r
    requires forall i, j :: 0 <= i < j < |r| ==> rank(r[i]) < rank(r[j])
    requires rank(Legumes) < rank(Snacks) < rank(Specials)
    ensures r == [Legumes, Snacks, Specials]
  {
    var a, b, c :| 0 <= a < |r| && 0 <= b < |r| && 0 <= c < |r| && r[a] == Legumes && r[b] == Snacks && r[c] == Specials;
    assert a < b < c;
    IndexOfCategory(r, a, b, c, 0);
    IndexOfCategory(r, a, b, c, 1);
    IndexOfCategory(r, a, b, c, 2);
    assert |r| == 3;
  }

  /** In a duplicate-free list holding each category at a known position,
      every position is one of those three. */
  lemma IndexOfCategory(r: seq<Category>, a: nat, b: nat, c: nat, i: nat)
    requires forall i, j :: 0 <= i < j < |r| ==> r[i] != r[j]
    requires a < |r| && b < |r| && c < |r| && r[a] == Legumes && r[b] == Snacks && r[c] == Specials
    requires i < |r|
    ensures i == a || i == b || i == c
  {
    match r[i]
    case Legumes => assert r[i] == r[a];
    case Snacks => assert r[i] == r[b];
    case Specials => assert r[i] == r[c];
  }

  /** For this catalog the categories come out as Legumes, Snacks,
      Specials: the order in which they first occur. */
  lemma CategoriesInOrder()
    ensures CATEGORIES == [Legumes, Snacks, Specials]
  {
    var cs := CategoriesOf(MENU_ITEMS);
    CatalogFirstOccurrences();
    DedupFirstAppearance(cs);
    var rank := (c: Category) => if c in cs then FirstIndex(cs, c) else 0;
    assert Legumes in CATEGORIES && Snacks in CATEGORIES && Specials in CATEGORIES;
    assert rank(Legumes) == 0 && rank(Snacks) == 10 && rank(Specials) == 29;
    forall i, j | 0 <= i < j < |CATEGORIES| ensures rank(CATEGORIES[i]) < rank(CATEGORIES[j]) {
      assert CATEGORIES[i] in cs && CATEGORIES[j] in cs;
    }
    ThreeInRankOrder(CATEGORIES, rank);
  }

  // ---------------------------------------------------------------------
  // Facts about the literal catalog
  // ---------------------------------------------------------------------

  /** Lexicographic order on strings of equal length. */
  predicate LexLess(a: string, b: string)
  {
    |a| > 0 && |b| > 0 && (a[0] < b[0] || (a[0] == b[0] && LexLess(a[1..], b[1..])))
  }

  /** Numeric order on digit strings without leading zeros: shorter first,
      then lexicographic. */
  predicate IdLess(a: string, b: string)
  {
    |a| < |b| || (|a| == |b| && LexLess(a, b))
  }

  lemma {:induction false} LexLessIrreflexive(a: string)
    ensures !LexLess(a, a)
  {
    if |a| > 0 {
      LexLessIrreflexive(a[1..]);
    }
  }

  lemma {:induction false} LexLessTransitive(a: string, b: string, c: string)
    requires LexLess(a, b) && LexLess(b, c)
    ensures LexLess(a, c)
  {
    if a[0] == b[0] && b[0] == c[0] {
      LexLessTransitive(a[1..], b[1..], c[1..]);
    }
  }

  lemma IdLessTransitive(a: string, b: string, c: string)
    requires IdLess(a, b) && IdLess(b, c)
    ensures IdLess(a, c)
  {
    if |a| == |b| == |c| {
      LexLessTransitive(a, b, c);
    }
  }

  /** Ids that increase from each item to the next are pairwise distinct. */
  lemma {:induction false} IncreasingIdsDistinct(items: seq<MenuItem>)
    requires IdsIncreasing(items)
    ensures DistinctIds(items)
  {
    if |items| > 1 {
      var tail := items[1..];
      IncreasingIdsDistinct(tail);
      forall j | 1 <= j < |items| ensures IdLess(items[0].id, items[j].id) {
        var k := 1;
        while k < j
          invariant 1 <= k <= j
          invariant IdLess(items[0].id, items[k].id)
        {
          IdLessTransitive(items[0].id, items[k].id, items[k + 1].id);
          k := k + 1;
        }
      }
      forall i, j | 0 <= i < j < |items| ensures items[i].id != items[j].id {
        if i == 0 {
          LexLessIrreflexive(items[0].id);
        } else {
          assert items[i] == tail[i - 1] && items[j] == tail[j - 1];
        }
      }
    }
  }

  /** Each id is numerically below the next one. */
  predicate IdsIncreasing(items: seq<MenuItem>)
  {
    forall i :: 0 <= i < |items| - 1 ==> IdLess(items[i].id, items[i + 1].id)
  }

  /** Two increasing runs joined where the first one's last id is below the
      second one's first id make one increasing run. */
  lemma IncreasingAppend(a: seq<MenuItem>, b: seq<MenuItem>)
    requires |a| > 0 && |b| > 0
    requires IdsIncreasing(a) && IdsIncreasing(b) && IdLess(a[|a| - 1].id, b[0].id)
    ensures IdsIncreasing(a + b) && (a + b)[|a + b| - 1] == b[|b| - 1]
  {
    var ab := a + b;
    forall i | 0 <= i < |ab| - 1 ensures IdLess(ab[i].id, ab[i + 1].id) {
      if i < |a| - 1 {
        assert ab[i] == a[i] && ab[i + 1] == a[i + 1];
      } else if i == |a| - 1 {
        assert ab[i] == a[|a| - 1] && ab[i + 1] == b[0];
      } else {
        assert ab[i] == b[i - |a|] && ab[i + 1] == b[i - |a| + 1];
      }
    }
  }

  lemma LegumesAndRoastedIncreasing()
    ensures IdsIncreasing(LEGUMES_AND_ROASTED)
  {
    forall i | 0 <= i < |LEGUMES_AND_ROASTED| - 1 ensures IdLess(LEGUMES_AND_ROASTED[i].id, LEGUMES_AND_ROASTED[i + 1].id) {
      if i == 0 {
      } else if i == 1 {
      } else if i == 2 {
      } else if i == 3 {
      } else if i == 4 {
      } else if i == 5 {
      } else if i == 6 {
      } else if i == 7 {
      } else if i == 8 {
      } else {
        assert i == 9;
      }
    }
  }

  lemma KurmuraPohaAndCornIncreasing()
    ensures IdsIncreasing(KURMURA_POHA_AND_CORN)
  {
  }

  lemma SevAndFarsanIncreasing()
    ensures IdsIncreasing(SEV_AND_FARSAN)
  {
    forall i | 0 <= i < |SEV_AND_FARSAN| - 1 ensures IdLess(SEV_AND_FARSAN[i].id, SEV_AND_FARSAN[i + 1].id) {
      if i == 0 {
      } else if i == 1 {
      } else if i == 2 {
      } else {
        assert i == 3;
      }
    }
  }

  lemma MixturesAndChivdaIncreasing()
    ensures IdsIncreasing(MIXTURES_AND_CHIVDA)
  {
    forall i | 0 <= i < |MIXTURES_AND_CHIVDA| - 1 ensures IdLess(MIXTURES_AND_CHIVDA[i].id, MIXTURES_AND_CHIVDA[i + 1].id) {
      if i == 0 {
      } else if i == 1 {
      } else if i == 2 {
      } else if i == 3 {
      } else if i == 4 {
      } else {
        assert i == 5;
      }
    }
  }

  lemma ChipsAndWafersIncreasing()
    ensures IdsIncreasing(CHIPS_AND_WAFERS)
  {
    forall i | 0 <= i < |CHIPS_AND_WAFERS| - 1 ensures IdLess(CHIPS_AND_WAFERS[i].id, CHIPS_AND_WAFERS[i + 1].id) {
      if i == 0 {
      } else if i == 1 {
      } else {
        assert i == 2;
      }
    }
  }

  lemma ChaatEssentialsIncreasing()
    ensures IdsIncreasing(CHAAT_ESSENTIALS)
  {
    forall i | 0 <= i < |CHAAT_ESSENTIALS| - 1 ensures IdLess(CHAAT_ESSENTIALS[i].id, CHAAT_ESSENTIALS[i + 1].id) {
      if i == 0 {
      } else if i == 1 {
      } else {
        assert i == 2;
      }
    }
  }

  lemma SweetsAndDryFruitsIncreasing()
    ensures IdsIncreasing(SWEETS_AND_DRY_FRUITS)
  {
  }

  /** Each catalog id is numerically below the next one. */
  lemma CatalogIdsIncreasing()
    ensures IdsIncreasing(MENU_ITEMS)
  {
    LegumesAndRoastedIncreasing();
    KurmuraPohaAndCornIncreasing();
    SevAndFarsanIncreasing();
    MixturesAndChivdaIncreasing();
    ChipsAndWafersIncreasing();
    ChaatEssentialsIncreasing();
    SweetsAndDryFruitsIncreasing();
    var s := LEGUMES_AND_ROASTED;
    IncreasingAppend(s, KURMURA_POHA_AND_CORN);
    s := s + KURMURA_POHA_AND_CORN;
    IncreasingAppend(s, SEV_AND_FARSAN);
    s := s + SEV_AND_FARSAN;
    IncreasingAppend(s, MIXTURES_AND_CHIVDA);
    s := s + MIXTURES_AND_CHIVDA;
    IncreasingAppend(s, CHIPS_AND_WAFERS);
    s := s + CHIPS_AND_WAFERS;
    IncreasingAppend(s, CHAAT_ESSENTIALS);
    s := s + CHAAT_ESSENTIALS;
    IncreasingAppend(s, SWEETS_AND_DRY_FRUITS);
  }

  /** The catalog lists ids in increasing numeric order, so no two items
      share an id and the lookup by id finds each item exactly. */
  lemma CatalogIdsDistinct()
    ensures DistinctIds(MENU_ITEMS)
    ensures forall k :: 0 <= k < |MENU_ITEMS| ==> FindById(MENU_ITEMS, MENU_ITEMS[k].id) == Some(MENU_ITEMS[k])
  {
    CatalogIdsIncreasing();
    IncreasingIdsDistinct(MENU_ITEMS);
    forall k | 0 <= k < |MENU_ITEMS| ensures FindById(MENU_ITEMS, MENU_ITEMS[k].id) == Some(MENU_ITEMS[k]) {
      FindListed(MENU_ITEMS, k);
    }
  }

  /** A non-empty string of decimal digits. */
  predicate DigitString(s: string)
  {
    |s| > 0 && forall k :: 0 <= k < |s| ==> IsDigit(s[k])
  }

  lemma CatalogIdsDigits()
    ensures forall i :: 0 <= i < |MENU_ITEMS| ==> DigitString(MENU_ITEMS[i].id)
  {
  }

  /** Every catalog id is a non-empty string of decimal digits; in
      particular none contains the cart-key separator `_`. */
  lemma CatalogIdsNumeric()
    ensures forall i :: 0 <= i < |MENU_ITEMS| ==> DigitString(MENU_ITEMS[i].id)
    ensures forall i :: 0 <= i < |MENU_ITEMS| ==> '_' !in MENU_ITEMS[i].id
  {
    CatalogIdsDigits();
    forall i | 0 <= i < |MENU_ITEMS| ensures '_' !in MENU_ITEMS[i].id {
      var id := MENU_ITEMS[i].id;
      forall k | 0 <= k < |id| ensures id[k] != '_' { assert IsDigit(id[k]); }
    }
  }

  /** Every price is a positive whole multiple of 10 rupees. */
  lemma CatalogPrices()
    ensures forall i :: 0 <= i < |MENU_ITEMS| ==> MENU_ITEMS[i].price > 0 && MENU_ITEMS[i].price % 10 == 0
  {
  }

  /** The Kala Chana entry of the menu. */
  const KALA_CHANA: MenuItem := MenuItem("3", "Kala Chana", 250, Legumes, Some("Black chickpeas, rich in fiber and iron."))

  lemma KalaChanaListed()
    ensures KALA_CHANA in MENU_ITEMS && MENU_ITEMS[1] == KALA_CHANA
  {
    assert LEGUMES_AND_ROASTED[1] == KALA_CHANA;
    assert MENU_ITEMS[1] == LEGUMES_AND_ROASTED[1];
  }
}
