/**
 * The cart's composite key. A line for item `itemId` in pack size `weight`
 * is stored under the single string `itemId + "_" + weight`; the views take
 * it apart again with `key.split('_')` and read the first two pieces.
 */
module CartKey {
  import opened Wrappers
  import opened Text

  /** `${itemId}_${weight}`. */
  function Key(itemId: string, weight: string): (key: string)
    ensures |key| == |itemId| + 1 + |weight|
    ensures key[|itemId|] == '_'
  {
    itemId + "_" + weight
  }

  /** `const [itemId, weight] = key.split('_')`: `weight` is `undefined`
      (here `None`) when the key holds no `_`. */
  datatype ParsedKey = ParsedKey(itemId: string, weight: Option<string>)

  function ParseKey(key: string): (p: ParsedKey)
    ensures '_' !in p.itemId
    ensures p.weight.Some? <==> '_' in key
  {
    SplitHead(key, '_');
    var parts := Split(key, '_');
    ParsedKey(parts[0], if |parts| > 1 then Some(parts[1]) else None)
  }

  /** The text a template literal gives for the parsed weight:
      `${undefined}` is "undefined". It is also what the source compares
      against the pack-size labels and passes on to `updateQuantity`. */
  function WeightText(weight: Option<string>): string
  {
    weight.GetOr("undefined")
  }

  /** Building a key and splitting it again recovers the pair, when neither
      part contains the separator. */
  lemma KeyRoundTrip(itemId: string, weight: string)
    requires '_' !in itemId && '_' !in weight
    ensures ParseKey(Key(itemId, weight)) == ParsedKey(itemId, Some(weight))
  {
    SplitJoin([itemId, weight], '_');
    assert Join([itemId, weight], ['_']) == Key(itemId, weight);
  }

  /** The item id alone is recovered whatever the weight holds. */
  lemma ParsedItemId(itemId: string, weight: string)
    requires '_' !in itemId
    ensures ParseKey(Key(itemId, weight)).itemId == itemId
  {
    SplitAfterSeparator(itemId, '_', weight);
    assert Key(itemId, weight) == itemId + ['_'] + weight;
  }

  /** Keys are unique per (item, pack size) pair for separator-free ids. */
  lemma KeyInjective(id1: string, w1: string, id2: string, w2: string)
    requires '_' !in id1 && '_' !in id2
    requires Key(id1, w1) == Key(id2, w2)
    ensures id1 == id2 && w1 == w2
  {
    ParsedItemId(id1, w1);
    ParsedItemId(id2, w2);
    assert Key(id1, w1)[|id1| + 1..] == w1;
  }

  /** Matching on the prefix `itemId + "_"` (as the menu card does) picks
      exactly the keys whose parsed id is `itemId` and that hold a
      separator, when `itemId` itself holds none; so id "1" never picks up
      a key of id "12". */
  lemma PrefixMatchesParsedId(key: string, itemId: string)
    requires '_' !in itemId
    ensures StartsWith(key, itemId + "_") <==> ('_' in key && ParseKey(key).itemId == itemId)
  {
    if StartsWith(key, itemId + "_") {
      var rest := key[|itemId| + 1..];
      assert key == itemId + ['_'] + rest;
      SplitAfterSeparator(itemId, '_', rest);
      assert key[|itemId|] == '_';
    }
    if '_' in key && ParseKey(key).itemId == itemId {
      SplitHead(key, '_');
      var rest :| key == Split(key, '_')[0] + ['_'] + rest;
      assert key[..|itemId| + 1] == itemId + "_";
    }
  }

  /** The concrete case: the key of item "12" does not start with "1_". */
  lemma PrefixExample()
    ensures !StartsWith(Key("12", "1kg"), "1_")
    ensures StartsWith(Key("1", "250g"), "1_")
  {
    assert Key("12", "1kg")[..2] == "12";
  }
}
