/**
 * Immutable-property maps. Every property is named `<interface>.<Word>`
 * with a dot-free word, so the interface a key belongs to is everything
 * before its last dot; this is what keeps the maps of a channel and of its
 * interfaces from colliding when they are united into the channel details.
 */
module Properties {
  import opened Values

  /** The fully qualified name of property `word` of interface `iface`. */
  function PropertyKey(iface: string, word: string): string
  {
    iface + "." + word
  }

  /** `key` names a property of `iface`: `iface`, a dot, then a word without dots. */
  predicate QualifiedBy(key: string, iface: string)
  {
    |iface| < |key| && key[..|iface|] == iface && key[|iface|] == '.' && '.' !in key[|iface| + 1..]
  }

  predicate AllQualifiedBy(m: VariantMap, iface: string)
  {
    forall k :: k in m ==> QualifiedBy(k, iface)
  }

  lemma KeysQualified(iface: string)
    ensures forall word :: '.' !in word ==> QualifiedBy(PropertyKey(iface, word), iface)
  {
    forall word | '.' !in word
      ensures QualifiedBy(PropertyKey(iface, word), iface)
    {
      var k := PropertyKey(iface, word);
      assert k[..|iface|] == iface;
      assert k[|iface| + 1..] == word;
    }
  }

  /** A property key names exactly one interface. */
  lemma QualifierUnique(key: string, a: string, b: string)
    requires QualifiedBy(key, a) && QualifiedBy(key, b)
    ensures a == b
  {
  }

  /** Two property keys of the same interface are equal only for the same word. */
  lemma PropertyKeyInjective(iface: string, w1: string, w2: string)
    requires PropertyKey(iface, w1) == PropertyKey(iface, w2)
    ensures w1 == w2
  {
    assert w1 == PropertyKey(iface, w1)[|iface| + 1..];
    assert w2 == PropertyKey(iface, w2)[|iface| + 1..];
  }

  /**
   * The property map of interface `iface` with property `words[i]` set to
   * `values[i]`, built by successive insertions.
   */
  function PropertyMap(iface: string, words: seq<string>, values: seq<Value>): VariantMap
    requires |words| == |values|
  {
    if words == [] then map[]
    else
      var n := |words| - 1;
      PropertyMap(iface, words[..n], values[..n])[PropertyKey(iface, words[n]) := values[n]]
  }

  /** The keys of a property map are exactly the qualified words. */
  lemma {:induction false} PropertyMapKeys(iface: string, words: seq<string>, values: seq<Value>)
    requires |words| == |values|
    ensures forall i :: 0 <= i < |words| ==> PropertyKey(iface, words[i]) in PropertyMap(iface, words, values)
    ensures forall k :: k in PropertyMap(iface, words, values) ==>
              exists i :: 0 <= i < |words| && k == PropertyKey(iface, words[i])
  {
    if words != [] {
      var n := |words| - 1;
      PropertyMapKeys(iface, words[..n], values[..n]);
      assert forall i :: 0 <= i < n ==> words[..n][i] == words[i];
    }
  }

  /** A property map whose words have no dots names properties of `iface` only. */
  lemma PropertyMapQualified(iface: string, words: seq<string>, values: seq<Value>)
    requires |words| == |values|
    requires forall i :: 0 <= i < |words| ==> '.' !in words[i]
    ensures AllQualifiedBy(PropertyMap(iface, words, values), iface)
  {
    PropertyMapKeys(iface, words, values);
    KeysQualified(iface);
  }

  /** With no word repeated, each property holds the value given with it. */
  lemma {:induction false} PropertyMapValues(iface: string, words: seq<string>, values: seq<Value>)
    requires |words| == |values| && NoDup(words)
    ensures forall i :: 0 <= i < |words| ==> PropertyKey(iface, words[i]) in PropertyMap(iface, words, values)
    ensures forall i :: 0 <= i < |words| ==> PropertyMap(iface, words, values)[PropertyKey(iface, words[i])] == values[i]
  {
    PropertyMapKeys(iface, words, values);
    if words != [] {
      var n := |words| - 1;
      PropertyMapValues(iface, words[..n], values[..n]);
      forall i | 0 <= i < n
        ensures PropertyMap(iface, words, values)[PropertyKey(iface, words[i])] == values[i]
      {
        assert words[..n][i] == words[i] && values[..n][i] == values[i];
        if PropertyKey(iface, words[i]) == PropertyKey(iface, words[n]) {
          PropertyKeyInjective(iface, words[i], words[n]);
        }
      }
    }
  }

  /** `QVariantMap::unite` applied to `base` and then to each map of `parts` in turn. */
  function UniteAll(base: VariantMap, parts: seq<VariantMap>): VariantMap
  {
    if parts == [] then base else UniteAll(base, parts[..|parts| - 1]) + parts[|parts| - 1]
  }

  /** The maps `base` and `parts` name properties of pairwise different interfaces. */
  predicate SeparatelyQualified(base: VariantMap, baseIface: string, parts: seq<VariantMap>, ifaces: seq<string>)
  {
    && |parts| == |ifaces|
    && AllQualifiedBy(base, baseIface)
    && (forall i :: 0 <= i < |parts| ==> AllQualifiedBy(parts[i], ifaces[i]))
    && baseIface !in ifaces
    && NoDup(ifaces)
  }

  lemma SeparatelyQualifiedInit(base: VariantMap, baseIface: string, parts: seq<VariantMap>, ifaces: seq<string>)
    requires SeparatelyQualified(base, baseIface, parts, ifaces) && parts != []
    ensures SeparatelyQualified(base, baseIface, parts[..|parts| - 1], ifaces[..|ifaces| - 1])
  {
    var n := |parts| - 1;
    assert forall x :: x in ifaces[..n] ==> x in ifaces;
  }

  /** No property of `base` or of an earlier part is redefined by the last part. */
  lemma LastPartIsNew(base: VariantMap, baseIface: string, parts: seq<VariantMap>, ifaces: seq<string>)
    requires SeparatelyQualified(base, baseIface, parts, ifaces) && parts != []
    ensures forall k :: k in base ==> k !in parts[|parts| - 1]
    ensures forall i, k :: 0 <= i < |parts| - 1 && k in parts[i] ==> k !in parts[|parts| - 1]
  {
    var n := |parts| - 1;
    forall k | k in base && k in parts[n]
      ensures false
    {
      QualifierUnique(k, baseIface, ifaces[n]);
    }
    forall i, k | 0 <= i < n && k in parts[i] && k in parts[n]
      ensures false
    {
      QualifierUnique(k, ifaces[i], ifaces[n]);
    }
  }

  /** The union keeps every property of `base` with its value. */
  lemma {:induction false} UniteAllKeepsBase(base: VariantMap, baseIface: string, parts: seq<VariantMap>, ifaces: seq<string>)
    requires SeparatelyQualified(base, baseIface, parts, ifaces)
    ensures forall k :: k in base ==> k in UniteAll(base, parts) && UniteAll(base, parts)[k] == base[k]
    decreases |parts|
  {
    if parts != [] {
      SeparatelyQualifiedInit(base, baseIface, parts, ifaces);
      UniteAllKeepsBase(base, baseIface, parts[..|parts| - 1], ifaces[..|ifaces| - 1]);
      LastPartIsNew(base, baseIface, parts, ifaces);
    }
  }

  /** The union keeps every property of every part with its value. */
  lemma {:induction false} UniteAllKeepsParts(base: VariantMap, baseIface: string, parts: seq<VariantMap>, ifaces: seq<string>)
    requires SeparatelyQualified(base, baseIface, parts, ifaces)
    ensures forall i, k :: 0 <= i < |parts| && k in parts[i] ==>
              k in UniteAll(base, parts) && UniteAll(base, parts)[k] == parts[i][k]
    decreases |parts|
  {
    if parts != [] {
      var n := |parts| - 1;
      var init := parts[..n];
      SeparatelyQualifiedInit(base, baseIface, parts, ifaces);
      UniteAllKeepsParts(base, baseIface, init, ifaces[..n]);
      LastPartIsNew(base, baseIface, parts, ifaces);
      forall i, k | 0 <= i < n && k in parts[i]
        ensures k in UniteAll(base, parts) && UniteAll(base, parts)[k] == parts[i][k]
      {
        assert parts[i] == init[i];
      }
    }
  }

  /** The union holds nothing but the properties of `base` and of the parts. */
  lemma {:induction false} UniteAllHoldsNothingElse(base: VariantMap, parts: seq<VariantMap>)
    ensures forall k :: k in UniteAll(base, parts) ==> k in base || exists i :: 0 <= i < |parts| && k in parts[i]
    decreases |parts|
  {
    if parts != [] {
      var n := |parts| - 1;
      var init := parts[..n];
      UniteAllHoldsNothingElse(base, init);
      forall k | k in UniteAll(base, parts) && k !in base
        ensures exists i :: 0 <= i < |parts| && k in parts[i]
      {
        if k !in parts[n] {
          var i :| 0 <= i < n && k in init[i];
          assert k in parts[i];
        }
      }
    }
  }
}
