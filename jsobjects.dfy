/**
  The plain JavaScript object used as a dictionary by the compound grouping:
  which keys it cannot hold safely, and the order `Object.entries` lists its
  own keys in (array-index keys first in ascending numeric order, then every
  other string key in insertion order).
 */
module JsObjects {
  import opened Seqs
  import opened JsValues
  import opened Sorting

  /**
    Keys that an empty object literal `{}` already resolves through
    `Object.prototype`. Reading one of them yields a truthy non-array, so an
    `acc[key].push(...)` on it throws.
   */
  const ObjectPrototypeKeys: set<string> := {
    "__proto__", "constructor", "hasOwnProperty", "isPrototypeOf",
    "propertyIsEnumerable", "toLocaleString", "toString", "valueOf",
    "__defineGetter__", "__defineSetter__", "__lookupGetter__", "__lookupSetter__"
  }

  /** Every other string key: enumerated in insertion order. */
  predicate IsNamedKey(k: string) {
    !IsArrayIndex(k)
  }

  /** The numeric order among array-index keys (other keys are never compared). */
  function IndexOrder(k: string): nat {
    if IsArrayIndex(k) then ArrayIndexValue(k) else 0
  }

  /** The order `Object.entries` visits an object's own keys in, given their insertion order. */
  function OwnKeysOrder(insertion: seq<string>): (r: seq<string>)
    ensures multiset(r) == multiset(insertion)
  {
    FilterPartition(insertion, IsArrayIndex, IsNamedKey);
    SortBy(Filter(insertion, IsArrayIndex), IndexOrder) + Filter(insertion, IsNamedKey)
  }

  /** `Object.entries` lists exactly the own keys: nothing lost, nothing added, nothing repeated. */
  lemma OwnKeysPermutation(insertion: seq<string>)
    ensures multiset(OwnKeysOrder(insertion)) == multiset(insertion)
    ensures Distinct(insertion) ==> Distinct(OwnKeysOrder(insertion))
  {
    FilterPartition(insertion, IsArrayIndex, IsNamedKey);
    if Distinct(insertion) {
      var kept := Filter(insertion, IsArrayIndex);
      var indices := SortBy(kept, IndexOrder);
      var named := Filter(insertion, IsNamedKey);
      SortByFacts(kept, IndexOrder);
      FilterDistinct(insertion, IsArrayIndex);
      FilterDistinct(insertion, IsNamedKey);
      forall x | x in indices ensures x !in named {
        assert x in multiset(kept);
      }
      DistinctConcat(indices, named);
    }
  }

  /** Every array-index key is listed before every other key. */
  lemma OwnKeysIndicesFirst(insertion: seq<string>)
    ensures var r := OwnKeysOrder(insertion);
      forall i, j :: 0 <= i < j < |r| && IsArrayIndex(r[j]) ==> IsArrayIndex(r[i])
  {
    var kept := Filter(insertion, IsArrayIndex);
    var indices := SortBy(kept, IndexOrder);
    var r := indices + Filter(insertion, IsNamedKey);
    forall i, j | 0 <= i < j < |r| && IsArrayIndex(r[j])
      ensures IsArrayIndex(r[i])
    {
      if j < |indices| {
        assert r[i] == indices[i];
        assert indices[i] in multiset(kept);
      }
    }
  }

  /** The array-index keys are listed in ascending numeric order. */
  lemma OwnKeysIndicesAscending(insertion: seq<string>)
    ensures var r := OwnKeysOrder(insertion);
      forall i, j :: 0 <= i < j < |r| && IsArrayIndex(r[i]) && IsArrayIndex(r[j]) ==>
        ArrayIndexValue(r[i]) <= ArrayIndexValue(r[j])
  {
    var kept := Filter(insertion, IsArrayIndex);
    var indices := SortBy(kept, IndexOrder);
    var r := indices + Filter(insertion, IsNamedKey);
    SortByFacts(kept, IndexOrder);
    forall i, j | 0 <= i < j < |r| && IsArrayIndex(r[i]) && IsArrayIndex(r[j])
      ensures ArrayIndexValue(r[i]) <= ArrayIndexValue(r[j])
    {
      if j < |indices| {
        assert r[i] == indices[i] && r[j] == indices[j];
        assert IndexOrder(indices[i]) <= IndexOrder(indices[j]);
      }
    }
  }

  /** The keys that are not array indices keep their insertion order. */
  lemma OwnKeysNamedInOrder(insertion: seq<string>)
    ensures Filter(OwnKeysOrder(insertion), IsNamedKey) == Filter(insertion, IsNamedKey)
  {
    var indices := SortBy(Filter(insertion, IsArrayIndex), IndexOrder);
    var named := Filter(insertion, IsNamedKey);
    FilterAppend(indices, named, IsNamedKey);
    forall x | x in indices ensures !IsNamedKey(x) {
      assert x in multiset(Filter(insertion, IsArrayIndex));
    }
    FilterNone(indices, IsNamedKey);
    FilterKeepsAll(named, IsNamedKey);
  }

  /**
    When no key is an array index, `Object.entries` follows insertion order
    exactly.
   */
  lemma NamedKeysKeepInsertionOrder(insertion: seq<string>)
    requires forall k :: k in insertion ==> !IsArrayIndex(k)
    ensures OwnKeysOrder(insertion) == insertion
  {
    FilterNone(insertion, IsArrayIndex);
    FilterKeepsAll(insertion, IsNamedKey);
  }

  /** Array-index keys jump ahead of keys inserted before them: "B" then "7" is listed as "7", "B". */
  lemma ArrayIndexKeysComeFirst()
    ensures OwnKeysOrder(["B", "7"]) == ["7", "B"]
  {
    assert IsArrayIndex("7") by {
      assert DigitsValue("7") == 7 by { assert "7"[..0] == []; }
    }
    assert !IsArrayIndex("B") by { assert !IsDigit("B"[0]); }
    assert Filter(["B", "7"], IsArrayIndex) == ["7"] by {
      assert ["B", "7"][1..] == ["7"];
      assert ["7"][1..] == [];
    }
    assert Filter(["B", "7"], IsNamedKey) == ["B"] by {
      assert ["B", "7"][1..] == ["7"];
      assert ["7"][1..] == [];
    }
  }
}
