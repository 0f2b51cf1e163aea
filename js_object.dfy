/**
 * Plain JavaScript objects used as dictionaries: a map from property names
 * to values together with the order in which the properties were created.
 * `Object.keys` / `Object.entries` do not simply follow creation order:
 * they list the array-index keys first, in ascending numeric order, and
 * then every other key in creation order. Both the input rows and the
 * grouping dictionaries are objects of this kind.
 */
module JsObject {
  import opened Wrappers
  import opened JsValues

  datatype Obj<V> = Obj(order: seq<string>, props: map<string, V>) {
    /** Every property is listed exactly once in creation order. */
    ghost predicate Valid() {
      Distinct(order) && forall k :: k in props <==> k in order
    }
  }

  predicate Distinct(s: seq<string>) {
    forall i, j :: 0 <= i < j < |s| ==> s[i] != s[j]
  }

  /** The object literal `{}`. */
  function Empty<V>(): (o: Obj<V>)
    ensures o.Valid() && forall k :: k !in o.props
  {
    Obj([], map[])
  }

  /** `o[k]` for an own property, `undefined` (None) otherwise. */
  function Get<V>(o: Obj<V>, k: string): Option<V>
  {
    if k in o.props then Some(o.props[k]) else None
  }

  /** `o[k] = v`: a new property is created last; an existing one keeps its place. */
  function Put<V>(o: Obj<V>, k: string, v: V): (r: Obj<V>)
    requires o.Valid()
    ensures r.Valid()
    ensures Get(r, k) == Some(v)
    ensures forall k' :: k' != k ==> Get(r, k') == Get(o, k')
  {
    Obj(if k in o.props then o.order else o.order + [k], o.props[k := v])
  }

  /** Whether a property name is an array index: the canonical numeral of an integer below 2^32 - 1. */
  predicate IsArrayIndex(k: string) {
    |k| >= 1 && AllDigits(k) && (k[0] != '0' || |k| == 1) && DigitsValue(k) < 0xFFFF_FFFF
  }

  /** The numeric value of an array-index key; -1 for any other key. */
  function IndexValue(k: string): int {
    if IsArrayIndex(k) then DigitsValue(k) else -1
  }

  predicate Ascending(s: seq<string>) {
    forall i, j :: 0 <= i < j < |s| ==> IndexValue(s[i]) <= IndexValue(s[j])
  }

  /** The array-index keys of `ks`, in the order of `ks`. */
  function IndexKeys(ks: seq<string>): seq<string>
  {
    if ks == [] then []
    else if IsArrayIndex(ks[0]) then [ks[0]] + IndexKeys(ks[1..])
    else IndexKeys(ks[1..])
  }

  /** The keys of `ks` that are not array indices, in the order of `ks`. */
  function OtherKeys(ks: seq<string>): seq<string>
  {
    if ks == [] then []
    else if IsArrayIndex(ks[0]) then OtherKeys(ks[1..])
    else [ks[0]] + OtherKeys(ks[1..])
  }

  /** Places `k` in an ascending list of keys. */
  function Insert(k: string, s: seq<string>): (r: seq<string>)
    ensures |r| == |s| + 1
  {
    if s == [] then [k]
    else if IndexValue(k) <= IndexValue(s[0]) then [k] + s
    else [s[0]] + Insert(k, s[1..])
  }

  function SortByIndex(ks: seq<string>): (r: seq<string>)
    ensures |r| == |ks|
  {
    if ks == [] then [] else Insert(ks[0], SortByIndex(ks[1..]))
  }

  /** The enumeration order of an object whose properties were created in the order `ks`. */
  function OwnKeys(ks: seq<string>): seq<string>
  {
    SortByIndex(IndexKeys(ks)) + OtherKeys(ks)
  }

  /** `Object.keys(o)`, which is also the key order of `Object.entries(o)`. */
  function Keys<V>(o: Obj<V>): seq<string>
  {
    OwnKeys(o.order)
  }

  lemma {:induction false} InsertMultiset(k: string, s: seq<string>)
    ensures multiset(Insert(k, s)) == multiset(s) + multiset{k}
  {
    if s != [] && IndexValue(k) > IndexValue(s[0]) {
      InsertMultiset(k, s[1..]);
      assert s == [s[0]] + s[1..];
    }
  }

  /** A bound that holds of `k` and of every element of `s` holds of every element of `Insert(k, s)`. */
  lemma {:induction false} InsertBound(k: string, s: seq<string>, b: int)
    requires b <= IndexValue(k)
    requires forall i :: 0 <= i < |s| ==> b <= IndexValue(s[i])
    ensures forall i :: 0 <= i < |Insert(k, s)| ==> b <= IndexValue(Insert(k, s)[i])
  {
    if s != [] && IndexValue(k) > IndexValue(s[0]) {
      InsertBound(k, s[1..], b);
      assert forall i :: 1 <= i < |Insert(k, s)| ==> Insert(k, s)[i] == Insert(k, s[1..])[i - 1];
    }
  }

  lemma {:induction false} InsertAscending(k: string, s: seq<string>)
    requires Ascending(s)
    ensures Ascending(Insert(k, s))
  {
    if s != [] && IndexValue(k) > IndexValue(s[0]) {
      InsertAscending(k, s[1..]);
      InsertBound(k, s[1..], IndexValue(s[0]));
      var r := Insert(k, s);
      assert forall i :: 1 <= i < |r| ==> r[i] == Insert(k, s[1..])[i - 1];
    }
  }

  /** Sorting puts the keys in ascending order. */
  lemma {:induction false} SortByIndexAscending(ks: seq<string>)
    ensures Ascending(SortByIndex(ks))
  {
    if ks != [] {
      SortByIndexAscending(ks[1..]);
      InsertAscending(ks[0], SortByIndex(ks[1..]));
    }
  }

  /** Sorting keeps every key, as often as it occurs. */
  lemma {:induction false} SortByIndexMultiset(ks: seq<string>)
    ensures multiset(SortByIndex(ks)) == multiset(ks)
  {
    if ks != [] {
      SortByIndexMultiset(ks[1..]);
      InsertMultiset(ks[0], SortByIndex(ks[1..]));
      assert ks == [ks[0]] + ks[1..];
    }
  }

  /** Splitting `ks` into its array-index keys and the others loses and adds no key. */
  lemma {:induction false} SplitKeysMultiset(ks: seq<string>)
    ensures multiset(IndexKeys(ks)) + multiset(OtherKeys(ks)) == multiset(ks)
  {
    if ks != [] {
      SplitKeysMultiset(ks[1..]);
      assert ks == [ks[0]] + ks[1..];
    }
  }

  /** `IndexKeys` keeps only array-index keys. */
  lemma {:induction false} IndexKeysAreIndices(ks: seq<string>)
    ensures forall k :: k in IndexKeys(ks) ==> IsArrayIndex(k)
  {
    if ks != [] {
      IndexKeysAreIndices(ks[1..]);
    }
  }

  /** `OtherKeys` keeps only keys that are not array indices. */
  lemma {:induction false} OtherKeysAreNotIndices(ks: seq<string>)
    ensures forall k :: k in OtherKeys(ks) ==> !IsArrayIndex(k)
  {
    if ks != [] {
      OtherKeysAreNotIndices(ks[1..]);
    }
  }

  /** A sequence is free of repetitions exactly when no element occurs twice in its multiset. */
  lemma {:induction false} DistinctByMultiset(s: seq<string>)
    ensures Distinct(s) <==> forall x :: multiset(s)[x] <= 1
  {
    if s != [] {
      DistinctByMultiset(s[1..]);
      assert s == [s[0]] + s[1..];
      if Distinct(s) {
        assert Distinct(s[1..]) by {
          forall i, j | 0 <= i < j < |s[1..]| ensures s[1..][i] != s[1..][j] {
            assert s[1..][i] == s[i + 1] && s[1..][j] == s[j + 1];
          }
        }
        assert s[0] !in s[1..] by {
          forall j | 0 <= j < |s[1..]| ensures s[1..][j] != s[0] {
            assert s[1..][j] == s[j + 1];
          }
        }
      }
      if forall x :: multiset(s)[x] <= 1 {
        assert forall x :: multiset(s[1..])[x] <= multiset(s)[x];
        assert multiset(s[1..])[s[0]] == 0;
        forall i, j | 0 <= i < j < |s| ensures s[i] != s[j] {
          if i == 0 {
            assert s[j] in s[1..];
          } else {
            assert s[i] == s[1..][i - 1] && s[j] == s[1..][j - 1];
          }
        }
      }
    }
  }

  /** The enumeration order lists the same keys as creation order, each as often. */
  lemma OwnKeysMultiset(ks: seq<string>)
    ensures multiset(OwnKeys(ks)) == multiset(ks)
  {
    SortByIndexMultiset(IndexKeys(ks));
    SplitKeysMultiset(ks);
  }

  /**
   * In the enumeration order the array-index keys come first, ascending by
   * numeric value, and the remaining keys follow in creation order.
   */
  lemma OwnKeysOrder(ks: seq<string>)
    ensures var n := |IndexKeys(ks)|;
      && (forall i :: 0 <= i < n ==> IsArrayIndex(OwnKeys(ks)[i]))
      && (forall i :: n <= i < |OwnKeys(ks)| ==> !IsArrayIndex(OwnKeys(ks)[i]))
      && Ascending(OwnKeys(ks)[..n])
      && OwnKeys(ks)[n..] == OtherKeys(ks)
  {
    var sorted, others := SortByIndex(IndexKeys(ks)), OtherKeys(ks);
    var n := |IndexKeys(ks)|;
    var own := OwnKeys(ks);
    SortByIndexAscending(IndexKeys(ks));
    SortByIndexMultiset(IndexKeys(ks));
    IndexKeysAreIndices(ks);
    OtherKeysAreNotIndices(ks);
    assert own == sorted + others;
    assert own[..n] == sorted && own[n..] == others;
    forall i | 0 <= i < n ensures IsArrayIndex(own[i]) {
      assert own[i] == sorted[i];
      assert sorted[i] in multiset(sorted);
    }
    forall i | n <= i < |own| ensures !IsArrayIndex(own[i]) {
      assert own[i] == own[n..][i - n];
    }
  }

  /** `Object.keys` of a well-formed object lists each of its properties exactly once. */
  lemma KeysOfObject<V>(o: Obj<V>)
    requires o.Valid()
    ensures Distinct(Keys(o))
    ensures forall k :: k in Keys(o) <==> k in o.props
  {
    OwnKeysMultiset(o.order);
    DistinctByMultiset(o.order);
    DistinctByMultiset(Keys(o));
    forall k ensures k in Keys(o) <==> k in o.order {
      assert k in Keys(o) <==> k in multiset(Keys(o));
      assert k in o.order <==> k in multiset(o.order);
    }
  }

  /** The numeral of a number below 2^32 - 1 is an array-index key whose value is that number. */
  lemma NumeralIsArrayIndex(n: nat)
    requires n < 0xFFFF_FFFF
    ensures IsArrayIndex(NatString(n)) && IndexValue(NatString(n)) == n
  {
    NatStringRoundTrip(n);
  }

  /**
   * Projects created in the order P100, P200, 999, "P 300" are visited with
   * 999 first: its key is an array index, the others are not.
   */
  lemma NumericProjectComesFirst()
    ensures OwnKeys(["P100", "P200", "999", "P 300"]) == ["999", "P100", "P200", "P 300"]
  {
    assert !IsArrayIndex("P100") && !IsArrayIndex("P200") && !IsArrayIndex("P 300");
    assert IsArrayIndex("999") by {
      assert DigitChar(9) == '9';
      assert NatString(9) == "9";
      assert NatString(99) == NatString(9) + ['9'];
      assert NatString(999) == NatString(99) + ['9'];
      assert NatString(999) == "999";
      NumeralIsArrayIndex(999);
    }
    var ks := ["P100", "P200", "999", "P 300"];
    assert IndexKeys(ks) == ["999"] by {
      assert ks[1..][1..] == ["999", "P 300"];
      assert ks[1..][1..][1..] == ["P 300"];
    }
    assert OtherKeys(ks) == ["P100", "P200", "P 300"] by {
      assert ks[1..][1..] == ["999", "P 300"];
      assert ks[1..][1..][1..] == ["P 300"];
    }
  }
}
