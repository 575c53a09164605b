/**
 * The order in which `Object.keys` lists the own properties of a plain
 * object built by inserting keys one after another: first every key that is
 * an array index, in ascending numeric order, then every other string key in
 * insertion order (the ECMAScript OrdinaryOwnPropertyKeys order).  The
 * statistics endpoint reads its buckets back through `Object.keys`.
 */
module ObjectKeys {
  import opened NumberText

  /** An array index: a canonical decimal numeral whose value is below 2^32 - 1. */
  predicate IsArrayIndex(s: string) {
    Canonical(s) && ParseNat(s) < 4294967295
  }

  predicate AllIndex(s: seq<string>) {
    forall i :: 0 <= i < |s| ==> IsArrayIndex(s[i])
  }

  predicate NoIndex(s: seq<string>) {
    forall i :: 0 <= i < |s| ==> !IsArrayIndex(s[i])
  }

  /** Array-index keys in ascending numeric order. */
  predicate Ascending(s: seq<string>) {
    AllIndex(s) && forall i, j :: 0 <= i < j < |s| ==> ParseNat(s[i]) <= ParseNat(s[j])
  }

  predicate Distinct<T(==)>(s: seq<T>) {
    forall i, j :: 0 <= i < j < |s| ==> s[i] != s[j]
  }

  function Insert(x: string, xs: seq<string>): (r: seq<string>)
    requires IsArrayIndex(x) && AllIndex(xs)
    ensures AllIndex(r)
    ensures multiset(r) == multiset(xs) + multiset{x}
  {
    if xs == [] || ParseNat(x) <= ParseNat(xs[0]) then
      [x] + xs
    else
      assert xs == [xs[0]] + xs[1..];
      [xs[0]] + Insert(x, xs[1..])
  }

  lemma {:induction false} InsertBound(x: string, xs: seq<string>, b: nat)
    requires IsArrayIndex(x) && AllIndex(xs)
    requires b <= ParseNat(x)
    requires forall k :: 0 <= k < |xs| ==> b <= ParseNat(xs[k])
    ensures forall k :: 0 <= k < |Insert(x, xs)| ==> b <= ParseNat(Insert(x, xs)[k])
  {
    if !(xs == [] || ParseNat(x) <= ParseNat(xs[0])) {
      InsertBound(x, xs[1..], b);
    }
  }

  lemma {:induction false} InsertAscending(x: string, xs: seq<string>)
    requires IsArrayIndex(x) && Ascending(xs)
    ensures Ascending(Insert(x, xs))
  {
    if xs == [] || ParseNat(x) <= ParseNat(xs[0]) {
      AscendingCons(x, xs);
    } else {
      AscendingTail(xs);
      InsertAscending(x, xs[1..]);
      InsertBound(x, xs[1..], ParseNat(xs[0]));
      AscendingCons(xs[0], Insert(x, xs[1..]));
    }
  }

  lemma AscendingTail(xs: seq<string>)
    requires Ascending(xs) && xs != []
    ensures Ascending(xs[1..])
    ensures forall k :: 0 <= k < |xs[1..]| ==> ParseNat(xs[0]) <= ParseNat(xs[1..][k])
  {
    assert forall k :: 0 <= k < |xs[1..]| ==> xs[1..][k] == xs[k + 1];
  }

  lemma AscendingCons(y: string, rest: seq<string>)
    requires IsArrayIndex(y) && Ascending(rest)
    requires forall k :: 0 <= k < |rest| ==> ParseNat(y) <= ParseNat(rest[k])
    ensures Ascending([y] + rest)
  {
    var r := [y] + rest;
    assert forall k :: 0 < k < |r| ==> r[k] == rest[k - 1];
  }

  /** The array-index keys sorted ascending (insertion sort). */
  function SortIndexKeys(xs: seq<string>): (r: seq<string>)
    requires AllIndex(xs)
    ensures Ascending(r)
    ensures multiset(r) == multiset(xs)
  {
    if xs == [] then []
    else
      assert xs == [xs[0]] + xs[1..];
      var rest := SortIndexKeys(xs[1..]);
      InsertAscending(xs[0], rest);
      Insert(xs[0], rest)
  }

  /** The keys of `ks` that are (`index`) or are not (`!index`) array indices, in order. */
  function KeysWhere(ks: seq<string>, index: bool): seq<string> {
    if ks == [] then []
    else if IsArrayIndex(ks[0]) == index then [ks[0]] + KeysWhere(ks[1..], index)
    else KeysWhere(ks[1..], index)
  }

  /** The selection holds only keys of the requested kind. */
  lemma {:induction false} KeysWhereClassified(ks: seq<string>, index: bool)
    ensures index ==> AllIndex(KeysWhere(ks, index))
    ensures !index ==> NoIndex(KeysWhere(ks, index))
  {
    if ks != [] {
      KeysWhereClassified(ks[1..], index);
    }
  }

  /** `Object.keys` of an object whose keys were inserted in the order `ks`. */
  function ObjectKeyOrder(ks: seq<string>): seq<string> {
    KeysWhereClassified(ks, true);
    SortIndexKeys(KeysWhere(ks, true)) + KeysWhere(ks, false)
  }

  lemma {:induction false} KeysWhereSplit(ks: seq<string>)
    ensures multiset(KeysWhere(ks, true)) + multiset(KeysWhere(ks, false)) == multiset(ks)
  {
    if ks != [] {
      KeysWhereSplit(ks[1..]);
      assert ks == [ks[0]] + ks[1..];
    }
  }

  lemma {:induction false} KeysWhereConcat(a: seq<string>, b: seq<string>, index: bool)
    ensures KeysWhere(a + b, index) == KeysWhere(a, index) + KeysWhere(b, index)
  {
    if a != [] {
      var ab := a + b;
      assert ab[0] == a[0] && ab[1..] == a[1..] + b;
      KeysWhereConcat(a[1..], b, index);
      var head := if IsArrayIndex(a[0]) == index then [a[0]] else [];
      assert KeysWhere(ab, index) == head + KeysWhere(a[1..] + b, index);
      assert KeysWhere(a, index) == head + KeysWhere(a[1..], index);
    } else {
      assert a + b == b;
    }
  }

  lemma {:induction false} KeysWhereAll(ks: seq<string>, index: bool)
    requires forall i :: 0 <= i < |ks| ==> IsArrayIndex(ks[i]) == index
    ensures KeysWhere(ks, index) == ks
    ensures KeysWhere(ks, !index) == []
  {
    if ks != [] {
      KeysWhereAll(ks[1..], index);
    }
  }

  /** The keys come out rearranged, with none added or lost. */
  lemma ObjectKeyOrderPermutation(ks: seq<string>)
    ensures multiset(ObjectKeyOrder(ks)) == multiset(ks)
  {
    KeysWhereSplit(ks);
  }

  /**
   * Every array-index key precedes every other key, the array-index keys are
   * ascending, and the other keys keep their insertion order.
   */
  lemma ObjectKeyOrderShape(ks: seq<string>)
    ensures var r := ObjectKeyOrder(ks);
      forall i, j :: 0 <= i < j < |r| && IsArrayIndex(r[j]) ==>
        IsArrayIndex(r[i]) && ParseNat(r[i]) <= ParseNat(r[j])
    ensures KeysWhere(ObjectKeyOrder(ks), false) == KeysWhere(ks, false)
  {
    KeysWhereClassified(ks, true);
    KeysWhereClassified(ks, false);
    var a := SortIndexKeys(KeysWhere(ks, true));
    var b := KeysWhere(ks, false);
    assert ObjectKeyOrder(ks) == a + b;
    IndexKeysFirst(a, b);
    KeysWhereConcat(a, b, false);
    KeysWhereAll(a, true);
    KeysWhereAll(b, false);
  }

  lemma IndexKeysFirst(a: seq<string>, b: seq<string>)
    requires Ascending(a) && NoIndex(b)
    ensures var r := a + b;
      forall i, j :: 0 <= i < j < |r| && IsArrayIndex(r[j]) ==>
        IsArrayIndex(r[i]) && ParseNat(r[i]) <= ParseNat(r[j])
  {
    var r := a + b;
    forall i, j | 0 <= i < j < |r| && IsArrayIndex(r[j])
      ensures IsArrayIndex(r[i]) && ParseNat(r[i]) <= ParseNat(r[j])
    {
      assert j < |a|;
    }
  }

  /** Without array-index keys, `Object.keys` gives back insertion order. */
  lemma NoIndexKeysKeepOrder(ks: seq<string>)
    requires NoIndex(ks)
    ensures ObjectKeyOrder(ks) == ks
  {
    KeysWhereAll(ks, false);
  }

  /** Array-index keys inserted in ascending order also come back unchanged. */
  lemma AscendingKeysKeepOrder(ks: seq<string>)
    requires Ascending(ks)
    ensures ObjectKeyOrder(ks) == ks
  {
    KeysWhereAll(ks, true);
    SortAscendingUnchanged(ks);
  }

  lemma {:induction false} SortAscendingUnchanged(ks: seq<string>)
    requires Ascending(ks)
    ensures SortIndexKeys(ks) == ks
  {
    if ks != [] {
      SortAscendingUnchanged(ks[1..]);
    }
  }

  lemma {:induction false} DistinctMultiplicity<T>(s: seq<T>, x: T)
    requires Distinct(s)
    ensures multiset(s)[x] <= 1
  {
    if s != [] {
      assert s == [s[0]] + s[1..];
      DistinctMultiplicity(s[1..], x);
      if s[0] == x {
        assert x !in s[1..];
      }
    }
  }

  /** A rearrangement of distinct keys is distinct. */
  lemma PermutationDistinct<T>(a: seq<T>, b: seq<T>)
    requires Distinct(a) && multiset(a) == multiset(b)
    ensures Distinct(b)
  {
    forall i, j | 0 <= i < j < |b| ensures b[i] != b[j] {
      if b[i] == b[j] {
        assert b == b[..j] + b[j..];
        assert b[i] in multiset(b[..j]);
        assert b[j] in multiset(b[j..]);
        assert multiset(b)[b[i]] >= 2;
        DistinctMultiplicity(a, b[i]);
      }
    }
  }

  lemma ObjectKeyOrderDistinct(ks: seq<string>)
    requires Distinct(ks)
    ensures Distinct(ObjectKeyOrder(ks))
    ensures forall x :: x in ObjectKeyOrder(ks) <==> x in ks
  {
    ObjectKeyOrderPermutation(ks);
    PermutationDistinct(ks, ObjectKeyOrder(ks));
    forall x ensures x in ObjectKeyOrder(ks) <==> x in ks {
      assert x in ObjectKeyOrder(ks) <==> x in multiset(ObjectKeyOrder(ks));
    }
  }
}
