/** `Array.prototype.filter` on sequences, shared by the two vault views for
    deletion by id and for search. */
module Lists {

  /** The elements of `s` that satisfy `keep`, in their original order. */
  function Filter<T>(s: seq<T>, keep: T -> bool): (r: seq<T>)
    ensures |r| <= |s|
    ensures forall i :: 0 <= i < |r| ==> keep(r[i])
    decreases |s|
  {
    if |s| == 0 then []
    else
      var rest := Filter(s[1..], keep);
      if keep(s[0]) then [s[0]] + rest else rest
  }

  /** Filtering keeps every occurrence of a passing value and none of a failing one. */
  lemma {:induction false} FilterCount<T>(s: seq<T>, keep: T -> bool, x: T)
    ensures multiset(Filter(s, keep))[x] == if keep(x) then multiset(s)[x] else 0
    decreases |s|
  {
    if |s| > 0 {
      FilterCount(s[1..], keep, x);
      assert s == [s[0]] + s[1..];
      assert multiset(s) == multiset{s[0]} + multiset(s[1..]);
      if keep(s[0]) {
        assert multiset(Filter(s, keep)) == multiset{s[0]} + multiset(Filter(s[1..], keep));
      }
    }
  }

  /** A value survives the filter exactly when it occurs in `s` and passes. */
  lemma FilterMember<T>(s: seq<T>, keep: T -> bool, x: T)
    ensures x in Filter(s, keep) <==> x in s && keep(x)
  {
    FilterCount(s, keep, x);
  }

  /** Filtering a concatenation filters each side: the survivors keep their order. */
  lemma {:induction false} FilterConcat<T>(a: seq<T>, b: seq<T>, keep: T -> bool)
    ensures Filter(a + b, keep) == Filter(a, keep) + Filter(b, keep)
    decreases |a|
  {
    if |a| > 0 {
      assert (a + b)[0] == a[0] && (a + b)[1..] == a[1..] + b;
      FilterConcat(a[1..], b, keep);
      if keep(a[0]) {
        assert Filter(a + b, keep) == [a[0]] + Filter(a[1..] + b, keep);
      }
    } else {
      assert a + b == b;
    }
  }

  /** When every element passes, the filter is the identity. */
  lemma {:induction false} FilterAll<T>(s: seq<T>, keep: T -> bool)
    requires forall i :: 0 <= i < |s| ==> keep(s[i])
    ensures Filter(s, keep) == s
    decreases |s|
  {
    if |s| > 0 {
      FilterAll(s[1..], keep);
      assert s == [s[0]] + s[1..];
    }
  }

  /** Two tests that agree on every element of `s` filter it alike. */
  lemma {:induction false} FilterAgree<T>(s: seq<T>, p: T -> bool, q: T -> bool)
    requires forall i :: 0 <= i < |s| ==> p(s[i]) == q(s[i])
    ensures Filter(s, p) == Filter(s, q)
    decreases |s|
  {
    if |s| > 0 {
      FilterAgree(s[1..], p, q);
    }
  }

  /** No two elements share a key. */
  predicate UniqueKeys<T, K(==)>(s: seq<T>, key: T -> K) {
    forall i, k :: 0 <= i < k < |s| ==> key(s[i]) != key(s[k])
  }

  /** `s.filter(x => key(x) !== k)`: deletion by key. */
  function RemoveKey<T(!new), K(==)>(s: seq<T>, key: T -> K, k: K): (r: seq<T>)
    ensures forall i :: 0 <= i < |r| ==> key(r[i]) != k
    ensures forall x :: x in s && key(x) != k ==> x in r
    ensures forall x :: x in r ==> x in s
  {
    var r := Filter(s, x => key(x) != k);
    forall x | x in s || x in r
      ensures x in r <==> x in s && key(x) != k
    {
      FilterMember(s, x => key(x) != k, x);
    }
    r
  }

  /** Removing a key nothing carries leaves the sequence as it is. */
  lemma RemoveAbsent<T(!new), K>(s: seq<T>, key: T -> K, k: K)
    requires forall i :: 0 <= i < |s| ==> key(s[i]) != k
    ensures RemoveKey(s, key, k) == s
  {
    FilterAll(s, x => key(x) != k);
  }

  /** Deleting the key of an element just appended under a fresh key gives the
      sequence back. */
  lemma AppendThenRemove<T(!new), K>(s: seq<T>, key: T -> K, x: T)
    requires forall i :: 0 <= i < |s| ==> key(s[i]) != key(x)
    ensures RemoveKey(s + [x], key, key(x)) == s
  {
    RemoveConcat(s, [x], key, key(x));
    RemoveAbsent(s, key, key(x));
  }

  /** With unique keys, deleting the key of the element at `i` takes out exactly
      that element and keeps the others in order. */
  lemma RemoveAt<T(!new), K>(s: seq<T>, key: T -> K, i: nat)
    requires UniqueKeys(s, key) && i < |s|
    ensures RemoveKey(s, key, key(s[i])) == s[..i] + s[i + 1..]
  {
    var a, b := s[..i], s[i + 1..];
    assert s == a + [s[i]] + b;
    forall j | 0 <= j < |a| ensures key(a[j]) != key(s[i]) {
      assert a[j] == s[j];
    }
    forall j | 0 <= j < |b| ensures key(b[j]) != key(s[i]) {
      assert b[j] == s[i + 1 + j];
    }
    RemoveAround(a, s[i], b, key);
  }

  /** Deleting the key of `x` from `a + [x] + b`, where no other element carries
      it, leaves `a + b`. */
  lemma RemoveAround<T(!new), K>(a: seq<T>, x: T, b: seq<T>, key: T -> K)
    requires forall j :: 0 <= j < |a| ==> key(a[j]) != key(x)
    requires forall j :: 0 <= j < |b| ==> key(b[j]) != key(x)
    ensures RemoveKey(a + [x] + b, key, key(x)) == a + b
  {
    RemoveConcat(a + [x], b, key, key(x));
    AppendThenRemove(a, key, x);
    RemoveAbsent(b, key, key(x));
  }

  /** Deletion from a concatenation deletes from each side. */
  lemma RemoveConcat<T(!new), K>(a: seq<T>, b: seq<T>, key: T -> K, k: K)
    ensures RemoveKey(a + b, key, k) == RemoveKey(a, key, k) + RemoveKey(b, key, k)
  {
    FilterConcat(a, b, x => key(x) != k);
  }

  /** Filtering, and so deletion, keeps keys unique. */
  lemma {:induction false} UniqueKeysFilter<T(!new), K>(s: seq<T>, key: T -> K, keep: T -> bool)
    requires UniqueKeys(s, key)
    ensures UniqueKeys(Filter(s, keep), key)
    decreases |s|
  {
    if |s| > 0 {
      UniqueKeysFilter(s[1..], key, keep);
      forall x | x in Filter(s[1..], keep)
        ensures key(x) != key(s[0])
      {
        FilterMember(s[1..], keep, x);
      }
    }
  }

  lemma UniqueKeysRemove<T(!new), K>(s: seq<T>, key: T -> K, k: K)
    requires UniqueKeys(s, key)
    ensures UniqueKeys(RemoveKey(s, key, k), key)
  {
    UniqueKeysFilter(s, key, x => key(x) != k);
  }
}
