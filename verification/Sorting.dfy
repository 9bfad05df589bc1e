/** A stable ascending sort, and why any other stable sort gives the same answer.

JavaScript's `Array.prototype.sort` and Rust's `slice::sort_by` are library calls
whose contract is "a stable permutation in key order". `Sort` is one such
function; `SortIsTheOnlyStableSort` says there is no other.
*/
module Sorting {

  ghost predicate Sorted<T>(s: seq<T>, key: T -> real) {
    forall i, j | 0 <= i < j < |s| :: key(s[i]) <= key(s[j])
  }

  /** The elements of `s` whose key is `k`, in their order in `s`. */
  ghost function OfKey<T>(s: seq<T>, key: T -> real, k: real): seq<T> {
    if s == [] then []
    else if key(s[0]) == k then [s[0]] + OfKey(s[1..], key, k)
    else OfKey(s[1..], key, k)
  }

  /** `t` is a stable rearrangement of `s`: elements of equal key keep their order. */
  ghost predicate StableRearrangement<T(!new)>(s: seq<T>, t: seq<T>, key: T -> real) {
    forall k :: OfKey(s, key, k) == OfKey(t, key, k)
  }

  /** Puts `x` before the first element that is not smaller. */
  function Insert<T>(x: T, s: seq<T>, key: T -> real): seq<T> {
    if s == [] then [x]
    else if key(x) <= key(s[0]) then [x] + s
    else [s[0]] + Insert(x, s[1..], key)
  }

  function Sort<T>(s: seq<T>, key: T -> real): seq<T> {
    if s == [] then [] else Insert(s[0], Sort(s[1..], key), key)
  }

  lemma {:induction false} InsertKeepsElements<T>(x: T, s: seq<T>, key: T -> real)
    ensures multiset(Insert(x, s, key)) == multiset(s) + multiset{x}
    ensures |Insert(x, s, key)| == |s| + 1
  {
    if s != [] {
      assert s == [s[0]] + s[1..];
      InsertKeepsElements(x, s[1..], key);
    }
  }

  lemma {:induction false} SortKeepsElements<T>(s: seq<T>, key: T -> real)
    ensures multiset(Sort(s, key)) == multiset(s)
    ensures |Sort(s, key)| == |s|
  {
    if s != [] {
      assert s == [s[0]] + s[1..];
      SortKeepsElements(s[1..], key);
      InsertKeepsElements(s[0], Sort(s[1..], key), key);
    }
  }

  lemma InMultiset<T>(s: seq<T>, t: seq<T>)
    requires multiset(s) == multiset(t)
    ensures forall x :: x in s <==> x in t
  {
    forall x ensures x in s <==> x in t {
      assert x in s <==> x in multiset(s);
      assert x in t <==> x in multiset(t);
    }
  }

  lemma SameElements<T>(s: seq<T>, key: T -> real)
    ensures forall x :: x in Sort(s, key) <==> x in s
  {
    SortKeepsElements(s, key);
    InMultiset(s, Sort(s, key));
  }

  lemma {:induction false} InsertSorts<T>(x: T, s: seq<T>, key: T -> real)
    requires Sorted(s, key)
    ensures Sorted(Insert(x, s, key), key)
  {
    if s != [] && key(x) > key(s[0]) {
      InsertSorts(x, s[1..], key);
      InsertKeepsElements(x, s[1..], key);
      var t := Insert(x, s[1..], key);
      forall j | 0 <= j < |t| ensures key(s[0]) <= key(t[j]) {
        assert t[j] in multiset(t);
        assert t[j] in multiset(s[1..]) || t[j] == x;
      }
    }
  }

  lemma {:induction false} SortSorts<T>(s: seq<T>, key: T -> real)
    ensures Sorted(Sort(s, key), key)
  {
    if s != [] {
      SortSorts(s[1..], key);
      InsertSorts(s[0], Sort(s[1..], key), key);
    }
  }

  lemma {:induction false} InsertIsStable<T>(x: T, s: seq<T>, key: T -> real, k: real)
    requires Sorted(s, key)
    ensures OfKey(Insert(x, s, key), key, k) == OfKey([x] + s, key, k)
  {
    assert ([x] + s)[1..] == s;
    if s != [] && key(x) > key(s[0]) {
      InsertIsStable(x, s[1..], key, k);
      assert ([s[0]] + Insert(x, s[1..], key))[1..] == Insert(x, s[1..], key);
      assert ([x] + s[1..])[1..] == s[1..];
    }
  }

  lemma {:induction false} SortIsStable<T(!new)>(s: seq<T>, key: T -> real)
    ensures StableRearrangement(s, Sort(s, key), key)
  {
    if s != [] {
      SortIsStable(s[1..], key);
      SortSorts(s[1..], key);
      forall k ensures OfKey(s, key, k) == OfKey(Sort(s, key), key, k) {
        InsertIsStable(s[0], Sort(s[1..], key), key, k);
        assert ([s[0]] + Sort(s[1..], key))[1..] == Sort(s[1..], key);
      }
    }
  }

  lemma {:induction false} OfKeyWitness<T>(s: seq<T>, key: T -> real, i: nat)
    requires i < |s|
    ensures OfKey(s, key, key(s[i])) != []
  {
    if i > 0 { OfKeyWitness(s[1..], key, i - 1); }
  }

  lemma {:induction false} OfKeyFrom<T>(s: seq<T>, key: T -> real, k: real)
    requires OfKey(s, key, k) != []
    ensures exists i :: 0 <= i < |s| && key(s[i]) == k
  {
    if key(s[0]) != k {
      OfKeyFrom(s[1..], key, k);
      var i :| 0 <= i < |s[1..]| && key(s[1..][i]) == k;
      assert key(s[i + 1]) == k;
    }
  }

  /** Two sorted stable rearrangements of one another are the same sequence. */
  lemma {:induction false} SortedUnique<T(!new)>(s: seq<T>, t: seq<T>, key: T -> real)
    requires Sorted(s, key) && Sorted(t, key) && StableRearrangement(s, t, key)
    ensures s == t
  {
    if s == [] {
      if t != [] { assert false; }
    } else {
      OfKeyWitness(s, key, 0);
      var a := key(s[0]);
      OfKeyFrom(t, key, a);
      OfKeyWitness(t, key, 0);
      OfKeyFrom(s, key, key(t[0]));
      assert key(t[0]) == a;
      assert OfKey(s, key, a)[0] == s[0] && OfKey(t, key, a)[0] == t[0];
      forall k ensures OfKey(s[1..], key, k) == OfKey(t[1..], key, k) {
        assert OfKey(s, key, k) == OfKey(t, key, k);
        if k == a {
          assert OfKey(s[1..], key, k) == OfKey(s, key, k)[1..];
          assert OfKey(t[1..], key, k) == OfKey(t, key, k)[1..];
        }
      }
      SortedUnique(s[1..], t[1..], key);
      assert s == [s[0]] + s[1..] && t == [t[0]] + t[1..];
    }
  }

  /** The library contract determines the result. */
  lemma SortIsTheOnlyStableSort<T(!new)>(s: seq<T>, t: seq<T>, key: T -> real)
    ensures t == Sort(s, key) <==> Sorted(t, key) && StableRearrangement(s, t, key)
  {
    SortSorts(s, key);
    SortIsStable(s, key);
    if Sorted(t, key) && StableRearrangement(s, t, key) {
      SortedUnique(t, Sort(s, key), key);
    }
  }

  lemma {:induction false} SortOfSorted<T>(s: seq<T>, key: T -> real)
    requires Sorted(s, key)
    ensures Sort(s, key) == s
  {
    if s != [] {
      assert s == [s[0]] + s[1..];
      SortOfSorted(s[1..], key);
    }
  }
}
