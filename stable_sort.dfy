/** `Array.prototype.sort` with a comparator `(a, b) => key(b) - key(a)`:
    a stable sort putting larger keys first. The sort is written as an
    insertion sort; what matters is its contract (sorted, a permutation,
    ties in input order), which determines a stable sort's result. */
module StableSort {
  import opened JsArray

  /** Keys never increase from left to right. */
  ghost predicate SortedBy<T>(s: seq<T>, key: T -> int) {
    forall i, j :: 0 <= i < j < |s| ==> key(s[i]) >= key(s[j])
  }

  /** The elements whose key is `k`, in the order they appear in `s`. */
  function TieGroup<T>(s: seq<T>, key: T -> int, k: int): seq<T> {
    if s == [] then []
    else (if key(s[0]) == k then [s[0]] else []) + TieGroup(s[1..], key, k)
  }

  /** The tie groups of a sequence with one more element in front. */
  lemma TieGroupCons<T>(x: T, t: seq<T>, key: T -> int, k: int)
    ensures TieGroup([x] + t, key, k) == (if key(x) == k then [x] else []) + TieGroup(t, key, k)
  {
    assert ([x] + t)[1..] == t;
  }

  /** Puts `x` in front of the first element whose key is not larger than
      its own, so that `x` precedes every element it ties with. */
  function Insert<T>(x: T, t: seq<T>, key: T -> int): (r: seq<T>)
    ensures |r| == |t| + 1
    ensures multiset(r) == multiset(t) + multiset{x}
  {
    if t == [] then [x]
    else if key(x) >= key(t[0]) then [x] + t
    else
      assert t == [t[0]] + t[1..];
      [t[0]] + Insert(x, t[1..], key)
  }

  /** A bound on every key survives an insertion that respects it. */
  lemma {:induction false} InsertBounded<T>(x: T, t: seq<T>, key: T -> int, b: int)
    requires key(x) <= b
    requires forall i :: 0 <= i < |t| ==> key(t[i]) <= b
    ensures forall i :: 0 <= i < |Insert(x, t, key)| ==> key(Insert(x, t, key)[i]) <= b
  {
    if t != [] && key(x) < key(t[0]) {
      InsertBounded(x, t[1..], key, b);
    }
  }

  /** A sorted sequence stays sorted under a new first element whose key is
      at least every other key. */
  lemma SortedCons<T>(h: T, t: seq<T>, key: T -> int)
    requires SortedBy(t, key)
    requires forall i :: 0 <= i < |t| ==> key(t[i]) <= key(h)
    ensures SortedBy([h] + t, key)
  {
    var r := [h] + t;
    forall i, j | 0 <= i < j < |r| ensures key(r[i]) >= key(r[j]) {
      assert r[j] == t[j - 1];
      if i > 0 {
        assert r[i] == t[i - 1];
      }
    }
  }

  /** Inserting into a sorted sequence keeps it sorted. */
  lemma {:induction false} InsertKeepsSorted<T>(x: T, t: seq<T>, key: T -> int)
    requires SortedBy(t, key)
    ensures SortedBy(Insert(x, t, key), key)
  {
    if t == [] {
    } else if key(x) >= key(t[0]) {
      SortedCons(x, t, key);
    } else {
      assert SortedBy(t[1..], key);
      InsertKeepsSorted(x, t[1..], key);
      InsertBounded(x, t[1..], key, key(t[0]));
      SortedCons(t[0], Insert(x, t[1..], key), key);
    }
  }

  /** `x` joins its own tie group at the front and no other group. */
  lemma {:induction false} InsertTies<T>(x: T, t: seq<T>, key: T -> int, k: int)
    ensures TieGroup(Insert(x, t, key), key, k) == (if key(x) == k then [x] else []) + TieGroup(t, key, k)
  {
    if t == [] {
      TieGroupCons(x, [], key, k);
    } else if key(x) >= key(t[0]) {
      TieGroupCons(x, t, key, k);
    } else {
      var head := if key(t[0]) == k then [t[0]] else [];
      var mine := if key(x) == k then [x] else [];
      // x and t[0] never share a tie group here, so their groups commute.
      assert head == [] || mine == [];
      calc {
        TieGroup(Insert(x, t, key), key, k);
        { TieGroupCons(t[0], Insert(x, t[1..], key), key, k); }
        head + TieGroup(Insert(x, t[1..], key), key, k);
        { InsertTies(x, t[1..], key, k); }
        head + (mine + TieGroup(t[1..], key, k));
        mine + (head + TieGroup(t[1..], key, k));
        { assert t == [t[0]] + t[1..]; TieGroupCons(t[0], t[1..], key, k); }
        mine + TieGroup(t, key, k);
      }
    }
  }

  /** The stable descending sort of `s` by `key`: a sorted permutation. */
  function Sort<T>(s: seq<T>, key: T -> int): (r: seq<T>)
    ensures |r| == |s|
    ensures multiset(r) == multiset(s)
    ensures SortedBy(r, key)
  {
    if s == [] then []
    else
      assert s == [s[0]] + s[1..];
      InsertKeepsSorted(s[0], Sort(s[1..], key), key);
      Insert(s[0], Sort(s[1..], key), key)
  }

  /** The sort is stable: elements with equal keys keep their input order. */
  lemma {:induction false} SortIsStable<T>(s: seq<T>, key: T -> int, k: int)
    ensures TieGroup(Sort(s, key), key, k) == TieGroup(s, key, k)
  {
    if s != [] {
      SortIsStable(s[1..], key, k);
      InsertTies(s[0], Sort(s[1..], key), key, k);
      TieGroupCons(s[0], s[1..], key, k);
      assert s == [s[0]] + s[1..];
    }
  }

  /** When every key is the same, sorting leaves the sequence as it is. */
  lemma {:induction false} SortAllTied<T>(s: seq<T>, key: T -> int, k: int)
    requires forall i :: 0 <= i < |s| ==> key(s[i]) == k
    ensures Sort(s, key) == s
  {
    if s != [] {
      SortAllTied(s[1..], key, k);
      assert s == [s[0]] + s[1..];
    }
  }

  /** Taking a prefix keeps a prefix of every tie group. */
  lemma {:induction false} TieGroupOfPrefix<T>(s: seq<T>, n: nat, key: T -> int, k: int)
    requires n <= |s|
    ensures TieGroup(s[..n], key, k) <= TieGroup(s, key, k)
  {
    if n > 0 {
      TieGroupOfPrefix(s[1..], n - 1, key, k);
      assert s[..n][1..] == s[1..][..n - 1];
    }
  }

  /** Everything a sorted sequence holds past its first `n` elements has a
      key no larger than the `n`-th. */
  lemma PrefixOfSortedBound<T>(s: seq<T>, n: nat, key: T -> int)
    requires SortedBy(s, key)
    requires 0 < n <= |s|
    ensures forall x :: x in multiset(s) - multiset(s[..n]) ==> key(x) <= key(s[n - 1])
  {
    assert s == s[..n] + s[n..];
    assert multiset(s) - multiset(s[..n]) == multiset(s[n..]);
    forall x | x in multiset(s) - multiset(s[..n]) ensures key(x) <= key(s[n - 1]) {
      assert x in s[n..];
      var j :| 0 <= j < |s[n..]| && s[n..][j] == x;
      assert s[n + j] == x;
    }
  }

  /** Tie groups distribute over concatenation. */
  lemma {:induction false} TieGroupAppend<T>(s: seq<T>, t: seq<T>, key: T -> int, k: int)
    ensures TieGroup(s + t, key, k) == TieGroup(s, key, k) + TieGroup(t, key, k)
  {
    if s == [] {
      assert s + t == t;
    } else {
      var head := if key(s[0]) == k then [s[0]] else [];
      calc {
        TieGroup(s + t, key, k);
        { assert s + t == [s[0]] + (s[1..] + t); TieGroupCons(s[0], s[1..] + t, key, k); }
        head + TieGroup(s[1..] + t, key, k);
        { TieGroupAppend(s[1..], t, key, k); }
        head + (TieGroup(s[1..], key, k) + TieGroup(t, key, k));
        (head + TieGroup(s[1..], key, k)) + TieGroup(t, key, k);
        { assert s == [s[0]] + s[1..]; TieGroupCons(s[0], s[1..], key, k); }
        TieGroup(s, key, k) + TieGroup(t, key, k);
      }
    }
  }

  /** Filtering keeps the order inside every tie group: the kept elements
      with key `k` are the elements with key `k` that are kept. */
  lemma {:induction false} FilterKeepsTieOrder<T>(s: seq<T>, keep: T -> bool, key: T -> int, k: int)
    ensures TieGroup(Filter(s, keep), key, k) == Filter(TieGroup(s, key, k), keep)
  {
    if s != [] {
      var x := s[0];
      var kept := if keep(x) then [x] else [];
      var tied := if key(x) == k then [x] else [];
      assert TieGroup(kept, key, k) == Filter(tied, keep) by {
        if keep(x) { TieGroupCons(x, [], key, k); assert [x] + [] == [x]; }
        if key(x) == k { FilterCons(x, [], keep); assert [x] + [] == [x]; }
      }
      calc {
        TieGroup(Filter(s, keep), key, k);
        TieGroup(kept + Filter(s[1..], keep), key, k);
        { TieGroupAppend(kept, Filter(s[1..], keep), key, k); }
        TieGroup(kept, key, k) + TieGroup(Filter(s[1..], keep), key, k);
        { FilterKeepsTieOrder(s[1..], keep, key, k); }
        Filter(tied, keep) + Filter(TieGroup(s[1..], key, k), keep);
        { FilterAppend(tied, TieGroup(s[1..], key, k), keep); }
        Filter(TieGroup(s, key, k), keep);
      }
    }
  }

  /** The keys of a sorted sequence, read off in order, never increase. */
  lemma KeysOfSorted<T>(s: seq<T>, key: T -> int)
    requires SortedBy(s, key)
    ensures forall i, j :: 0 <= i < j < |Map(s, key)| ==> Map(s, key)[i] >= Map(s, key)[j]
  {
  }

  /** An element with a larger key than every other element comes first
      in a sorted sequence. */
  lemma LatestHeadsSorted<T>(s: seq<T>, key: T -> int, x: T)
    requires SortedBy(s, key)
    requires x in multiset(s)
    requires forall y :: y in multiset(s) ==> y == x || key(y) < key(x)
    ensures |s| >= 1 && s[0] == x
  {
    var j :| 0 <= j < |s| && s[j] == x;
    assert s[0] in multiset(s);
  }
}
