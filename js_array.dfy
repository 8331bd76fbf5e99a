/** `Array.prototype.slice(start, end)` as the services use it: both
    indices count from the end when negative, are then clamped to
    `[0, length]`, and an empty range gives an empty array. */
module JsArray {

  function Min(a: int, b: int): int { if a <= b then a else b }

  lemma ProductNonNegative(a: nat, b: nat)
    ensures a * b >= 0
  {
  }

  /** How `slice` turns one argument into a position in `[0, len]`. */
  function SliceIndex(i: int, len: nat): (r: nat)
    ensures r <= len
  {
    if i < 0 then (if len + i < 0 then 0 else len + i)
    else if i < len then i
    else len
  }

  /** Clamping never widens a range: the positions are at most as far apart
      as the arguments. */
  lemma SliceIndexNarrows(a: int, b: int, len: nat)
    ensures a <= b ==> SliceIndex(b, len) - SliceIndex(a, len) <= b - a
  {
  }

  function Slice<T>(s: seq<T>, start: int, end: int): (r: seq<T>)
    ensures |r| <= |s|
    ensures start <= end ==> |r| <= end - start
    ensures |r| == if SliceIndex(start, |s|) < SliceIndex(end, |s|) then SliceIndex(end, |s|) - SliceIndex(start, |s|) else 0
    ensures forall k :: 0 <= k < |r| ==> SliceIndex(start, |s|) + k < |s| && r[k] == s[SliceIndex(start, |s|) + k]
  {
    SliceIndexNarrows(start, end, |s|);
    var from, to := SliceIndex(start, |s|), SliceIndex(end, |s|);
    if from < to then s[from..to] else []
  }

  /** With non-negative arguments `slice` is the ordinary clamped
      subsequence. */
  lemma SliceInRange<T>(s: seq<T>, start: int, end: int)
    requires 0 <= start <= end
    ensures Slice(s, start, end) == s[Min(start, |s|)..Min(end, |s|)]
  {
  }

  /** The reference meaning of a page: positions `(page-1)*limit` up to
      `page*limit` of `s`, cut off at the end of `s`. */
  function Page<T>(s: seq<T>, page: int, limit: int): (r: seq<T>)
    requires page >= 1 && limit >= 1
  {
    var a, b := (page - 1) * limit, page * limit;
    assert b == a + limit;
    ProductNonNegative(page - 1, limit);
    s[Min(a, |s|)..Min(b, |s|)]
  }

  /** `slice((page - 1) * limit, page * limit)` is the page, for page and
      limit of at least 1. */
  lemma SliceIsPage<T>(s: seq<T>, page: int, limit: int)
    requires page >= 1 && limit >= 1
    ensures Slice(s, (page - 1) * limit, page * limit) == Page(s, page, limit)
  {
    var a, b := (page - 1) * limit, page * limit;
    assert b == a + limit;
    ProductNonNegative(page - 1, limit);
    SliceInRange(s, a, b);
  }

  /** Every element of a slice is an element of the sliced sequence. */
  lemma SliceElements<T>(s: seq<T>, start: int, end: int)
    ensures multiset(Slice(s, start, end)) <= multiset(s)
  {
    var from, to := SliceIndex(start, |s|), SliceIndex(end, |s|);
    if from < to {
      assert s == s[..from] + s[from..to] + s[to..];
      assert Slice(s, start, end) == s[from..to];
    }
  }

  /** `Array.prototype.filter(keep)`: the kept elements, in order. */
  function Filter<T>(s: seq<T>, keep: T -> bool): (r: seq<T>)
    ensures |r| <= |s|
    ensures forall x :: x in r ==> x in s && keep(x)
  {
    if s == [] then []
    else (if keep(s[0]) then [s[0]] else []) + Filter(s[1..], keep)
  }

  /** Filtering a sequence with one more element in front. */
  lemma FilterCons<T>(x: T, t: seq<T>, keep: T -> bool)
    ensures Filter([x] + t, keep) == (if keep(x) then [x] else []) + Filter(t, keep)
  {
    assert ([x] + t)[1..] == t;
  }

  /** Filtering distributes over concatenation. */
  lemma {:induction false} FilterAppend<T>(s: seq<T>, t: seq<T>, keep: T -> bool)
    ensures Filter(s + t, keep) == Filter(s, keep) + Filter(t, keep)
  {
    if s == [] {
      assert s + t == t;
    } else {
      var head := if keep(s[0]) then [s[0]] else [];
      calc {
        Filter(s + t, keep);
        { assert s + t == [s[0]] + (s[1..] + t); FilterCons(s[0], s[1..] + t, keep); }
        head + Filter(s[1..] + t, keep);
        { FilterAppend(s[1..], t, keep); }
        head + (Filter(s[1..], keep) + Filter(t, keep));
        (head + Filter(s[1..], keep)) + Filter(t, keep);
        { assert s == [s[0]] + s[1..]; FilterCons(s[0], s[1..], keep); }
        Filter(s, keep) + Filter(t, keep);
      }
    }
  }

  /** The filter keeps exactly the elements that pass, each as often as `s`
      holds it. */
  lemma {:induction false} FilterCounts<T>(s: seq<T>, keep: T -> bool)
    ensures forall x :: multiset(Filter(s, keep))[x] == if keep(x) then multiset(s)[x] else 0
  {
    if s != [] {
      FilterCounts(s[1..], keep);
      assert s == [s[0]] + s[1..];
    }
  }

  /** Nothing passes, so nothing is kept. */
  lemma {:induction false} FilterNone<T>(s: seq<T>, keep: T -> bool)
    requires forall i :: 0 <= i < |s| ==> !keep(s[i])
    ensures Filter(s, keep) == []
  {
    if s != [] {
      FilterNone(s[1..], keep);
    }
  }

  /** `Array.prototype.map(f)`: `f` applied to every element, in order. */
  function Map<T, U>(s: seq<T>, f: T -> U): (r: seq<U>)
    ensures |r| == |s| && forall i :: 0 <= i < |s| ==> r[i] == f(s[i])
  {
    seq(|s|, i requires 0 <= i < |s| => f(s[i]))
  }

  lemma MapCons<T, U>(s: seq<T>, f: T -> U)
    requires s != []
    ensures Map(s, f) == [f(s[0])] + Map(s[1..], f)
  {
  }

  lemma MapAppend<T, U>(s: seq<T>, x: T, f: T -> U)
    ensures Map(s + [x], f) == Map(s, f) + [f(x)]
  {
  }

  /** The issues kept by a filter on one key value are as many as the
      occurrences of that value among the keys. */
  lemma {:induction false} FilterCountIsKeyCount<T, K>(s: seq<T>, f: T -> K, k: K, keep: T -> bool)
    requires forall x :: keep(x) <==> f(x) == k
    ensures |Filter(s, keep)| == multiset(Map(s, f))[k]
  {
    if s != [] {
      FilterCountIsKeyCount(s[1..], f, k, keep);
      MapCons(s, f);
    }
  }

  /** Taking the same element away from two equal multisets leaves equal
      multisets. */
  lemma MultisetCancel<T>(m: multiset<T>, n: multiset<T>, x: T)
    requires m + multiset{x} == n + multiset{x}
    ensures m == n
  {
    forall y ensures m[y] == n[y] {
      assert (m + multiset{x})[y] == (n + multiset{x})[y];
    }
  }

  lemma MapConcat<T, U>(s: seq<T>, t: seq<T>, f: T -> U)
    ensures Map(s + t, f) == Map(s, f) + Map(t, f)
  {
  }

  /** Taking out the element at `j` takes its image out of the mapped
      multiset. */
  lemma MapRemove<T, U>(b: seq<T>, j: nat, f: T -> U)
    requires j < |b|
    ensures multiset(Map(b, f)) == multiset(Map(b[..j] + b[j + 1..], f)) + multiset{f(b[j])}
  {
    var l, x, r := b[..j], b[j], b[j + 1..];
    assert b == (l + [x]) + r;
    MapConcat(l + [x], r, f);
    MapAppend(l, x, f);
    MapConcat(l, r, f);
    var ml, mr := Map(l, f), Map(r, f);
    calc {
      multiset(Map(b, f));
      multiset((ml + [f(x)]) + mr);
      multiset(ml) + multiset{f(x)} + multiset(mr);
      multiset(ml + mr) + multiset{f(x)};
    }
  }

  /** Taking out the element at `j` takes one occurrence of it out of the
      multiset. */
  lemma SeqRemove<T>(b: seq<T>, j: nat)
    requires j < |b|
    ensures multiset(b) == multiset(b[..j] + b[j + 1..]) + multiset{b[j]}
  {
    var l, x, r := b[..j], b[j], b[j + 1..];
    assert b == (l + [x]) + r;
    calc {
      multiset(b);
      multiset(l) + multiset{x} + multiset(r);
      multiset(l + r) + multiset{x};
    }
  }

  /** Mapping permuted sequences gives permuted results. */
  lemma {:induction false} MapPermutation<T, U>(a: seq<T>, b: seq<T>, f: T -> U)
    requires multiset(a) == multiset(b)
    ensures multiset(Map(a, f)) == multiset(Map(b, f))
  {
    if a != [] {
      var x, tail := a[0], a[1..];
      assert x in multiset(b);
      var j :| 0 <= j < |b| && b[j] == x;
      var rest := b[..j] + b[j + 1..];
      SeqRemove(b, j);
      assert a == [x] + tail;
      assert multiset(a) == multiset(tail) + multiset{x};
      MultisetCancel(multiset(tail), multiset(rest), x);
      MapPermutation(tail, rest, f);
      MapRemove(b, j, f);
      MapCons(a, f);
      calc {
        multiset(Map(a, f));
        multiset([f(x)] + Map(tail, f));
        multiset(Map(tail, f)) + multiset{f(x)};
        multiset(Map(rest, f)) + multiset{f(x)};
        multiset(Map(b, f));
      }
    }
  }

  /** No element occurs twice. */
  ghost predicate Distinct<T>(s: seq<T>) {
    forall i, j :: 0 <= i < j < |s| ==> s[i] != s[j]
  }

  /** In a sequence without repetitions every element occurs once. */
  lemma {:induction false} DistinctCountsOne<T>(s: seq<T>)
    requires Distinct(s)
    ensures forall x :: multiset(s)[x] <= 1
  {
    if s != [] {
      assert Distinct(s[1..]);
      DistinctCountsOne(s[1..]);
      assert s == [s[0]] + s[1..];
      assert s[0] !in s[1..];
    }
  }

  /** An element occurs at least once, and twice if it is repeated later. */
  lemma PairCount<T>(s: seq<T>, i: nat, j: nat)
    requires i < j < |s|
    ensures multiset(s)[s[i]] >= if s[i] == s[j] then 2 else 1
  {
    assert s == s[..j] + [s[j]] + s[j + 1..];
    assert s[i] in s[..j];
  }
}
