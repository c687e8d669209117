/** `[...xs].sort(cmp)`: a stable sort of a copy under a JavaScript comparator.

    A comparator returns a negative number, zero or a positive number; the
    engine places a before b when cmp(a, b) < 0, and keeps the input order
    when cmp(a, b) is zero, because `Array.prototype.sort` is stable. SortBy
    is that result, defined as insertion from the right; SortInPlace computes
    it in place on an array, as the engine's `sort` does. */
module Sorting {
  import opened Wrappers
  import opened Text
  import opened Lists

  /** The three keys offered by the "Ordenar por" selectors. */
  datatype SortKey = Recent | Alphabetical | ByStatus

  /** Under cmp, a may stand before b. */
  predicate Le<T>(cmp: (T, T) -> int, a: T, b: T)
  {
    cmp(a, b) <= 0
  }

  /** cmp is a total preorder on the elements of s: what a comparator must be
      for the order of the sorted result to be determined. */
  ghost predicate Consistent<T>(cmp: (T, T) -> int, s: seq<T>)
  {
    && (forall a, b | a in s && b in s :: Le(cmp, a, b) || Le(cmp, b, a))
    && (forall a, b, c | a in s && b in s && c in s && Le(cmp, a, b) && Le(cmp, b, c) :: Le(cmp, a, c))
  }

  /** Every element may stand before every later one. */
  ghost predicate SortedBy<T>(cmp: (T, T) -> int, s: seq<T>)
  {
    forall i, j | 0 <= i < j < |s| :: Le(cmp, s[i], s[j])
  }

  /** Insert x into t, scanning from the right past every element that must
      come after x; x lands after all elements it ties with. */
  function Insert<T>(t: seq<T>, x: T, cmp: (T, T) -> int): seq<T>
  {
    if t == [] then [x]
    else if Le(cmp, t[|t| - 1], x) then t + [x]
    else Insert(t[..|t| - 1], x, cmp) + [t[|t| - 1]]
  }

  /** The stable sort of s under cmp. */
  function SortBy<T>(s: seq<T>, cmp: (T, T) -> int): seq<T>
  {
    if s == [] then []
    else Insert(SortBy(s[..|s| - 1], cmp), s[|s| - 1], cmp)
  }

  /** Insertion adds exactly x. */
  lemma {:induction false} InsertPermutes<T>(t: seq<T>, x: T, cmp: (T, T) -> int)
    ensures multiset(Insert(t, x, cmp)) == multiset(t) + multiset{x}
  {
    if t != [] && !Le(cmp, t[|t| - 1], x) {
      InsertPermutes(t[..|t| - 1], x, cmp);
      assert t == t[..|t| - 1] + [t[|t| - 1]];
    }
  }

  /** The sorted list is a permutation of the input. */
  lemma {:induction false} SortByPermutes<T>(s: seq<T>, cmp: (T, T) -> int)
    ensures multiset(SortBy(s, cmp)) == multiset(s)
    ensures |SortBy(s, cmp)| == |s|
  {
    if s != [] {
      SortByPermutes(s[..|s| - 1], cmp);
      InsertPermutes(SortBy(s[..|s| - 1], cmp), s[|s| - 1], cmp);
      assert s == s[..|s| - 1] + [s[|s| - 1]];
    }
    assert |multiset(SortBy(s, cmp))| == |SortBy(s, cmp)|;
  }

  /** The elements of s that tie with k under cmp, in their order in s. */
  ghost function ClassOf<T>(s: seq<T>, cmp: (T, T) -> int, k: T): seq<T>
  {
    if s == [] then []
    else ClassOf(s[..|s| - 1], cmp, k) + (if Le(cmp, s[|s| - 1], k) && Le(cmp, k, s[|s| - 1]) then [s[|s| - 1]] else [])
  }

  /** A total preorder on a list is one on every list drawn from it. */
  lemma ConsistentSub<T>(cmp: (T, T) -> int, s: seq<T>, u: seq<T>)
    requires Consistent(cmp, s)
    requires forall z | z in u :: z in s
    ensures Consistent(cmp, u)
  {
  }

  /** Inserting into a sorted list keeps it sorted. */
  lemma {:induction false} InsertSorted<T>(t: seq<T>, x: T, cmp: (T, T) -> int)
    requires SortedBy(cmp, t)
    requires Consistent(cmp, t + [x])
    ensures SortedBy(cmp, Insert(t, x, cmp))
  {
    if t != [] {
      var n := |t|;
      var last, init := t[n - 1], t[..n - 1];
      if Le(cmp, last, x) {
        var r := t + [x];
        forall i, j | 0 <= i < j < |r| ensures Le(cmp, r[i], r[j]) {
          if j == n && i < n - 1 {
            assert r[i] in t + [x] && last in t + [x] && x in t + [x];
          }
        }
      } else {
        ConsistentSub(cmp, t + [x], init + [x]);
        InsertSorted(init, x, cmp);
        InsertPermutes(init, x, cmp);
        var mid := Insert(init, x, cmp);
        var r := mid + [last];
        assert Le(cmp, x, last) by {
          assert x in t + [x] && last in t + [x];
        }
        forall i, j | 0 <= i < j < |r| ensures Le(cmp, r[i], r[j]) {
          if j == |mid| {
            assert r[i] in multiset(init) + multiset{x} by {
              assert r[i] in mid;
            }
            if r[i] != x {
              var k :| 0 <= k < |init| && init[k] == r[i];
              assert t[k] == r[i] && t[n - 1] == last;
            }
          } else {
            assert r[i] == mid[i] && r[j] == mid[j];
          }
        }
      }
    }
  }

  /** Under a total preorder the result of SortBy is sorted. */
  lemma {:induction false} SortBySorted<T>(s: seq<T>, cmp: (T, T) -> int)
    requires Consistent(cmp, s)
    ensures SortedBy(cmp, SortBy(s, cmp))
  {
    if s != [] {
      var init, last := s[..|s| - 1], s[|s| - 1];
      assert s == init + [last];
      ConsistentSub(cmp, s, init);
      SortBySorted(init, cmp);
      SortByPermutes(init, cmp);
      var t := SortBy(init, cmp);
      forall z | z in t + [last] ensures z in s {
        if z != last {
          assert z in multiset(t);
        }
      }
      ConsistentSub(cmp, s, t + [last]);
      InsertSorted(t, last, cmp);
    }
  }

  /** The tie class of a list that ends in x extends that of its front. */
  lemma ClassOfSnoc<T>(t: seq<T>, x: T, cmp: (T, T) -> int, k: T)
    ensures ClassOf(t + [x], cmp, k) == ClassOf(t, cmp, k) + (if Le(cmp, x, k) && Le(cmp, k, x) then [x] else [])
  {
    assert (t + [x])[..|t + [x]| - 1] == t;
  }

  /** Insertion places x after everything it ties with, so the tie class of k
      gains x at its end, or is unchanged. */
  lemma {:induction false} InsertStable<T>(t: seq<T>, x: T, cmp: (T, T) -> int, k: T)
    requires Consistent(cmp, t + [x, k])
    ensures ClassOf(Insert(t, x, cmp), cmp, k) == ClassOf(t, cmp, k) + (if Le(cmp, x, k) && Le(cmp, k, x) then [x] else [])
  {
    if t == [] {
      ClassOfSnoc([], x, cmp, k);
    } else {
      var n := |t|;
      var last, init := t[n - 1], t[..n - 1];
      assert t == init + [last];
      if Le(cmp, last, x) {
        ClassOfSnoc(t, x, cmp, k);
      } else {
        ConsistentSub(cmp, t + [x, k], init + [x, k]);
        InsertStable(init, x, cmp, k);
        ClassOfSnoc(Insert(init, x, cmp), last, cmp, k);
        ClassOfSnoc(init, last, cmp, k);
        var xk := Le(cmp, x, k) && Le(cmp, k, x);
        var lk := Le(cmp, last, k) && Le(cmp, k, last);
        assert !(xk && lk);
      }
    }
  }

  /** Stability, relative to an enclosing domain that also holds k. */
  lemma {:induction false} SortByStableAt<T>(s: seq<T>, cmp: (T, T) -> int, k: T)
    requires Consistent(cmp, s + [k])
    ensures ClassOf(SortBy(s, cmp), cmp, k) == ClassOf(s, cmp, k)
  {
    if s != [] {
      var init, last := s[..|s| - 1], s[|s| - 1];
      assert s == init + [last];
      ConsistentSub(cmp, s + [k], init + [k]);
      SortByStableAt(init, cmp, k);
      SortByPermutes(init, cmp);
      var t := SortBy(init, cmp);
      forall z | z in t + [last, k] ensures z in s + [k] {
        if z != last && z != k {
          assert z in multiset(t);
        }
      }
      ConsistentSub(cmp, s + [k], t + [last, k]);
      InsertStable(t, last, cmp, k);
      ClassOfSnoc(init, last, cmp, k);
    }
  }

  /** Stability: elements that tie keep their input order. */
  lemma SortByStable<T>(s: seq<T>, cmp: (T, T) -> int)
    requires Consistent(cmp, s)
    ensures forall k | k in s :: ClassOf(SortBy(s, cmp), cmp, k) == ClassOf(s, cmp, k)
  {
    forall k | k in s ensures ClassOf(SortBy(s, cmp), cmp, k) == ClassOf(s, cmp, k) {
      ConsistentSub(cmp, s, s + [k]);
      SortByStableAt(s, cmp, k);
    }
  }

  /** A list that is already sorted comes back unchanged. */
  lemma {:induction false} SortedIsFixed<T>(s: seq<T>, cmp: (T, T) -> int)
    requires SortedBy(cmp, s)
    ensures SortBy(s, cmp) == s
  {
    if s != [] {
      var init, last := s[..|s| - 1], s[|s| - 1];
      assert s == init + [last];
      assert SortedBy(cmp, init) by {
        forall i, j | 0 <= i < j < |init| ensures Le(cmp, init[i], init[j]) {
          assert init[i] == s[i] && init[j] == s[j];
        }
      }
      SortedIsFixed(init, cmp);
      if init != [] {
        assert init[|init| - 1] == s[|s| - 2];
      }
    }
  }

  /** Sorting twice is sorting once. */
  lemma SortIdempotent<T>(s: seq<T>, cmp: (T, T) -> int)
    requires Consistent(cmp, s)
    ensures SortBy(SortBy(s, cmp), cmp) == SortBy(s, cmp)
  {
    SortBySorted(s, cmp);
    SortedIsFixed(SortBy(s, cmp), cmp);
  }

  /** When every pair ties the input order is kept. */
  lemma AllTiesKeepOrder<T>(s: seq<T>, cmp: (T, T) -> int)
    requires forall i, j | 0 <= i < |s| && 0 <= j < |s| :: cmp(s[i], s[j]) == 0
    ensures SortBy(s, cmp) == s
  {
    SortedIsFixed(s, cmp);
  }

  /** `(a, b) => key(a).localeCompare(key(b))`: ascending by a text key. */
  function ByText<T>(key: T -> string): (T, T) -> int
  {
    (a: T, b: T) => Compare(key(a), key(b))
  }

  /** `(a, b) => key(b).localeCompare(key(a))`: descending by a text key. */
  function ByTextDesc<T>(key: T -> string): (T, T) -> int
  {
    (a: T, b: T) => Compare(key(b), key(a))
  }

  /** `tb - ta` for two time values, where an unparsable date (NaN) makes the
      difference NaN, which the sort reads as zero. */
  function TimeDiff(ta: Option<int>, tb: Option<int>): int
  {
    if ta.Some? && tb.Some? then tb.value - ta.value else 0
  }

  /** `(a, b) => new Date(key(b)).getTime() - new Date(key(a)).getTime()`:
      newest first, time being the parsed date of an element. */
  function ByTimeDesc<T>(time: T -> Option<int>): (T, T) -> int
  {
    (a: T, b: T) => TimeDiff(time(a), time(b))
  }

  /** Ordering by a text key is a total preorder on every list. */
  lemma ByTextConsistent<T>(key: T -> string, s: seq<T>)
    ensures Consistent(ByText(key), s)
  {
    var cmp := ByText(key);
    forall a, b | a in s && b in s ensures Le(cmp, a, b) || Le(cmp, b, a) {
      CompareAntisymmetric(key(a), key(b));
    }
    forall a, b, c | a in s && b in s && c in s && Le(cmp, a, b) && Le(cmp, b, c)
      ensures Le(cmp, a, c)
    {
      CompareTransitive(key(a), key(b), key(c));
    }
  }

  /** So is ordering descending by a text key. */
  lemma ByTextDescConsistent<T>(key: T -> string, s: seq<T>)
    ensures Consistent(ByTextDesc(key), s)
  {
    var cmp := ByTextDesc(key);
    forall a, b | a in s && b in s ensures Le(cmp, a, b) || Le(cmp, b, a) {
      CompareAntisymmetric(key(a), key(b));
    }
    forall a, b, c | a in s && b in s && c in s && Le(cmp, a, b) && Le(cmp, b, c)
      ensures Le(cmp, a, c)
    {
      CompareTransitive(key(c), key(b), key(a));
    }
  }

  /** Under a text key, two elements tie exactly when their keys are equal. */
  lemma ByTextTies<T>(key: T -> string, a: T, b: T)
    ensures (Le(ByText(key), a, b) && Le(ByText(key), b, a)) <==> key(a) == key(b)
    ensures (Le(ByTextDesc(key), a, b) && Le(ByTextDesc(key), b, a)) <==> key(a) == key(b)
  {
    CompareAntisymmetric(key(a), key(b));
    CompareZeroIffEqual(key(a), key(b));
  }

  /** Ordering by time is a total preorder on a list whose dates all parse. */
  lemma ByTimeConsistent<T>(time: T -> Option<int>, s: seq<T>)
    requires forall x | x in s :: time(x).Some?
    ensures Consistent(ByTimeDesc(time), s)
  {
  }

  /** A list none of whose dates parse comes back in its input order. */
  lemma ByTimeUnparsedKeepsOrder<T>(time: T -> Option<int>, s: seq<T>)
    requires forall x | x in s :: time(x).None?
    ensures SortBy(s, ByTimeDesc(time)) == s
  {
    AllTiesKeepOrder(s, ByTimeDesc(time));
  }

  /** The filter callback "has key value v". */
  function HasKey<T, K(==)>(key: T -> K, v: K): T -> bool
  {
    x => key(x) == v
  }

  /** When ties under cmp are exactly equal keys, the tie class of k is the
      sub-list of elements with k's key. */
  lemma {:induction false} ClassOfByKey<T, K>(s: seq<T>, cmp: (T, T) -> int, key: T -> K, k: T)
    requires forall x | x in s :: (Le(cmp, x, k) && Le(cmp, k, x)) <==> key(x) == key(k)
    ensures ClassOf(s, cmp, k) == Filter(s, HasKey(key, key(k)))
  {
    if s != [] {
      var t, x := s[..|s| - 1], s[|s| - 1];
      assert s == t + [x];
      ClassOfByKey(t, cmp, key, k);
      FilterAppend(t, [x], HasKey(key, key(k)));
    }
  }

  /** A list without an element of key v filters to nothing. */
  lemma FilterNoKey<T, K>(s: seq<T>, key: T -> K, v: K)
    requires forall x | x in s :: key(x) != v
    ensures Filter(s, HasKey(key, v)) == []
  {
  }

  /** Stability in terms of keys: for every key value, the elements having it
      appear in the sorted list in their input order. */
  lemma SortByKeepsKeyOrder<T, K>(s: seq<T>, cmp: (T, T) -> int, key: T -> K)
    requires Consistent(cmp, s)
    requires forall a, b | a in s && b in s :: (Le(cmp, a, b) && Le(cmp, b, a)) <==> key(a) == key(b)
    ensures forall v :: Filter(SortBy(s, cmp), HasKey(key, v)) == Filter(s, HasKey(key, v))
  {
    var r := SortBy(s, cmp);
    SortByPermutes(s, cmp);
    assert forall x | x in r :: x in s by {
      forall x | x in r ensures x in s {
        assert multiset(r)[x] > 0;
      }
    }
    forall v ensures Filter(r, HasKey(key, v)) == Filter(s, HasKey(key, v)) {
      if k :| k in s && key(k) == v {
        SortByStable(s, cmp);
        ClassOfByKey(s, cmp, key, k);
        ClassOfByKey(r, cmp, key, k);
      } else {
        FilterNoKey(s, key, v);
        FilterNoKey(r, key, v);
      }
    }
  }

  /** Sorting ascending by a text key: a permutation, keys ascending, and
      elements with equal keys in input order. */
  lemma ByTextSort<T>(s: seq<T>, key: T -> string)
    ensures multiset(SortBy(s, ByText(key))) == multiset(s)
    ensures forall i, j | 0 <= i < j < |SortBy(s, ByText(key))| ::
      Compare(key(SortBy(s, ByText(key))[i]), key(SortBy(s, ByText(key))[j])) <= 0
    ensures forall v :: Filter(SortBy(s, ByText(key)), HasKey(key, v)) == Filter(s, HasKey(key, v))
  {
    SortByPermutes(s, ByText(key));
    ByTextConsistent(key, s);
    SortBySorted(s, ByText(key));
    forall a, b | a in s && b in s
      ensures (Le(ByText(key), a, b) && Le(ByText(key), b, a)) <==> key(a) == key(b)
    {
      ByTextTies(key, a, b);
    }
    SortByKeepsKeyOrder(s, ByText(key), key);
  }

  /** Sorting descending by a text key: a permutation, keys descending, and
      elements with equal keys in input order. */
  lemma ByTextDescSort<T>(s: seq<T>, key: T -> string)
    ensures multiset(SortBy(s, ByTextDesc(key))) == multiset(s)
    ensures forall i, j | 0 <= i < j < |SortBy(s, ByTextDesc(key))| ::
      Compare(key(SortBy(s, ByTextDesc(key))[j]), key(SortBy(s, ByTextDesc(key))[i])) <= 0
    ensures forall v :: Filter(SortBy(s, ByTextDesc(key)), HasKey(key, v)) == Filter(s, HasKey(key, v))
  {
    SortByPermutes(s, ByTextDesc(key));
    ByTextDescConsistent(key, s);
    SortBySorted(s, ByTextDesc(key));
    forall a, b | a in s && b in s
      ensures (Le(ByTextDesc(key), a, b) && Le(ByTextDesc(key), b, a)) <==> key(a) == key(b)
    {
      ByTextTies(key, a, b);
    }
    SortByKeepsKeyOrder(s, ByTextDesc(key), key);
  }

  /** Every time of the list parses, and none is later than one before it. */
  ghost predicate NewestFirst<T>(s: seq<T>, time: T -> Option<int>)
  {
    forall i, j | 0 <= i < j < |s| ::
      time(s[i]).Some? && time(s[j]).Some? && time(s[j]).value <= time(s[i]).value
  }

  /** With both dates parsed, two elements tie exactly when their times are
      equal. */
  lemma ByTimeTies<T>(time: T -> Option<int>, s: seq<T>)
    requires forall x | x in s :: time(x).Some?
    ensures forall a, b | a in s && b in s ::
      (Le(ByTimeDesc(time), a, b) && Le(ByTimeDesc(time), b, a)) <==> time(a) == time(b)
  {
  }

  /** Sorted newest first, every date parsed: elements of equal time keep
      their input order. */
  lemma ByTimeSortStable<T>(s: seq<T>, time: T -> Option<int>)
    requires forall x | x in s :: time(x).Some?
    ensures forall v :: Filter(SortBy(s, ByTimeDesc(time)), HasKey(time, v)) == Filter(s, HasKey(time, v))
  {
    ByTimeConsistent(time, s);
    ByTimeTies(time, s);
    SortByKeepsKeyOrder<T, Option<int>>(s, ByTimeDesc(time), time);
    forall v ensures Filter(SortBy(s, ByTimeDesc(time)), HasKey(time, v)) == Filter(s, HasKey(time, v)) {
      assert Filter(SortBy(s, ByTimeDesc(time)), HasKey<T, Option<int>>(time, v)) == Filter(s, HasKey<T, Option<int>>(time, v));
    }
  }

  /** Every element of a sorted list comes from the input. */
  lemma SortByMembers<T>(s: seq<T>, cmp: (T, T) -> int)
    ensures forall x | x in SortBy(s, cmp) :: x in s
  {
    SortByPermutes(s, cmp);
    forall x | x in SortBy(s, cmp) ensures x in s {
      assert multiset(SortBy(s, cmp))[x] > 0;
    }
  }

  /** Sorted newest first, every date parsed: times are non-increasing. */
  lemma ByTimeSortedTimes<T>(s: seq<T>, time: T -> Option<int>)
    requires forall x | x in s :: time(x).Some?
    ensures NewestFirst(SortBy(s, ByTimeDesc(time)), time)
  {
    var r := SortBy(s, ByTimeDesc(time));
    ByTimeConsistent(time, s);
    SortBySorted(s, ByTimeDesc(time));
    SortByMembers(s, ByTimeDesc(time));
    forall i, j | 0 <= i < j < |r|
      ensures time(r[i]).Some? && time(r[j]).Some? && time(r[j]).value <= time(r[i]).value
    {
      assert r[i] in r && r[j] in r;
      assert Le(ByTimeDesc(time), r[i], r[j]);
    }
    assert NewestFirst(r, time);
  }

  /** Sorting newest first when every date parses: a permutation, times
      non-increasing, and elements of equal time in input order. */
  lemma ByTimeSort<T>(s: seq<T>, time: T -> Option<int>)
    requires forall x | x in s :: time(x).Some?
    ensures multiset(SortBy(s, ByTimeDesc(time))) == multiset(s)
    ensures NewestFirst(SortBy(s, ByTimeDesc(time)), time)
    ensures forall v :: Filter(SortBy(s, ByTimeDesc(time)), HasKey(time, v)) == Filter(s, HasKey(time, v))
  {
    SortByPermutes(s, ByTimeDesc(time));
    ByTimeSortedTimes(s, time);
    ByTimeSortStable(s, time);
  }

  /** Where insertion puts x: after the longest suffix of t whose elements
      must all come after x. */
  lemma {:induction false} InsertAt<T>(t: seq<T>, x: T, cmp: (T, T) -> int, j: nat)
    requires j <= |t|
    requires j == 0 || Le(cmp, t[j - 1], x)
    requires forall k | j <= k < |t| :: !Le(cmp, t[k], x)
    ensures Insert(t, x, cmp) == t[..j] + [x] + t[j..]
  {
    if j < |t| {
      var init, last := t[..|t| - 1], t[|t| - 1];
      assert !Le(cmp, last, x);
      assert Insert(t, x, cmp) == Insert(init, x, cmp) + [last];
      forall k | j <= k < |init| ensures !Le(cmp, init[k], x) {
        assert init[k] == t[k];
      }
      assert j > 0 ==> init[j - 1] == t[j - 1];
      InsertAt(init, x, cmp, j);
      assert init[..j] == t[..j];
      assert t[j..] == init[j..] + [last];
    } else {
      assert t[..j] == t;
    }
  }

  /** Shift the sorted prefix a[..i] right past a[i] until a[i] meets an
      element that may stand before it, and drop a[i] into the gap. */
  method InsertInPlace<T>(a: array<T>, i: nat, cmp: (T, T) -> int)
    requires i < a.Length
    modifies a
    ensures a[..i + 1] == Insert(old(a[..i]), old(a[i]), cmp)
    ensures a[i + 1..] == old(a[i + 1..])
  {
    var x := a[i];
    ghost var t := a[..i];
    var j := i;
    while j > 0 && cmp(a[j - 1], x) > 0
      invariant 0 <= j <= i
      invariant forall k | 0 <= k < j :: a[k] == t[k]
      invariant forall k | j < k <= i :: a[k] == t[k - 1]
      invariant forall k | i < k < a.Length :: a[k] == old(a[k])
      invariant forall k | j <= k < i :: !Le(cmp, t[k], x)
    {
      a[j] := a[j - 1];
      j := j - 1;
    }
    a[j] := x;
    InsertAt(t, x, cmp, j);
    ghost var r := t[..j] + [x] + t[j..];
    assert |r| == i + 1;
    forall k | 0 <= k <= i ensures a[k] == r[k] {
      if k > j {
        assert r[k] == t[k - 1];
      }
    }
    assert a[..i + 1] == r;
  }

  /** Sorting one more element of s inserts it into the sorted prefix. */
  lemma SortByPrefixStep<T>(s: seq<T>, i: nat, cmp: (T, T) -> int)
    requires i < |s|
    ensures SortBy(s[..i + 1], cmp) == Insert(SortBy(s[..i], cmp), s[i], cmp)
  {
    assert s[..i + 1][..i] == s[..i];
  }

  /** The engine's in-place `sort`, as an insertion sort. */
  method SortInPlace<T>(a: array<T>, cmp: (T, T) -> int)
    modifies a
    ensures a[..] == SortBy(old(a[..]), cmp)
  {
    ghost var s := a[..];
    var i := 0;
    while i < a.Length
      invariant 0 <= i <= a.Length
      invariant a[..i] == SortBy(s[..i], cmp)
      invariant a[i..] == s[i..]
    {
      ghost var before := a[..];
      assert a[i] == s[i];
      InsertInPlace(a, i, cmp);
      SortByPrefixStep(s, i, cmp);
      assert a[i + 1..] == s[i + 1..];
      i := i + 1;
    }
    assert a[..] == a[..a.Length] && s == s[..a.Length];
  }

  /** `[...s].sort(cmp)`: sorts a fresh copy, so the caller's list is untouched. */
  method SortedCopy<T>(s: seq<T>, cmp: (T, T) -> int) returns (r: seq<T>)
    ensures r == SortBy(s, cmp)
  {
    var a := new T[|s|](i requires 0 <= i < |s| => s[i]);
    assert a[..] == s;
    SortInPlace(a, cmp);
    r := a[..];
  }
}
