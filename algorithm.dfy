/**
 * The range algorithms of the library's algorithm header, over integer arrays.
 *
 * An iterator is an index into an array and a range is the half-open index
 * interval [first, last). Predicates and operations are pure functions. A
 * generator, which the library calls once per written element, is a function
 * from the number of the call (0, 1, 2, ...) to the value that call returns.
 */
module Algorithm {

  /* ---------------------------------------------------------------------- */
  /* Specification functions                                                 */
  /* ---------------------------------------------------------------------- */

  /** The elements of `s` that satisfy `p`, in their original order. */
  function Filter(s: seq<int>, p: int -> bool): (r: seq<int>)
    ensures |r| <= |s|
  {
    if s == [] then []
    else Filter(s[..|s| - 1], p) + (if p(s[|s| - 1]) then [s[|s| - 1]] else [])
  }

  /** Filtering keeps every occurrence of an element that satisfies `p` and
      none of an element that does not. */
  lemma {:induction false} FilterOccurrences(s: seq<int>, p: int -> bool, x: int)
    ensures multiset(Filter(s, p))[x] == if p(x) then multiset(s)[x] else 0
  {
    if s != [] {
      FilterOccurrences(s[..|s| - 1], p, x);
      assert s == s[..|s| - 1] + [s[|s| - 1]];
    }
  }

  /** Filtering a range whose every element passes changes nothing. */
  lemma {:induction false} FilterKeepsAll(s: seq<int>, p: int -> bool)
    requires forall i :: 0 <= i < |s| ==> p(s[i])
    ensures Filter(s, p) == s
  {
    if s != [] {
      FilterKeepsAll(s[..|s| - 1], p);
      assert s[..|s| - 1] + [s[|s| - 1]] == s;
    }
  }

  /** Filtering a range extended by one element. */
  lemma FilterSnoc(s: seq<int>, x: int, p: int -> bool)
    ensures Filter(s + [x], p) == Filter(s, p) + (if p(x) then [x] else [])
  {
    assert (s + [x])[..|s + [x]| - 1] == s;
  }

  /** Filtering a prefix gives no more elements than filtering the whole. */
  lemma {:induction false} FilterPrefixLength(s: seq<int>, i: int, p: int -> bool)
    requires 0 <= i <= |s|
    ensures |Filter(s[..i], p)| <= |Filter(s, p)|
  {
    if i < |s| {
      var init := s[..|s| - 1];
      assert init[..i] == s[..i];
      FilterPrefixLength(init, i, p);
    } else {
      assert s[..i] == s;
    }
  }

  /** A passing element at `it` means the filtered `s[first..it]` leaves room
      for one more element within the filtered `s[first..last]`. */
  lemma FilterRoomForOne(s: seq<int>, first: int, it: int, last: int, p: int -> bool)
    requires 0 <= first <= it < last <= |s| && p(s[it])
    ensures |Filter(s[first..it], p)| < |Filter(s[first..last], p)|
  {
    assert s[first..it + 1] == s[first..it] + [s[it]];
    FilterSnoc(s[first..it], s[it], p);
    assert s[first..last][..it + 1 - first] == s[first..it + 1];
    FilterPrefixLength(s[first..last], it + 1 - first, p);
  }

  /** The number of elements of `s` that satisfy `p`. */
  function CountWhere(s: seq<int>, p: int -> bool): (n: nat)
    ensures n <= |s|
    ensures n == |s| <==> forall i :: 0 <= i < |s| ==> p(s[i])
    ensures n == 0 <==> forall i :: 0 <= i < |s| ==> !p(s[i])
  {
    if s == [] then 0
    else CountWhere(s[..|s| - 1], p) + (if p(s[|s| - 1]) then 1 else 0)
  }

  /** The count of `count_if` is the length of the filtered range. */
  lemma {:induction false} CountWhereIsFilterLength(s: seq<int>, p: int -> bool)
    ensures CountWhere(s, p) == |Filter(s, p)|
  {
    if s != [] {
      CountWhereIsFilterLength(s[..|s| - 1], p);
    }
  }

  /** Writing `n` elements to `d` from `dFirst` onwards, front to back, never
      overwrites an element of `a[first .. first + n)` before it is read. */
  predicate ForwardSafe(a: array<int>, first: int, n: int, d: array<int>, dFirst: int)
  {
    a != d || dFirst <= first || first + n <= dFirst
  }

  /** How many times a counted loop `for (i = 0; i < n; ++i)` runs. */
  function Trips(n: int): (t: nat)
    ensures n <= 0 ==> t == 0
    ensures n > 0 ==> t == n
  {
    if n > 0 then n else 0
  }

  /* ---------------------------------------------------------------------- */
  /* Searches                                                                */
  /* ---------------------------------------------------------------------- */

  /** `find`: the first position of `value` in the range, or `last`. */
  method Find(a: array<int>, first: int, last: int, value: int) returns (it: int)
    requires 0 <= first <= last <= a.Length
    ensures first <= it <= last
    ensures forall k :: first <= k < it ==> a[k] != value
    ensures it < last ==> a[it] == value
  {
    it := first;
    while it != last
      invariant first <= it <= last
      invariant forall k :: first <= k < it ==> a[k] != value
      decreases last - it
    {
      if a[it] == value {
        return;
      }
      it := it + 1;
    }
  }

  /** `find_if`: the first position whose element satisfies `pred`, or `last`. */
  method FindIf(a: array<int>, first: int, last: int, pred: int -> bool) returns (it: int)
    requires 0 <= first <= last <= a.Length
    ensures first <= it <= last
    ensures forall k :: first <= k < it ==> !pred(a[k])
    ensures it < last ==> pred(a[it])
  {
    it := first;
    while it != last
      invariant first <= it <= last
      invariant forall k :: first <= k < it ==> !pred(a[k])
      decreases last - it
    {
      if pred(a[it]) {
        return;
      }
      it := it + 1;
    }
  }

  /** `find_if_not`: the first position whose element fails `pred`, or `last`. */
  method FindIfNot(a: array<int>, first: int, last: int, pred: int -> bool) returns (it: int)
    requires 0 <= first <= last <= a.Length
    ensures first <= it <= last
    ensures forall k :: first <= k < it ==> pred(a[k])
    ensures it < last ==> !pred(a[it])
  {
    it := first;
    while it != last
      invariant first <= it <= last
      invariant forall k :: first <= k < it ==> pred(a[k])
      decreases last - it
    {
      if !pred(a[it]) {
        return;
      }
      it := it + 1;
    }
  }

  /* ---------------------------------------------------------------------- */
  /* for_each and for_each_n                                                 */
  /* ---------------------------------------------------------------------- */

  /** `for_each`: calls `fn` on every element of the range, front to back,
      and returns `fn`. `fn` is pure here, so what the call records is the
      sequence of arguments it received. */
  method ForEach(a: array<int>, first: int, last: int, fn: int -> int)
    returns (g: int -> int, calls: seq<int>)
    requires 0 <= first <= last <= a.Length
    ensures g == fn
    ensures calls == a[first..last]
  {
    var it := first;
    calls := [];
    while it != last
      invariant first <= it <= last
      invariant calls == a[first..it]
      decreases last - it
    {
      calls := calls + [a[it]];
      it := it + 1;
    }
    g := fn;
  }

  /** `for_each_n`: calls `fn` on `n` successive elements (none when
      `n <= 0`) and returns `first` advanced past them. */
  method ForEachN(a: array<int>, first: int, n: int, fn: int -> int)
    returns (end: int, calls: seq<int>)
    requires 0 <= first && first + Trips(n) <= a.Length
    ensures end == first + Trips(n)
    ensures calls == a[first..end]
  {
    var i := 0;
    end := first;
    calls := [];
    while i < n
      invariant 0 <= i <= Trips(n) && end == first + i
      invariant calls == a[first..end]
    {
      calls := calls + [a[end]];
      end := end + 1;
      i := i + 1;
    }
  }

  /* ---------------------------------------------------------------------- */
  /* Boolean combinators, built on the searches                              */
  /* ---------------------------------------------------------------------- */

  /** `all_of`: `find_if_not` reaches `last`. */
  method AllOf(a: array<int>, first: int, last: int, pred: int -> bool) returns (b: bool)
    requires 0 <= first <= last <= a.Length
    ensures b <==> forall k :: first <= k < last ==> pred(a[k])
    ensures first == last ==> b
  {
    var it := FindIfNot(a, first, last, pred);
    b := it == last;
  }

  /** `any_of`: `find_if` stops before `last`; the negation of `none_of`. */
  method AnyOf(a: array<int>, first: int, last: int, pred: int -> bool) returns (b: bool)
    requires 0 <= first <= last <= a.Length
    ensures b <==> exists k :: first <= k < last && pred(a[k])
    ensures b <==> !(forall k :: first <= k < last ==> !pred(a[k]))
  {
    var it := FindIf(a, first, last, pred);
    b := it != last;
  }

  /** `none_of`: `find_if` reaches `last`. */
  method NoneOf(a: array<int>, first: int, last: int, pred: int -> bool) returns (b: bool)
    requires 0 <= first <= last <= a.Length
    ensures b <==> forall k :: first <= k < last ==> !pred(a[k])
    ensures first == last ==> b
  {
    var it := FindIf(a, first, last, pred);
    b := it == last;
  }

  /* ---------------------------------------------------------------------- */
  /* Counting                                                                */
  /* ---------------------------------------------------------------------- */

  /** `count` as written: the loop increments the counter for every element
      and never compares it with `value`. */
  method Count(a: array<int>, first: int, last: int, value: int) returns (n: int)
    requires 0 <= first <= last <= a.Length
    ensures n == last - first
  {
    n := 0;
    var it := first;
    while it != last
      invariant first <= it <= last && n == it - first
      decreases last - it
    {
      n := n + 1;
      it := it + 1;
    }
  }

  /** `count` as intended: the number of elements equal to `value`. */
  method CountValue(a: array<int>, first: int, last: int, value: int) returns (n: int)
    requires 0 <= first <= last <= a.Length
    ensures n == multiset(a[first..last])[value]
    ensures 0 <= n <= last - first
  {
    n := 0;
    var it := first;
    while it != last
      invariant first <= it <= last
      invariant n == multiset(a[first..it])[value]
      decreases last - it
    {
      assert a[first..it + 1] == a[first..it] + [a[it]];
      if a[it] == value {
        n := n + 1;
      }
      it := it + 1;
    }
  }

  /** The two counts disagree on [1, 2] with value 3. */
  method CountIgnoresValue() returns (asWritten: int, intended: int)
    ensures asWritten == 2 && intended == 0
  {
    var a := new int[] [1, 2];
    asWritten := Count(a, 0, 2, 3);
    intended := CountValue(a, 0, 2, 3);
    assert a[0..2] == [1, 2];
  }

  /** `count_if`: the number of elements satisfying `pred`. */
  method CountIf(a: array<int>, first: int, last: int, pred: int -> bool) returns (n: int)
    requires 0 <= first <= last <= a.Length
    ensures n == CountWhere(a[first..last], pred)
    ensures 0 <= n <= last - first
  {
    n := 0;
    var it := first;
    while it != last
      invariant first <= it <= last
      invariant n == CountWhere(a[first..it], pred)
      decreases last - it
    {
      assert a[first..it + 1][..it - first] == a[first..it];
      if pred(a[it]) {
        n := n + 1;
      }
      it := it + 1;
    }
  }

  /* ---------------------------------------------------------------------- */
  /* Removal                                                                 */
  /* ---------------------------------------------------------------------- */

  /** `remove`: moves the elements different from `value` to the front of the
      range, in order, and returns the new end. Positions from the new end
      onwards keep the values they had. */
  method Remove(a: array<int>, first: int, last: int, value: int) returns (newLast: int)
    requires 0 <= first <= last <= a.Length
    modifies a
    ensures first <= newLast <= last
    ensures a[first..newLast] == Filter(old(a[first..last]), x => x != value)
    ensures forall k :: 0 <= k < a.Length && !(first <= k < newLast) ==> a[k] == old(a[k])
    ensures value !in old(a[first..last]) ==> newLast == last && a[..] == old(a[..])
  {
    newLast := Find(a, first, last, value);
    if newLast != last {
      assert a[first..last][newLast - first] == value;
      newLast := Compact(a, first, newLast, last, x => x != value);
    } else {
      FilterKeepsAll(a[first..last], x => x != value);
    }
  }

  /** The compaction loop shared by `remove` and `remove_if`: the elements of
      `[start, last)` that `keep` accepts are moved down, in order, behind the
      kept prefix `[first, start)`; the returned end closes the kept range. */
  method Compact(a: array<int>, first: int, start: int, last: int, keep: int -> bool) returns (newLast: int)
    requires 0 <= first <= start <= last <= a.Length
    requires forall k :: first <= k < start ==> keep(a[k])
    modifies a
    ensures first <= newLast <= last
    ensures a[first..newLast] == Filter(old(a[first..last]), keep)
    ensures forall k :: 0 <= k < a.Length && !(first <= k < newLast) ==> a[k] == old(a[k])
    ensures start == last ==> newLast == last
  {
    ghost var s := a[..];
    FilterKeepsAll(s[first..start], keep);
    assert a[first..start] == s[first..start];
    newLast := start;
    var it := start;
    while it != last
      invariant first <= newLast <= it <= last
      invariant a[first..newLast] == Filter(s[first..it], keep)
      invariant forall k :: 0 <= k < a.Length && !(first <= k < newLast) ==> a[k] == s[k]
      decreases last - it
    {
      if keep(a[it]) {
        ghost var before := a[..];
        a[newLast] := a[it];
        assert a[..] == before[newLast := s[it]];
        FilterStepKeeps(before, first, newLast, s, first, it, keep);
        newLast := newLast + 1;
      } else {
        FilterStepSkips(s, first, it, keep);
      }
      it := it + 1;
    }
    assert s[first..last] == old(a[first..last]);
  }

  /** One step of a filtering loop that writes an accepted element at `n`:
      if `out[dFirst..n]` holds the filtered `s[first..it]`, then after the
      write it holds the filtered `s[first..it + 1]`. */
  lemma FilterStepKeeps(out: seq<int>, dFirst: int, n: int, s: seq<int>, first: int, it: int, keep: int -> bool)
    requires 0 <= dFirst <= n < |out| && 0 <= first <= it < |s|
    requires out[dFirst..n] == Filter(s[first..it], keep) && keep(s[it])
    ensures out[n := s[it]][dFirst..n + 1] == Filter(s[first..it + 1], keep)
  {
    assert s[first..it + 1] == s[first..it] + [s[it]];
    FilterSnoc(s[first..it], s[it], keep);
    UpdateExtends(out, dFirst, n, s[it]);
  }

  /** Writing `x` just past the slice `[first, n)` extends that slice by `x`. */
  lemma UpdateExtends(s: seq<int>, first: int, n: int, x: int)
    requires 0 <= first <= n < |s|
    ensures s[n := x][first..n + 1] == s[first..n] + [x]
  {
    var t := s[n := x];
    assert t[first..n] == s[first..n];
    assert t[first..n + 1] == t[first..n] + [t[n]];
  }

  /** One step of a filtering loop that passes over a rejected element. */
  lemma FilterStepSkips(s: seq<int>, first: int, it: int, keep: int -> bool)
    requires 0 <= first <= it < |s| && !keep(s[it])
    ensures Filter(s[first..it + 1], keep) == Filter(s[first..it], keep)
  {
    assert s[first..it + 1] == s[first..it] + [s[it]];
    FilterSnoc(s[first..it], s[it], keep);
  }

  method RemoveIf(a: array<int>, first: int, last: int, pred: int -> bool) returns (newLast: int)
    requires 0 <= first <= last <= a.Length
    modifies a
    ensures first <= newLast <= last
    ensures a[first..newLast] == Filter(old(a[first..last]), x => !pred(x))
    ensures forall k :: 0 <= k < a.Length && !(first <= k < newLast) ==> a[k] == old(a[k])
    ensures (forall k :: first <= k < last ==> !old(pred(a[k]))) ==> newLast == last
  {
    newLast := FindIf(a, first, last, pred);
    newLast := Compact(a, first, newLast, last, x => !pred(x));
  }


  /** The example in the comment on `remove`: removing 0 from
      0 0 0 1 1 0 0 1 leaves 1 1 1 at the front. */
  method RemoveExample() returns (kept: seq<int>)
    ensures kept == [1, 1, 1]
  {
    var a := new int[] [0, 0, 0, 1, 1, 0, 0, 1];
    ghost var s := a[..];
    var newLast := Remove(a, 0, 8, 0);
    kept := a[0..newLast];
    assert s[0..8] == s;
    assert s == [0, 0, 0, 1, 1, 0, 0, 1];
    assert Filter(s, x => x != 0) == [1, 1, 1] by {
      var p := x => x != 0;
      assert s[..7] == [0, 0, 0, 1, 1, 0, 0];
      assert s[..7][..6] == [0, 0, 0, 1, 1, 0];
      assert s[..7][..6][..5] == [0, 0, 0, 1, 1];
      assert s[..7][..6][..5][..4] == [0, 0, 0, 1];
      assert s[..7][..6][..5][..4][..3] == [0, 0, 0];
      assert s[..7][..6][..5][..4][..3][..2] == [0, 0];
      assert s[..7][..6][..5][..4][..3][..2][..1] == [0];
      assert Filter([0], p) == [];
      assert Filter([0, 0], p) == [];
      assert Filter([0, 0, 0], p) == [];
      assert Filter([0, 0, 0, 1], p) == [1];
      assert Filter([0, 0, 0, 1, 1], p) == [1, 1];
      assert Filter([0, 0, 0, 1, 1, 0], p) == [1, 1];
      assert Filter([0, 0, 0, 1, 1, 0, 0], p) == [1, 1];
    }
  }

  /* ---------------------------------------------------------------------- */
  /* Transform, generate, copy, fill                                         */
  /* ---------------------------------------------------------------------- */

  /** Unary `transform`: `d[dFirst + i] = op(a[first + i])`. */
  method Transform(a: array<int>, first: int, last: int, d: array<int>, dFirst: int, op: int -> int)
    returns (dLast: int)
    requires 0 <= first <= last <= a.Length
    requires 0 <= dFirst && dFirst + (last - first) <= d.Length
    requires ForwardSafe(a, first, last - first, d, dFirst)
    modifies d
    ensures dLast == dFirst + (last - first)
    ensures forall k :: dFirst <= k < dLast ==> d[k] == op(old(a[first + (k - dFirst)]))
    ensures forall k :: 0 <= k < d.Length && !(dFirst <= k < dLast) ==> d[k] == old(d[k])
  {
    ghost var src := a[..];
    var it := first;
    dLast := dFirst;
    while it != last
      invariant first <= it <= last && dLast == dFirst + (it - first)
      invariant forall k :: dFirst <= k < dLast ==> d[k] == op(src[first + (k - dFirst)])
      invariant forall k :: 0 <= k < d.Length && !(dFirst <= k < dLast) ==> d[k] == old(d[k])
      invariant forall k :: it <= k < last ==> a[k] == src[k]
      decreases last - it
    {
      var x := a[it];
      d[dLast] := op(x);
      it, dLast := it + 1, dLast + 1;
    }
  }

  /** Binary `transform`: `d[dFirst + i] = op(a[first1 + i], b[first2 + i])`. */
  method Transform2(a: array<int>, first1: int, last1: int, b: array<int>, first2: int,
                    d: array<int>, dFirst: int, op: (int, int) -> int)
    returns (dLast: int)
    requires 0 <= first1 <= last1 <= a.Length
    requires 0 <= first2 && first2 + (last1 - first1) <= b.Length
    requires 0 <= dFirst && dFirst + (last1 - first1) <= d.Length
    requires ForwardSafe(a, first1, last1 - first1, d, dFirst)
    requires ForwardSafe(b, first2, last1 - first1, d, dFirst)
    modifies d
    ensures dLast == dFirst + (last1 - first1)
    ensures forall k :: dFirst <= k < dLast ==>
              d[k] == op(old(a[first1 + (k - dFirst)]), old(b[first2 + (k - dFirst)]))
    ensures forall k :: 0 <= k < d.Length && !(dFirst <= k < dLast) ==> d[k] == old(d[k])
  {
    ghost var srcA, srcB := a[..], b[..];
    var it1, it2 := first1, first2;
    dLast := dFirst;
    while it1 != last1
      invariant first1 <= it1 <= last1
      invariant it2 == first2 + (it1 - first1) && dLast == dFirst + (it1 - first1)
      invariant forall k :: dFirst <= k < dLast ==>
                  d[k] == op(srcA[first1 + (k - dFirst)], srcB[first2 + (k - dFirst)])
      invariant forall k :: 0 <= k < d.Length && !(dFirst <= k < dLast) ==> d[k] == old(d[k])
      invariant forall k :: it1 <= k < last1 ==> a[k] == srcA[k]
      invariant forall k :: it2 <= k < first2 + (last1 - first1) ==> b[k] == srcB[k]
      decreases last1 - it1
    {
      var x, y := a[it1], b[it2];
      assert x == srcA[first1 + (dLast - dFirst)] && y == srcB[first2 + (dLast - dFirst)];
      d[dLast] := op(x, y);
      it1, it2, dLast := it1 + 1, it2 + 1, dLast + 1;
    }
  }

  /** `generate`: the i-th position of the range receives the i-th result
      of the generator. */
  method Generate(a: array<int>, first: int, last: int, g: nat -> int)
    requires 0 <= first <= last <= a.Length
    modifies a
    ensures forall k :: first <= k < last ==> a[k] == g(k - first)
    ensures forall k :: 0 <= k < a.Length && !(first <= k < last) ==> a[k] == old(a[k])
  {
    var it := first;
    while it != last
      invariant first <= it <= last
      invariant forall k :: first <= k < it ==> a[k] == g(k - first)
      invariant forall k :: 0 <= k < a.Length && !(first <= k < it) ==> a[k] == old(a[k])
      decreases last - it
    {
      a[it] := g(it - first);
      it := it + 1;
    }
  }

  /** `generate_n`: writes `n` generated values (none when `n <= 0`) and
      returns the position after the last one. */
  method GenerateN(a: array<int>, first: int, n: int, g: nat -> int) returns (end: int)
    requires 0 <= first && first + Trips(n) <= a.Length
    modifies a
    ensures end == first + Trips(n)
    ensures forall k :: first <= k < end ==> a[k] == g(k - first)
    ensures forall k :: 0 <= k < a.Length && !(first <= k < end) ==> a[k] == old(a[k])
  {
    var i := 0;
    end := first;
    while i < n
      invariant 0 <= i <= Trips(n) && end == first + i
      invariant forall k :: first <= k < end ==> a[k] == g(k - first)
      invariant forall k :: 0 <= k < a.Length && !(first <= k < end) ==> a[k] == old(a[k])
    {
      a[end] := g(i);
      end := end + 1;
      i := i + 1;
    }
  }

  /** `copy`: `d[dFirst + i] = a[first + i]` for every position of the range. */
  method Copy(a: array<int>, first: int, last: int, d: array<int>, dFirst: int) returns (dLast: int)
    requires 0 <= first <= last <= a.Length
    requires 0 <= dFirst && dFirst + (last - first) <= d.Length
    requires ForwardSafe(a, first, last - first, d, dFirst)
    modifies d
    ensures dLast == dFirst + (last - first)
    ensures forall k :: dFirst <= k < dLast ==> d[k] == old(a[first + (k - dFirst)])
    ensures forall k :: 0 <= k < d.Length && !(dFirst <= k < dLast) ==> d[k] == old(d[k])
  {
    var it := first;
    dLast := dFirst;
    while it != last
      invariant first <= it <= last && dLast == dFirst + (it - first)
      invariant forall k :: dFirst <= k < dLast ==> d[k] == old(a[first + (k - dFirst)])
      invariant forall k :: 0 <= k < d.Length && !(dFirst <= k < dLast) ==> d[k] == old(d[k])
      decreases last - it
    {
      d[dLast] := a[it];
      it, dLast := it + 1, dLast + 1;
    }
  }

  /** `copy_n`: copies `count` elements (none when `count <= 0`). */
  method CopyN(a: array<int>, first: int, count: int, d: array<int>, dFirst: int) returns (dLast: int)
    requires 0 <= first && first + Trips(count) <= a.Length
    requires 0 <= dFirst && dFirst + Trips(count) <= d.Length
    requires ForwardSafe(a, first, Trips(count), d, dFirst)
    modifies d
    ensures dLast == dFirst + Trips(count)
    ensures forall k :: dFirst <= k < dLast ==> d[k] == old(a[first + (k - dFirst)])
    ensures forall k :: 0 <= k < d.Length && !(dFirst <= k < dLast) ==> d[k] == old(d[k])
  {
    dLast := dFirst;
    if count > 0 {
      var it := first;
      var n := 0;
      while n < count
        invariant 0 <= n <= count && it == first + n && dLast == dFirst + n
        invariant forall k :: dFirst <= k < dLast ==> d[k] == old(a[first + (k - dFirst)])
        invariant forall k :: 0 <= k < d.Length && !(dFirst <= k < dLast) ==> d[k] == old(d[k])
      {
        d[dLast] := a[it];
        it, dLast := it + 1, dLast + 1;
        n := n + 1;
      }
    }
  }

  /** `copy_backward`: copies the range so that it ends just before `last2`,
      walking from the back, and returns the start of the copy. Because it
      walks from the back, a destination overlapping the source on the right
      (`last1 <= last2` in the same array) still receives the original values. */
  method CopyBackward(a: array<int>, first1: int, last1: int, d: array<int>, last2: int)
    returns (dFirst: int)
    requires 0 <= first1 <= last1 <= a.Length
    requires last1 - first1 <= last2 <= d.Length
    requires a != d || last1 <= last2 || last2 <= first1
    modifies d
    ensures dFirst == last2 - (last1 - first1)
    ensures forall k :: dFirst <= k < last2 ==> d[k] == old(a[first1 + (k - dFirst)])
    ensures forall k :: 0 <= k < d.Length && !(dFirst <= k < last2) ==> d[k] == old(d[k])
  {
    var l1 := last1;
    dFirst := last2;
    while first1 != l1
      invariant first1 <= l1 <= last1 && dFirst == last2 - (last1 - l1)
      invariant forall k :: dFirst <= k < last2 ==> d[k] == old(a[l1 + (k - dFirst)])
      invariant forall k :: 0 <= k < d.Length && !(dFirst <= k < last2) ==> d[k] == old(d[k])
      decreases l1 - first1
    {
      dFirst := dFirst - 1;
      l1 := l1 - 1;
      d[dFirst] := a[l1];
    }
  }

  /** `copy_if` as intended: copies, in order, the elements satisfying `pred`
      and returns the end of what it wrote. */
  method CopyIf(a: array<int>, first: int, last: int, d: array<int>, dFirst: int, pred: int -> bool)
    returns (dLast: int)
    requires 0 <= first <= last <= a.Length
    requires 0 <= dFirst && dFirst + |Filter(a[first..last], pred)| <= d.Length
    requires ForwardSafe(a, first, last - first, d, dFirst)
    modifies d
    ensures dFirst <= dLast <= dFirst + (last - first)
    ensures dLast == dFirst + |Filter(old(a[first..last]), pred)|
    ensures d[dFirst..dLast] == Filter(old(a[first..last]), pred)
    ensures forall k :: 0 <= k < d.Length && !(dFirst <= k < dLast) ==> d[k] == old(d[k])
  {
    ghost var s := a[..];
    assert s[first..last] == a[first..last];
    ghost var total := |Filter(s[first..last], pred)|;
    var it := first;
    dLast := dFirst;
    while it != last
      invariant first <= it <= last && dFirst <= dLast <= dFirst + (it - first)
      invariant dLast - dFirst <= total
      invariant d[dFirst..dLast] == Filter(s[first..it], pred)
      invariant forall k :: 0 <= k < d.Length && !(dFirst <= k < dLast) ==> d[k] == old(d[k])
      invariant a == d ==> forall k :: 0 <= k < a.Length && !(dFirst <= k < dLast) ==> a[k] == s[k]
      invariant a != d ==> a[..] == s
      decreases last - it
    {
      if pred(a[it]) {
        FilterRoomForOne(s, first, it, last, pred);
        ghost var before := d[..];
        d[dLast] := a[it];
        assert d[..] == before[dLast := s[it]];
        FilterStepKeeps(before, dFirst, dLast, s, first, it, pred);
        dLast := dLast + 1;
      } else {
        FilterStepSkips(s, first, it, pred);
      }
      it := it + 1;
    }
    assert s[first..last] == old(a[first..last]);
  }

  /** The state of the loop of `copy_if` as written: the read position, the
      write position and what has been written so far. */
  datatype CopyIfState = CopyIfState(first: int, dFirst: int, written: seq<int>)

  /** One pass of the loop body of `copy_if` as written: the read position
      advances only when the element satisfies `pred`. */
  function CopyIfStepAsWritten(s: seq<int>, st: CopyIfState, pred: int -> bool): (next: CopyIfState)
    requires 0 <= st.first < |s|
    ensures pred(s[st.first]) ==> next.first == st.first + 1 && next.written == st.written + [s[st.first]]
    ensures !pred(s[st.first]) ==> next == st
  {
    if pred(s[st.first]) then
      CopyIfState(st.first + 1, st.dFirst + 1, st.written + [s[st.first]])
    else
      st
  }

  /** At most `steps` passes of `while (first != last)` of `copy_if` as written. */
  function CopyIfRunAsWritten(s: seq<int>, last: int, st: CopyIfState, pred: int -> bool, steps: nat): (r: CopyIfState)
    requires 0 <= st.first <= last <= |s|
    ensures st.first <= r.first <= last
    decreases steps
  {
    if steps == 0 || st.first == last then st
    else CopyIfRunAsWritten(s, last, CopyIfStepAsWritten(s, st, pred), pred, steps - 1)
  }

  /** As written, `copy_if` never leaves its loop once it meets an element
      failing `pred`: however many passes run, the state does not change and
      the read position stays before `last`. */
  lemma {:induction false} CopyIfAsWrittenStalls(s: seq<int>, last: int, st: CopyIfState, pred: int -> bool, steps: nat)
    requires 0 <= st.first < last <= |s|
    requires !pred(s[st.first])
    ensures CopyIfRunAsWritten(s, last, st, pred, steps) == st
    ensures CopyIfRunAsWritten(s, last, st, pred, steps).first < last
    decreases steps
  {
    if steps > 0 {
      CopyIfAsWrittenStalls(s, last, st, pred, steps - 1);
    }
  }

  /** Appending `s[i..j]` is appending `s[i]` and then `s[i + 1..j]`. */
  lemma AppendShift(w: seq<int>, s: seq<int>, i: int, j: int)
    requires 0 <= i < j <= |s|
    ensures w + s[i..j] == (w + [s[i]]) + s[i + 1..j]
  {
    assert s[i..j] == [s[i]] + s[i + 1..j];
  }

  /** When every element satisfies `pred`, `copy_if` as written terminates
      after `last - first` passes having copied the whole range, which is
      what the intended `copy_if` computes. */
  lemma {:induction false} CopyIfAsWrittenWhenAllMatch(s: seq<int>, last: int, st: CopyIfState, pred: int -> bool)
    requires 0 <= st.first <= last <= |s|
    requires forall k :: st.first <= k < last ==> pred(s[k])
    ensures CopyIfRunAsWritten(s, last, st, pred, last - st.first)
            == CopyIfState(last, st.dFirst + (last - st.first), st.written + s[st.first..last])
    ensures s[st.first..last] == Filter(s[st.first..last], pred)
    decreases last - st.first
  {
    FilterKeepsAll(s[st.first..last], pred);
    if st.first < last {
      var next := CopyIfStepAsWritten(s, st, pred);
      assert CopyIfRunAsWritten(s, last, st, pred, last - st.first)
          == CopyIfRunAsWritten(s, last, next, pred, last - next.first);
      CopyIfAsWrittenWhenAllMatch(s, last, next, pred);
      AppendShift(st.written, s, st.first, last);
    } else {
      assert st.written + s[st.first..last] == st.written;
    }
  }

  /** `fill`: every position of the range receives `value`. */
  method Fill(a: array<int>, first: int, last: int, value: int)
    requires 0 <= first <= last <= a.Length
    modifies a
    ensures forall k :: first <= k < last ==> a[k] == value
    ensures forall k :: 0 <= k < a.Length && !(first <= k < last) ==> a[k] == old(a[k])
  {
    var it := first;
    while it != last
      invariant first <= it <= last
      invariant forall k :: first <= k < it ==> a[k] == value
      invariant forall k :: 0 <= k < a.Length && !(first <= k < it) ==> a[k] == old(a[k])
      decreases last - it
    {
      a[it] := value;
      it := it + 1;
    }
  }

  /** `fill_n`: the first `count` positions (none when `count <= 0`) receive
      `value`; returns the position after them. */
  method FillN(a: array<int>, first: int, count: int, value: int) returns (end: int)
    requires 0 <= first && first + Trips(count) <= a.Length
    modifies a
    ensures end == first + Trips(count)
    ensures forall k :: first <= k < end ==> a[k] == value
    ensures forall k :: 0 <= k < a.Length && !(first <= k < end) ==> a[k] == old(a[k])
  {
    var i := 0;
    end := first;
    while i < count
      invariant 0 <= i <= Trips(count) && end == first + i
      invariant forall k :: first <= k < end ==> a[k] == value
      invariant forall k :: 0 <= k < a.Length && !(first <= k < end) ==> a[k] == old(a[k])
    {
      a[end] := value;
      end := end + 1;
      i := i + 1;
    }
  }

  /* ---------------------------------------------------------------------- */
  /* Swaps                                                                   */
  /* ---------------------------------------------------------------------- */

  /** `swap` of two values through a temporary. */
  method Swap(x: int, y: int) returns (x': int, y': int)
    ensures x' == y && y' == x
  {
    var tmp := x;
    x' := y;
    y' := tmp;
  }

  /** `iter_swap`: exchanges `a[i]` and `b[j]`, which may be the same array. */
  method IterSwap(a: array<int>, i: int, b: array<int>, j: int)
    requires 0 <= i < a.Length && 0 <= j < b.Length
    modifies a, b
    ensures a[i] == old(b[j]) && b[j] == old(a[i])
    ensures forall k :: 0 <= k < a.Length && k != i && !(a == b && k == j) ==> a[k] == old(a[k])
    ensures forall k :: 0 <= k < b.Length && k != j && !(a == b && k == i) ==> b[k] == old(b[k])
  {
    var x, y := Swap(a[i], b[j]);
    a[i] := x;
    b[j] := y;
  }

  /** `swap_ranges`: exchanges `a[first1 + i]` and `b[first2 + i]` for every
      position of [first1, last1) and returns `first2 + (last1 - first1)`.
      Within one array the two ranges are disjoint or the same. */
  method SwapRanges(a: array<int>, first1: int, last1: int, b: array<int>, first2: int)
    returns (last2: int)
    requires 0 <= first1 <= last1 <= a.Length
    requires 0 <= first2 && first2 + (last1 - first1) <= b.Length
    requires a == b ==> first1 == first2 || last1 <= first2 || first2 + (last1 - first1) <= first1
    modifies a, b
    ensures last2 == first2 + (last1 - first1)
    ensures forall k :: first1 <= k < last1 ==> a[k] == old(b[first2 + (k - first1)])
    ensures forall k :: first2 <= k < last2 ==> b[k] == old(a[first1 + (k - first2)])
    ensures forall k :: 0 <= k < a.Length && !(first1 <= k < last1) && !(a == b && first2 <= k < last2) ==>
              a[k] == old(a[k])
    ensures forall k :: 0 <= k < b.Length && !(first2 <= k < last2) && !(a == b && first1 <= k < last1) ==>
              b[k] == old(b[k])
  {
    var it1 := first1;
    last2 := first2;
    while it1 != last1
      invariant first1 <= it1 <= last1 && last2 == first2 + (it1 - first1)
      invariant forall k :: first1 <= k < it1 ==> a[k] == old(b[first2 + (k - first1)])
      invariant forall k :: first2 <= k < last2 ==> b[k] == old(a[first1 + (k - first2)])
      invariant forall k :: 0 <= k < a.Length && !(first1 <= k < it1) && !(a == b && first2 <= k < last2) ==>
                  a[k] == old(a[k])
      invariant forall k :: 0 <= k < b.Length && !(first2 <= k < last2) && !(a == b && first1 <= k < it1) ==>
                  b[k] == old(b[k])
      decreases last1 - it1
    {
      IterSwap(a, it1, b, last2);
      it1, last2 := it1 + 1, last2 + 1;
    }
  }

  /** Exchanging the same two ranges twice restores both arrays. */
  method SwapRangesTwice(a: array<int>, first1: int, last1: int, b: array<int>, first2: int)
    requires 0 <= first1 <= last1 <= a.Length
    requires 0 <= first2 && first2 + (last1 - first1) <= b.Length
    requires a == b ==> first1 == first2 || last1 <= first2 || first2 + (last1 - first1) <= first1
    modifies a, b
    ensures a[..] == old(a[..]) && b[..] == old(b[..])
  {
    var _ := SwapRanges(a, first1, last1, b, first2);
    var _ := SwapRanges(a, first1, last1, b, first2);
  }
}
