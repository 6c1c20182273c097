/**
 * The numeric algorithms of the library's numeric header over integer arrays:
 * `iota`, and `accumulate` and `inner_product`, which are left folds. Ranges
 * are half-open index intervals [first, last); operations are pure functions.
 */
module Numeric {

  /* ---------------------------------------------------------------------- */
  /* Specification functions                                                 */
  /* ---------------------------------------------------------------------- */

  /** The left fold `f(... f(f(init, s[0]), s[1]) ..., s[|s| - 1])`. */
  function FoldL(f: (int, int) -> int, init: int, s: seq<int>): int
    decreases |s|
  {
    if s == [] then init else FoldL(f, f(init, s[0]), s[1..])
  }

  /** Folding a concatenation folds the second part starting from the fold
      of the first part. */
  lemma {:induction false} FoldLConcat(f: (int, int) -> int, init: int, s: seq<int>, t: seq<int>)
    ensures FoldL(f, init, s + t) == FoldL(f, FoldL(f, init, s), t)
    decreases |s|
  {
    if s == [] {
      assert s + t == t;
    } else {
      assert (s + t)[1..] == s[1..] + t;
      FoldLConcat(f, f(init, s[0]), s[1..], t);
    }
  }

  /** Folding one more element applies `f` once more. */
  lemma FoldLSnoc(f: (int, int) -> int, init: int, s: seq<int>, x: int)
    ensures FoldL(f, init, s + [x]) == f(FoldL(f, init, s), x)
  {
    FoldLConcat(f, init, s, [x]);
    assert [x][1..] == [];
  }

  /** The `+` that the plain `accumulate` and `inner_product` use. */
  function Add(x: int, y: int): int { x + y }

  /** The `*` that the plain `inner_product` uses. */
  function Mul(x: int, y: int): int { x * y }

  /** The sum of `s`, nested to the right: an independent reference for the
      plain `accumulate`. */
  function Sum(s: seq<int>): int
  {
    if s == [] then 0 else s[0] + Sum(s[1..])
  }

  /** The plain `accumulate` adds the elements to `init`, whatever the nesting. */
  lemma {:induction false} FoldAddIsSum(init: int, s: seq<int>)
    ensures FoldL(Add, init, s) == init + Sum(s)
    decreases |s|
  {
    if s != [] {
      FoldAddIsSum(init + s[0], s[1..]);
    }
  }

  /** The left fold of `inner_product` with `op1` and `op2`:
      `init = op1(init, op2(s[i], t[i]))` for i = 0, 1, ..., |s| - 1. */
  function InnerFold(op1: (int, int) -> int, op2: (int, int) -> int, init: int, s: seq<int>, t: seq<int>): int
    requires |s| <= |t|
    decreases |s|
  {
    if s == [] then init else InnerFold(op1, op2, op1(init, op2(s[0], t[0])), s[1..], t[1..])
  }

  /** Folding over one more pair of elements applies `op1` once more. */
  lemma {:induction false} InnerFoldSnoc(op1: (int, int) -> int, op2: (int, int) -> int, init: int,
                                         s: seq<int>, t: seq<int>, x: int, y: int)
    requires |s| == |t|
    ensures InnerFold(op1, op2, init, s + [x], t + [y]) == op1(InnerFold(op1, op2, init, s, t), op2(x, y))
    decreases |s|
  {
    if s != [] {
      assert (s + [x])[1..] == s[1..] + [x];
      assert (t + [y])[1..] == t[1..] + [y];
      InnerFoldSnoc(op1, op2, op1(init, op2(s[0], t[0])), s[1..], t[1..], x, y);
    }
  }

  /** The dot product `s[0] * t[0] + s[1] * t[1] + ...` over the length of `s`. */
  function Dot(s: seq<int>, t: seq<int>): int
    requires |s| <= |t|
  {
    if s == [] then 0 else s[0] * t[0] + Dot(s[1..], t[1..])
  }

  /** With `+` and `*` the generalised fold is `init` plus the dot product. */
  lemma {:induction false} InnerFoldIsDot(init: int, s: seq<int>, t: seq<int>)
    requires |s| <= |t|
    ensures InnerFold(Add, Mul, init, s, t) == init + Dot(s, t)
    decreases |s|
  {
    if s != [] {
      InnerFoldIsDot(init + s[0] * t[0], s[1..], t[1..]);
    }
  }

  /* ---------------------------------------------------------------------- */
  /* The algorithms                                                          */
  /* ---------------------------------------------------------------------- */

  /** `iota`: the i-th position of the range receives `value + i`. */
  method Iota(a: array<int>, first: int, last: int, value: int)
    requires 0 <= first <= last <= a.Length
    modifies a
    ensures forall k :: first <= k < last ==> a[k] == value + (k - first)
    ensures forall k :: 0 <= k < a.Length && !(first <= k < last) ==> a[k] == old(a[k])
  {
    var it := first;
    var v := value;
    while it != last
      invariant first <= it <= last && v == value + (it - first)
      invariant forall k :: first <= k < it ==> a[k] == value + (k - first)
      invariant forall k :: 0 <= k < a.Length && !(first <= k < it) ==> a[k] == old(a[k])
      decreases last - it
    {
      a[it] := v;
      it := it + 1;
      v := v + 1;
    }
  }

  /** `accumulate(first, last, init)`: the left fold with `+`, which is
      `init` plus the sum of the range; `init` on an empty range. */
  method Accumulate(a: array<int>, first: int, last: int, init: int) returns (r: int)
    requires 0 <= first <= last <= a.Length
    ensures r == FoldL(Add, init, a[first..last])
    ensures r == init + Sum(a[first..last])
    ensures first == last ==> r == init
  {
    r := init;
    var it := first;
    while it != last
      invariant first <= it <= last
      invariant r == FoldL(Add, init, a[first..it])
      decreases last - it
    {
      assert a[first..it + 1] == a[first..it] + [a[it]];
      FoldLSnoc(Add, init, a[first..it], a[it]);
      r := r + a[it];
      it := it + 1;
    }
    FoldAddIsSum(init, a[first..last]);
  }

  /** `accumulate(first, last, init, op)`: the left fold with `op`. */
  method AccumulateWith(a: array<int>, first: int, last: int, init: int, op: (int, int) -> int)
    returns (r: int)
    requires 0 <= first <= last <= a.Length
    ensures r == FoldL(op, init, a[first..last])
    ensures first == last ==> r == init
  {
    r := init;
    var it := first;
    while it != last
      invariant first <= it <= last
      invariant r == FoldL(op, init, a[first..it])
      decreases last - it
    {
      assert a[first..it + 1] == a[first..it] + [a[it]];
      FoldLSnoc(op, init, a[first..it], a[it]);
      r := op(r, a[it]);
      it := it + 1;
    }
  }

  /** `inner_product(first1, last1, first2, init)`: `init` plus the dot product
      of the range with the equally long range of `b` from `first2`, which is
      all of `b` that it reads. */
  method InnerProduct(a: array<int>, first1: int, last1: int, b: array<int>, first2: int, init: int)
    returns (r: int)
    requires 0 <= first1 <= last1 <= a.Length
    requires 0 <= first2 && first2 + (last1 - first1) <= b.Length
    ensures r == init + Dot(a[first1..last1], b[first2..first2 + (last1 - first1)])
    ensures r == InnerFold(Add, Mul, init, a[first1..last1], b[first2..first2 + (last1 - first1)])
  {
    r := init;
    var it1, it2 := first1, first2;
    while it1 != last1
      invariant first1 <= it1 <= last1 && it2 == first2 + (it1 - first1)
      invariant r == InnerFold(Add, Mul, init, a[first1..it1], b[first2..it2])
      decreases last1 - it1
    {
      assert a[first1..it1 + 1] == a[first1..it1] + [a[it1]];
      assert b[first2..it2 + 1] == b[first2..it2] + [b[it2]];
      InnerFoldSnoc(Add, Mul, init, a[first1..it1], b[first2..it2], a[it1], b[it2]);
      r := r + a[it1] * b[it2];
      it1, it2 := it1 + 1, it2 + 1;
    }
    InnerFoldIsDot(init, a[first1..last1], b[first2..it2]);
  }

  /** `inner_product(first1, last1, first2, init, op1, op2)`: the left fold
      `init = op1(init, op2(a[first1 + i], b[first2 + i]))`. */
  method InnerProductWith(a: array<int>, first1: int, last1: int, b: array<int>, first2: int, init: int,
                          op1: (int, int) -> int, op2: (int, int) -> int)
    returns (r: int)
    requires 0 <= first1 <= last1 <= a.Length
    requires 0 <= first2 && first2 + (last1 - first1) <= b.Length
    ensures r == InnerFold(op1, op2, init, a[first1..last1], b[first2..first2 + (last1 - first1)])
    ensures first1 == last1 ==> r == init
  {
    r := init;
    var it1, it2 := first1, first2;
    while it1 != last1
      invariant first1 <= it1 <= last1 && it2 == first2 + (it1 - first1)
      invariant r == InnerFold(op1, op2, init, a[first1..it1], b[first2..it2])
      decreases last1 - it1
    {
      assert a[first1..it1 + 1] == a[first1..it1] + [a[it1]];
      assert b[first2..it2 + 1] == b[first2..it2] + [b[it2]];
      InnerFoldSnoc(op1, op2, init, a[first1..it1], b[first2..it2], a[it1], b[it2]);
      r := op1(r, op2(a[it1], b[it2]));
      it1, it2 := it1 + 1, it2 + 1;
    }
  }
}
