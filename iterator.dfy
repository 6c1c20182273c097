/**
 * The iterator model of the library's iterator header: category tags and the
 * tag-dispatched `distance`, the `reverse_iterator` adaptor, and the back and
 * front insertion adaptors.
 *
 * An iterator over a sequence is an index into it; `reverse_iterator` wraps
 * such an index, `current`, and refers to the element just before it.
 */
module Iterator {
  import opened Options

  /* ---------------------------------------------------------------------- */
  /* Category tags and distance                                              */
  /* ---------------------------------------------------------------------- */

  /** The five iterator category tags. */
  datatype Category = InputTag | OutputTag | ForwardTag | BidirectionalTag | RandomAccessTag

  /** Public inheritance between the tag structs: forward derives from input
      and bidirectional from forward. The random-access tag derives from no
      other tag, and neither does the output tag. */
  predicate DerivesFrom(c: Category, base: Category)
    ensures base == InputTag ==> (DerivesFrom(c, base) <==> c in {InputTag, ForwardTag, BidirectionalTag})
    ensures c == RandomAccessTag || c == OutputTag ==> (DerivesFrom(c, base) <==> c == base)
    ensures base == RandomAccessTag || base == OutputTag ==> (DerivesFrom(c, base) <==> c == base)
  {
    || c == base
    || (base == InputTag && (c == ForwardTag || c == BidirectionalTag))
    || (base == ForwardTag && c == BidirectionalTag)
  }

  /** Inheritance between the tags is a partial order. */
  lemma DerivesFromIsPartialOrder(a: Category, b: Category, c: Category)
    ensures DerivesFrom(a, a)
    ensures DerivesFrom(a, b) && DerivesFrom(b, a) ==> a == b
    ensures DerivesFrom(a, b) && DerivesFrom(b, c) ==> DerivesFrom(a, c)
  {
  }

  /** The two overloads of `distance__`: walking with `++` for a tag that
      converts to the input tag, subtracting for the random-access tag. */
  datatype DistancePath = Walk | Subtract

  /** The overload that overload resolution picks for a tag argument, or None
      when no overload is viable (the call does not compile). */
  function SelectDistance(c: Category): (r: Option<DistancePath>)
    ensures r.Some? <==> DerivesFrom(c, InputTag) || DerivesFrom(c, RandomAccessTag)
    ensures r == Some(Subtract) <==> DerivesFrom(c, RandomAccessTag)
    ensures r == None <==> c == OutputTag
  {
    if c == RandomAccessTag then Some(Subtract)
    else if DerivesFrom(c, InputTag) then Some(Walk)
    else None
  }

  /** The input-tag `distance__`: counts increments until `first == last`,
      which takes exactly as many steps as the random-access `last - first`. */
  method DistanceWalk(first: int, last: int) returns (n: int)
    requires first <= last
    ensures n == last - first
  {
    n := 0;
    var it := first;
    while it != last
      invariant first <= it <= last && n == it - first
      decreases last - it
    {
      it := it + 1;
      n := n + 1;
    }
  }

  /** `distance`: dispatches on the category tag. For every tag that selects
      an overload, both overloads agree on `last - first`. `last` must be
      reachable from `first` when the walking overload runs. */
  method Distance(c: Category, first: int, last: int) returns (r: Option<int>)
    requires SelectDistance(c) == Some(Walk) ==> first <= last
    ensures r.None? <==> c == OutputTag
    ensures r.Some? ==> r.value == last - first
  {
    match SelectDistance(c)
    case None =>
      r := None;
    case Some(Walk) =>
      var n := DistanceWalk(first, last);
      r := Some(n);
    case Some(Subtract) =>
      r := Some(last - first);
  }

  /* ---------------------------------------------------------------------- */
  /* reverse_iterator                                                        */
  /* ---------------------------------------------------------------------- */

  /** The elements of `s` from back to front: the reference for what a
      reverse iterator visits. */
  function Reversed(s: seq<int>): (r: seq<int>)
    ensures |r| == |s|
  {
    if s == [] then [] else Reversed(s[1..]) + [s[0]]
  }

  /** Element `k` of the reversed sequence is element `|s| - 1 - k` of `s`. */
  lemma {:induction false} ReversedAt(s: seq<int>, k: int)
    requires 0 <= k < |s|
    ensures Reversed(s)[k] == s[|s| - 1 - k]
  {
    if k < |s| - 1 {
      ReversedAt(s[1..], k);
    }
  }

  /** The iterator adaptor that walks a range backwards. */
  class ReverseIterator {
    /** The underlying iterator, one past the element referred to. */
    var current: int

    /** `reverse_iterator(x)`. */
    constructor (x: int)
      ensures current == x
    {
      current := x;
    }

    /** `base()`: the underlying iterator. */
    function Base(): (b: int)
      reads this
      ensures b == current
    {
      current
    }

    /** `operator*`: the element before `current`, read through a copy so
        that `current` itself is not changed. It is the element at position
        `|s| - current` of the reversed sequence. */
    function Deref(s: seq<int>): (v: int)
      reads this
      requires 0 < current <= |s|
      ensures v == s[current - 1]
      ensures v == Reversed(s)[|s| - current]
    {
      ReversedAt(s, |s| - current);
      var tmp := current - 1;
      s[tmp]
    }

    /** Prefix `++`: steps the underlying iterator back. */
    method Increment() returns (self: ReverseIterator)
      modifies this
      ensures self == this
      ensures current == old(current) - 1
    {
      current := current - 1;
      self := this;
    }

    /** Postfix `++`: returns a copy of the old iterator and steps back. */
    method PostIncrement() returns (prev: ReverseIterator)
      modifies this
      ensures fresh(prev) && prev.current == old(current)
      ensures current == old(current) - 1
    {
      prev := new ReverseIterator(current);
      current := current - 1;
    }

    /** Prefix `--`: steps the underlying iterator forward. */
    method Decrement() returns (self: ReverseIterator)
      modifies this
      ensures self == this
      ensures current == old(current) + 1
    {
      current := current + 1;
      self := this;
    }

    /** Postfix `--`: returns a copy of the old iterator and steps forward. */
    method PostDecrement() returns (prev: ReverseIterator)
      modifies this
      ensures fresh(prev) && prev.current == old(current)
      ensures current == old(current) + 1
    {
      prev := new ReverseIterator(current);
      current := current + 1;
    }

    /** `r + n`: a new iterator wrapping `current - n`. */
    method Plus(n: int) returns (r: ReverseIterator)
      ensures fresh(r) && r.current == current - n
    {
      r := new ReverseIterator(current - n);
    }

    /** `r += n`: leaves `r` where `r + n` is. */
    method PlusAssign(n: int) returns (self: ReverseIterator)
      modifies this
      ensures self == this
      ensures current == old(current) - n
    {
      current := current - n;
      self := this;
    }

    /** `r - n`: a new iterator wrapping `current + n`. */
    method Minus(n: int) returns (r: ReverseIterator)
      ensures fresh(r) && r.current == current + n
    {
      r := new ReverseIterator(current + n);
    }

    /** `r -= n`: leaves `r` where `r - n` is. */
    method MinusAssign(n: int) returns (self: ReverseIterator)
      modifies this
      ensures self == this
      ensures current == old(current) + n
    {
      current := current + n;
      self := this;
    }

    /** `r[n]`, computed as `*(r + n)`: the element `n` positions further
        along the reversed sequence. */
    method Subscript(s: seq<int>, n: int) returns (v: int)
      requires 0 < current - n <= |s|
      ensures v == s[current - n - 1]
      ensures v == Reversed(s)[|s| - current + n]
    {
      var moved := Plus(n);
      v := moved.Deref(s);
    }
  }

  /** The free `n + r`: the same iterator as `r + n`. */
  method PlusLeft(n: int, x: ReverseIterator) returns (r: ReverseIterator)
    ensures fresh(r) && r.current == x.current - n
  {
    r := new ReverseIterator(x.Base() - n);
  }

  /** `x == y`: the bases are equal. */
  predicate Equal(x: ReverseIterator, y: ReverseIterator)
    reads x, y
    ensures Equal(x, y) <==> Diff(x, y) == 0
  {
    x.Base() == y.Base()
  }

  /** `x != y`. */
  predicate NotEqual(x: ReverseIterator, y: ReverseIterator)
    reads x, y
    ensures NotEqual(x, y) <==> Diff(x, y) != 0
  {
    !Equal(x, y)
  }

  /** `x < y`: the ordering of the bases, inverted. */
  predicate Less(x: ReverseIterator, y: ReverseIterator)
    reads x, y
    ensures Less(x, y) <==> Diff(x, y) < 0
  {
    x.Base() > y.Base()
  }

  /** `x <= y`. */
  predicate LessEq(x: ReverseIterator, y: ReverseIterator)
    reads x, y
    ensures LessEq(x, y) <==> Diff(x, y) <= 0
  {
    x.Base() >= y.Base()
  }

  /** `x > y`. */
  predicate Greater(x: ReverseIterator, y: ReverseIterator)
    reads x, y
    ensures Greater(x, y) <==> Diff(x, y) > 0
  {
    x.Base() < y.Base()
  }

  /** `x >= y` as written: compares the bases with `>=`, exactly as `<=` does. */
  predicate GreaterEqAsWritten(x: ReverseIterator, y: ReverseIterator)
    reads x, y
    ensures GreaterEqAsWritten(x, y) <==> Diff(x, y) <= 0
  {
    x.Base() >= y.Base()
  }

  /** `x >= y` as intended: the ordering of the bases, inverted. */
  predicate GreaterEq(x: ReverseIterator, y: ReverseIterator)
    reads x, y
    ensures GreaterEq(x, y) <==> Diff(x, y) >= 0
  {
    x.Base() <= y.Base()
  }

  /** `x - y`: the difference of the bases, operands swapped, so that `y`
      advanced by `x - y` steps is `x`. Each comparison above is the sign of
      this difference, as for any random-access iterator. */
  function Diff(x: ReverseIterator, y: ReverseIterator): (d: int)
    reads x, y
    ensures x.current == y.current - d
  {
    y.Base() - x.Base()
  }

  /** The position of a reverse iterator in the traversal of a sequence of
      length `len`: 0 at `rbegin`, `len` at `rend`. */
  function Position(len: int, x: ReverseIterator): int
    reads x
  {
    len - x.current
  }

  /** Every comparison and the difference of two reverse iterators agree with
      the comparison and difference of their positions in the traversal. */
  lemma ComparisonsFollowTraversal(len: int, x: ReverseIterator, y: ReverseIterator)
    ensures Equal(x, y) <==> Position(len, x) == Position(len, y)
    ensures NotEqual(x, y) <==> Position(len, x) != Position(len, y)
    ensures Less(x, y) <==> Position(len, x) < Position(len, y)
    ensures LessEq(x, y) <==> Position(len, x) <= Position(len, y)
    ensures Greater(x, y) <==> Position(len, x) > Position(len, y)
    ensures GreaterEq(x, y) <==> Position(len, x) >= Position(len, y)
    ensures Diff(x, y) == Position(len, x) - Position(len, y)
  {
  }

  /** The intended `>=` is the negation of `<` and the union of `>` and `==`;
      the one as written is `<=` instead. */
  lemma GreaterEqAsWrittenIsLessEq(x: ReverseIterator, y: ReverseIterator)
    ensures GreaterEqAsWritten(x, y) <==> LessEq(x, y)
    ensures GreaterEq(x, y) <==> !Less(x, y)
    ensures GreaterEq(x, y) <==> Greater(x, y) || Equal(x, y)
  {
  }

  /** For `x` wrapping 0 and `y` wrapping 1, `x > y` holds but `x >= y` as
      written does not. */
  method GreaterEqCounterexample() returns (greater: bool, greaterEqAsWritten: bool, greaterEq: bool)
    ensures greater && !greaterEqAsWritten && greaterEq
  {
    var x := new ReverseIterator(0);
    var y := new ReverseIterator(1);
    greater := Greater(x, y);
    greaterEqAsWritten := GreaterEqAsWritten(x, y);
    greaterEq := GreaterEq(x, y);
  }

  /** Walking from `reverse_iterator(end)` to `reverse_iterator(begin)` with
      `++` visits the elements from back to front. */
  method ReverseTraversal(s: seq<int>) returns (visited: seq<int>)
    ensures visited == Reversed(s)
  {
    var r := new ReverseIterator(|s|);
    var rend := new ReverseIterator(0);
    visited := [];
    assert s[|s|..] == [];
    while NotEqual(r, rend)
      invariant 0 <= r.current <= |s| && rend.current == 0
      invariant visited == Reversed(s[r.current..])
      modifies r
      decreases r.current
    {
      assert s[r.current - 1..][1..] == s[r.current..];
      visited := visited + [r.Deref(s)];
      var _ := r.Increment();
    }
    assert s[0..] == s;
  }

  /* ---------------------------------------------------------------------- */
  /* Insertion adaptors                                                      */
  /* ---------------------------------------------------------------------- */

  /** A container with `push_back` and `push_front`, as the insertion
      adaptors require. */
  class Container {
    var elems: seq<int>

    constructor (init: seq<int>)
      ensures elems == init
    {
      elems := init;
    }

    method PushBack(v: int)
      modifies this
      ensures elems == old(elems) + [v]
    {
      elems := elems + [v];
    }

    method PushFront(v: int)
      modifies this
      ensures elems == [v] + old(elems)
    {
      elems := [v] + elems;
    }
  }

  /** `back_insert_iterator`: assigning through it appends to the container. */
  class BackInsertIterator {
    const container: Container

    /** The constructor stores the container it is given. */
    constructor (x: Container)
      ensures container == x
    {
      container := x;
    }

    /** `operator=`: `push_back` on the container; returns the adaptor. */
    method Assign(v: int) returns (self: BackInsertIterator)
      modifies container
      ensures self == this
      ensures container.elems == old(container.elems) + [v]
    {
      container.PushBack(v);
      self := this;
    }

    /** `operator*`: the adaptor itself; nothing changes. */
    method Deref() returns (self: BackInsertIterator)
      ensures self == this
    {
      self := this;
    }

    /** Prefix `++`: the adaptor itself; nothing changes. */
    method Increment() returns (self: BackInsertIterator)
      ensures self == this
    {
      self := this;
    }

    /** Postfix `++`: a copy of the adaptor, on the same container. */
    method PostIncrement() returns (copy: BackInsertIterator)
      ensures fresh(copy) && copy.container == container
    {
      copy := new BackInsertIterator(container);
    }
  }

  /** `back_inserter(x)`. */
  method BackInserter(x: Container) returns (it: BackInsertIterator)
    ensures fresh(it) && it.container == x
  {
    it := new BackInsertIterator(x);
  }

  /** `front_insert_iterator`: assigning through it prepends to the container. */
  class FrontInsertIterator {
    const container: Container

    /** The constructor stores the container it is given. */
    constructor (x: Container)
      ensures container == x
    {
      container := x;
    }

    /** `operator=`: `push_front` on the container; returns the adaptor. */
    method Assign(v: int) returns (self: FrontInsertIterator)
      modifies container
      ensures self == this
      ensures container.elems == [v] + old(container.elems)
    {
      container.PushFront(v);
      self := this;
    }

    /** `operator*`: the adaptor itself; nothing changes. */
    method Deref() returns (self: FrontInsertIterator)
      ensures self == this
    {
      self := this;
    }

    /** Prefix `++`: the adaptor itself; nothing changes. */
    method Increment() returns (self: FrontInsertIterator)
      ensures self == this
    {
      self := this;
    }

    /** Postfix `++`: a copy of the adaptor, on the same container. */
    method PostIncrement() returns (copy: FrontInsertIterator)
      ensures fresh(copy) && copy.container == container
    {
      copy := new FrontInsertIterator(container);
    }
  }

  /** The factory for `front_insert_iterator`. */
  method FrontInserter(x: Container) returns (it: FrontInsertIterator)
    ensures fresh(it) && it.container == x
  {
    it := new FrontInsertIterator(x);
  }

  /** `copy` into a back inserter, `*d_first++ = *first++` per element:
      the container grows by the whole range, in order. */
  method CopyToBackInserter(a: array<int>, first: int, last: int, dFirst: BackInsertIterator)
    returns (dLast: BackInsertIterator)
    requires 0 <= first <= last <= a.Length
    modifies dFirst.container
    ensures dLast.container == dFirst.container
    ensures dFirst.container.elems == old(dFirst.container.elems) + a[first..last]
  {
    var it := first;
    dLast := dFirst;
    while it != last
      invariant first <= it <= last
      invariant dLast.container == dFirst.container
      invariant dFirst.container.elems == old(dFirst.container.elems) + a[first..it]
      decreases last - it
    {
      var prev := dLast.PostIncrement();
      var target := prev.Deref();
      var _ := target.Assign(a[it]);
      assert a[first..it + 1] == a[first..it] + [a[it]];
      it := it + 1;
    }
  }

  /** Copying through a front inserter prepends the range reversed. */
  method CopyToFrontInserter(a: array<int>, first: int, last: int, dFirst: FrontInsertIterator)
    returns (dLast: FrontInsertIterator)
    requires 0 <= first <= last <= a.Length
    modifies dFirst.container
    ensures dLast.container == dFirst.container
    ensures dFirst.container.elems == Reversed(a[first..last]) + old(dFirst.container.elems)
  {
    var it := first;
    dLast := dFirst;
    while it != last
      invariant first <= it <= last
      invariant dLast.container == dFirst.container
      invariant dFirst.container.elems == Reversed(a[first..it]) + old(dFirst.container.elems)
      decreases last - it
    {
      var prev := dLast.PostIncrement();
      var target := prev.Deref();
      var _ := target.Assign(a[it]);
      ReversedSnoc(a[first..it], a[it]);
      assert a[first..it + 1] == a[first..it] + [a[it]];
      it := it + 1;
    }
  }

  /** Reversing a sequence extended at the back puts the new element first. */
  lemma {:induction false} ReversedSnoc(s: seq<int>, x: int)
    ensures Reversed(s + [x]) == [x] + Reversed(s)
  {
    if s != [] {
      assert (s + [x])[1..] == s[1..] + [x];
      ReversedSnoc(s[1..], x);
    } else {
      assert [x][1..] == [];
    }
  }
}
