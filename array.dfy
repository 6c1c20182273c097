/**
 * The fixed-size `array<T, N>` container over integers: a wrapper around a
 * built-in array of exactly N elements, with checked and unchecked element
 * access, `fill`, `swap`, and forward and reverse iterators. An iterator is an
 * index into `elements`: `begin()` is 0 and `end()` is N.
 */
module FixedArray {
  import opened Options
  import Algorithm
  import Iterator

  class Array {
    /** The size, a template parameter: fixed for the life of the object. */
    const N: nat
    /** The storage `elements_`; its elements change, the storage does not. */
    const elements: array<int>

    /** The storage holds exactly N elements. */
    predicate Valid()
    {
      elements.Length == N
    }

    /** The values the array holds, in order. */
    function Contents(): (s: seq<int>)
      reads elements
      requires Valid()
      ensures |s| == N
    {
      elements[..]
    }

    /** Aggregate initialisation from a list of N values. */
    constructor (init: seq<int>)
      ensures Valid() && fresh(elements)
      ensures N == |init| && Contents() == init
    {
      N := |init|;
      elements := new int[|init|](i requires 0 <= i < |init| => init[i]);
    }

    /** `begin()`, and `cbegin()`, which is the same: `data()`, the first
        position, which refers to `front()` in a non-empty array. */
    function Begin(): (b: int)
      reads elements
      ensures Valid() ==> 0 <= b <= N
      ensures Valid() && N > 0 ==> b < N && Get(b) == Front()
    {
      0
    }

    /** `end()`, and `cend()`: one past the last position, `begin() + size()`. */
    function End(): (e: int)
      reads elements
      ensures e - Begin() == Size()
    {
      N
    }

    /** `size()`: the number of elements, which never changes. */
    function Size(): (n: nat)
      ensures Valid() ==> n == elements.Length
    {
      N
    }

    /** `max_size()`: a fixed array cannot grow beyond its size. */
    function MaxSize(): (n: nat)
      ensures n == Size()
    {
      N
    }

    /** `empty()`: true exactly when there are no elements. */
    predicate Empty()
      reads elements
      requires Valid()
      ensures Empty() <==> Contents() == []
    {
      N == 0
    }

    /** `operator[]`: unchecked access; the caller keeps `n` in range. */
    function Get(n: int): (v: int)
      reads elements
      requires Valid() && 0 <= n < N
      ensures v == Contents()[n]
    {
      elements[n]
    }

    /** `at(n)`: checked access, rejected at compile time for a zero-size
        array; an index at or past the end throws. `size_type` is unsigned,
        so the index is a natural number. */
    function At(n: nat): (r: Result<int>)
      reads elements
      requires Valid() && N > 0
      ensures r.Ok? <==> n < N
      ensures r.Ok? ==> r.value == Contents()[n]
      ensures r.Err? ==> r.error == OutOfRange
    {
      if n >= N then Err(OutOfRange) else Ok(elements[n])
    }

    /** `front()`: the first element of a non-empty array. */
    function Front(): (v: int)
      reads elements
      requires Valid() && N > 0
      ensures v == Contents()[0]
      ensures At(0) == Ok(v)
    {
      Get(0)
    }

    /** `back()`: the last element of a non-empty array. */
    function Back(): (v: int)
      reads elements
      requires Valid() && N > 0
      ensures v == Contents()[N - 1]
      ensures At(N - 1) == Ok(v)
    {
      Get(N - 1)
    }

    /** `rbegin()` (and `crbegin()`): a reverse iterator wrapping `end()`;
        in a non-empty array it refers to `back()`. */
    method RBegin() returns (r: Iterator.ReverseIterator)
      requires Valid()
      ensures fresh(r) && r.current == End()
      ensures N > 0 ==> r.Deref(Contents()) == Back()
      ensures N > 0 ==> r.Deref(Contents()) == Iterator.Reversed(Contents())[0]
    {
      r := new Iterator.ReverseIterator(End());
    }

    /** `rend()` (and `crend()`): a reverse iterator wrapping `begin()`. One
        step back from it, with base `begin() + 1`, refers to `front()`: the
        last element of the reversed contents. */
    method REnd() returns (r: Iterator.ReverseIterator)
      requires Valid()
      ensures fresh(r) && r.current == Begin()
      ensures N > 0 ==> Iterator.Reversed(Contents())[N - (r.current + 1)] == Front()
    {
      r := new Iterator.ReverseIterator(Begin());
      if N > 0 {
        Iterator.ReversedAt(Contents(), N - 1);
      }
    }

    /** `fill(u)`: every element becomes `u`; nothing happens to a
        zero-size array. */
    method Fill(u: int)
      requires Valid()
      modifies elements
      ensures forall k :: 0 <= k < N ==> elements[k] == u
      ensures Contents() == seq(N, _ => u)
    {
      if N != 0 {
        var _ := Algorithm.FillN(elements, 0, N, u);
      }
    }

    /** `fill(u)` as written: the call `fill_n(data(), data() + N, u)` passes
        a pointer as the count, so the count type is a pointer. The counter
        starts as the null pointer and steps one element at a time until it
        reaches `data() + N`. `address` is the address of `data()` counted in
        elements from the null pointer. The result is the number of elements
        the loop writes from `data()` on; every one at position `N` or beyond
        lies outside the storage. */
    method FillAsWritten(address: nat) returns (writes: nat)
      requires N > 0
      ensures writes == address + N
      ensures address > 0 ==> writes > Size()
    {
      var count := address + N;
      var i := 0;
      writes := 0;
      while i < count
        invariant 0 <= i <= count && writes == i
      {
        writes := writes + 1;
        i := i + 1;
      }
    }

    /** `swap(a)`: exchanges the contents with another array of the same
        size, element by element; nothing happens to a zero-size array, and
        an array swapped with itself is unchanged. */
    method Swap(a: Array)
      requires Valid() && a.Valid() && a.N == N
      modifies elements, a.elements
      ensures Contents() == old(a.Contents())
      ensures a.Contents() == old(Contents())
    {
      if N != 0 {
        var _ := Algorithm.SwapRanges(elements, 0, N, a.elements, 0);
      }
    }

    /** Swapping twice with the same array restores both. */
    method SwapTwice(a: Array)
      requires Valid() && a.Valid() && a.N == N
      modifies elements, a.elements
      ensures Contents() == old(Contents()) && a.Contents() == old(a.Contents())
    {
      Swap(a);
      Swap(a);
    }
  }
}
