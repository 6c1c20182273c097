/**
 * The type-level list prelude. A `List<Ts...>` is the sequence of its types
 * `Ts`. A type operator `F` with a nested `type` is a function, and so is a
 * binary operator `Op<Acc, T>`. A specialisation that the compiler cannot
 * instantiate (no nested `type`, an ill-formed expression) yields None.
 */
module MetaPrelude {
  import opened Options

  /* ---------------------------------------------------------------------- */
  /* List, Head, Tail, Concat, Map, FoldeL                                   */
  /* ---------------------------------------------------------------------- */

  /** `List<Ts...>::size`, counted one type at a time: the length of the pack. */
  function Size<T>(xs: seq<T>): (n: nat)
    ensures n == |xs|
    ensures n == 0 <==> xs == []
  {
    if xs == [] then 0 else 1 + Size(xs[1..])
  }

  /** `List<Ts...>::append<Us...>`: the types `Ts` followed by the types `Us`. */
  function Append<T>(xs: seq<T>, us: seq<T>): (r: seq<T>)
    ensures Size(r) == Size(xs) + Size(us)
    ensures r[..|xs|] == xs && r[|xs|..] == us
  {
    xs + us
  }

  /** `Concat<List<Ts...>, List<Us...>>`, defined through `append`. */
  function Concat<T>(xs: seq<T>, ys: seq<T>): (r: seq<T>)
    ensures Size(r) == Size(xs) + Size(ys)
    ensures r[..|xs|] == xs && r[|xs|..] == ys
  {
    Append(xs, ys)
  }

  /** `Concat` is associative and has the empty list on either side as unit. */
  lemma ConcatMonoid<T>(xs: seq<T>, ys: seq<T>, zs: seq<T>)
    ensures Concat(Concat(xs, ys), zs) == Concat(xs, Concat(ys, zs))
    ensures Concat([], xs) == xs && Concat(xs, []) == xs
  {
    var xy, yz := Concat(xs, ys), Concat(ys, zs);
    assert xy == xs + ys && yz == ys + zs;
    assert Concat(xy, zs) == xy + zs && Concat(xs, yz) == xs + yz;
    assert xs + ys + zs == xs + (ys + zs);
    assert Concat([], xs) == [] + xs == xs;
    assert Concat(xs, []) == xs + [] == xs;
  }

  /** `Head<List<T, Ts...>>::type` is `T`; `Head<List<>>` has no `type`. */
  function Head<T>(xs: seq<T>): (r: Option<T>)
    ensures r.None? <==> xs == []
    ensures r.Some? ==> r.value == xs[0]
  {
    if xs == [] then None else Some(xs[0])
  }

  /** `Tail<List<T, Ts...>>::type` is `List<Ts...>`; `Tail<List<>>` has no `type`. */
  function Tail<T>(xs: seq<T>): (r: Option<seq<T>>)
    ensures r.None? <==> xs == []
    ensures r.Some? ==> Size(r.value) == Size(xs) - 1
    ensures r.Some? ==> forall i :: 0 <= i < |r.value| ==> r.value[i] == xs[i + 1]
  {
    if xs == [] then None else Some(xs[1..])
  }

  /** The head followed by the tail is the original list. */
  lemma HeadTailRecover<T>(xs: seq<T>)
    requires xs != []
    ensures Concat([Head(xs).value], Tail(xs).value) == xs
  {
    assert [xs[0]] + xs[1..] == xs;
  }

  /** `Map<F, List<Ts...>>`: `F<T>::type` for every `T` of the pack, in order. */
  function Map<A, B>(f: A -> B, xs: seq<A>): (r: seq<B>)
    ensures Size(r) == Size(xs)
    ensures forall i :: 0 <= i < |xs| ==> r[i] == f(xs[i])
  {
    if xs == [] then [] else [f(xs[0])] + Map(f, xs[1..])
  }

  /** Mapping a concatenation maps each part. */
  lemma {:induction false} MapConcat<A, B>(f: A -> B, xs: seq<A>, ys: seq<A>)
    ensures Map(f, Concat(xs, ys)) == Concat(Map(f, xs), Map(f, ys))
  {
    var l, r := Map(f, Concat(xs, ys)), Concat(Map(f, xs), Map(f, ys));
    assert |l| == |r|;
    forall i | 0 <= i < |l|
      ensures l[i] == r[i]
    {
      if i < |xs| {
        assert r[i] == Map(f, xs)[i];
      } else {
        assert r[i] == Map(f, ys)[i - |xs|];
      }
    }
  }

  /** `FoldeL<Op, Acc, XS>`: a left fold; over `List<>` it is `Acc`, over
      `List<T, Ts...>` it continues with `Op<Acc, T>::type`. Seen from the
      other end, the last type is folded in last. */
  function FoldeL<A, T>(op: (A, T) -> A, acc: A, xs: seq<T>): (r: A)
    ensures xs == [] ==> r == acc
    ensures xs != [] ==> r == op(FoldeL(op, acc, xs[..|xs| - 1]), xs[|xs| - 1])
    decreases |xs|
  {
    if xs == [] then acc
    else
      assert |xs| > 1 ==> xs[..|xs| - 1][1..] == xs[1..][..|xs| - 2];
      FoldeL(op, op(acc, xs[0]), xs[1..])
  }

  /** Folding a concatenation folds the second part from the result of the first. */
  lemma {:induction false} FoldeLConcat<A, T>(op: (A, T) -> A, acc: A, xs: seq<T>, ys: seq<T>)
    ensures FoldeL(op, acc, Concat(xs, ys)) == FoldeL(op, FoldeL(op, acc, xs), ys)
  {
    if xs == [] {
      assert Concat(xs, ys) == ys;
    } else {
      assert Concat(xs, ys)[1..] == Concat(xs[1..], ys);
      FoldeLConcat(op, op(acc, xs[0]), xs[1..], ys);
    }
  }

  /** Folding one more element applies `Op` once more. */
  lemma FoldeLSnoc<A, T>(op: (A, T) -> A, acc: A, xs: seq<T>, x: T)
    ensures FoldeL(op, acc, xs + [x]) == op(FoldeL(op, acc, xs), x)
  {
    FoldeLConcat(op, acc, xs, [x]);
    assert Concat(xs, [x]) == xs + [x];
    assert [x][1..] == [];
  }

  /* ---------------------------------------------------------------------- */
  /* Elem                                                                    */
  /* ---------------------------------------------------------------------- */

  /** `Elem<E, List<Ts...>>` as written: the fold `(is_same_v<Ts> || ...)`
      names `is_same_v` with one argument instead of two. Over an empty pack
      the fold is `false`; over any other pack the expression is ill-formed. */
  function ElemAsWritten<T>(e: T, xs: seq<T>): (r: Option<bool>)
    ensures r.Some? <==> xs == []
    ensures r.Some? ==> !r.value
  {
    if xs == [] then Some(false) else None
  }

  /** `Elem<E, List<Ts...>>` as documented, the fold `(is_same_v<E, Ts> || ...)`:
      whether `E` is one of the types. */
  function Elem<T(==)>(e: T, xs: seq<T>): (r: bool)
    ensures r <==> e in xs
  {
    xs != [] && (xs[0] == e || Elem(e, xs[1..]))
  }

  /** The list `[e]` already shows the difference: the intended `Elem` holds,
      the one as written does not compile. */
  lemma ElemAsWrittenFails<T>(e: T)
    ensures ElemAsWritten(e, [e]) == None
    ensures Elem(e, [e])
  {
  }

  /* ---------------------------------------------------------------------- */
  /* Unique                                                                  */
  /* ---------------------------------------------------------------------- */

  /** `Unique<List<Ts...>>` as written: the fold's step `Add` names
      `Acc::concat`, which `List` does not declare. Over `List<>` the fold
      never instantiates `Add` and gives `List<>`; over any other list it is
      ill-formed. */
  function UniqueAsWritten<T>(xs: seq<T>): (r: Option<seq<T>>)
    ensures r.Some? <==> xs == []
    ensures r.Some? ==> r.value == []
  {
    if xs == [] then Some([]) else None
  }

  /** The step `Add<Acc, E>` as intended: `Acc` when `E` is already in it,
      otherwise `Acc` with `E` appended. */
  function AddUnique<T(==)>(acc: seq<T>, e: T): (r: seq<T>)
    ensures e in r
    ensures Elem(e, acc) ==> r == acc
    ensures !Elem(e, acc) ==> r == Append(acc, [e])
  {
    if Elem(e, acc) then acc else Append(acc, [e])
  }

  /** No type occurs twice. */
  predicate NoDuplicates<T(==)>(s: seq<T>)
  {
    forall i, j :: 0 <= i < j < |s| ==> s[i] != s[j]
  }

  /** `Unique<Input>::type` as intended: `FoldeL<Add, List<>, Input>`. */
  function Unique<T(==)>(xs: seq<T>): (r: seq<T>)
    ensures NoDuplicates(r)
    ensures forall i :: 0 <= i < |r| ==> r[i] in xs
    ensures forall i :: 0 <= i < |xs| ==> xs[i] in r
  {
    UniqueFrom([], xs);
    FoldeL(AddUnique, [], xs)
  }

  /** Folding `Add` from an accumulator without duplicates keeps that
      accumulator as a prefix, adds no duplicates, and collects exactly the
      types of the accumulator and of the list. */
  lemma {:induction false} UniqueFrom<T>(acc: seq<T>, xs: seq<T>)
    requires NoDuplicates(acc)
    ensures var r := FoldeL(AddUnique, acc, xs);
            && NoDuplicates(r)
            && |acc| <= |r| && r[..|acc|] == acc
            && (forall i :: 0 <= i < |r| ==> r[i] in acc || r[i] in xs)
            && (forall i :: 0 <= i < |xs| ==> xs[i] in r)
    decreases |xs|
  {
    if xs != [] {
      var next := AddUnique(acc, xs[0]);
      assert NoDuplicates(next);
      UniqueFrom(next, xs[1..]);
      var r := FoldeL(AddUnique, acc, xs);
      assert r == FoldeL(AddUnique, next, xs[1..]);
      assert r[..|acc|] == r[..|next|][..|acc|];
      forall i | 0 <= i < |r|
        ensures r[i] in acc || r[i] in xs
      {
        if r[i] in next && r[i] !in acc {
          assert r[i] == xs[0];
        } else if r[i] !in next {
          assert r[i] in xs[1..];
        }
      }
      forall i | 0 <= i < |xs|
        ensures xs[i] in r
      {
        if i == 0 {
          assert xs[0] in r[..|next|];
        } else {
          assert xs[i] == xs[1..][i - 1];
        }
      }
    }
  }

  /** A list without duplicates is its own `Unique`, so `Unique` is idempotent. */
  lemma {:induction false} UniqueOfDistinct<T>(acc: seq<T>, xs: seq<T>)
    requires NoDuplicates(acc + xs)
    decreases |xs|
    ensures FoldeL(AddUnique, acc, xs) == acc + xs
  {
    if xs == [] {
      assert acc + xs == acc;
    } else {
      forall i | 0 <= i < |acc|
        ensures acc[i] != xs[0]
      {
        assert (acc + xs)[i] == acc[i] && (acc + xs)[|acc|] == xs[0];
      }
      assert AddUnique(acc, xs[0]) == acc + [xs[0]];
      assert acc + [xs[0]] + xs[1..] == acc + xs;
      UniqueOfDistinct(acc + [xs[0]], xs[1..]);
    }
  }

  /** `Unique` of a list without duplicates is the list itself, and applying
      `Unique` twice is the same as once. */
  lemma UniqueIdempotent<T>(xs: seq<T>)
    ensures NoDuplicates(xs) ==> Unique(xs) == xs
    ensures Unique(Unique(xs)) == Unique(xs)
  {
    if NoDuplicates(xs) {
      assert [] + xs == xs;
      UniqueOfDistinct([], xs);
    }
    assert [] + Unique(xs) == Unique(xs);
    UniqueOfDistinct([], Unique(xs));
  }

  /** The list `[e]` already shows the difference: the intended `Unique`
      gives `[e]`, the one as written does not compile. */
  lemma UniqueAsWrittenFails<T>(e: T)
    ensures UniqueAsWritten([e]) == None
    ensures Unique([e]) == [e]
  {
    UniqueIdempotent([e]);
  }
}
