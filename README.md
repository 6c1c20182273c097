# mstl core in Dafny

This project models the core of mstl, a small re-implementation of parts of the
C++ standard library:

- the range algorithms (`find`, `count`, `remove`, `transform`, `copy`, `fill`,
  `swap_ranges` and their relatives);
- the numeric folds (`iota`, `accumulate`, `inner_product`);
- the iterator model:
  - category tags and tag-dispatched `distance`;
  - the `reverse_iterator` adaptor;
  - the back and front insertion adaptors;
- the fixed-size `array<T, N>`;
- the type-level list prelude (`List`, `Head`, `Tail`, `Concat`, `Map`,
  `FoldeL`, `Elem`, `Unique`);
- the type traits (`conditional`, `enable_if`, the removal and adding traits,
  and the classification predicates).

Element types are `int`. An iterator into a range is an index into an `array<int>` (or a sequence), and a range is the half-open interval `[first, last)`.

Each module follows the form of its header:

- **`Algorithm`** (`algorithm.dfy`) and **`Numeric`** (`numeric.dfy`): every algorithm is a `method` with the source's loop. Each loop carries the invariants that prove it against a pure specification function: `Filter`, `CountWhere`, `FoldL`, `InnerFold`.
- **`Iterator`** (`iterator.dfy`):
  - `reverse_iterator` is a class with a mutable `current`. `++`, `--`, `+=` and `-=` are methods that update it, and dereference, offset and comparison are pure.
  - The insertion adaptors are classes whose assignment pushes onto a `Container`.
  - `distance` walks with a counting loop or subtracts, depending on the tag.
- **`FixedArray`** (`array.dfy`): a class over a built-in array of exactly `N` elements. `fill` and `swap` modify it in place, through `fill_n` and `swap_ranges` from `Algorithm`.
- **`MetaPrelude`** (`meta_prelude.dfy`) and **`TypeTraits`** (`type_traits.dfy`): pure functions and lemmas.
  - A type list is a sequence.
  - A type is a value of the descriptor datatype `Ty`.
  - A partial specialisation is a case of a match.
  - A template that has no `type` (or does not compile) yields `None`.

Where the code does not do what its name and comments promise, the model defines both versions: the code as written, and the intended behaviour with its property proved. A lemma or method shows an input on which the two differ (see Findings). The rest of the model uses the intended version.

## Model

| member | source | states |
|---|---|---|
| Algorithm.Filter | include/malgorithm.hpp:100-108 | the elements that survive a removal, in their original order, are never more than the input |
| Algorithm.FilterOccurrences | include/malgorithm.hpp:100-108 | filtering keeps every occurrence of a kept element and none of a removed one |
| Algorithm.FilterKeepsAll | include/malgorithm.hpp:100-108 | filtering a range in which every element passes returns the range unchanged |
| Algorithm.FilterSnoc | include/malgorithm.hpp:114-118 | filtering one more element appends it exactly when it passes |
| Algorithm.FilterPrefixLength | include/malgorithm.hpp:213-222 | filtering a prefix of a range gives no more elements than filtering the whole range, so `copy_if` never writes past the filtered count |
| Algorithm.FilterRoomForOne | include/malgorithm.hpp:216-220 | when the element under `first` passes, fewer elements have been written than the filtered range holds, so the write stays in the destination |
| Algorithm.CountWhere | include/malgorithm.hpp:84-94 | the number of matching elements is at most the length; it equals the length exactly when all match and is 0 exactly when none match |
| Algorithm.CountWhereIsFilterLength | include/malgorithm.hpp:84-94 | the count of matches is the length of the filtered range |
| Algorithm.Find | include/malgorithm.hpp:9-17 | returns the first position holding `value`; returns `last` exactly when no element does |
| Algorithm.FindIf | include/malgorithm.hpp:19-28 | returns the first position where `pred` holds, or `last` when it holds nowhere |
| Algorithm.FindIfNot | include/malgorithm.hpp:30-39 | returns the first position where `pred` fails, or `last` when it holds everywhere |
| Algorithm.ForEach | include/malgorithm.hpp:46-54 | `fn` is called on every element of the range exactly once, front to back, and is returned |
| Algorithm.ForEachN | include/malgorithm.hpp:57-63 | `fn` is called on `n` successive elements (none for `n <= 0`), and the result is `first` advanced `n` times |
| Algorithm.AllOf | include/malgorithm.hpp:165-168 | true exactly when every element satisfies `pred`; true on an empty range |
| Algorithm.AnyOf | include/malgorithm.hpp:170-173 | true exactly when some element satisfies `pred` |
| Algorithm.NoneOf | include/malgorithm.hpp:175-178 | true exactly when no element satisfies `pred`; true on an empty range |
| Algorithm.Count | include/malgorithm.hpp:74-82 | as written: the result is the length of the range, whatever `value` is |
| Algorithm.CountValue | include/malgorithm.hpp:74-82 | as intended: the number of occurrences of `value`, at most the length |
| Algorithm.CountIgnoresValue | include/malgorithm.hpp:74-82 | on `[1, 2]` with value 3, the count as written is 2 and the intended count is 0 |
| Algorithm.CountIf | include/malgorithm.hpp:84-94 | the number of elements satisfying `pred`, between 0 and the length |
| Algorithm.Remove | include/malgorithm.hpp:109-121 | the new prefix is the original range without `value`, in order; positions past the new end are untouched; if `value` is absent the new end is `last` and the array is unchanged |
| Algorithm.RemoveIf | include/malgorithm.hpp:123-135 | the new prefix is the original range without the elements satisfying `pred`, in order; nothing outside it changes |
| Algorithm.Compact | include/malgorithm.hpp:128-132 | the loop shared by `remove` and `remove_if`: behind a prefix every element of which is kept, the kept range becomes the original range filtered by `keep`, in order; nothing outside it changes, and an empty rest leaves the end at `last` |
| Algorithm.RemoveExample | include/malgorithm.hpp:102-104 | removing 0 from `0 0 0 1 1 0 0 1` leaves `1 1 1` as the new prefix |
| Algorithm.Transform | include/malgorithm.hpp:141-148 | each destination position receives `op` of the corresponding source element, and the end of the output is returned; nothing else changes |
| Algorithm.Transform2 | include/malgorithm.hpp:151-159 | each destination position receives `op` of the corresponding pair of elements; nothing else changes |
| Algorithm.Generate | include/malgorithm.hpp:185-190 | position `first + i` receives the value of the i-th generator call; nothing else changes |
| Algorithm.GenerateN | include/malgorithm.hpp:192-198 | the first `n` positions (none for `n <= 0`) receive successive generator values; returns one past the last written |
| Algorithm.Copy | include/malgorithm.hpp:205-211 | the destination holds the original source range and `d_first + n` is returned; nothing else changes, also for a safely overlapping range |
| Algorithm.CopyN | include/malgorithm.hpp:224-232 | copies `count` elements, none when `count <= 0`, and returns the end of the output |
| Algorithm.CopyBackward | include/malgorithm.hpp:234-241 | the range ends up just before `last2` with its original values, also when the destination overlaps it to the right; returns `last2 - n` |
| Algorithm.CopyIf | include/malgorithm.hpp:213-222 | as intended: the output is the source filtered by `pred`, in order, and needs room only for the elements that pass; the returned end is `d_first` plus their number; nothing else changes |
| Algorithm.CopyIfStepAsWritten | include/malgorithm.hpp:216-220 | one pass of the loop as written advances and writes when `pred` holds and changes nothing when it fails |
| Algorithm.CopyIfRunAsWritten | include/malgorithm.hpp:216-220 | a bounded run of the loop as written never moves the read position past `last` |
| Algorithm.CopyIfAsWrittenStalls | include/malgorithm.hpp:216-220 | as written, once the element under `first` fails `pred`, no number of passes changes the state, so the loop never ends |
| Algorithm.CopyIfAsWrittenWhenAllMatch | include/malgorithm.hpp:213-222 | as written, when every element satisfies `pred`, the loop ends after `n` passes with the whole range copied, which is the intended filter |
| Algorithm.Fill | include/malgorithm.hpp:247-252 | every position of the range holds `value`; nothing else changes |
| Algorithm.FillN | include/malgorithm.hpp:254-260 | the first `count` positions (none when `count <= 0`) hold `value`, and one past them is returned |
| Algorithm.Swap | include/malgorithm.hpp:266-270 | the two values are exchanged |
| Algorithm.IterSwap | include/malgorithm.hpp:273-276 | the two referenced elements are exchanged, also in the same array and at the same position |
| Algorithm.SwapRanges | include/malgorithm.hpp:280-286 | each element of the first range is exchanged with the corresponding one of the second; returns `first2 + n`; nothing else changes |
| Algorithm.SwapRangesTwice | include/malgorithm.hpp:280-286 | swapping the same ranges twice restores both arrays |
| Numeric.FoldLConcat | include/mnumeric.hpp:20-26 | accumulating over a concatenation continues from the accumulation of the first part |
| Numeric.FoldLSnoc | include/mnumeric.hpp:31-33 | accumulating one more element applies the operator once more |
| Numeric.FoldAddIsSum | include/mnumeric.hpp:20-26 | the left fold with `+` is `init` plus the sum of the elements |
| Numeric.InnerFoldSnoc | include/mnumeric.hpp:54-58 | one more pair of elements applies `op1` once more to `op2` of the pair |
| Numeric.InnerFoldIsDot | include/mnumeric.hpp:39-48 | the fold with `+` and `*` is `init` plus the dot product |
| Numeric.Iota | include/mnumeric.hpp:8-14 | position `first + i` receives `value + i`; nothing else changes |
| Numeric.Accumulate | include/mnumeric.hpp:20-26 | the left fold `((init + s0) + s1) + ...`, equal to `init` plus the sum; `init` on an empty range |
| Numeric.AccumulateWith | include/mnumeric.hpp:28-35 | the left fold of the range with `op` from `init`; `init` on an empty range |
| Numeric.InnerProduct | include/mnumeric.hpp:39-48 | `init` plus the dot product with exactly `last1 - first1` elements of the second range |
| Numeric.InnerProductWith | include/mnumeric.hpp:50-61 | the left fold `init = op1(init, op2(s1[i], s2[i]))`, in order |
| Iterator.DerivesFromIsPartialOrder | include/miterator.hpp:11-15 | inheritance among the category tags is reflexive, antisymmetric and transitive |
| Iterator.DerivesFrom | include/miterator.hpp:11-15 | the tags deriving from the input tag are exactly input, forward and bidirectional; the random-access and output tags derive from no other tag, and no other tag derives from them |
| Iterator.SelectDistance | include/miterator.hpp:53-67 | an overload is viable exactly when the tag derives from the input or the random-access tag; subtraction is chosen exactly for tags deriving from the random-access tag, walking for the rest; the output tag has none |
| Iterator.DistanceWalk | include/miterator.hpp:53-61 | counting increments from `first` until `last` takes exactly `last - first` steps, the random-access result |
| Iterator.Distance | include/miterator.hpp:71-76 | for every tag that compiles, the result is `last - first`, whichever overload runs; there is none for the output tag |
| Iterator.Reversed | include/miterator.hpp:153-160 | the back-to-front order of a sequence has the same length |
| Iterator.ReversedAt | include/miterator.hpp:153-167 | element `k` of the reversed sequence is element `n - 1 - k` of the original |
| Iterator.ReverseIterator.constructor | include/miterator.hpp:184 | wraps the given iterator |
| Iterator.ReverseIterator.Base | include/miterator.hpp:196 | `base()` is the wrapped iterator, one past the element `*r` refers to |
| Iterator.ReverseIterator.Deref | include/miterator.hpp:202-205 | refers to `s[current - 1]`, which is element `n - current` of the reversed sequence, and leaves `current` alone |
| Iterator.ReverseIterator.Increment | include/miterator.hpp:210-213 | prefix `++` moves `current` one step back and returns the iterator itself |
| Iterator.ReverseIterator.PostIncrement | include/miterator.hpp:216-220 | postfix `++` returns a copy of the old iterator and moves `current` one step back |
| Iterator.ReverseIterator.Decrement | include/miterator.hpp:222-225 | prefix `--` moves `current` one step forward and returns the iterator itself |
| Iterator.ReverseIterator.PostDecrement | include/miterator.hpp:227-231 | postfix `--` returns a copy of the old iterator and moves `current` one step forward |
| Iterator.ReverseIterator.Plus | include/miterator.hpp:236-238 | `r + n` is a new iterator wrapping `current - n` |
| Iterator.ReverseIterator.PlusAssign | include/miterator.hpp:240-243 | `r += n` leaves `r` wrapping `current - n`, where `r + n` is, and returns `r` itself |
| Iterator.ReverseIterator.Minus | include/miterator.hpp:245-247 | `r - n` is a new iterator wrapping `current + n` |
| Iterator.ReverseIterator.MinusAssign | include/miterator.hpp:249-252 | `r -= n` leaves `r` wrapping `current + n`, where `r - n` is, and returns `r` itself |
| Iterator.ReverseIterator.Subscript | include/miterator.hpp:255-257 | `r[n]` is `*(r + n)`: `s[current - n - 1]`, element `n` further along the reversed sequence |
| Iterator.PlusLeft | include/miterator.hpp:307-312 | `n + r` wraps the same position as `r + n` |
| Iterator.Equal | include/miterator.hpp:260-264 | `x == y` exactly when `x - y` is 0 |
| Iterator.Less | include/miterator.hpp:266-271 | `x < y` exactly when `x - y` is negative: `x` comes earlier in the reverse traversal |
| Iterator.LessEq | include/miterator.hpp:273-277 | `x <= y` exactly when `x - y` is at most 0 |
| Iterator.NotEqual | include/miterator.hpp:279-283 | `x != y` exactly when `x - y` is not 0 |
| Iterator.Greater | include/miterator.hpp:285-289 | `x > y` exactly when `x - y` is positive |
| Iterator.GreaterEqAsWritten | include/miterator.hpp:291-296 | as written, `x >= y` holds exactly when `x - y` is at most 0, the relation of `<=` |
| Iterator.GreaterEq | include/miterator.hpp:291-296 | as intended, `x >= y` exactly when `x - y` is at least 0 |
| Iterator.Diff | include/miterator.hpp:298-303 | `x - y` is the number of steps that takes `y` to `x`: `x` wraps `y.base() - (x - y)` |
| Iterator.ComparisonsFollowTraversal | include/miterator.hpp:260-303 | `==`, `!=`, `<`, `<=`, `>` and the intended `>=` compare the iterators' positions in the reverse traversal, and `x - y` is their difference |
| Iterator.GreaterEqAsWrittenIsLessEq | include/miterator.hpp:291-296 | as written `>=` is the same relation as `<=`; the intended `>=` is `!(x < y)` and `x > y || x == y` |
| Iterator.GreaterEqCounterexample | include/miterator.hpp:291-296 | for bases 0 and 1, `x > y` holds while `x >= y` as written is false |
| Iterator.ReverseTraversal | include/miterator.hpp:153-167 | walking from `reverse_iterator(end)` to `reverse_iterator(begin)` visits `s[n-1], ..., s[0]` |
| Iterator.ReversedSnoc | include/miterator.hpp:153-160 | reversing a sequence extended at the back puts the new element first |
| Iterator.Container.constructor | include/miterator.hpp:85-87 | the container an adaptor pushes into holds the given elements |
| Iterator.Container.PushBack | include/miterator.hpp:101 | `push_back` appends one element |
| Iterator.Container.PushFront | include/miterator.hpp:133 | `push_front` prepends one element |
| Iterator.BackInsertIterator.constructor | include/miterator.hpp:97 | the adaptor refers to the given container |
| Iterator.BackInsertIterator.Assign | include/miterator.hpp:100-107 | assignment appends the value to the container and returns the adaptor |
| Iterator.BackInsertIterator.Deref | include/miterator.hpp:110 | `*` returns the adaptor and changes nothing |
| Iterator.BackInsertIterator.Increment | include/miterator.hpp:111 | prefix `++` returns the adaptor and changes nothing |
| Iterator.BackInsertIterator.PostIncrement | include/miterator.hpp:112 | postfix `++` returns a copy on the same container and changes nothing |
| Iterator.BackInserter | include/miterator.hpp:115-117 | `back_inserter(x)` makes an adaptor on `x` |
| Iterator.FrontInsertIterator.constructor | include/miterator.hpp:131 | the adaptor refers to the given container |
| Iterator.FrontInsertIterator.Assign | include/miterator.hpp:132-139 | assignment prepends the value to the container and returns the adaptor |
| Iterator.FrontInsertIterator.Deref | include/miterator.hpp:140 | `*` returns the adaptor and changes nothing |
| Iterator.FrontInsertIterator.Increment | include/miterator.hpp:141 | prefix `++` returns the adaptor and changes nothing |
| Iterator.FrontInsertIterator.PostIncrement | include/miterator.hpp:142 | postfix `++` returns a copy on the same container and changes nothing |
| Iterator.FrontInserter | include/miterator.hpp:145-147 | the factory makes a front adaptor on `x` |
| Iterator.CopyToBackInserter | include/malgorithm.hpp:205-211 | `copy` into a back inserter grows the container by the whole range, in order |
| Iterator.CopyToFrontInserter | include/malgorithm.hpp:205-211 | `copy` into a front inserter puts the range, reversed, in front of the container |
| FixedArray.Array.Contents | include/marray.hpp:14 | the array holds exactly `N` values |
| FixedArray.Array.constructor | include/marray.hpp:12-14 | aggregate initialisation gives an array of the given values, its size their number |
| FixedArray.Array.Begin | include/marray.hpp:53-56 | `begin()` is a position of the storage; in a non-empty array it refers to `front()` |
| FixedArray.Array.End | include/marray.hpp:53-61 | `end() - begin()` is the size |
| FixedArray.Array.Size | include/marray.hpp:88 | `size()` is the number of stored elements |
| FixedArray.Array.MaxSize | include/marray.hpp:89 | `max_size()` equals `size()` |
| FixedArray.Array.Empty | include/marray.hpp:91 | `empty()` holds exactly when the array has no elements |
| FixedArray.Array.Get | include/marray.hpp:93-97 | `operator[]` returns element `n` of a valid index |
| FixedArray.Array.At | include/marray.hpp:99-113 | returns element `n` when `n < N` and the out-of-range error exactly when `n >= N`; requires `N > 0` |
| FixedArray.Array.Front | include/marray.hpp:115-123 | the first element, which `at(0)` also returns; requires `N > 0` |
| FixedArray.Array.Back | include/marray.hpp:125-133 | the last element, which `at(N - 1)` also returns; requires `N > 0` |
| FixedArray.Array.RBegin | include/marray.hpp:63-68 | wraps `end()`; in a non-empty array it refers to `back()`, the first element of the reversed contents |
| FixedArray.Array.REnd | include/marray.hpp:70-75 | wraps `begin()`; the iterator one step before it, on base `begin() + 1`, refers to `front()`, the last element of the reversed contents |
| FixedArray.Array.Fill | include/marray.hpp:33-41 | every element becomes `u`; a zero-size array is left alone |
| FixedArray.Array.FillAsWritten | include/marray.hpp:33-41 | as written, the loop of `fill_n` counts a pointer from null to `data() + N`: it writes `address + N` elements from `data()` on, more than `N` for any storage at a non-null address |
| FixedArray.Array.Swap | include/marray.hpp:43-50 | the two arrays exchange their whole contents, also when an array is swapped with itself |
| FixedArray.Array.SwapTwice | include/marray.hpp:43-50 | swapping twice restores both arrays |
| MetaPrelude.Size | include/mmetaprelude.hpp:25 | `size` is the number of types in the pack, 0 exactly for `List<>` |
| MetaPrelude.Append | include/mmetaprelude.hpp:27 | `append<Us...>` is `Ts` followed by `Us`, with the sum of the sizes |
| MetaPrelude.Concat | include/mmetaprelude.hpp:61-65 | `Concat` holds the first list then the second, and its size is the sum |
| MetaPrelude.ConcatMonoid | include/mmetaprelude.hpp:61-65 | `Concat` is associative with `List<>` as unit |
| MetaPrelude.Head | include/mmetaprelude.hpp:40-43 | the first type; undefined exactly for `List<>` |
| MetaPrelude.Tail | include/mmetaprelude.hpp:50-53 | the list without its first type, one shorter; undefined exactly for `List<>` |
| MetaPrelude.HeadTailRecover | include/mmetaprelude.hpp:40-53 | head followed by tail is the original list |
| MetaPrelude.Map | include/mmetaprelude.hpp:73-75 | same length as the input, element `i` is `F` of element `i` |
| MetaPrelude.MapConcat | include/mmetaprelude.hpp:73-75 | mapping a concatenation is the concatenation of the mapped parts |
| MetaPrelude.FoldeL | include/mmetaprelude.hpp:102-107 | `Acc` over `List<>`; over a non-empty list, `Op` applied to the fold of all but the last type and the last type |
| MetaPrelude.FoldeLConcat | include/mmetaprelude.hpp:102-107 | folding a concatenation folds the second part from the fold of the first |
| MetaPrelude.FoldeLSnoc | include/mmetaprelude.hpp:102-107 | folding one more type applies `Op` once more |
| MetaPrelude.ElemAsWritten | include/mmetaprelude.hpp:116-119 | as written: defined (and false) only for `List<>`, ill-formed for any other list |
| MetaPrelude.Elem | include/mmetaprelude.hpp:116-119 | as intended: true exactly when `E` is in the list |
| MetaPrelude.ElemAsWrittenFails | include/mmetaprelude.hpp:116-119 | for the list `[E]` the intended answer is true while the definition as written does not compile |
| MetaPrelude.UniqueAsWritten | include/mmetaprelude.hpp:126-135 | as written: `List<>` for `List<>`, ill-formed for any other list |
| MetaPrelude.AddUnique | include/mmetaprelude.hpp:129-131 | as intended, the step keeps the accumulator when `E` is in it and appends `E` otherwise; `E` is in the result |
| MetaPrelude.Unique | include/mmetaprelude.hpp:126-135 | as intended: no type occurs twice, and the result has exactly the types of the input |
| MetaPrelude.UniqueFrom | include/mmetaprelude.hpp:126-135 | folding the step from a duplicate-free accumulator keeps it as a prefix, adds no duplicate and collects exactly the accumulator's and the list's types |
| MetaPrelude.UniqueOfDistinct | include/mmetaprelude.hpp:126-135 | on a list without duplicates the fold appends every type |
| MetaPrelude.UniqueIdempotent | include/mmetaprelude.hpp:126-135 | a duplicate-free list is its own `Unique`, and `Unique` is idempotent |
| MetaPrelude.UniqueAsWrittenFails | include/mmetaprelude.hpp:126-135 | for the list `[E]` the intended result is `[E]` while the definition as written does not compile |
| TypeTraits.Qualify | include/mtype_traits.hpp:89 | adding qualifiers to a well-formed type gives a well-formed type, and a reference is unaffected |
| TypeTraits.Conditional | include/mtype_traits.hpp:27-35 | `If` when the condition holds, `Else` otherwise |
| TypeTraits.EnableIf | include/mtype_traits.hpp:42-43 | there is a `type` exactly when the condition holds, and it is `T` |
| TypeTraits.RemoveReferenceStripsOne | include/mtype_traits.hpp:48-50 | strips exactly one `&` or `&&`, leaves other types alone, and never returns a reference |
| TypeTraits.RemoveReference | include/mtype_traits.hpp:48-50 | a reference `U&` or `U&&` gives `U`; any other type is returned as it is |
| TypeTraits.RemoveCvStripsQualifiers | include/mtype_traits.hpp:74-77 | the result has no top-level qualifiers, and qualifying the argument first changes nothing |
| TypeTraits.RemoveCv | include/mtype_traits.hpp:74-77 | the result of a well-formed type is unqualified, and qualifying it with the type's own qualifiers gives the type back |
| TypeTraits.RemoveConstVolatile | include/mtype_traits.hpp:79-82 | `remove_const` strips `const` and keeps `volatile`, `remove_volatile` the reverse; both together are `remove_cv` |
| TypeTraits.RemoveConst | include/mtype_traits.hpp:79-80 | the result is not const, keeps the volatility, and has the same unqualified type |
| TypeTraits.RemoveVolatile | include/mtype_traits.hpp:81-82 | the result is not volatile, keeps the constness, and has the same unqualified type |
| TypeTraits.RemoveCvrefIdempotent | include/mtype_traits.hpp:84-87 | the result is neither a reference nor qualified, and applying it twice equals applying it once |
| TypeTraits.RemoveCvref | include/mtype_traits.hpp:84-87 | the result is neither a reference nor qualified, and an unqualified non-reference type is returned as it is |
| TypeTraits.RemovePointerStripsOne | include/mtype_traits.hpp:98-104 | strips one pointer level, also from a const, volatile or const volatile pointer, and leaves non-pointers alone |
| TypeTraits.RemovePointer | include/mtype_traits.hpp:98-104 | a pointer `U*`, qualified or not, gives `U`; any other type is returned as it is |
| TypeTraits.AddLvalueReferenceSpec | include/mtype_traits.hpp:55-62 | `T&` (with `U&&` collapsing to `U&`) for every non-void type, `void` unchanged; `remove_reference` undoes it |
| TypeTraits.AddLvalueReference | include/mtype_traits.hpp:55-62 | `void` comes back unchanged; any other type becomes an lvalue reference to what it refers to or is |
| TypeTraits.AddRvalueReferenceSpec | include/mtype_traits.hpp:58-65 | `T&&` for every non-void non-reference type, references and `void` unchanged; `remove_reference` undoes it |
| TypeTraits.AddRvalueReference | include/mtype_traits.hpp:58-65 | `void` and references come back unchanged; any other `T` becomes the rvalue reference `T&&` |
| TypeTraits.AddConstAsWrittenAddsVolatile | include/mtype_traits.hpp:89-91 | as written, `add_const` and `add_volatile` are `add_cv`: `add_const<int>` is volatile and `add_volatile<int>` is const |
| TypeTraits.AddCv | include/mtype_traits.hpp:89 | a non-reference type becomes const and volatile with the same unqualified type; a reference is unchanged |
| TypeTraits.AddConstAsWritten | include/mtype_traits.hpp:90 | as written, `add_const` is `add_cv`, so its result is volatile too |
| TypeTraits.AddVolatileAsWritten | include/mtype_traits.hpp:91 | as written, `add_volatile` is `add_cv`, so its result is const too |
| TypeTraits.AddConstVolatileSpec | include/mtype_traits.hpp:89-91 | as intended, `add_const` makes a type const and keeps its volatility (and conversely), `remove_const` undoes it, and adding both in either order is `add_cv` |
| TypeTraits.AddConst | include/mtype_traits.hpp:90 | as intended, a non-reference type becomes const, keeps its volatility and its unqualified type; a reference is unchanged |
| TypeTraits.AddVolatile | include/mtype_traits.hpp:91 | as intended, a non-reference type becomes volatile, keeps its constness and its unqualified type; a reference is unchanged |
| TypeTraits.IsSameQualifierOrder | include/mtype_traits.hpp:117-118 | `is_same` identifies `const volatile T` and `volatile const T`, and `const const T` with `const T` |
| TypeTraits.IsSame | include/mtype_traits.hpp:117-118 | true exactly when the two types are the same type |
| TypeTraits.IsReferenceSpec | include/mtype_traits.hpp:206-208 | `is_reference` holds exactly when `is_lvalue_reference` or `is_rvalue_reference` does, and never both |
| TypeTraits.IsLvalueReference | include/mtype_traits.hpp:120-121 | true exactly when the type is `U&` for the `U` that `remove_reference` gives |
| TypeTraits.IsRvalueReference | include/mtype_traits.hpp:123-124 | true exactly when the type is `U&&` for the `U` that `remove_reference` gives |
| TypeTraits.IsReference | include/mtype_traits.hpp:206-208 | true exactly when the type is an lvalue or an rvalue reference |
| TypeTraits.IsConst | include/mtype_traits.hpp:226-227 | a reference is never const (the primary template); a non-reference type is const exactly when adding `const` to it changes nothing |
| TypeTraits.PredicatesIgnoreCv | include/mtype_traits.hpp:126-171 | `is_void`, `is_null_pointer` and `is_pointer` ignore top-level qualifiers; `is_void` holds exactly for the qualified or unqualified `void` |
| TypeTraits.IsVoid | include/mtype_traits.hpp:126-127 | true exactly for `void` with or without qualifiers |
| TypeTraits.IsNullPointer | include/mtype_traits.hpp:129-131 | true exactly for `nullptr_t` with or without qualifiers |
| TypeTraits.IsPointer | include/mtype_traits.hpp:168-171 | true exactly for a pointer type with or without qualifiers |
| TypeTraits.IsIntegralAsWrittenAlwaysTrue | include/mtype_traits.hpp:133-196 | as written, every type is integral, arithmetic and fundamental, and none is compound |
| TypeTraits.IsIntegralAsWritten | include/mtype_traits.hpp:133-152 | as written, holds of every type |
| TypeTraits.IsIntegral | include/mtype_traits.hpp:133-152 | as intended, true exactly when `remove_cv<T>` is one of the nine integral types the trait lists |
| TypeTraits.IsFloatingPoint | include/mtype_traits.hpp:154-161 | true exactly when `remove_cv<T>` is `float`, `double` or `long double`; such a type is not integral, `void` or `nullptr_t` |
| TypeTraits.IsArithmeticAsWritten | include/mtype_traits.hpp:163-166 | as written, holds of every type |
| TypeTraits.IsArithmetic | include/mtype_traits.hpp:163-166 | as intended, true exactly for the fundamental types other than `void` and `nullptr_t`, with or without qualifiers |
| TypeTraits.IsFundamentalAsWritten | include/mtype_traits.hpp:186-191 | as written, holds of every type |
| TypeTraits.IsFundamental | include/mtype_traits.hpp:186-191 | as intended, true exactly when `remove_cv<T>` is a fundamental type |
| TypeTraits.IsCompoundAsWritten | include/mtype_traits.hpp:194-196 | as written, holds of no type |
| TypeTraits.IsCompound | include/mtype_traits.hpp:194-196 | as intended, a well-formed type is compound exactly when, without qualifiers, it is a class, a pointer or a reference |
| TypeTraits.IsIntegralCounterexample | include/mtype_traits.hpp:133-196 | `float` is integral as written but not as intended; `int*` is not compound as written but is as intended |
| TypeTraits.ClassificationSpec | include/mtype_traits.hpp:154-196 | as intended, an unqualified type is fundamental exactly when it is a fundamental type and compound exactly when it is a class, pointer or reference; integral and floating point are disjoint; qualifiers change none of the classifications |

## Left out

- Integer widths: `difference_type`, `size_t` and the element type `T` are unbounded integers. Overflow of `ptrdiff_t`, of `accumulate`, of `inner_product` and of `iota`'s counter is not modelled.
- Element types other than `int`, and callables with side effects. `pred`, `op`, `fn`, `op1` and `op2` are pure Dafny functions. A generator is the sequence of values its successive calls return.
- Moves: `mstl::move` and `mstl::forward` (include/utility.hpp) are plain copies. include/utility.hpp is not part of this model.
- Algorithm.ForEach, Algorithm.ForEachN: the callable is pure, so what it does with each element is not modelled. The model records the elements it is called with, in order. `for_each_n`'s returned position is modelled.
- `iterator_traits` (include/miterator.hpp:25-39): it is reduced to the category tag passed to `Distance`. Overload selection by the compiler is modelled only as `SelectDistance`.
- Algorithm.Copy, Algorithm.Transform, Algorithm.Transform2, Algorithm.CopyN, Algorithm.CopyIf: require that a write never lands on an element not yet read. Same-array overlap is allowed only where that holds. An overlap the code would read back after overwriting is excluded, not modelled.
- Algorithm.CopyBackward: requires that the destination does not overlap the source to the left, where the backward loop would overwrite elements before reading them. That case is excluded, not modelled.
- Algorithm.SwapRanges, Algorithm.SwapRangesTwice: two ranges in the same array must be identical or disjoint. For partially overlapping ranges the code still runs its `iter_swap` calls in sequence; `[1, 2, 3]` with `swap_ranges(0, 2, 1)` gives `[2, 3, 1]`. That rotation is not modelled.
- Algorithm.FindIf, Algorithm.FindIfNot: the extra template parameter `T` of `find_if`/`find_if_not` (include/malgorithm.hpp:19, 30) cannot be deduced, so calls without explicit template arguments do not compile. The model gives the loops their evident meaning.
- Algorithm.CountIf: `count_if` declares the same non-deducible `T` (include/malgorithm.hpp:84), so it compiles only with explicit template arguments. The model gives the loop its evident meaning.
- Algorithm.RemoveIf: `remove_if` declares the non-deducible `T` (include/malgorithm.hpp:123). It also calls `mstl::find_if` without template arguments (:126), so as written it cannot be instantiated at all. The model uses the intended `find_if`.
- Algorithm.AllOf, Algorithm.AnyOf, Algorithm.NoneOf: they call `mstl::find_if_not` and `mstl::find_if` without template arguments (include/malgorithm.hpp:167, 172, 177). `T` cannot be deduced there, so as written they cannot be instantiated. The model uses the intended searches.
- Algorithm.Remove, Algorithm.RemoveIf: `remove`/`remove_if` are declared in namespace `mstlm` (include/malgorithm.hpp:98), not `mstl`. The namespace has no counterpart in the model.
- Iterator.BackInsertIterator.constructor, Iterator.FrontInsertIterator.constructor: as written, the constructors (include/miterator.hpp:97, 131) never store `x`. `container` is then an uninitialised pointer and every assignment through the adaptor is undefined behaviour. The model stores the container, as `back_inserter` evidently intends.
- Iterator.FrontInserter: the source names the factory for `front_insert_iterator` `back_inserter` (include/miterator.hpp:145), an overload that clashes with the one at line 115. The model gives it its own name.
- Iterator.DerivesFrom: `random_access_iterator_tag` derives from no other tag (include/miterator.hpp:15). The usual lattice puts it below the bidirectional tag; the model follows the code. `distance` is unaffected because the random-access overload is an exact match.
- Iterator.ReverseIterator: the default constructor, the converting copy constructor and assignment (include/miterator.hpp:182-194), `operator->` (:208) and `make_reverse_iterator` (:314-318) are left out. Each only copies or wraps a base iterator, which the constructor already models.
- FixedArray.Array.Fill: as written, `fill` passes `data() + N` as the count of `fill_n` (include/marray.hpp:39). `Size` is then deduced as a pointer type. `Size i = 0` makes the counter a null pointer, and `i < count` and `++i` (include/malgorithm.hpp:256) are pointer operations, so the call compiles. At run time the loop writes far past the end of the storage, which is undefined behaviour (see Findings and FixedArray.Array.FillAsWritten). `Fill` models the intended call, with count `N`.
- FixedArray.Array.FillAsWritten: models only how many elements the loop writes. The writes past the storage are undefined behaviour and are not modelled as changes to the array.
- FixedArray.Array.Front, FixedArray.Array.Back: `front()` and `back()` go through `operator[]` (include/marray.hpp:115-133), so as written they inherit its compile error. The model gives them the evident meaning, the first and the last element of a non-empty array.
- FixedArray.Array.Get: as written, `operator[]` static_asserts `n < N` on a runtime index (include/marray.hpp:95), which does not compile. The model makes `n < N` a precondition: the unchecked access the operator evidently means.
- The `const` overloads and `cbegin`/`cend`/`crbegin`/`crend` (include/marray.hpp:54-86) behave like the non-const members that model them. `data()` is the `elements` field itself.
- The `static_assert(!is_const<T>)` in the zero-size branches of `fill` and `swap`: elements are never const here.
- `List::apply` (include/mmetaprelude.hpp:30): applying a type operator to the pack is plain function application.
- `Filter` (include/mmetaprelude.hpp:77-89): it names `Base::concat`, which `List` does not declare, and recurses with a pack where a list is expected. It is not among the modelled prelude operations.
- Traits left out: `type_identity`, `void_t` and `integral_constant` (include/mtype_traits.hpp:10-25) are vocabulary.
- Traits left out: `is_enum`, `is_union` and `is_class` depend on compiler intrinsics or SFINAE (:111-112, 202-204).
- Traits left out: `is_array`, `is_member_pointer`, `is_scalar` and `is_object` (:173-183, 211-224) need array and member-pointer types, which the descriptor does not have.
- Traits left out: the 24 `is_function` specialisations (:232-292).
- Traits left out: function types, arrays, unsigned and signed-char types.
- include/mmemory.hpp, include/mnew.hpp, include/mexceptoin.hpp, include/mfunctional.hpp and include/minitializer_list.hpp are not part of this model. They hold address tricks, declarations without bodies and a compiler-filled handle. The exception `at` throws is the `OutOfRange` error result.

## Findings

| source | as written | input that shows it | evidently intended | confidence | as-written member | corrected member |
|---|---|---|---|---|---|---|
| include/malgorithm.hpp:74-82 | `count` increments for every element and never compares with `value` | `[1, 2]`, value 3: returns 2 | the number of elements equal to `value` (0) | not executed | Algorithm.CountIgnoresValue | Algorithm.CountValue |
| include/malgorithm.hpp:213-222 | `copy_if` advances `first` only when `pred` holds, so the loop never ends on an element that fails it | `[1]` with `pred(x) = false` | skip failing elements and copy the rest in order | not executed | Algorithm.CopyIfAsWrittenStalls | Algorithm.CopyIf |
| include/marray.hpp:33-41 | `fill` passes `data() + N` as the count of `fill_n`, so the counter is a pointer running from null to `data() + N` | an `array<int, 2>` whose storage is at a non-null address `p`: `p / sizeof(int) + 2` elements are written from `data()` on | write exactly `N` elements: `fill_n(data(), N, u)` | not executed | FixedArray.Array.FillAsWritten | FixedArray.Array.Fill |
| include/miterator.hpp:291-296 | reverse `>=` compares the bases with `>=`, the same as `<=` | bases 0 and 1: `x > y` but not `x >= y` | `x.base() <= y.base()`, i.e. `!(x < y)` | not executed | Iterator.GreaterEqCounterexample | Iterator.GreaterEqAsWrittenIsLessEq |
| include/mtype_traits.hpp:133-152 | `is_integral` tests `remove_cv<short>` against `short` and so on instead of `remove_cv<T>`, so it is always true; `is_arithmetic` and `is_fundamental` always hold and `is_compound` never does | `float`, `int*` | `remove_cv<T>` is one of the listed integral types | not executed | TypeTraits.IsIntegralAsWrittenAlwaysTrue | TypeTraits.ClassificationSpec |
| include/mtype_traits.hpp:90-91 | `add_const` and `add_volatile` both produce `const volatile T` | `add_const<int>` is volatile | `const T` and `volatile T` | not executed | TypeTraits.AddConstAsWrittenAddsVolatile | TypeTraits.AddConstVolatileSpec |
| include/mmetaprelude.hpp:116-119 | `Elem` folds `is_same_v<Ts>`, with one template argument, so any non-empty list is ill-formed (a compiler may reject the definition outright) | `Elem<int, List<int>>` | `(is_same_v<E, Ts> \|\| ...)` | not executed | MetaPrelude.ElemAsWrittenFails | MetaPrelude.Elem |
| include/mmetaprelude.hpp:126-135 | `Unique`'s step uses `Acc::concat`, which `List` does not declare, so any non-empty input is ill-formed | `Unique<List<int>>` | append `E` to `Acc` unless it is already there | not executed | MetaPrelude.UniqueAsWrittenFails | MetaPrelude.Unique |
