# curry — a verified model of the currying and partial-application engines

The library turns functions into curried or partially applied functions.

- `curry(fn)` returns a closure. Each call appends its arguments to the ones bound so far. Once the running total reaches `fn`'s declared parameter count, `fn` is called with all of them, extras included. Until then, a new closure over the longer list is returned.
- A type layer (`Pop`, `Shift`, `UnionFactorial`, `OverloadsByArgs`, `CurriedWithFixArgs`, `Curried`) computes which call chains the curried function's static type accepts.
- `papplyLeft`, `papplyRight` and `papplyRest` bind arguments in advance. They bind from the left, from the right (the bound list is reversed once), or after the first parameter.

The model has five modules:

- `Options` holds the `Option` type. `None` stands for TypeScript's `never` where a single tuple is expected. For `UnionFactorial`, which yields a union, `never` is the empty set.
- `TupleAlgebra` models the type layer of `curry.ts` as functions on sequences.
- `CurryEngine` models the runtime dispatcher. The wrapped function is `Fn(arity, body)`. `arity` stands for `fn.length`, and `body` is any total function of the argument list. A curried value is `Pending(acc)` or `Done(result)`. `Run` feeds one argument group per call.
- `Partial` models the three binders. `...Forwarded` gives the argument list each binder hands to the wrapped function. `Papply...` gives the bound function itself.
- `Scenarios` replays every runtime curry chain of curry_test.ts (arities 0 to 5, curry_test.ts:45-72; the assertions at curry_test.ts:98-128 check only static types), the mutable-tuple cases of `Pop`, `Shift` and `UnionFactorial` it pins, one left-binding case of partial_test.ts, and the examples in the documentation comments of partial.ts (`papplyLeft`, `papplyRight`, `papplyRest`). The values are symbolic where the tests' values play no part.

The right binder needs care. `papplyRight(fn, a0, a1, …)` places `a0` in the last parameter, `a1` in the one before it, and so on. `RightForwarded` states this position by position. `RightFixesSuffix` shows that binding the reversed suffix fills the trailing parameters in declaration order.

## Model

| member | source | states |
|---|---|---|
| TupleAlgebra.Pop | curry.ts:26-28 | the result is `never` exactly for the empty tuple; otherwise appending the last element back gives the input |
| TupleAlgebra.Shift | curry.ts:36-40 | an element-by-element match of `[...S, ...Rest]` succeeds exactly when S is a prefix of T, and then S ++ Rest == T |
| TupleAlgebra.UnionFactorial | curry.ts:45-46 | the union holds only non-empty prefixes of T, holds every prefix of length 1..\|T\|, and has exactly \|T\| members (empty for the empty tuple) |
| TupleAlgebra.Overload | curry.ts:51-66 | a call shaped like `prefix` matches a member of the overload set exactly when it is a non-empty prefix of the parameters; the continuation then owes the remaining parameters |
| TupleAlgebra.AcceptsIffPartition | curry.ts:73-76 | `Curried<Args, R>` accepts a call chain exactly when every call passes at least one argument and the calls concatenate to Args (both directions) |
| CurryEngine.Call | curry.ts:100-101 | a call completes exactly when bound plus new arguments reach the arity, and then fn receives all of them, extras included; otherwise the new closure holds old ++ new and stays below the arity |
| CurryEngine.NullaryCallsAtOnce | curry.ts:99-101 | with arity 0, calling `curry(fn)` with no arguments returns fn's result on the empty list |
| CurryEngine.EmptyCallKeepsPending | curry.ts:101 | a call with no arguments on a closure short of the arity returns a closure over the same list |
| CurryEngine.RunPending | curry.ts:100-101 | while the running total stays below the arity, a chain of calls only accumulates its arguments, in call order |
| CurryEngine.RunDone | curry.ts:100-101 | when the total first reaches the arity on the last call, the chain yields fn on the whole concatenation, extra arguments included; calls with no arguments in between change nothing |
| CurryEngine.RunOvershoots | curry.ts:100-101 | when the total reaches the arity before the last call, the chain goes on to call fn's result, which is not a curried closure |
| CurryEngine.PartitionLaw | curry.ts:92-94 | any split of exactly arity-many arguments into consecutive non-empty groups ends in fn applied to the whole list |
| CurryEngine.TypedChainsComplete | curry.ts:97-99 | every chain the declared type of `curry(fn)` accepts, including the nullary `() => R` case, ends at run time in fn on its parameters |
| Partial.Reverse | partial.ts:90 | the stored list has the same length, and its i-th element is the input's i-th from the end |
| Partial.LeftForwarded | partial.ts:26-28 | the forwarded list is the bound arguments followed by the call's own, none dropped; with nothing bound it is the call's list, and with no call arguments it is the bound list |
| Partial.RightForwarded | partial.ts:90-92 | the forwarded list starts with the call's arguments, and the i-th bound argument lands at index \|forwarded\|-1-i |
| Partial.RestForwarded | partial.ts:117-118 | the head is at index 0, the bound tail occupies indices 1..\|tail\|, and the call's remaining arguments follow |
| Partial.PapplyLeft | partial.ts:18-29 | the bound function calls fn with `LeftForwarded(args, rest)` for every `rest` |
| Partial.PapplyRight | partial.ts:86-94 | the bound function calls fn with `RightForwarded(args, rest)` for every `rest` |
| Partial.PapplyRest | partial.ts:108-120 | the bound function calls fn with `RestForwarded(tail, head, rest)` for every head and `rest` |
| Partial.LeftNesting | partial.ts:26-28 | binding a and then b from the left forwards the same list as binding a ++ b at once |
| Partial.RightNesting | partial.ts:90-92 | binding a and then b from the right forwards the same list as binding a ++ b at once |
| Partial.RestIsLeftWithHead | partial.ts:117-118 | a rest-bound call forwards what a left binding of `[head] ++ tail` forwards |
| Partial.RightFixesSuffix | partial.ts:37-41 | binding a suffix from the right, last parameter first, forwards rest ++ suffix |
| Scenarios.AddInOneOrTwoCalls | curry_test.ts:43-46 | `add(1, 2)` and `add(1)(2)` both give 3 |
| Scenarios.NullaryEcho | curry_test.ts:48 | a curried nullary function called with nothing yields its result |
| Scenarios.OneSplit1 | curry_test.ts:49 | a one-parameter function called with its argument gives it back |
| Scenarios.TwoStaysPending | curry_test.ts:50 | a two-parameter function is still a closure after one argument |
| Scenarios.TwoSplit2 | curry_test.ts:51 | both arguments in one call give both |
| Scenarios.TwoSplit11 | curry_test.ts:52 | one argument per call gives both |
| Scenarios.ThreeStaysPending | curry_test.ts:54-55 | a three-parameter function is still a closure after one argument and after two single arguments, holding them in order |
| Scenarios.ThreeSplit111 | curry_test.ts:56 | three single-argument calls give all three arguments |
| Scenarios.ThreeSplit21 | curry_test.ts:57 | two arguments and then one give all three arguments |
| Scenarios.ThreeSplit12 | curry.ts:93 | one argument and then two give all three arguments |
| Scenarios.ThreeSplit3 | curry_test.ts:58 | all three arguments in one call give all three arguments |
| Scenarios.FourSplit1111 | curry_test.ts:60 | four single-argument calls give all four arguments |
| Scenarios.FourSplit211 | curry_test.ts:61 | two arguments, then one per call, give all four |
| Scenarios.FourSplit31 | curry_test.ts:62 | three arguments, then one, give all four |
| Scenarios.FourSplit4 | curry_test.ts:63 | all four arguments in one call give all four |
| Scenarios.OverApplicationKeepsExtras | curry.ts:101 | a call with more arguments than the arity passes all of them to fn |
| Scenarios.FiveSplit11111 | curry_test.ts:65 | five single-argument calls give all five arguments |
| Scenarios.FiveSplit2111 | curry_test.ts:66 | two arguments, then one per call, give all five |
| Scenarios.FiveSplit311 | curry_test.ts:67 | three arguments, then one per call, give all five |
| Scenarios.FiveSplit41 | curry_test.ts:68 | four arguments, then one, give all five |
| Scenarios.FiveSplit5 | curry_test.ts:69 | all five arguments in one call give all five |
| Scenarios.FiveSplit14 | curry_test.ts:70 | one argument, then four, give all five |
| Scenarios.FiveSplit113 | curry_test.ts:71 | one, one, then three arguments give all five |
| Scenarios.FiveSplit1112 | curry_test.ts:72 | one, one, one, then two arguments give all five |
| Scenarios.TupleAlgebraCases | curry_test.ts:74-96 | the pinned Pop cases (including a tuple whose only element is the empty tuple), Shift cases and UnionFactorial cases |
| Scenarios.PartialLeftDocExample | partial.ts:12-15 | binding nothing forwards the call's (x, y, z); binding "" forwards ["", y, z]; binding ("", 0) forwards ["", 0, z]; binding ("", 0, false) and calling with nothing forwards ["", 0, false] |
| Scenarios.PartialLeftExample | partial_test.ts:111-116 | binding "" from the left and calling with (0, false) forwards ["", 0, false] |
| Scenarios.PartialRightExample | partial.ts:37-41 | binding false from the right fills the third parameter; binding (false, 0) fills the third and second; binding (false, 0, "") and calling with nothing forwards ["", 0, false] |
| Scenarios.PartialRestExample | partial.ts:104-105 | binding 0 after the head and calling with (x, z) forwards [x, 0, z]; binding (0, false) and calling with x forwards [x, 0, false] |

`TupleAlgebra.Accepts` and `TupleAlgebra.CurryAccepts` are the predicates for `Curried` and for the declared return type of `curry` (curry.ts:73-76, 99). `CurryEngine.Curry` (curry.ts:97-104) is the closure with nothing bound yet, and `CurryEngine.Run` feeds a chain of calls. These four carry no contract of their own; the lemmas above state what they mean. `FlattenAppend`, `ReverseAppend`, `ReverseInvolution` and `Scenarios.EchoSplit` are helper lemmas. `Partial.PapplyRight` computes the reversal once, when the binder is created, as the source does at partial.ts:90; sequences are values, so no contract can observe when the reversal happens.

## Left out

- TupleAlgebra.Shift: compares tuple elements by equality, whereas the pattern `[...S, ...infer Rest]` matches by assignability (so `Shift<[number], [1, 2]>` is `[2]` in TypeScript, `None` here); it also does not distinguish a readonly `T`, which never matches the mutable pattern. Where the curry type uses it, the prefixes come from `UnionFactorial` of the same tuple, so equality and assignability agree there.
- TupleAlgebra.Overload: accepts a call only when its argument list equals a prefix of the parameters, whereas TypeScript's overload resolution accepts arguments whose types are assignable to a prefix; the model tracks positions, not the subtype relation.
- `Union2Intersection` (curry.ts:15-18) is not a separate function. Intersecting the overloads means a call is accepted when some overload accepts it, and `Overload` performs that lookup.
- `fn.length` is an explicit `arity` field. The host's reflection is not modelled. This includes the fact that rest parameters do not count towards `fn.length`.
- `bind(null, …)`, `apply(null, …)` and `this` binding are not modelled. A closure is its list of bound arguments.
- The readonly and mutable tuple flavours of `Pop` and `UnionFactorial` are not modelled, because sequences have no such distinction. The same holds for the 19-parameter ceiling of the type checker (curry.ts:85).
- The fixed-arity overload signatures of `papplyRight` (partial.ts:44-85) are not modelled. The model follows the runtime body (partial.ts:86-94). The five-argument overload at partial.ts:75 leaves `A4` out of the parameter tuple. This slip affects types only.
- Calling a `papplyRest` binder without a head (the host would pass `undefined`) is not modelled. The head is a required parameter.
- Chains that call past a result are not modelled. `Run` yields `None` there, because the wrapped function's result is opaque and is not treated as a closure.
- The wrapped function's own behaviour and exceptions are not modelled. It is any total function of the argument list.
- Each `papplyRight` call gets a fresh rest-parameter array. The in-place `args.reverse()` therefore cannot leak between binders, and `rest.concat(args)` leaves the stored list alone. Sequences are values in the model, so "nothing carries over between calls" holds by construction and has no lemma.
- partial_test.ts imports `partial`, which partial.ts does not export. Those tests exercise left binding, so they are read as tests of `papplyLeft`.
- Build, publishing and re-export files are not modelled (rollup.config.ts, _tools/meta.ts, _tools/publish_npm.ts, _dev_deps.ts, mod.ts). They hold no logic of the engines.
