/** The concrete call chains the library's tests and documentation pin
    down, replayed on the model. Host values are drawn from a small
    datatype; `Echo(k)` stands for a function of `k` parameters that returns
    them as an array. */
module Scenarios {
  import opened Options
  import opened CurryEngine
  import opened TupleAlgebra
  import opened Partial

  datatype Value = Str(s: string) | Num(n: int) | Bool(b: bool)

  function Echo(k: nat): Fn<Value, seq<Value>>
  {
    Fn(k, xs => if |xs| >= k then xs[..k] else xs)
  }

  const Add: Fn<int, int> := Fn(2, xs => if |xs| >= 2 then xs[0] + xs[1] else 0)

  lemma AddInOneOrTwoCalls()
    ensures Run(Add, Curry(Add), [[1, 2]]) == Some(Done(3))
    ensures Run(Add, Curry(Add), [[1], [2]]) == Some(Done(3))
  {
    assert [] + [1, 2] == [1, 2];
    assert [] + [1] == [1];
    assert [1] + [2] == [1, 2];
  }

  lemma NullaryEcho()
    ensures Run(Echo(0), Curry(Echo(0)), [[]]) == Some(Done([]))
  {
    var none: seq<Value> := [];
    assert none + none == none;
  }

  /** Splitting exactly `k` arguments among the calls to `curry(Echo(k))`
      gives them all back. */
  lemma EchoSplit(k: nat, calls: seq<seq<Value>>, args: seq<Value>)
    requires calls != [] && NonEmptyGroups(calls)
    requires Flatten(calls) == args && |args| == k
    ensures Run(Echo(k), Curry(Echo(k)), calls) == Some(Done(args))
  {
    assert args[..k] == args;
    PartitionLaw(Echo(k), calls, args);
  }

  /** Arity one: the single argument in one call. */
  lemma OneSplit1(a: Value)
    ensures Run(Echo(1), Curry(Echo(1)), [[a]]) == Some(Done([a]))
  {
    EchoSplit(1, [[a]], [a]);
  }

  /** Arity two: a closure after one argument. */
  lemma TwoStaysPending(a: Value)
    ensures Run(Echo(2), Curry(Echo(2)), [[a]]) == Some(Pending([a]))
  {
    assert Flatten([[a]]) == [a];
    RunPending(Echo(2), [], [[a]]);
  }

  /** Arity two: both arguments in one call. */
  lemma TwoSplit2(a: Value, b: Value)
    ensures Run(Echo(2), Curry(Echo(2)), [[a, b]]) == Some(Done([a, b]))
  {
    EchoSplit(2, [[a, b]], [a, b]);
  }

  /** Arity two: one argument per call. */
  lemma TwoSplit11(a: Value, b: Value)
    ensures Run(Echo(2), Curry(Echo(2)), [[a], [b]]) == Some(Done([a, b]))
  {
    assert Flatten([[b]]) == [b];
    EchoSplit(2, [[a], [b]], [a, b]);
  }

  /** `curry(arity3)` stays a closure after one and after two single
      arguments. */
  lemma ThreeStaysPending(a: Value, b: Value)
    ensures Run(Echo(3), Curry(Echo(3)), [[a]]) == Some(Pending([a]))
    ensures Run(Echo(3), Curry(Echo(3)), [[a], [b]]) == Some(Pending([a, b]))
  {
    assert Flatten([[a]]) == [a];
    RunPending(Echo(3), [], [[a]]);
    assert Flatten([[b]]) == [b];
    assert Flatten([[a], [b]]) == [a, b];
    RunPending(Echo(3), [], [[a], [b]]);
    assert [] + [a, b] == [a, b];
  }

  /** Arity three: one argument per call. */
  lemma ThreeSplit111(a: Value, b: Value, c: Value)
    ensures Run(Echo(3), Curry(Echo(3)), [[a], [b], [c]]) == Some(Done([a, b, c]))
  {
    assert Flatten([[c]]) == [c];
    assert Flatten([[b], [c]]) == [b, c];
    EchoSplit(3, [[a], [b], [c]], [a, b, c]);
  }

  /** Arity three: two arguments, then one. */
  lemma ThreeSplit21(a: Value, b: Value, c: Value)
    ensures Run(Echo(3), Curry(Echo(3)), [[a, b], [c]]) == Some(Done([a, b, c]))
  {
    assert Flatten([[c]]) == [c];
    EchoSplit(3, [[a, b], [c]], [a, b, c]);
  }

  /** Arity three: one argument, then two. */
  lemma ThreeSplit12(a: Value, b: Value, c: Value)
    ensures Run(Echo(3), Curry(Echo(3)), [[a], [b, c]]) == Some(Done([a, b, c]))
  {
    assert Flatten([[b, c]]) == [b, c];
    EchoSplit(3, [[a], [b, c]], [a, b, c]);
  }

  /** Arity three: all three arguments in one call. */
  lemma ThreeSplit3(a: Value, b: Value, c: Value)
    ensures Run(Echo(3), Curry(Echo(3)), [[a, b, c]]) == Some(Done([a, b, c]))
  {
    EchoSplit(3, [[a, b, c]], [a, b, c]);
  }

  /** Arity four: one argument per call. */
  lemma FourSplit1111(a: Value, b: Value, c: Value, d: Value)
    ensures Run(Echo(4), Curry(Echo(4)), [[a], [b], [c], [d]]) == Some(Done([a, b, c, d]))
  {
    assert Flatten([[d]]) == [d];
    assert Flatten([[c], [d]]) == [c, d];
    assert Flatten([[b], [c], [d]]) == [b, c, d];
    EchoSplit(4, [[a], [b], [c], [d]], [a, b, c, d]);
  }

  /** Arity four: two arguments, then one per call. */
  lemma FourSplit211(a: Value, b: Value, c: Value, d: Value)
    ensures Run(Echo(4), Curry(Echo(4)), [[a, b], [c], [d]]) == Some(Done([a, b, c, d]))
  {
    assert Flatten([[d]]) == [d];
    assert Flatten([[c], [d]]) == [c, d];
    EchoSplit(4, [[a, b], [c], [d]], [a, b, c, d]);
  }

  /** Arity four: three arguments, then one. */
  lemma FourSplit31(a: Value, b: Value, c: Value, d: Value)
    ensures Run(Echo(4), Curry(Echo(4)), [[a, b, c], [d]]) == Some(Done([a, b, c, d]))
  {
    assert Flatten([[d]]) == [d];
    EchoSplit(4, [[a, b, c], [d]], [a, b, c, d]);
  }

  /** Arity four: all four arguments in one call. */
  lemma FourSplit4(a: Value, b: Value, c: Value, d: Value)
    ensures Run(Echo(4), Curry(Echo(4)), [[a, b, c, d]]) == Some(Done([a, b, c, d]))
  {
    EchoSplit(4, [[a, b, c, d]], [a, b, c, d]);
  }

  /** A two-parameter function that returns every argument it receives. */
  const Echo2All: Fn<Value, seq<Value>> := Fn(2, xs => xs)

  lemma OverApplicationKeepsExtras(a: Value, b: Value, c: Value)
    ensures Run(Echo2All, Curry(Echo2All), [[a, b, c]]) == Some(Done([a, b, c]))
  {
    assert [] + [a, b, c] == [a, b, c];
  }

  /** Binding nothing, `""`, `"", 0` or `"", 0, false` from the left. */
  lemma PartialLeftDocExample(x: Value, y: Value, z: Value)
    ensures PapplyLeft((xs: seq<Value>) => xs, [])([x, y, z]) == [x, y, z]
    ensures PapplyLeft((xs: seq<Value>) => xs, [Str("")])([y, z]) == [Str(""), y, z]
    ensures PapplyLeft((xs: seq<Value>) => xs, [Str(""), Num(0)])([z]) == [Str(""), Num(0), z]
    ensures PapplyLeft((xs: seq<Value>) => xs, [Str(""), Num(0), Bool(false)])([])
         == [Str(""), Num(0), Bool(false)]
  {
  }

  lemma PartialLeftExample()
    ensures PapplyLeft((xs: seq<Value>) => xs, [Str("")])([Num(0), Bool(false)])
         == [Str(""), Num(0), Bool(false)]
  {
  }

  /** Binding `false`, then `0`, then `""` from the right fills the third,
      second and first parameter. */
  lemma PartialRightExample(x: Value, y: Value)
    ensures PapplyRight((xs: seq<Value>) => xs, [Bool(false)])([x, y]) == [x, y, Bool(false)]
    ensures PapplyRight((xs: seq<Value>) => xs, [Bool(false), Num(0)])([x])
         == [x, Num(0), Bool(false)]
    ensures PapplyRight((xs: seq<Value>) => xs, [Bool(false), Num(0), Str("")])([])
         == [Str(""), Num(0), Bool(false)]
  {
    assert Reverse([Bool(false)]) == [Bool(false)];
    assert Reverse([Bool(false), Num(0)]) == [Num(0), Bool(false)];
    assert Reverse([Bool(false), Num(0), Str("")]) == [Str(""), Num(0), Bool(false)];
  }

  /** Binding `0`, or `0` and `false`, after the head. */
  lemma PartialRestExample(x: Value, z: Value)
    ensures PapplyRest((xs: seq<Value>) => xs, [Num(0)])(x, [z]) == [x, Num(0), z]
    ensures PapplyRest((xs: seq<Value>) => xs, [Num(0), Bool(false)])(x, []) == [x, Num(0), Bool(false)]
  {
  }

  lemma TupleAlgebraCases()
    ensures Pop<int>([]) == None && Pop([0]) == Some([]) && Pop([0, 0]) == Some([0])
    ensures Pop<seq<int>>([[]]) == Some([])
    ensures Shift<int>([], []) == Some([]) && Shift([1], []) == None
    ensures Shift([1], [1]) == Some([]) && Shift([1, 2], [1]) == None
    ensures UnionFactorial<int>([]) == {} && UnionFactorial([1]) == {[1]}
    ensures UnionFactorial([1, 2]) == {[1], [1, 2]}
    ensures UnionFactorial([1, 2, 3]) == {[1], [1, 2], [1, 2, 3]}
  {
    assert [1, 2, 3][..2] == [1, 2];
    assert [1, 2][..1] == [1];
    assert [0, 0][..1] == [0];
  }

  /** Arity five: one argument per call. */
  lemma FiveSplit11111(a: Value, b: Value, c: Value, d: Value, e: Value)
    ensures Run(Echo(5), Curry(Echo(5)), [[a], [b], [c], [d], [e]]) == Some(Done([a, b, c, d, e]))
  {
    assert Flatten([[e]]) == [e];
    assert Flatten([[d], [e]]) == [d, e];
    assert Flatten([[c], [d], [e]]) == [c, d, e];
    assert Flatten([[b], [c], [d], [e]]) == [b, c, d, e];
    EchoSplit(5, [[a], [b], [c], [d], [e]], [a, b, c, d, e]);
  }

  /** Arity five: two arguments, then one per call. */
  lemma FiveSplit2111(a: Value, b: Value, c: Value, d: Value, e: Value)
    ensures Run(Echo(5), Curry(Echo(5)), [[a, b], [c], [d], [e]]) == Some(Done([a, b, c, d, e]))
  {
    assert Flatten([[e]]) == [e];
    assert Flatten([[d], [e]]) == [d, e];
    assert Flatten([[c], [d], [e]]) == [c, d, e];
    EchoSplit(5, [[a, b], [c], [d], [e]], [a, b, c, d, e]);
  }

  /** Arity five: three arguments, then one per call. */
  lemma FiveSplit311(a: Value, b: Value, c: Value, d: Value, e: Value)
    ensures Run(Echo(5), Curry(Echo(5)), [[a, b, c], [d], [e]]) == Some(Done([a, b, c, d, e]))
  {
    assert Flatten([[e]]) == [e];
    assert Flatten([[d], [e]]) == [d, e];
    EchoSplit(5, [[a, b, c], [d], [e]], [a, b, c, d, e]);
  }

  /** Arity five: four arguments, then one. */
  lemma FiveSplit41(a: Value, b: Value, c: Value, d: Value, e: Value)
    ensures Run(Echo(5), Curry(Echo(5)), [[a, b, c, d], [e]]) == Some(Done([a, b, c, d, e]))
  {
    assert Flatten([[e]]) == [e];
    EchoSplit(5, [[a, b, c, d], [e]], [a, b, c, d, e]);
  }

  /** Arity five: all five arguments in one call. */
  lemma FiveSplit5(a: Value, b: Value, c: Value, d: Value, e: Value)
    ensures Run(Echo(5), Curry(Echo(5)), [[a, b, c, d, e]]) == Some(Done([a, b, c, d, e]))
  {
    EchoSplit(5, [[a, b, c, d, e]], [a, b, c, d, e]);
  }

  /** Arity five: one argument, then four. */
  lemma FiveSplit14(a: Value, b: Value, c: Value, d: Value, e: Value)
    ensures Run(Echo(5), Curry(Echo(5)), [[a], [b, c, d, e]]) == Some(Done([a, b, c, d, e]))
  {
    assert Flatten([[b, c, d, e]]) == [b, c, d, e];
    EchoSplit(5, [[a], [b, c, d, e]], [a, b, c, d, e]);
  }

  /** Arity five: one, one, then three arguments. */
  lemma FiveSplit113(a: Value, b: Value, c: Value, d: Value, e: Value)
    ensures Run(Echo(5), Curry(Echo(5)), [[a], [b], [c, d, e]]) == Some(Done([a, b, c, d, e]))
  {
    assert Flatten([[c, d, e]]) == [c, d, e];
    assert Flatten([[b], [c, d, e]]) == [b, c, d, e];
    EchoSplit(5, [[a], [b], [c, d, e]], [a, b, c, d, e]);
  }

  /** Arity five: one, one, one, then two arguments. */
  lemma FiveSplit1112(a: Value, b: Value, c: Value, d: Value, e: Value)
    ensures Run(Echo(5), Curry(Echo(5)), [[a], [b], [c], [d, e]]) == Some(Done([a, b, c, d, e]))
  {
    assert Flatten([[d, e]]) == [d, e];
    assert Flatten([[c], [d, e]]) == [c, d, e];
    assert Flatten([[b], [c], [d, e]]) == [b, c, d, e];
    EchoSplit(5, [[a], [b], [c], [d, e]], [a, b, c, d, e]);
  }
}
