/** The compile-time tuple algebra of the curry module, read as ordinary
    functions on sequences. A TypeScript tuple type becomes a `seq<T>`, the
    type `never` (the "no such tuple" marker) becomes `None`, and a union of
    tuple types becomes a `set` of sequences. */
module TupleAlgebra {
  import opened Options

  /** Concatenation of argument groups, in call order. */
  function Flatten<T>(groups: seq<seq<T>>): seq<T>
    decreases |groups|
  {
    if groups == [] then [] else groups[0] + Flatten(groups[1..])
  }

  /** Every group of the chain holds at least one element. */
  predicate NonEmptyGroups<T>(groups: seq<seq<T>>)
  {
    forall i :: 0 <= i < |groups| ==> groups[i] != []
  }

  lemma {:induction false} FlattenAppend<T>(a: seq<seq<T>>, b: seq<seq<T>>)
    ensures Flatten(a + b) == Flatten(a) + Flatten(b)
    decreases |a|
  {
    if a == [] {
      assert a + b == b;
    } else {
      assert (a + b)[1..] == a[1..] + b;
      FlattenAppend(a[1..], b);
    }
  }

  /** `Pop`: the tuple without its last element; `never` for the empty tuple. */
  function Pop<T>(t: seq<T>): (r: Option<seq<T>>)
    ensures r.None? <==> t == []
    ensures r.Some? ==> r.value + [t[|t| - 1]] == t
  {
    if t == [] then None else Some(t[..|t| - 1])
  }

  /** `Shift`: matches `t` against the pattern `[...s, ...Rest]` element by
      element and yields `Rest`; `never` when `s` is not a prefix of `t`. */
  function Shift<T(==)>(s: seq<T>, t: seq<T>): (r: Option<seq<T>>)
    ensures r.Some? <==> s <= t
    ensures r.Some? ==> s + r.value == t
    decreases |s|
  {
    if s == [] then Some(t)
    else if t == [] || s[0] != t[0] then None
    else
      var r := Shift(s[1..], t[1..]);
      assert s == [s[0]] + s[1..] && t == [t[0]] + t[1..];
      r
  }

  /** `UnionFactorial`: the union of the tuple, its `Pop`, the `Pop` of
      that, and so on down to (but excluding) the empty tuple. */
  function UnionFactorial<T(==)>(t: seq<T>): (r: set<seq<T>>)
    ensures forall p :: p in r ==> p != [] && p <= t
    ensures forall k :: 0 < k <= |t| ==> t[..k] in r
    ensures |r| == |t|
    decreases |t|
  {
    if t == [] then {}
    else
      var shorter := Pop(t).value;
      var rest := UnionFactorial(shorter);
      assert t !in rest by {
        assert |shorter| < |t|;
      }
      forall k | 0 < k < |t|
        ensures t[..k] in rest
      {
        assert t[..k] == shorter[..k];
      }
      assert t[..|t|] == t;
      {t} + rest
  }

  /** One member of the overload set that `OverloadsByArgs` builds for
      parameter list `params`: the signature taking exactly `prefix`, whose
      continuation owes the parameters that remain. `None` when no member of
      the intersection accepts a call shaped like `prefix`. */
  function Overload<T(==)>(prefix: seq<T>, params: seq<T>): (r: Option<seq<T>>)
    ensures r.Some? <==> prefix != [] && prefix <= params
    ensures r.Some? ==> prefix + r.value == params
  {
    assert prefix <= params ==> prefix == params[..|prefix|];
    if prefix in UnionFactorial(params) then Shift(prefix, params) else None
  }

  /** `Curried<params, R>`: a chain of calls is accepted when the parameter
      list is used up exactly as the chain ends; each call must match one
      overload of the current intersection type. */
  predicate Accepts<T(==)>(params: seq<T>, calls: seq<seq<T>>)
    decreases |calls|
  {
    if params == [] then calls == []
    else
      calls != [] &&
      match Overload(calls[0], params)
      case None => false
      case Some(remaining) => Accepts(remaining, calls[1..])
  }

  /** The declared type of `curry(fn)`: a nullary function is called once
      with no arguments; any other function has type `Curried<params, R>`. */
  predicate CurryAccepts<T(==)>(params: seq<T>, calls: seq<seq<T>>)
  {
    if params == [] then calls == [[]] else Accepts(params, calls)
  }

  /** The chains the curried type accepts are exactly the splits of the
      parameter list into consecutive non-empty groups. */
  lemma {:induction false} AcceptsIffPartition<T>(params: seq<T>, calls: seq<seq<T>>)
    ensures Accepts(params, calls) <==> NonEmptyGroups(calls) && Flatten(calls) == params
    decreases |calls|
  {
    if calls == [] {
    } else if params == [] {
      if NonEmptyGroups(calls) {
        assert calls[0] != [];
        assert |Flatten(calls)| >= |calls[0]| > 0;
      }
    } else if !(calls[0] <= params) {
      assert Flatten(calls) == calls[0] + Flatten(calls[1..]);
    } else {
      var c := calls[0];
      AcceptsIffPartition(params[|c|..], calls[1..]);
      assert NonEmptyGroups(calls) <==> c != [] && NonEmptyGroups(calls[1..]) by {
        if c != [] && NonEmptyGroups(calls[1..]) {
          forall i | 0 <= i < |calls| ensures calls[i] != [] {
            if i > 0 { assert calls[i] == calls[1..][i - 1]; }
          }
        }
        if NonEmptyGroups(calls) {
          forall i | 0 <= i < |calls[1..]| ensures calls[1..][i] != [] {
            assert calls[1..][i] == calls[i + 1];
          }
        }
      }
      if Accepts(params, calls) {
        var remaining := Overload(c, params).value;
        assert remaining == params[|c|..];
      }
      if NonEmptyGroups(calls) && Flatten(calls) == params {
        assert c <= params;
        assert Flatten(calls[1..]) == params[|c|..];
        assert Overload(c, params) == Some(params[|c|..]);
      }
    }
  }
}
