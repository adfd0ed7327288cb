/** The partial-application binders. Each binder closes over the wrapped
    function and the bound arguments and, when called, forwards one argument
    list to the wrapped function; the functions named `...Forwarded` give
    that list. */
module Partial {

  /** The sequence in the opposite order (the host's `Array.prototype.reverse`). */
  function Reverse<V>(s: seq<V>): (r: seq<V>)
    ensures |r| == |s|
    ensures forall i :: 0 <= i < |s| ==> r[i] == s[|s| - 1 - i]
    decreases |s|
  {
    if s == [] then [] else Reverse(s[1..]) + [s[0]]
  }

  lemma {:induction false} ReverseAppend<V>(a: seq<V>, b: seq<V>)
    ensures Reverse(a + b) == Reverse(b) + Reverse(a)
  {
    var l, r := Reverse(a + b), Reverse(b) + Reverse(a);
    assert |l| == |r|;
    forall i | 0 <= i < |l| ensures l[i] == r[i] {
      if i < |b| {
        assert (a + b)[|a + b| - 1 - i] == b[|b| - 1 - i];
      } else {
        assert (a + b)[|a + b| - 1 - i] == a[|a| - 1 - (i - |b|)];
      }
    }
  }

  lemma {:induction false} ReverseInvolution<V>(s: seq<V>)
    ensures Reverse(Reverse(s)) == s
  {
    var r := Reverse(Reverse(s));
    forall i | 0 <= i < |s| ensures r[i] == s[i] {
      assert Reverse(s)[|s| - 1 - i] == s[i];
    }
  }

  /** What a left-bound function hands on: the bound arguments, then the
      call's own, all kept. */
  function LeftForwarded<V>(args: seq<V>, rest: seq<V>): (fwd: seq<V>)
    ensures |fwd| == |args| + |rest|
    ensures fwd[..|args|] == args && fwd[|args|..] == rest
    ensures args == [] ==> fwd == rest
    ensures rest == [] ==> fwd == args
  {
    args + rest
  }

  /** What a right-bound function hands on: the call's own arguments, then
      the bound ones in reverse order of binding. The `i`-th bound argument
      fills the `i`-th parameter counted from the end, so the first one
      bound fills the last parameter. */
  function RightForwarded<V>(args: seq<V>, rest: seq<V>): (fwd: seq<V>)
    ensures |fwd| == |rest| + |args|
    ensures fwd[..|rest|] == rest
    ensures forall i :: 0 <= i < |args| ==> fwd[|fwd| - 1 - i] == args[i]
  {
    rest + Reverse(args)
  }

  /** What a rest-bound function hands on: the head first, the bound tail
      at positions 1 to |tail|, then the call's remaining arguments. */
  function RestForwarded<V>(tail: seq<V>, head: V, rest: seq<V>): (fwd: seq<V>)
    ensures |fwd| == 1 + |tail| + |rest|
    ensures fwd[0] == head
    ensures fwd[1..1 + |tail|] == tail
    ensures fwd[1 + |tail|..] == rest
  {
    [head] + tail + rest
  }

  /** `papplyLeft(fn, ...args)`. */
  function PapplyLeft<V(!new), R>(fn: seq<V> -> R, args: seq<V>): (bound: seq<V> -> R)
    ensures forall rest :: bound(rest) == fn(LeftForwarded(args, rest))
  {
    rest => fn(args + rest)
  }

  /** `papplyRight(fn, ...args)`: the bound list is reversed once, when the
      binder is created, and every call appends the stored list. */
  function PapplyRight<V(!new), R>(fn: seq<V> -> R, args: seq<V>): (bound: seq<V> -> R)
    ensures forall rest :: bound(rest) == fn(RightForwarded(args, rest))
  {
    var stored := Reverse(args);
    rest => fn(rest + stored)
  }

  /** `papplyRest(fn, ...tail)`: the bound function takes the head apart
      from the remaining arguments. */
  function PapplyRest<V(!new), R>(fn: seq<V> -> R, tail: seq<V>): (bound: (V, seq<V>) -> R)
    ensures forall head, rest :: bound(head, rest) == fn(RestForwarded(tail, head, rest))
  {
    (head, rest) => fn([head] + tail + rest)
  }

  /** Binding `a` and then `b` from the left is binding `a ++ b` at once. */
  lemma LeftNesting<V(!new), R>(fn: seq<V> -> R, a: seq<V>, b: seq<V>, rest: seq<V>)
    ensures PapplyLeft(PapplyLeft(fn, a), b)(rest) == PapplyLeft(fn, a + b)(rest)
  {
    assert a + (b + rest) == (a + b) + rest;
  }

  /** Binding `a` and then `b` from the right is binding `a ++ b` at once:
      the later arguments fill positions further from the end. */
  lemma RightNesting<V(!new), R>(fn: seq<V> -> R, a: seq<V>, b: seq<V>, rest: seq<V>)
    ensures PapplyRight(PapplyRight(fn, a), b)(rest) == PapplyRight(fn, a + b)(rest)
  {
    ReverseAppend(a, b);
    assert (rest + Reverse(b)) + Reverse(a) == rest + (Reverse(b) + Reverse(a));
  }

  /** A rest-bound call forwards what binding the head and the tail from
      the left would. */
  lemma RestIsLeftWithHead<V(!new), R>(fn: seq<V> -> R, tail: seq<V>, head: V, rest: seq<V>)
    ensures PapplyRest(fn, tail)(head, rest) == PapplyLeft(fn, [head] + tail)(rest)
  {
  }

  /** Binding the trailing parameters `suffix` from the right, last one
      first, fills them in declaration order: the call forwards
      `rest ++ suffix`. */
  lemma RightFixesSuffix<V>(suffix: seq<V>, rest: seq<V>)
    ensures RightForwarded(Reverse(suffix), rest) == rest + suffix
  {
    ReverseInvolution(suffix);
  }
}
