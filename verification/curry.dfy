/** The runtime curry dispatcher. `curry(fn)` returns a closure that, given
    the arguments bound so far plus the new ones, either calls `fn` with all
    of them or returns a new closure over the longer list. */
module CurryEngine {
  import opened Options
  import opened TupleAlgebra

  /** The wrapped function: its declared parameter count (what the host
      reports as `fn.length`) and its behaviour on an argument list. */
  datatype Fn<-V, R> = Fn(arity: nat, body: seq<V> -> R)

  /** A value produced along a curried call chain: a closure still waiting
      for arguments, holding the ones bound so far, or the wrapped function's
      result. */
  datatype Curried<V, R> = Pending(acc: seq<V>) | Done(result: R)

  /** `curry(fn)`: the closure with nothing bound yet. */
  function Curry<V, R>(f: Fn<V, R>): Curried<V, R>
  {
    Pending([])
  }

  /** One call of a closure holding `acc` with the new arguments `args`:
      once the running total reaches the arity, the function receives every
      argument, extras included; otherwise a closure over the longer list. */
  function Call<V, R>(f: Fn<V, R>, acc: seq<V>, args: seq<V>): (c: Curried<V, R>)
    ensures c.Done? <==> |acc| + |args| >= f.arity
    ensures c.Done? ==> c.result == f.body(acc + args)
    ensures c.Pending? ==> |c.acc| < f.arity && |c.acc| == |acc| + |args|
    ensures c.Pending? ==> c.acc[..|acc|] == acc && c.acc[|acc|..] == args
  {
    var all := acc + args;
    if |all| >= f.arity then Done(f.body(all)) else Pending(all)
  }

  /** A chain of calls, one argument group per call, starting from `c`.
      `None` when the chain calls a value that is already a result. */
  function Run<V, R>(f: Fn<V, R>, c: Curried<V, R>, calls: seq<seq<V>>): Option<Curried<V, R>>
    decreases |calls|
  {
    if calls == [] then Some(c)
    else
      match c
      case Done(_) => None
      case Pending(acc) => Run(f, Call(f, acc, calls[0]), calls[1..])
  }

  /** Calling `curry(fn)` with no arguments when `fn` declares none calls
      `fn` at once and yields its result. */
  lemma NullaryCallsAtOnce<V, R>(f: Fn<V, R>)
    requires f.arity == 0
    ensures Run(f, Curry(f), [[]]) == Some(Done(f.body([])))
  {
  }

  /** A call with no new arguments on a closure still short of the arity
      returns a closure over the same list. */
  lemma EmptyCallKeepsPending<V, R>(f: Fn<V, R>, acc: seq<V>)
    requires |acc| < f.arity
    ensures Call(f, acc, []) == Pending(acc)
  {
    assert acc + [] == acc;
  }

  /** While the running total stays below the arity, a chain only
      accumulates: the closure holds every argument so far, in call order. */
  lemma {:induction false} RunPending<V, R>(f: Fn<V, R>, acc: seq<V>, calls: seq<seq<V>>)
    requires |acc + Flatten(calls)| < f.arity
    ensures Run(f, Pending(acc), calls) == Some(Pending(acc + Flatten(calls)))
    decreases |calls|
  {
    if calls == [] {
      assert acc + [] == acc;
    } else {
      var c := calls[0];
      assert acc + Flatten(calls) == (acc + c) + Flatten(calls[1..]);
      RunPending(f, acc + c, calls[1..]);
    }
  }

  /** When the total first reaches the arity on the last call of the chain,
      the chain ends in the function's result on every argument supplied,
      in order, extras included. */
  lemma {:induction false} RunDone<V, R>(f: Fn<V, R>, acc: seq<V>, calls: seq<seq<V>>)
    requires calls != []
    requires |acc + Flatten(calls[..|calls| - 1])| < f.arity <= |acc + Flatten(calls)|
    ensures Run(f, Pending(acc), calls) == Some(Done(f.body(acc + Flatten(calls))))
    decreases |calls|
  {
    var c := calls[0];
    if |calls| == 1 {
      assert calls[1..] == [];
      assert calls[..0] == [];
      assert Flatten(calls) == c + [] == c;
      assert Call(f, acc, c) == Done(f.body(acc + c));
    } else {
      var tail := calls[1..];
      assert calls[..|calls| - 1] == [c] + tail[..|tail| - 1];
      assert Flatten(calls[..|calls| - 1]) == c + Flatten(tail[..|tail| - 1]);
      assert acc + Flatten(calls[..|calls| - 1]) == (acc + c) + Flatten(tail[..|tail| - 1]);
      assert acc + Flatten(calls) == (acc + c) + Flatten(tail);
      RunDone(f, acc + c, tail);
    }
  }

  /** When the total already reaches the arity before the last call, the
      chain goes on to call the function's result, which the model does not
      treat as a closure. */
  lemma {:induction false} RunOvershoots<V, R>(f: Fn<V, R>, acc: seq<V>, calls: seq<seq<V>>)
    requires |calls| >= 2
    requires |acc + Flatten(calls[..|calls| - 1])| >= f.arity
    ensures Run(f, Pending(acc), calls) == None
    decreases |calls|
  {
    var c := calls[0];
    var tail := calls[1..];
    if |calls| == 2 {
      assert calls[..1] == [c];
      assert Flatten(calls[..1]) == c + [];
      assert Run(f, Pending(acc), calls) == Run(f, Done(f.body(acc + c)), tail);
    } else if |acc + c| >= f.arity {
      assert Run(f, Pending(acc), calls) == Run(f, Done(f.body(acc + c)), tail);
    } else {
      assert calls[..|calls| - 1] == [c] + tail[..|tail| - 1];
      assert Flatten(calls[..|calls| - 1]) == c + Flatten(tail[..|tail| - 1]);
      assert acc + Flatten(calls[..|calls| - 1]) == (acc + c) + Flatten(tail[..|tail| - 1]);
      RunOvershoots(f, acc + c, tail);
    }
  }

  /** Composition law: splitting an argument list of exactly the arity into
      consecutive non-empty groups, one group per call, ends in the function
      applied to the whole list. */
  lemma PartitionLaw<V, R>(f: Fn<V, R>, calls: seq<seq<V>>, args: seq<V>)
    requires calls != [] && NonEmptyGroups(calls)
    requires Flatten(calls) == args && |args| == f.arity
    ensures Run(f, Curry(f), calls) == Some(Done(f.body(args)))
  {
    var n := |calls|;
    assert calls == calls[..n - 1] + [calls[n - 1]];
    FlattenAppend(calls[..n - 1], [calls[n - 1]]);
    assert Flatten([calls[n - 1]]) == calls[n - 1] + [];
    assert calls[n - 1] != [];
    assert [] + Flatten(calls) == Flatten(calls);
    RunDone(f, [], calls);
  }

  /** The static type of `curry(fn)` agrees with its runtime: every chain
      the type accepts ends, at run time, in `fn` applied to the parameters
      in order. */
  lemma TypedChainsComplete<V, R>(params: seq<V>, body: seq<V> -> R, calls: seq<seq<V>>)
    requires CurryAccepts(params, calls)
    ensures Run(Fn(|params|, body), Curry(Fn(|params|, body)), calls) == Some(Done(body(params)))
  {
    var f := Fn(|params|, body);
    if params == [] {
      assert calls == [[]];
      assert Call(f, [], []) == Done(body([]));
    } else {
      AcceptsIffPartition(params, calls);
      PartitionLaw(f, calls, params);
    }
  }
}
