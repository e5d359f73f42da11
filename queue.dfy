/**
 * The multiple-producer, single-consumer FIFO queue the game's threads
 * share. The deque the class wraps is a sequence field that the methods
 * reassign; the mutex and condition variable are not modelled, and a
 * `Get` that would block on an empty queue is excluded by its precondition.
 */
module Queues {

  class Queue<T> {
    /** The queue elements, front first. */
    var data: seq<T>

    constructor ()
      ensures data == []
    {
      data := [];
    }

    /** Number of elements in the queue. */
    method Size() returns (n: nat)
      ensures n == |data|
    {
      n := |data|;
    }

    /** Checks whether the queue is empty. */
    method Empty() returns (e: bool)
      ensures e <==> |data| == 0
    {
      e := |data| == 0;
    }

    /** Adds an element to the end. */
    method Put(value: T)
      modifies this
      ensures data == old(data) + [value]
    {
      data := data + [value];
    }

    /** Removes and returns the first element. */
    method Get() returns (value: T)
      requires |data| > 0
      modifies this
      ensures [value] + data == old(data)
    {
      value := data[0];
      data := data[1..];
    }

    /** Clears the contents. */
    method Clear()
      modifies this
      ensures data == []
    {
      data := [];
    }

    /**
     * Makes the call `op` on this queue; a `get` returns its element in
     * `got`. The effect is one step of `Run`, so the lemmas about `Run`
     * hold of any sequence of calls on a queue.
     */
    method Perform(op: Op<T>) returns (got: seq<T>)
      requires Runnable(data, [op])
      modifies this
      ensures (got, data) == Run(old(data), [op])
    {
      ghost var s0 := data;
      assert [op][1..] == [];
      match op
      case PutOp(v) =>
        Put(v);
        got := [];
        assert Run(s0, [op]) == Run(s0 + [v], []);
      case GetOp =>
        var x := Get();
        got := [x];
        assert ([x] + data)[0] == x && ([x] + data)[1..] == data;
        assert [s0[0]] + [] == got;
        assert Run(s0, [op]) == ([s0[0]] + Run(s0[1..], []).0, Run(s0[1..], []).1);
      case ClearOp =>
        Clear();
        got := [];
        assert Run(s0, [op]) == Run([], []);
    }
  }

  /** One call on a queue, as a trace of calls sees it. */
  datatype Op<T> = PutOp(value: T) | GetOp | ClearOp

  /** Every `GetOp` of `ops`, run from contents `s`, finds the queue non-empty. */
  predicate Runnable<T>(s: seq<T>, ops: seq<Op<T>>)
    decreases |ops|
  {
    ops == [] ||
    match ops[0]
    case PutOp(v) => Runnable(s + [v], ops[1..])
    case GetOp => |s| > 0 && Runnable(s[1..], ops[1..])
    case ClearOp => Runnable([], ops[1..])
  }

  /**
   * The values the `GetOp`s of `ops` return, in order, and the final
   * contents: the contracts of `Put`, `Get` and `Clear` composed, one call
   * after another (`Queue.Perform` is one step).
   */
  function Run<T>(s: seq<T>, ops: seq<Op<T>>): (r: (seq<T>, seq<T>))
    requires Runnable(s, ops)
    decreases |ops|
  {
    if ops == [] then ([], s)
    else match ops[0]
      case PutOp(v) => Run(s + [v], ops[1..])
      case GetOp =>
        var (got, final) := Run(s[1..], ops[1..]);
        ([s[0]] + got, final)
      case ClearOp => Run([], ops[1..])
  }

  /** The values the `PutOp`s of `ops` put, in order. */
  function Puts<T>(ops: seq<Op<T>>): (xs: seq<T>) {
    if ops == [] then []
    else if ops[0].PutOp? then [ops[0].value] + Puts(ops[1..])
    else Puts(ops[1..])
  }

  predicate NoClear<T>(ops: seq<Op<T>>) {
    forall k :: 0 <= k < |ops| ==> !ops[k].ClearOp?
  }

  /**
   * FIFO: without a `clear`, the values taken out followed by the values
   * left in the queue are the initial contents followed by the values put,
   * in the order they were put.
   */
  lemma {:induction false} RunIsFifo<T>(s: seq<T>, ops: seq<Op<T>>)
    requires Runnable(s, ops) && NoClear(ops)
    ensures Run(s, ops).0 + Run(s, ops).1 == s + Puts(ops)
    decreases |ops|
  {
    if ops != [] {
      assert NoClear(ops[1..]) by {
        forall k | 0 <= k < |ops[1..]| ensures !ops[1..][k].ClearOp? {
          assert ops[1..][k] == ops[k + 1];
        }
      }
      match ops[0]
      case PutOp(v) =>
        RunIsFifo(s + [v], ops[1..]);
      case GetOp =>
        RunIsFifo(s[1..], ops[1..]);
        var rest := Run(s[1..], ops[1..]);
        assert Run(s, ops) == ([s[0]] + rest.0, rest.1);
        assert s == [s[0]] + s[1..];
        assert [s[0]] + rest.0 + rest.1 == [s[0]] + (rest.0 + rest.1);
    }
  }

  /** `n` successive `GetOp`s. */
  function Gets<T>(n: nat): (ops: seq<Op<T>>)
    ensures |ops| == n
  {
    if n == 0 then [] else [GetOp] + Gets(n - 1)
  }

  /** `PutOp`s of the values `xs`, in order. */
  function PutsOf<T>(xs: seq<T>): (ops: seq<Op<T>>)
    ensures |ops| == |xs|
  {
    if xs == [] then [] else [PutOp(xs[0])] + PutsOf(xs[1..])
  }

  /** Taking `n` values off a queue holding at least `n` returns its first `n`, in order. */
  lemma {:induction false} GetsTakeFront<T>(s: seq<T>, n: nat)
    requires n <= |s|
    ensures Runnable(s, Gets(n)) && Run(s, Gets<T>(n)) == (s[..n], s[n..])
  {
    if n > 0 {
      GetsTakeFront(s[1..], n - 1);
      assert Gets<T>(n)[1..] == Gets<T>(n - 1);
      assert s[..n] == [s[0]] + s[1..][..n - 1];
    }
  }

  /** Putting values never blocks and only appends them. */
  lemma {:induction false} RunPuts<T>(s: seq<T>, xs: seq<T>)
    ensures Runnable(s, PutsOf(xs)) && Run(s, PutsOf(xs)) == ([], s + xs)
    decreases |xs|
  {
    if xs == [] {
      assert PutsOf(xs) == [];
      assert s + xs == s;
    } else {
      var ops := PutsOf(xs);
      assert ops[0] == PutOp(xs[0]) && ops[1..] == PutsOf(xs[1..]);
      RunPuts(s + [xs[0]], xs[1..]);
      assert s + [xs[0]] + xs[1..] == s + xs;
    }
  }

  /** Running `a` and then `b` is running `a + b`. */
  lemma {:induction false} RunAppend<T>(s: seq<T>, a: seq<Op<T>>, b: seq<Op<T>>)
    requires Runnable(s, a) && Runnable(Run(s, a).1, b)
    ensures Runnable(s, a + b)
    ensures Run(s, a + b) == (Run(s, a).0 + Run(Run(s, a).1, b).0, Run(Run(s, a).1, b).1)
    decreases |a|
  {
    if a == [] {
      assert a + b == b && Run(s, a) == ([], s);
      assert [] + Run(s, b).0 == Run(s, b).0;
    } else {
      assert (a + b)[0] == a[0] && (a + b)[1..] == a[1..] + b;
      match a[0]
      case PutOp(v) =>
        RunAppend(s + [v], a[1..], b);
      case GetOp =>
        RunAppend(s[1..], a[1..], b);
        var r := Run(s[1..], a[1..]);
        var q := Run(r.1, b);
        assert [s[0]] + r.0 + q.0 == [s[0]] + (r.0 + q.0);
      case ClearOp =>
        RunAppend([], a[1..], b);
    }
  }

  /** Putting values in and then taking the same number out is always possible and ends where it started. */
  lemma PutsThenGets<T>(s: seq<T>, xs: seq<T>)
    ensures Runnable(s, PutsOf(xs) + Gets(|s| + |xs|))
    ensures Run(s, PutsOf(xs) + Gets(|s| + |xs|)) == (s + xs, [])
  {
    var n := |s| + |xs|;
    RunPuts(s, xs);
    GetsTakeFront(s + xs, n);
    RunAppend(s, PutsOf(xs), Gets<T>(n));
    assert (s + xs)[..n] == s + xs && (s + xs)[n..] == [];
    assert [] + (s + xs) == s + xs;
  }

  /** The queue is FIFO: values put in an empty queue come back out in the order they were put. */
  lemma FifoOrder<T>(xs: seq<T>)
    ensures Runnable([], PutsOf(xs) + Gets(|xs|)) && Run([], PutsOf(xs) + Gets(|xs|)).0 == xs
  {
    PutsThenGets([], xs);
  }
}
