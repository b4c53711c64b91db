/** The vocabulary every stage speaks: the two lifecycle markers and the
    value tuples that travel between them (include/strange/core.h). */
module Core {

  /** One call a stage receives from upstream. `Begin` and `End` are the two
      payload-free markers; `Val(xs)` is a call carrying the tuple `xs` of
      co-arriving values. A call with no arguments at all (how a pipeline is
      driven) is `Val([])`. */
  datatype Event<V> = Begin | End | Val(xs: seq<V>)

  /** The values that flow through a composed pipeline. Stages are free to
      change the shape of what they forward, so one sum type stands for every
      shape that occurs: integers and payload-free structs (such as `Fizz`),
      the latter named by their type. */
  datatype Value = Int(i: int) | Unit(name: string)

  /** The two stream-control events. */
  predicate IsMarker<V>(e: Event<V>) {
    e.Begin? || e.End?
  }

  /** Shape check: a value call arriving at a position of arity `k` carries
      exactly `k` values; markers fit every position. */
  predicate Carries<V>(e: Event<V>, k: nat) {
    e.Val? ==> |e.xs| == k
  }

  predicate AllCarry<V>(es: seq<Event<V>>, k: nat) {
    forall j :: 0 <= j < |es| ==> Carries(es[j], k)
  }

  /** One value call per tuple, in order. */
  function Vals<V>(ts: seq<seq<V>>): (r: seq<Event<V>>)
    ensures |r| == |ts|
  {
    if |ts| == 0 then [] else [Val(ts[0])] + Vals(ts[1..])
  }

  /** The `i`-th call of a run of values carries the `i`-th tuple. */
  lemma {:induction false} ValsAt<V>(ts: seq<seq<V>>, i: nat)
    requires i < |ts|
    ensures Vals(ts)[i] == Val(ts[i])
    decreases i
  {
    if i > 0 {
      ValsAt(ts[1..], i - 1);
    }
  }

  /** A complete stream: `Begin`, one call per tuple, `End`. */
  function Stream<V>(ts: seq<seq<V>>): seq<Event<V>> {
    [Begin] + Vals(ts) + [End]
  }

  /** Every value on its own, as a one-element tuple. */
  function Ones<V>(vs: seq<V>): (r: seq<seq<V>>)
    ensures |r| == |vs|
    ensures forall i :: 0 <= i < |vs| ==> r[i] == [vs[i]]
  {
    if |vs| == 0 then [] else [[vs[0]]] + Ones(vs[1..])
  }

  /** Integers as one-element tuples of pipeline values. */
  function Nums(ns: seq<int>): (r: seq<seq<Value>>)
    ensures |r| == |ns|
    ensures forall i :: 0 <= i < |ns| ==> r[i] == [Int(ns[i])]
  {
    if |ns| == 0 then [] else [[Int(ns[0])]] + Nums(ns[1..])
  }

  /** The value tuples of a sequence of events, markers skipped. */
  function Payloads<V>(es: seq<Event<V>>): seq<seq<V>> {
    if |es| == 0 then []
    else if es[0].Val? then [es[0].xs] + Payloads(es[1..])
    else Payloads(es[1..])
  }

  /** Number of `End` markers in a sequence of events. */
  function Ends<V>(es: seq<Event<V>>): nat {
    if |es| == 0 then 0 else (if es[0].End? then 1 else 0) + Ends(es[1..])
  }

  /** All tuples laid end to end. */
  function Flatten<V>(ts: seq<seq<V>>): seq<V> {
    if |ts| == 0 then [] else ts[0] + Flatten(ts[1..])
  }

  function Min(a: nat, b: nat): nat {
    if a <= b then a else b
  }

  /** `a` is obtained from `b` by deleting elements, order kept. */
  ghost predicate IsSubsequence<T>(a: seq<T>, b: seq<T>)
    decreases |b|
  {
    if |a| == 0 then true
    else if |b| == 0 then false
    else (a[0] == b[0] && IsSubsequence(a[1..], b[1..])) || IsSubsequence(a, b[1..])
  }

  lemma AppendAssoc<T>(a: seq<T>, b: seq<T>, c: seq<T>)
    ensures a + (b + c) == a + b + c
  {
  }

  lemma NumsSlice(ns: seq<int>, i: nat, j: nat)
    requires i <= j <= |ns|
    ensures Nums(ns)[i..j] == Nums(ns[i..j])
  {
  }

  lemma ValsIndexes<V>(ts: seq<seq<V>>)
    ensures forall i :: 0 <= i < |ts| ==> Vals(ts)[i] == Val(ts[i])
  {
    forall i | 0 <= i < |ts|
      ensures Vals(ts)[i] == Val(ts[i])
    {
      ValsAt(ts, i);
    }
  }

  lemma ValsAppend<V>(a: seq<seq<V>>, b: seq<seq<V>>)
    ensures Vals(a + b) == Vals(a) + Vals(b)
  {
    forall i | 0 <= i < |a + b|
      ensures Vals(a + b)[i] == (Vals(a) + Vals(b))[i]
    {
      ValsAt(a + b, i);
      if i < |a| {
        ValsAt(a, i);
      } else {
        ValsAt(b, i - |a|);
      }
    }
  }

  lemma {:induction false} PayloadsAppend<V>(a: seq<Event<V>>, b: seq<Event<V>>)
    ensures Payloads(a + b) == Payloads(a) + Payloads(b)
    decreases |a|
  {
    if |a| > 0 {
      assert (a + b)[1..] == a[1..] + b;
      PayloadsAppend(a[1..], b);
    } else {
      assert a + b == b;
    }
  }

  /** The tuples of a run of value calls are exactly the tuples sent. */
  lemma {:induction false} PayloadsOfVals<V>(ts: seq<seq<V>>)
    ensures Payloads(Vals(ts)) == ts
    decreases |ts|
  {
    if |ts| > 0 {
      assert Vals(ts)[1..] == Vals(ts[1..]);
      PayloadsOfVals(ts[1..]);
    }
  }

  /** A complete stream carries exactly its tuples and exactly one `End`. */
  lemma StreamPayloads<V>(ts: seq<seq<V>>)
    ensures Payloads(Stream(ts)) == ts
    ensures Ends(Stream(ts)) == 1
  {
    PayloadsAppend([Begin] + Vals(ts), [End]);
    PayloadsAppend([Begin], Vals(ts));
    PayloadsOfVals(ts);
    EndsAppend([Begin] + Vals(ts), [End]);
    EndsAppend([Begin], Vals(ts));
    NoEndsInVals(ts);
  }

  /** A `Begin`, a run of value calls and possibly an `End`: the run's
      tuples, and as many `End`s as the tail has. */
  lemma FramedPayloads<V>(ts: seq<seq<V>>, tail: seq<Event<V>>)
    requires tail == [] || tail == [End]
    ensures Payloads([Begin] + Vals(ts) + tail) == ts
    ensures Ends([Begin] + Vals(ts) + tail) == |tail|
  {
    PayloadsAppend([Begin] + Vals(ts), tail);
    PayloadsAppend([Begin], Vals(ts));
    PayloadsOfVals(ts);
    EndsAppend([Begin] + Vals(ts), tail);
    EndsAppend([Begin], Vals(ts));
    NoEndsInVals(ts);
  }

  lemma {:induction false} EndsAppend<V>(a: seq<Event<V>>, b: seq<Event<V>>)
    ensures Ends(a + b) == Ends(a) + Ends(b)
    decreases |a|
  {
    if |a| > 0 {
      assert (a + b)[1..] == a[1..] + b;
      EndsAppend(a[1..], b);
    } else {
      assert a + b == b;
    }
  }

  lemma {:induction false} NoEndsInVals<V>(ts: seq<seq<V>>)
    ensures Ends(Vals(ts)) == 0
    decreases |ts|
  {
    if |ts| > 0 {
      assert Vals(ts)[1..] == Vals(ts[1..]);
      NoEndsInVals(ts[1..]);
    }
  }

  lemma {:induction false} FlattenOnes<V>(vs: seq<V>)
    ensures Flatten(Ones(vs)) == vs
    decreases |vs|
  {
    if |vs| > 0 {
      assert Ones(vs)[1..] == Ones(vs[1..]);
      FlattenOnes(vs[1..]);
    }
  }

  lemma {:induction false} FlattenAppend<V>(a: seq<seq<V>>, b: seq<seq<V>>)
    ensures Flatten(a + b) == Flatten(a) + Flatten(b)
    decreases |a|
  {
    if |a| > 0 {
      assert (a + b)[1..] == a[1..] + b;
      FlattenAppend(a[1..], b);
    } else {
      assert a + b == b;
    }
  }
}
