/** End-to-end behaviour of composed chains, as the repository's tests
    exercise it (test/range.cpp, test/fizzbuzz.cpp). */
module Scenarios {
  import opened Core
  import opened Streams
  import opened Pipeline
  import Range
  import Take
  import Drop
  import DropTake
  import ToVector
  import FizzBuzz

  function Sum(vs: seq<int>): int {
    if |vs| == 0 then 0 else vs[0] + Sum(vs[1..])
  }

  /** Gauss: twice the sum of `a, ..., b - 1` is `(b - a) * (a + b - 1)`. */
  lemma {:induction false} SumConsecutive(a: int, b: int)
    requires a <= b
    ensures 2 * Sum(Range.Values(a, b, 1)) == (b - a) * (a + b - 1)
    decreases b - a
  {
    if a < b {
      SumConsecutive(a + 1, b);
      assert Range.Values(a, b, 1) == [a] + Range.Values(a + 1, b, 1);
    }
  }

  /** What the test's checker stage sees of a stream of integers: each
      exceeds the one before, the first exceeding the checker's initial
      `last` of 0; their count, total and last. */
  predicate Checked(vs: seq<int>, count: nat, total: int, last: int) {
    && |vs| > 0 && vs[0] > 0
    && (forall j :: 0 < j < |vs| ==> vs[j - 1] < vs[j])
    && |vs| == count && Sum(vs) == total && vs[|vs| - 1] == last
  }

  /** The checker passes a non-empty default-step range starting above 0,
      recording its count, closed-form total and last value. */
  lemma CheckedConsecutive(a: int, b: int)
    requires 0 < a < b
    ensures Checked(Range.Values(a, b, 1), b - a, (b - a) * (a + b - 1) / 2, b - 1)
  {
    Range.Consecutive(a, b);
    SumConsecutive(a, b);
  }

  /** ... and fails one that starts at or below 0 and reaches past it,
      whatever it records: the value 0 itself never exceeds the `last` the
      checker holds by then. */
  lemma CheckerRejects(a: int, b: int, count: nat, total: int, last: int)
    requires a <= 0 < b
    ensures !Checked(Range.Values(a, b, 1), count, total, last)
  {
    Range.Consecutive(a, b);
  }

  /** A default-step range pushes its values, once each, then one `End`. */
  lemma RangeStream(a: int, b: int)
    requires a <= b
    ensures Payloads(Range.Stream(Range.Default(a, b))) == Nums(Range.Values(a, b, 1))
    ensures Ends(Range.Stream(Range.Default(a, b))) == 1
  {
    StreamPayloads(Nums(Range.Values(a, b, 1)));
  }

  /** `drop<d>` after `range{a, b}` passes on `range{a + d, b}`. */
  lemma DropOfRange(a: int, b: int, d: nat)
    requires a + d <= b
    ensures Payloads(Feed(Drop.Step, Drop.Stage(d), Range.Stream(Range.Default(a, b))).out)
         == Nums(Range.Values(a + d, b, 1))
  {
    var ts := Nums(Range.Values(a, b, 1));
    Range.ConsecutiveSlices(a, b, d);
    Drop.DropStream(d, ts);
    assert ts[d..] == Nums(Range.Values(a + d, b, 1));
  }

  /** `take<t>` after `range{a, b}` passes on `range{a, a + t}`, then `End`. */
  lemma TakeOfRange(a: int, b: int, t: nat)
    requires a + t <= b
    ensures Feed(Take.Step, Take.Stage(t), Range.Stream(Range.Default(a, b))).out
         == [Begin] + Vals(Nums(Range.Values(a, a + t, 1))) + (if t > 0 then [End] else [])
  {
    var ts := Nums(Range.Values(a, b, 1));
    Range.ConsecutiveSlices(a, b, t);
    Take.TakeStream(t, ts);
    assert ts[..t] == Nums(Range.Values(a, a + t, 1));
  }

  /** "Simple range": `range{1, 100}` pushes 99 increasing values summing to
      4950, the last being 99, bracketed by `Begin` and `End`. */
  lemma SimpleRange()
    ensures Payloads(Range.Stream(Range.Default(1, 100))) == Nums(Range.Values(1, 100, 1))
    ensures Ends(Range.Stream(Range.Default(1, 100))) == 1
  {
    RangeStream(1, 100);
  }

  lemma SimpleRangeChecks()
    ensures Checked(Range.Values(1, 100, 1), 99, 4950, 99)
  {
    CheckedConsecutive(1, 100);
  }

  /** "Range with drop": after `drop<20>`, the values 21..99 — 79 of them,
      summing to `sum_range(21, 99)` = 4740, the last being 99. */
  lemma RangeWithDrop()
    ensures Payloads(Feed(Drop.Step, Drop.Stage(20), Range.Stream(Range.Default(1, 100))).out)
         == Nums(Range.Values(21, 100, 1))
  {
    DropOfRange(1, 100, 20);
  }

  lemma RangeWithDropChecks()
    ensures Checked(Range.Values(21, 100, 1), 79, 4740, 99)
  {
    CheckedConsecutive(21, 100);
  }

  /** "Range with take": after `take<20>`, the values 1..20 — 20 of them,
      summing to 210, the last being 20 — and one `End`. */
  lemma RangeWithTake()
    ensures Feed(Take.Step, Take.Stage(20), Range.Stream(Range.Default(1, 100))).out
         == Stream(Nums(Range.Values(1, 21, 1)))
  {
    TakeOfRange(1, 100, 20);
  }

  lemma RangeWithTakeChecks()
    ensures Checked(Range.Values(1, 21, 1), 20, 210, 20)
  {
    CheckedConsecutive(1, 21);
  }

  /** "Range with drop and take", counts only: `range{1, 1'000'000}` pushes
      999'999 values, `drop<500'000>` lets 499'999 through and `take<10>`
      after it 10. */
  lemma MillionCounts()
    ensures |Range.Values(1, 1000000, 1)| == 999999
    ensures |Payloads(Feed(Drop.Step, Drop.Stage(500000), Range.Stream(Range.Default(1, 1000000))).out)| == 499999
    ensures |Payloads(Feed(Take.Step, Take.Stage(10),
               Feed(Drop.Step, Drop.Stage(500000), Range.Stream(Range.Default(1, 1000000))).out).out)| == 10
  {
    var ts := Nums(Range.Values(1, 1000000, 1));
    Range.Consecutive(1, 1000000);
    Drop.DropStream(500000, ts);
    DropTake.SliceLength(500000, 10, ts);
  }

  /** What the checker after `drop<500'000>` in that chain sees: the
      values 500'001 to 999'999. */
  lemma MillionValuesAfterDrop()
    ensures Payloads(Feed(Drop.Step, Drop.Stage(500000), Range.Stream(Range.Default(1, 1000000))).out)
         == Nums(Range.Values(500001, 1000000, 1))
  {
    DropOfRange(1, 1000000, 500000);
  }

  /** What the checker after `take<10>` in that chain sees: the values
      500'001 to 500'010. */
  lemma MillionValuesAfterTake()
    ensures Payloads(Feed(Take.Step, Take.Stage(10),
              Feed(Drop.Step, Drop.Stage(500000), Range.Stream(Range.Default(1, 1000000))).out).out)
         == Nums(Range.Values(500001, 500011, 1))
  {
    DropTakeOfRange(1, 1000000, 500000, 10);
  }

  /** "Unrolled range": `unrolled_range<1, 1'000'000>` pushes exactly what
      `range{1, 1'000'000}` does. */
  lemma UnrolledMillion()
    ensures Range.UnrolledValues(Range.Range(1, 1000000, 1)) == Range.Values(1, 1000000, 1)
  {
    Range.UnrolledAgainstRange(Range.Range(1, 1000000, 1));
  }

  /** The tuples a range pushes. */
  function Tuples(r: Range.Loop): seq<seq<Value>> {
    Nums(Range.Values(r.start, r.end, r.step))
  }

  /** What `drop<d> | take<t>` lets through of a complete stream. */
  function Window<V>(ts: seq<seq<V>>, d: nat, t: nat): seq<seq<V>> {
    ts[Min(d, |ts|)..Min(d + t, |ts|)]
  }

  /** Of a default-step range, `drop<d> | take<t>` keeps `range{a + d,
      a + d + t}` when the range is long enough. */
  lemma WindowOfRange(a: int, b: int, d: nat, t: nat)
    requires a + d + t <= b
    ensures Window(Tuples(Range.Default(a, b)), d, t) == Nums(Range.Values(a + d, a + d + t, 1))
  {
    var vs := Range.Values(a, b, 1);
    Range.Consecutive(a, b);
    Range.Consecutive(a + d, a + d + t);
    assert vs[d..d + t] == Range.Values(a + d, a + d + t, 1);
    NumsSlice(vs, d, d + t);
    assert Min(d, |vs|) == d && Min(d + t, |vs|) == d + t;
  }

  /** `drop<d> | take<t>` after `range{a, b}` passes on `range{a + d,
      a + d + t}` when the range is long enough. */
  lemma DropTakeOfRange(a: int, b: int, d: nat, t: nat)
    requires a + d + t <= b
    ensures Payloads(Feed(Take.Step, Take.Stage(t),
              Feed(Drop.Step, Drop.Stage(d), Range.Stream(Range.Default(a, b))).out).out)
         == Nums(Range.Values(a + d, a + d + t, 1))
  {
    var ts := Tuples(Range.Default(a, b));
    var w := Window(ts, d, t);
    DropTake.DropThenTake(d, t, ts);
    var tail: seq<Event<Value>> := if t > 0 && (|ts| < d || |ts| - d >= t) then [End] else [];
    FramedPayloads(w, tail);
    WindowOfRange(a, b, d, t);
  }

  /** The stages of `drop<d> | take<t> | to_vector`. */
  function DropTakeVectorStages(d: nat, t: nat, acc: seq<Value>): seq<Stage> {
    [DropStage(Drop.Stage(d)), TakeStage(Take.Stage(t)), ToVectorStage(ToVector.Stage(acc))]
  }

  /** The stages of `range | drop<d> | take<t> | to_vector`. */
  function RangeDropTakeVector(r: Range.Loop, d: nat, t: nat, acc: seq<Value>): seq<Stage> {
    [RangeSource(r)] + DropTakeVectorStages(d, t, acc)
  }

  lemma RangeDropTakeComposes(r: Range.Loop, d: nat, t: nat, acc: seq<Value>)
    ensures Composes(RangeDropTakeVector(r, d, t, acc), 0)
  {
    var p := RangeDropTakeVector(r, d, t, acc);
    assert Composes(p[1..][1..][1..], 1);
    assert Composes(p[1..][1..], 1);
    assert Composes(p[1..], 1);
  }

  /** The tuples `to_vector` collects from a `Begin`, a run of value calls
      and possibly an `End`. */
  lemma CollectRun(acc: seq<Value>, ts: seq<seq<Value>>, tail: seq<Event<Value>>)
    requires tail == [] || tail == [End]
    ensures Feed(ToVector.Step, ToVector.Stage(acc), [Begin] + Vals(ts) + tail).state
         == ToVector.Stage(acc + Flatten(ts))
  {
    ToVector.Collect(acc, [Begin] + Vals(ts) + tail);
    FramedPayloads(ts, tail);
  }

  /** `drop<d> | take<t> | to_vector` fed a complete stream collects the
      tuples from the `d`-th to before the `d + t`-th. */
  lemma DropTakeVector(d: nat, t: nat, acc: seq<Value>, ts: seq<seq<Value>>)
    ensures Transduce(DropTakeVectorStages(d, t, acc), Stream(ts))[2]
         == ToVectorStage(ToVector.Stage(acc + Flatten(Window(ts, d, t))))
  {
    var p := DropTakeVectorStages(d, t, acc);
    var w := Window(ts, d, t);
    FeedDrop(Drop.Stage(d), Stream(ts));
    var dropOut := Feed(Drop.Step, Drop.Stage(d), Stream(ts)).out;
    TransduceCons(p, Stream(ts));
    FeedTake(Take.Stage(t), dropOut);
    var takeOut := Feed(Take.Step, Take.Stage(t), dropOut).out;
    TransduceCons(p[1..], dropOut);
    FeedToVector(ToVector.Stage(acc), takeOut);
    DropTake.DropThenTake(d, t, ts);
    var tail: seq<Event<Value>> := if t > 0 && (|ts| < d || |ts| - d >= t) then [End] else [];
    CollectRun(acc, w, tail);
    assert p[1..][1..] == [ToVectorStage(ToVector.Stage(acc))];
  }

  /** Running `range | drop<d> | take<t> | to_vector` once appends to the
      vector the range's values from the `d`-th to before the `d + t`-th. */
  lemma RangeDropTakeCollects(r: Range.Loop, d: nat, t: nat, acc: seq<Value>)
    ensures Composes(RangeDropTakeVector(r, d, t, acc), 0)
    ensures Transduce(RangeDropTakeVector(r, d, t, acc), [Val([])])[3]
         == ToVectorStage(ToVector.Stage(acc + Flatten(Window(Tuples(r), d, t))))
  {
    RangeDropTakeComposes(r, d, t, acc);
    var p := RangeDropTakeVector(r, d, t, acc);
    var ts := Tuples(r);
    FeedOne(Step, p[0], Val([]));
    assert Feed(Step, p[0], [Val([])]).out == Stream(ts);
    assert p[1..] == DropTakeVectorStages(d, t, acc);
    DropTakeVector(d, t, acc, ts);
  }

  /** The chain of the drop-10 / take-10 trace, over `range{1, n}`. */
  function DropTenTakeTen(n: int): Chain {
    PipeAll(Builder, RangeDropTakeVector(Range.Default(1, n), 10, 10, []))
  }

  /** The drop-10 / take-10 trace (over 1..99 there, over any range from 1
      with at least 20 values here): the chain compiles, and the vector at
      its end receives 11..20. */
  lemma DropTenTakeTenCollects(n: int)
    requires n >= 21
    ensures Callable(DropTenTakeTen(n), 0, Val([]))
    ensures Run(DropTenTakeTen(n)).stages[3] == ToVectorStage(ToVector.Stage(Flatten(Nums(Range.Values(11, 21, 1)))))
  {
    var r := Range.Default(1, n);
    var p := RangeDropTakeVector(r, 10, 10, []);
    assert DropTenTakeTen(n).stages == p;
    RangeDropTakeCollects(r, 10, 10, []);
    var collected := Flatten(Window(Tuples(r), 10, 10));
    assert Transduce(p, [Val([])])[3] == ToVectorStage(ToVector.Stage(collected)) by {
      assert [] + collected == collected;
    }
    WindowOfRange(1, n, 10, 10);
  }

  /** The stages of `take<k> | to_vector`. */
  function TakeVectorStages(k: nat, acc: seq<Value>): seq<Stage> {
    [TakeStage(Take.Stage(k)), ToVectorStage(ToVector.Stage(acc))]
  }

  /** The stages of `range | take<k> | to_vector`. */
  function RangeTakeVector(r: Range.Loop, k: nat, acc: seq<Value>): seq<Stage> {
    [RangeSource(r)] + TakeVectorStages(k, acc)
  }

  /** `take<k> | to_vector` fed a complete stream: `take` has used up as
      many of its `k` as the stream had values, and the vector has received
      the first of them. */
  lemma TakeVector(k: nat, acc: seq<Value>, ts: seq<seq<Value>>)
    ensures Transduce(TakeVectorStages(k, acc), Stream(ts))
         == [TakeStage(Take.Stage(k - Min(k, |ts|))), ToVectorStage(ToVector.Stage(acc + Flatten(ts[..Min(k, |ts|)])))]
  {
    var p := TakeVectorStages(k, acc);
    assert p[1..] == [ToVectorStage(ToVector.Stage(acc))];
    var m := Min(k, |ts|);
    FeedTake(Take.Stage(k), Stream(ts));
    Take.TakeStream(k, ts);
    var takeOut := Feed(Take.Step, Take.Stage(k), Stream(ts)).out;
    var tail: seq<Event<Value>> := if k > 0 then [End] else [];
    assert takeOut == [Begin] + Vals(ts[..m]) + tail;
    FeedToVector(ToVector.Stage(acc), takeOut);
    CollectRun(acc, ts[..m], tail);
    assert Transduce(p[1..], takeOut) == [ToVectorStage(ToVector.Stage(acc + Flatten(ts[..m])))];
  }

  /** One run of `range | take<k> | to_vector`: the range is unchanged,
      `take` has used up as many of its `k` as the range had values, and
      the vector has received the first of them. */
  lemma RangeTakeCollects(r: Range.Loop, k: nat, acc: seq<Value>)
    ensures Composes(RangeTakeVector(r, k, acc), 0)
    ensures Transduce(RangeTakeVector(r, k, acc), [Val([])])
         == RangeTakeVector(r, k - Min(k, |Tuples(r)|), acc + Flatten(Tuples(r)[..Min(k, |Tuples(r)|)]))
  {
    var p := RangeTakeVector(r, k, acc);
    assert Composes(p[1..][1..], 1);
    assert Composes(p[1..], 1);
    var ts := Tuples(r);
    FeedOne(Step, p[0], Val([]));
    assert Feed(Step, p[0], [Val([])]) == Pushed(p[0], Stream(ts));
    assert p[1..] == TakeVectorStages(k, acc);
    TakeVector(k, acc, ts);
  }

  /** The chain `range{1, n} | take<3> | to_vector`. */
  function TakeThree(n: int): Chain {
    PipeAll(Builder, RangeTakeVector(Range.Default(1, n), 3, []))
  }

  /** The first call of the `take<3>` chain collects 1, 2, 3. */
  lemma TakeThreeOnce(n: int)
    requires n >= 4
    ensures Callable(TakeThree(n), 0, Val([]))
    ensures Run(TakeThree(n)).stages == RangeTakeVector(Range.Default(1, n), 0, Flatten(Nums([1, 2, 3])))
  {
    var r := Range.Default(1, n);
    RangeTakeCollects(r, 3, []);
    Range.ConsecutiveSlices(1, n, 3);
    Range.Consecutive(1, 4);
    assert Tuples(r)[..3] == Nums([1, 2, 3]);
    assert Min(3, |Tuples(r)|) == 3;
    assert [] + Flatten(Tuples(r)[..3]) == Flatten(Nums([1, 2, 3]));
  }

  /** Calling the same `take<3>` chain twice: the first call collects 1, 2,
      3 and leaves `take` with nothing remaining; as that state is not
      reset, the second call forwards no value and the vector is left as
      it was. */
  lemma TakeThreeTwice(n: int)
    requires n >= 4
    ensures Callable(TakeThree(n), 0, Val([]))
    ensures Run(TakeThree(n)).stages == RangeTakeVector(Range.Default(1, n), 0, Flatten(Nums([1, 2, 3])))
    ensures Callable(Run(TakeThree(n)), 0, Val([]))
    ensures Run(Run(TakeThree(n))) == Run(TakeThree(n))
  {
    var r := Range.Default(1, n);
    TakeThreeOnce(n);
    var ch := Run(TakeThree(n));
    var firstRun := Flatten(Nums([1, 2, 3]));
    assert ch.stages == RangeTakeVector(r, 0, firstRun);
    RangeTakeSpent(r, firstRun);
    assert Run(ch).stages == ch.stages;
  }

  /** `range | take<0> | to_vector` run once more: nothing changes. */
  lemma RangeTakeSpent(r: Range.Loop, acc: seq<Value>)
    ensures Composes(RangeTakeVector(r, 0, acc), 0)
    ensures Transduce(RangeTakeVector(r, 0, acc), [Val([])]) == RangeTakeVector(r, 0, acc)
  {
    RangeTakeCollects(r, 0, acc);
    assert Min(0, |Tuples(r)|) == 0;
    assert acc + Flatten(Tuples(r)[..0]) == acc;
  }
}
