/** `enumerate`: tags every value tuple with a running index
    (include/strange/adapters/enumerate.h). */
module Enumerate {
  import opened Core
  import opened Streams

  /** The adapter and its only state, the index the next tuple will get.
      A freshly built `enumerate` is `Stage(0)`. */
  datatype Stage = Stage(index: nat)

  /** Reaction to one call. */
  function Step(s: Stage, e: Event<Value>): (r: Pushed<Stage, Value>)
    // markers pass through and leave the index alone
    ensures IsMarker(e) ==> r == Pushed(s, [e])
    // a tuple `xs` goes out as `(index, xs...)`, and the index moves on by one
    ensures e.Val? ==> r.state.index == s.index + 1 && r.out == [Val([Int(s.index)] + e.xs)]
  {
    match e
    case Begin => Pushed(s, [e])
    case End => Pushed(s, [e])
    case Val(xs) => Pushed(Stage(s.index + 1), [Val([Int(s.index)] + xs)])
  }

  /** Reference definition: the i-th tuple prefixed with index `k + i`. */
  function Tagged(k: nat, ts: seq<seq<Value>>): seq<seq<Value>>
    decreases |ts|
  {
    if |ts| == 0 then [] else [[Int(k)] + ts[0]] + Tagged(k + 1, ts[1..])
  }

  lemma {:induction false} TaggedSpec(k: nat, ts: seq<seq<Value>>)
    ensures |Tagged(k, ts)| == |ts|
    ensures forall i :: 0 <= i < |ts| ==> Tagged(k, ts)[i] == [Int(k + i)] + ts[i]
    decreases |ts|
  {
    if |ts| > 0 {
      TaggedSpec(k + 1, ts[1..]);
    }
  }

  lemma {:induction false} FeedVals(k: nat, ts: seq<seq<Value>>)
    ensures Feed(Step, Stage(k), Vals(ts)) == Pushed(Stage(k + |ts|), Vals(Tagged(k, ts)))
    decreases |ts|
  {
    if |ts| > 0 {
      assert Vals(ts) == [Val(ts[0])] + Vals(ts[1..]);
      FeedCons(Step, Stage(k), Val(ts[0]), Vals(ts[1..]));
      FeedVals(k + 1, ts[1..]);
      ValsAppend([[Int(k)] + ts[0]], Tagged(k + 1, ts[1..]));
    }
  }

  /** Over a whole stream, starting from index `k`, the i-th tuple goes out
      as `(k + i, xs...)`, one call per tuple, in order, bracketed by `Begin`
      and `End`; the index ends `|ts|` further on. */
  lemma EnumerateStream(k: nat, ts: seq<seq<Value>>)
    ensures Feed(Step, Stage(k), Stream(ts)) == Pushed(Stage(k + |ts|), Stream(Tagged(k, ts)))
  {
    FeedAppend(Step, Stage(k), [Begin] + Vals(ts), [End]);
    FeedCons(Step, Stage(k), Begin, Vals(ts));
    FeedVals(k, ts);
    FeedOne(Step, Stage(k + |ts|), End);
  }

  /** `Begin` does not reset the index: a second stream through the same
      `enumerate` is numbered on from where the first stopped. */
  lemma SecondInvocation(first: seq<seq<Value>>, second: seq<seq<Value>>)
    ensures Feed(Step, Feed(Step, Stage(0), Stream(first)).state, Stream(second)).out
         == Stream(Tagged(|first|, second))
  {
    var mid := Feed(Step, Stage(0), Stream(first)).state;
    assert mid == Stage(|first|) by {
      EnumerateStream(0, first);
    }
    EnumerateStream(|first|, second);
  }
}
