/** `transform_invoke<f>`: hands each value tuple, together with the
    continuation, to `f`, which pushes whatever it likes
    (include/strange/adapters/transform_invoke.h). */
module TransformInvoke {
  import opened Core
  import opened Streams

  /** The adapter: only its function, no state. `f(xs)` is the sequence of
      calls `f` makes on the continuation it is given for the tuple `xs`:
      none, one or many. */
  datatype Stage<!V> = Stage(f: seq<V> -> seq<Event<V>>)

  /** Reaction to one call. */
  function Step<V>(s: Stage<V>, e: Event<V>): (r: Pushed<Stage<V>, V>)
    ensures r.state == s
    ensures IsMarker(e) ==> r.out == [e]
    ensures e.Val? ==> r.out == s.f(e.xs)
  {
    match e
    case Begin => Pushed(s, [e])
    case End => Pushed(s, [e])
    case Val(xs) => Pushed(s, s.f(xs))
  }

  /** Reference definition: everything `f` pushes for each tuple, in order. */
  function FlatMap<V>(f: seq<V> -> seq<Event<V>>, ts: seq<seq<V>>): seq<Event<V>> {
    if |ts| == 0 then [] else f(ts[0]) + FlatMap(f, ts[1..])
  }

  lemma {:induction false} FeedVals<V>(s: Stage<V>, ts: seq<seq<V>>)
    ensures Feed(Step, s, Vals(ts)) == Pushed(s, FlatMap(s.f, ts))
    decreases |ts|
  {
    if |ts| > 0 {
      assert Vals(ts) == [Val(ts[0])] + Vals(ts[1..]);
      FeedCons(Step, s, Val(ts[0]), Vals(ts[1..]));
      FeedVals(s, ts[1..]);
    }
  }

  /** Over a whole stream, `transform_invoke` pushes `Begin`, then exactly
      what `f` pushes for each tuple in turn, then `End`. */
  lemma InvokeStream<V>(s: Stage<V>, ts: seq<seq<V>>)
    ensures Feed(Step, s, Stream(ts)) == Pushed(s, [Begin] + FlatMap(s.f, ts) + [End])
  {
    FeedAppend(Step, s, [Begin] + Vals(ts), [End]);
    FeedCons(Step, s, Event<V>.Begin, Vals(ts));
    FeedVals(s, ts);
    FeedOne(Step, s, Event<V>.End);
  }
}
