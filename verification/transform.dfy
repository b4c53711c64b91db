/** `transform<f>`: replaces every value tuple by the single value `f`
    computes from it (include/strange/adapters/transform.h). */
module Transform {
  import opened Core
  import opened Streams

  /** The adapter: only its function, no state. */
  datatype Stage<!V> = Stage(f: seq<V> -> V)

  /** Reaction to one call. */
  function Step<V>(s: Stage<V>, e: Event<V>): (r: Pushed<Stage<V>, V>)
    ensures r.state == s
    ensures IsMarker(e) ==> r.out == [e]
    // one call in, one call out, carrying f of the tuple
    ensures e.Val? ==> |r.out| == 1 && r.out[0].Val? && r.out[0].xs == [s.f(e.xs)]
  {
    match e
    case Begin => Pushed(s, [e])
    case End => Pushed(s, [e])
    case Val(xs) => Pushed(s, [Val([s.f(xs)])])
  }

  /** Reference definition: `f` applied to every tuple, in order. */
  function Image<V>(f: seq<V> -> V, ts: seq<seq<V>>): seq<seq<V>> {
    if |ts| == 0 then [] else [[f(ts[0])]] + Image(f, ts[1..])
  }

  lemma {:induction false} ImageSpec<V>(f: seq<V> -> V, ts: seq<seq<V>>)
    ensures |Image(f, ts)| == |ts|
    ensures forall i :: 0 <= i < |ts| ==> Image(f, ts)[i] == [f(ts[i])]
    decreases |ts|
  {
    if |ts| > 0 {
      ImageSpec(f, ts[1..]);
    }
  }

  lemma {:induction false} FeedVals<V>(s: Stage<V>, ts: seq<seq<V>>)
    ensures Feed(Step, s, Vals(ts)) == Pushed(s, Vals(Image(s.f, ts)))
    decreases |ts|
  {
    if |ts| > 0 {
      assert Vals(ts) == [Val(ts[0])] + Vals(ts[1..]);
      FeedCons(Step, s, Val(ts[0]), Vals(ts[1..]));
      FeedVals(s, ts[1..]);
      ValsAppend([[s.f(ts[0])]], Image(s.f, ts[1..]));
    }
  }

  /** Over a whole stream, `transform` pushes `Begin`, then for the i-th
      tuple exactly one call carrying `f` of it, then `End`: order and count
      are kept. It is stateless, so every invocation behaves the same. */
  lemma TransformStream<V>(s: Stage<V>, ts: seq<seq<V>>)
    ensures Feed(Step, s, Stream(ts)) == Pushed(s, Stream(Image(s.f, ts)))
    ensures |Payloads(Feed(Step, s, Stream(ts)).out)| == |ts|
    ensures forall i :: 0 <= i < |ts| ==> Payloads(Feed(Step, s, Stream(ts)).out)[i] == [s.f(ts[i])]
  {
    FeedAppend(Step, s, [Begin] + Vals(ts), [End]);
    FeedCons(Step, s, Event<V>.Begin, Vals(ts));
    FeedVals(s, ts);
    FeedOne(Step, s, Event<V>.End);
    StreamPayloads(Image(s.f, ts));
    ImageSpec(s.f, ts);
  }
}
