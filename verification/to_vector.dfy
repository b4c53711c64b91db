/** `to_vector<T>`: the sink that appends every value it receives to a
    vector (include/strange/sinks/to_vector.h). */
module ToVector {
  import opened Core
  import opened Streams

  /** The sink and the vector it fills. */
  datatype Stage<V> = Stage(result: seq<V>)

  /** Reaction to one call. Its continuation is the terminal `sink`, so it
      pushes nothing, ever. */
  function Step<V>(s: Stage<V>, e: Event<V>): (r: Pushed<Stage<V>, V>)
    ensures r.out == []
    // markers leave the vector alone
    ensures IsMarker(e) ==> r.state == s
    // a value lands at the back; what was there stays, in place
    ensures e.Val? ==> |r.state.result| == |s.result| + |e.xs|
                       && r.state.result[..|s.result|] == s.result
                       && r.state.result[|s.result|..] == e.xs
  {
    match e
    case Begin => Pushed(s, [])
    case End => Pushed(s, [])
    case Val(xs) => Pushed(Stage(s.result + xs), [])
  }

  /** After any sequence of calls the vector holds what it held before,
      followed by every value received, in arrival order; nothing is
      forwarded. */
  lemma {:induction false} Collect<V>(acc: seq<V>, es: seq<Event<V>>)
    ensures Feed(Step, Stage(acc), es) == Pushed(Stage(acc + Flatten(Payloads(es))), [])
    decreases |es|
  {
    if |es| > 0 {
      FeedCons(Step, Stage(acc), es[0], es[1..]);
      assert es == [es[0]] + es[1..];
      PayloadsAppend([es[0]], es[1..]);
      var next := Step(Stage(acc), es[0]).state;
      Collect(next.result, es[1..]);
      if es[0].Val? {
        assert Payloads([es[0]]) == [es[0].xs];
        assert Flatten(Payloads(es)) == es[0].xs + Flatten(Payloads(es[1..]));
        assert next.result + Flatten(Payloads(es[1..])) == acc + Flatten(Payloads(es));
      } else {
        assert Payloads([es[0]]) == [];
        assert next.result + Flatten(Payloads(es[1..])) == acc + Flatten(Payloads(es));
      }
    } else {
      assert acc + Flatten(Payloads(es)) == acc;
    }
  }

  /** Over a stream of single values `v1..vL`, the vector grows by exactly
      `v1..vL`. */
  lemma CollectStream<V>(acc: seq<V>, vs: seq<V>)
    ensures Feed(Step, Stage(acc), Stream(Ones(vs))) == Pushed(Stage(acc + vs), [])
  {
    Collect(acc, Stream(Ones(vs)));
    StreamPayloads(Ones(vs));
    FlattenOnes(vs);
  }
}
