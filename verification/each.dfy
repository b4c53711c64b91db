/** `each<Ts...>`: a source that pushes the values it was constructed with
    (include/strange/sources/each.h). */
module Each {
  import opened Core
  import opened Streams

  /** The source: the constructor arguments, in order. */
  datatype Stage<V> = Stage(ts: seq<V>)

  /** Reaction to one call: only the argument-less driver call is accepted,
      and it is answered with `Begin`, one call per stored value in
      constructor order, and `End`. The source is const: every invocation
      pushes the same stream. */
  function Step<V>(s: Stage<V>, e: Event<V>): (r: Pushed<Stage<V>, V>)
    ensures r.state == s
    ensures e.Val? && |e.xs| == 0 ==>
              && |r.out| == |s.ts| + 2
              && r.out[0] == Begin && r.out[|r.out| - 1] == End
              && (forall i :: 0 <= i < |s.ts| ==> r.out[i + 1] == Val([s.ts[i]]))
  {
    if e.Val? && |e.xs| == 0 then
      ValsIndexes(Ones(s.ts));
      Pushed(s, Stream(Ones(s.ts)))
    else Pushed(s, [])
  }

  /** The stream `each` pushes carries one single-value call per constructor
      argument, in order, and exactly one `End`. */
  lemma EachStream<V>(s: Stage<V>)
    ensures Payloads(Step(s, Val([])).out) == Ones(s.ts)
    ensures |Payloads(Step(s, Val([])).out)| == |s.ts|
    ensures Ends(Step(s, Val([])).out) == 1
  {
    StreamPayloads(Ones(s.ts));
  }
}
