/** `filter<f>`: forwards exactly the value tuples that satisfy a predicate
    (include/strange/adapters/filter.h). */
module Filter {
  import opened Core
  import opened Streams

  /** The adapter: only its predicate, no state. */
  datatype Stage<!V> = Stage(f: seq<V> -> bool)

  /** Reaction to one call. */
  function Step<V>(s: Stage<V>, e: Event<V>): (r: Pushed<Stage<V>, V>)
    ensures r.state == s
    // markers pass through
    ensures IsMarker(e) ==> r.out == [e]
    // a value tuple goes out once, unaltered, iff the predicate holds of it
    ensures e.Val? ==> (|r.out| == 1 <==> s.f(e.xs)) && |r.out| <= 1
    ensures forall j :: 0 <= j < |r.out| ==> r.out[j] == e
  {
    match e
    case Begin => Pushed(s, [e])
    case End => Pushed(s, [e])
    case Val(xs) => if s.f(xs) then Pushed(s, [e]) else Pushed(s, [])
  }

  /** Reference definition: the tuples of `ts` that satisfy `f`, in order. */
  function Select<V>(f: seq<V> -> bool, ts: seq<seq<V>>): seq<seq<V>> {
    if |ts| == 0 then []
    else if f(ts[0]) then [ts[0]] + Select(f, ts[1..])
    else Select(f, ts[1..])
  }

  /** `Select` keeps a tuple iff it is in the input and satisfies `f`, and
      keeps the input order. */
  lemma {:induction false} SelectSpec<V>(f: seq<V> -> bool, ts: seq<seq<V>>)
    ensures forall t :: t in Select(f, ts) <==> t in ts && f(t)
    ensures IsSubsequence(Select(f, ts), ts)
    // every copy of a kept tuple is kept
    ensures forall t :: multiset(Select(f, ts))[t] == (if f(t) then multiset(ts)[t] else 0)
    decreases |ts|
  {
    if |ts| > 0 {
      SelectSpec(f, ts[1..]);
      assert ts == [ts[0]] + ts[1..];
      assert multiset(ts) == multiset{ts[0]} + multiset(ts[1..]);
      if f(ts[0]) {
        assert Select(f, ts)[1..] == Select(f, ts[1..]);
      } else {
        var r := Select(f, ts);
        if |r| > 0 {
          assert IsSubsequence(r, ts[1..]);
        }
      }
    }
  }

  lemma {:induction false} FeedVals<V>(s: Stage<V>, ts: seq<seq<V>>)
    ensures Feed(Step, s, Vals(ts)) == Pushed(s, Vals(Select(s.f, ts)))
    decreases |ts|
  {
    if |ts| > 0 {
      assert Vals(ts) == [Val(ts[0])] + Vals(ts[1..]);
      FeedCons(Step, s, Val(ts[0]), Vals(ts[1..]));
      FeedVals(s, ts[1..]);
      if s.f(ts[0]) {
        ValsAppend([ts[0]], Select(s.f, ts[1..]));
      }
    }
  }

  /** Over a whole stream, `filter` pushes `Begin`, the tuples that satisfy
      `f` in their original order, and `End`; it keeps no state, so every
      invocation behaves the same. */
  lemma FilterStream<V>(s: Stage<V>, ts: seq<seq<V>>)
    ensures Feed(Step, s, Stream(ts)) == Pushed(s, Stream(Select(s.f, ts)))
  {
    FeedAppend(Step, s, [Begin] + Vals(ts), [End]);
    FeedCons(Step, s, Event<V>.Begin, Vals(ts));
    FeedVals(s, ts);
    FeedOne(Step, s, Event<V>.End);
  }
}
