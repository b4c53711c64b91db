/** `drop<total>`: suppresses the first `total` values of a stream and
    forwards the rest (include/strange/adapters/drop.h). */
module Drop {
  import opened Core
  import opened Streams

  /** The adapter and its only state, the number of values still to
      suppress. A freshly built `drop<total>` is `Stage(total)`. */
  datatype Stage = Stage(remaining: nat)

  /** Reaction to one call. */
  function Step<V>(s: Stage, e: Event<V>): (r: Pushed<Stage, V>)
    // `Begin` passes through and touches nothing
    ensures e.Begin? ==> r == Pushed(s, [Begin])
    // the count shrinks by one per suppressed value and never below zero
    ensures s.remaining - r.state.remaining == (if e.Val? && s.remaining > 0 then 1 else 0)
    // a value is forwarded, unchanged, only once the count has run out
    ensures Payloads(r.out) == (if e.Val? && s.remaining == 0 then [e.xs] else [])
    // nothing but the call itself ever goes out
    ensures r.out == [] || r.out == [e]
    // `End` is forwarded only while the count has NOT run out
    ensures Ends(r.out) == (if e.End? && s.remaining > 0 then 1 else 0)
  {
    match e
    case Begin => Pushed(s, [Begin])
    case End => if s.remaining > 0 then Pushed(s, [End]) else Pushed(s, [])
    case Val(_) =>
      if s.remaining > 0 then Pushed(Stage(s.remaining - 1), [])
      else Pushed(s, [e])
  }

  /** Once the count has run out, a run of values passes unchanged. */
  lemma {:induction false} FeedValsSpent<V>(ts: seq<seq<V>>)
    ensures Feed(Step, Stage(0), Vals(ts)) == Pushed(Stage(0), Vals(ts))
    decreases |ts|
  {
    if |ts| > 0 {
      assert Vals(ts) == [Val(ts[0])] + Vals(ts[1..]);
      FeedCons(Step, Stage(0), Val(ts[0]), Vals(ts[1..]));
      FeedValsSpent(ts[1..]);
    }
  }

  /** While the count lasts, each value is suppressed and counted down. */
  lemma {:induction false} FeedValsCounting<V>(n: nat, ts: seq<seq<V>>)
    requires |ts| <= n
    ensures Feed(Step, Stage(n), Vals(ts)) == Pushed(Stage(n - |ts|), [])
    decreases |ts|
  {
    if |ts| > 0 {
      assert Vals(ts) == [Val(ts[0])] + Vals(ts[1..]);
      FeedCons(Step, Stage(n), Val(ts[0]), Vals(ts[1..]));
      FeedValsCounting(n - 1, ts[1..]);
    }
  }

  /** Over a run of values, `drop` suppresses the first `min(n, L)` and
      forwards the remainder unchanged and in order. */
  lemma FeedVals<V>(n: nat, ts: seq<seq<V>>)
    ensures Feed(Step, Stage(n), Vals(ts)) == Pushed(Stage(n - Min(n, |ts|)), Vals(ts[Min(n, |ts|)..]))
  {
    var m := Min(n, |ts|);
    if |ts| <= n {
      assert m == |ts| && ts[m..] == [];
      FeedValsCounting(n, ts);
    } else {
      assert m == n;
      FeedValsPassing(n, ts);
    }
  }

  /** A run longer than the count: the first `n` values are suppressed and
      the rest pass. */
  lemma FeedValsPassing<V>(n: nat, ts: seq<seq<V>>)
    requires n < |ts|
    ensures Feed(Step, Stage(n), Vals(ts)) == Pushed(Stage(0), Vals(ts[n..]))
  {
    var counted, passed := ts[..n], ts[n..];
    assert Vals(ts) == Vals(counted) + Vals(passed) by {
      assert ts == counted + passed;
      ValsAppend(counted, passed);
    }
    FeedValsCounting(n, counted);
    FeedValsSpent(passed);
    FeedThen(Step, Stage(n), Vals(counted), Vals(passed),
             Pushed(Stage(0), []), Pushed(Stage(0), Vals(passed)));
  }

  /** Over a whole stream `Begin v1..vL End`, `drop<n>` pushes `Begin` and
      `v(n+1)..vL`; it forwards `End` only when the stream ended before `n`
      values were seen, so a stream of at least `n` values (every stream, for
      `drop<0>`) comes out without its `End`. The count left is
      `max(0, n - L)`. */
  lemma DropStream<V>(n: nat, ts: seq<seq<V>>)
    ensures Feed(Step, Stage(n), Stream(ts))
         == Pushed(Stage(n - Min(n, |ts|)),
                   [Begin] + Vals(ts[Min(n, |ts|)..]) + (if |ts| < n then [End] else []))
    ensures Payloads(Feed(Step, Stage(n), Stream(ts)).out) == ts[Min(n, |ts|)..]
    ensures |Payloads(Feed(Step, Stage(n), Stream(ts)).out)| == (if |ts| < n then 0 else |ts| - n)
    ensures Ends(Feed(Step, Stage(n), Stream(ts)).out) == (if |ts| < n then 1 else 0)
  {
    var m := Min(n, |ts|);
    FeedAppend(Step, Stage(n), [Begin] + Vals(ts), [End]);
    FeedAppend(Step, Stage(n), [Begin], Vals(ts));
    FeedOne(Step, Stage(n), Event<V>.Begin);
    FeedVals(n, ts);
    FeedOne(Step, Stage(n - m), Event<V>.End);
    var close: seq<Event<V>> := if |ts| < n then [End] else [];
    assert Feed(Step, Stage(n), Stream(ts)).out == [Begin] + Vals(ts[m..]) + close;
    PayloadsAppend([Begin] + Vals(ts[m..]), close);
    PayloadsAppend([Begin], Vals(ts[m..]));
    PayloadsOfVals(ts[m..]);
    EndsAppend([Begin] + Vals(ts[m..]), close);
    EndsAppend([Begin], Vals(ts[m..]));
    NoEndsInVals(ts[m..]);
  }
}
