/** `take<total>`: forwards the first `total` values of a stream, then
    closes the stream itself (include/strange/adapters/take.h). */
module Take {
  import opened Core
  import opened Streams

  /** The adapter and its only state, the budget of values still to forward.
      A freshly built `take<total>` is `Stage(total)`. */
  datatype Stage = Stage(remaining: nat)

  /** Reaction to one call. */
  function Step<V>(s: Stage, e: Event<V>): (r: Pushed<Stage, V>)
    // `Begin` passes through and touches nothing
    ensures e.Begin? ==> r == Pushed(s, [Begin])
    // the budget never grows, and shrinks by exactly one per forwarded value
    ensures r.state.remaining <= s.remaining
    ensures |Payloads(r.out)| == s.remaining - r.state.remaining
    // a value is forwarded unchanged while budget is left, and dropped after
    ensures Payloads(r.out) == (if e.Val? && s.remaining > 0 then [e.xs] else [])
    // `End` goes out once: upstream's while budget is left, or synthesized
    // right after the last value the budget allows
    ensures Ends(r.out) == (if (e.End? && s.remaining > 0) || (e.Val? && s.remaining == 1) then 1 else 0)
    // nothing but the call itself and a closing `End` ever goes out, the
    // call first
    ensures r.out == [] || r.out == [e] || r.out == [End] || r.out == [e, End]
  {
    match e
    case Begin => Pushed(s, [Begin])
    case End => if s.remaining > 0 then Pushed(s, [End]) else Pushed(s, [])
    case Val(_) =>
      if s.remaining == 0 then Pushed(s, [])
      else if s.remaining == 1 then
        var last: seq<Event<V>> := [End];
        assert [e, End][1..] == last && last[1..] == [];
        assert Payloads([e, End]) == [e.xs] + Payloads(last);
        assert Ends([e, End]) == Ends(last);
        Pushed(Stage(0), [e, End])
      else
        Pushed(Stage(s.remaining - 1), [e])
  }

  /** With no budget left, a run of values is swallowed whole. */
  lemma {:induction false} FeedValsSpent<V>(ts: seq<seq<V>>)
    ensures Feed(Step, Stage(0), Vals(ts)) == Pushed(Stage(0), [])
    decreases |ts|
  {
    if |ts| > 0 {
      assert Vals(ts) == [Val(ts[0])] + Vals(ts[1..]);
      FeedCons(Step, Stage(0), Val(ts[0]), Vals(ts[1..]));
      FeedValsSpent(ts[1..]);
    }
  }

  /** While more budget is left than values come, each value is forwarded
      and paid for. */
  lemma {:induction false} FeedValsLive<V>(n: nat, ts: seq<seq<V>>)
    requires |ts| < n
    ensures Feed(Step, Stage(n), Vals(ts)) == Pushed(Stage(n - |ts|), Vals(ts))
    decreases |ts|
  {
    if |ts| > 0 {
      assert Vals(ts) == [Val(ts[0])] + Vals(ts[1..]);
      FeedCons(Step, Stage(n), Val(ts[0]), Vals(ts[1..]));
      assert Step(Stage(n), Val(ts[0])) == Pushed(Stage(n - 1), [Val(ts[0])]);
      FeedValsLive(n - 1, ts[1..]);
    }
  }

  /** Over a run of values, `take` forwards the first `min(n, L)` of them,
      followed by `End` exactly when the run reaches the budget. */
  lemma FeedVals<V>(n: nat, ts: seq<seq<V>>)
    ensures Feed(Step, Stage(n), Vals(ts))
         == Pushed(Stage(n - Min(n, |ts|)),
                   Vals(ts[..Min(n, |ts|)]) + (if n > 0 && |ts| >= n then [End] else []))
  {
    var m := Min(n, |ts|);
    if n == 0 {
      assert m == 0 && ts[..m] == [];
      FeedValsSpent(ts);
    } else if |ts| < n {
      assert m == |ts| && ts[..m] == ts;
      FeedValsLive(n, ts);
    } else {
      assert m == n;
      FeedValsClosing(n, ts);
    }
  }

  /** A run of exactly `n > 0` values: all pass, the last one followed by
      `End`. */
  lemma {:induction false} FeedValsExact<V>(n: nat, ts: seq<seq<V>>)
    requires 0 < n == |ts|
    ensures Feed(Step, Stage(n), Vals(ts)) == Pushed(Stage(0), Vals(ts) + [End])
    decreases |ts|
  {
    assert Vals(ts) == [Val(ts[0])] + Vals(ts[1..]);
    FeedCons(Step, Stage(n), Val(ts[0]), Vals(ts[1..]));
    if n == 1 {
      assert Step(Stage(1), Val(ts[0])) == Pushed(Stage(0), [Val(ts[0]), End]);
      assert Vals(ts[1..]) == [];
    } else {
      assert Step(Stage(n), Val(ts[0])) == Pushed(Stage(n - 1), [Val(ts[0])]);
      FeedValsExact(n - 1, ts[1..]);
    }
  }

  /** A run that reaches the budget: the first `n` values pass, the `n`-th
      followed by `End`, and the rest are swallowed. */
  lemma FeedValsClosing<V>(n: nat, ts: seq<seq<V>>)
    requires 0 < n <= |ts|
    ensures Feed(Step, Stage(n), Vals(ts)) == Pushed(Stage(0), Vals(ts[..n]) + [End])
  {
    var passed, spent := ts[..n], ts[n..];
    assert Vals(ts) == Vals(passed) + Vals(spent) by {
      assert ts == passed + spent;
      ValsAppend(passed, spent);
    }
    FeedValsExact(n, passed);
    FeedValsSpent(spent);
    FeedThen(Step, Stage(n), Vals(passed), Vals(spent),
             Pushed(Stage(0), Vals(passed) + [End]), Pushed(Stage(0), []));
    assert Vals(passed) + [End] + [] == Vals(passed) + [End];
  }

  /** Over a whole stream `Begin v1..vL End`, `take<n>` pushes `Begin`, then
      `v1..v_min(n,L)` in order, then a single `End` — unless `n == 0`, in
      which case nothing follows `Begin`, not even `End`. */
  lemma TakeStream<V>(n: nat, ts: seq<seq<V>>)
    ensures Feed(Step, Stage(n), Stream(ts))
         == Pushed(Stage(n - Min(n, |ts|)),
                   [Begin] + Vals(ts[..Min(n, |ts|)]) + (if n > 0 then [End] else []))
    ensures Payloads(Feed(Step, Stage(n), Stream(ts)).out) == ts[..Min(n, |ts|)]
    ensures Ends(Feed(Step, Stage(n), Stream(ts)).out) == (if n > 0 then 1 else 0)
  {
    var m := Min(n, |ts|);
    var tail: seq<Event<V>> := if n > 0 then [End] else [];
    TakeStreamFeed(n, ts);
    FramedPayloads(ts[..m], tail);
  }

  lemma TakeStreamFeed<V>(n: nat, ts: seq<seq<V>>)
    ensures Feed(Step, Stage(n), Stream(ts))
         == Pushed(Stage(n - Min(n, |ts|)),
                   [Begin] + Vals(ts[..Min(n, |ts|)]) + (if n > 0 then [End] else []))
  {
    var m := Min(n, |ts|);
    var open: seq<Event<V>> := if n > 0 && |ts| >= n then [End] else [];
    OpenStream(n, ts);
    var head := Feed(Step, Stage(n), [Begin] + Vals(ts));
    assert head == Pushed(Stage(n - m), [Begin] + Vals(ts[..m]) + open);
    FeedAppend(Step, Stage(n), [Begin] + Vals(ts), [End]);
    FeedOne(Step, Stage(n - m), Event<V>.End);
    var last := Step(Stage(n - m), Event<V>.End);
    assert last.state == Stage(n - m);
    if n > 0 && |ts| >= n {
      assert last.out == [];
    } else if n > 0 {
      assert last.out == [End];
    } else {
      assert last.out == [];
    }
  }

  /** A stream whose `End` has not arrived (yet): `take<n>` has already
      closed it if at least `n > 0` values came. */
  lemma OpenStream<V>(n: nat, ts: seq<seq<V>>)
    ensures Feed(Step, Stage(n), [Begin] + Vals(ts))
         == Pushed(Stage(n - Min(n, |ts|)),
                   [Begin] + Vals(ts[..Min(n, |ts|)]) + (if n > 0 && |ts| >= n then [End] else []))
  {
    FeedCons(Step, Stage(n), Event<V>.Begin, Vals(ts));
    FeedVals(n, ts);
  }

  /** Once the budget is spent — `take<0>` from the start, or any `take`
      invoked again after an earlier stream exhausted it, since the state is
      never reset — a whole stream is reduced to its `Begin`. */
  lemma Exhausted<V>(ts: seq<seq<V>>)
    ensures Feed(Step, Stage(0), Stream(ts)) == Pushed(Stage(0), [Begin])
  {
    TakeStream(0, ts);
    assert ts[..0] == [];
  }

  /** A second stream through the same `take<n>`, after a first stream of at
      least `n` values, yields only `Begin`. */
  lemma SecondInvocation<V>(n: nat, first: seq<seq<V>>, second: seq<seq<V>>)
    requires |first| >= n
    ensures Feed(Step, Feed(Step, Stage(n), Stream(first)).state, Stream(second)).out == [Begin]
  {
    TakeStream(n, first);
    Exhausted(second);
  }
}
