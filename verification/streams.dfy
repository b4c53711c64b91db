/** A stage seen as a stream transformer: what it pushes, and the state it is
    left in, after a whole sequence of calls. */
module Streams {
  import opened Core

  /** The reaction of a stage to one or more calls: its state afterwards and
      the events it pushed to its continuation, in order. */
  datatype Pushed<S, W> = Pushed(state: S, out: seq<Event<W>>)

  /** Feeds `es` to a stage one call at a time, threading its state and
      concatenating what it pushes. */
  function Feed<S, V, W>(step: (S, Event<V>) -> Pushed<S, W>, s: S, es: seq<Event<V>>): Pushed<S, W>
    decreases |es|
  {
    if |es| == 0 then Pushed(s, [])
    else
      var h := step(s, es[0]);
      var t := Feed(step, h.state, es[1..]);
      Pushed(t.state, h.out + t.out)
  }

  /** Feeding two sequences back to back is feeding the first, then feeding
      the second from where the first left the stage. */
  lemma {:induction false} FeedAppend<S, V, W>(step: (S, Event<V>) -> Pushed<S, W>, s: S, a: seq<Event<V>>, b: seq<Event<V>>)
    ensures Feed(step, s, a + b)
         == Pushed(Feed(step, Feed(step, s, a).state, b).state,
                   Feed(step, s, a).out + Feed(step, Feed(step, s, a).state, b).out)
    decreases |a|
  {
    if |a| == 0 {
      assert a + b == b;
    } else {
      assert (a + b)[1..] == a[1..] + b;
      FeedAppend(step, step(s, a[0]).state, a[1..], b);
    }
  }

  /** `FeedAppend` with both halves already known. */
  lemma FeedThen<S, V, W>(step: (S, Event<V>) -> Pushed<S, W>, s: S, a: seq<Event<V>>, b: seq<Event<V>>,
                          first: Pushed<S, W>, second: Pushed<S, W>)
    requires Feed(step, s, a) == first
    requires Feed(step, first.state, b) == second
    ensures Feed(step, s, a + b) == Pushed(second.state, first.out + second.out)
  {
    FeedAppend(step, s, a, b);
  }

  /** Feeding a call followed by more calls: one step, then the rest. */
  lemma FeedCons<S, V, W>(step: (S, Event<V>) -> Pushed<S, W>, s: S, e: Event<V>, es: seq<Event<V>>)
    ensures Feed(step, s, [e] + es)
         == Pushed(Feed(step, step(s, e).state, es).state, step(s, e).out + Feed(step, step(s, e).state, es).out)
  {
    assert ([e] + es)[1..] == es;
  }

  /** Feeding a single call is one step. */
  lemma FeedOne<S, V, W>(step: (S, Event<V>) -> Pushed<S, W>, s: S, e: Event<V>)
    ensures Feed(step, s, [e]) == step(s, e)
  {
    assert [e][1..] == [];
  }

  /** A step that wraps another (the same reaction, the state carried inside a
      larger type) feeds a sequence exactly as the wrapped step does. */
  lemma {:induction false} FeedLift<S, T, V>(small: (S, Event<V>) -> Pushed<S, V>, big: (T, Event<V>) -> Pushed<T, V>,
                                              wrap: S -> T, s: S, es: seq<Event<V>>)
    requires forall s': S, e: Event<V> :: big(wrap(s'), e) == Pushed(wrap(small(s', e).state), small(s', e).out)
    ensures Feed(big, wrap(s), es) == Pushed(wrap(Feed(small, s, es).state), Feed(small, s, es).out)
    decreases |es|
  {
    if |es| > 0 {
      FeedLift(small, big, wrap, small(s, es[0]).state, es[1..]);
    }
  }
}
