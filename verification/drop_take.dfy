/** `drop<d>` followed by `take<t>`: together they cut a slice out of a
    stream (include/strange/adapters/drop.h with
    include/strange/adapters/take.h, as exercised by test/range.cpp). */
module DropTake {
  import opened Core
  import opened Streams
  import Drop
  import Take

  /** What `take<t>` pushes after `drop<d>`, over a stream of `L` values:
      exactly the slice `v[d .. d + min(t, L - d))` between `Begin` and at
      most one `End`. The `End` appears when `take` closes the stream itself
      (at least `d + t` values) or when `drop` forwards the upstream `End`
      (fewer than `d` values); in between — from `d` to `d + t - 1` values —
      neither does, and the downstream stream stays open. `take<0>` never
      closes it. */
  lemma DropThenTake<V>(d: nat, t: nat, ts: seq<seq<V>>)
    ensures Feed(Take.Step, Take.Stage(t), Feed(Drop.Step, Drop.Stage(d), Stream(ts)).out).out
         == [Begin] + Vals(ts[Min(d, |ts|)..Min(d + t, |ts|)])
            + (if t > 0 && (|ts| < d || |ts| - d >= t) then [End] else [])
  {
    if |ts| < d {
      assert ts[Min(d, |ts|)..Min(d + t, |ts|)] == [];
      ShortStream(d, t, ts);
    } else {
      assert ts[d..][..Min(t, |ts| - d)] == ts[Min(d, |ts|)..Min(d + t, |ts|)];
      LongStream(d, t, ts);
    }
  }

  /** Fewer than `d` values: `drop` forwards only `Begin` and `End`. */
  lemma ShortStream<V>(d: nat, t: nat, ts: seq<seq<V>>)
    requires |ts| < d
    ensures Feed(Take.Step, Take.Stage(t), Feed(Drop.Step, Drop.Stage(d), Stream(ts)).out).out
         == [Begin] + Vals([]) + (if t > 0 then [End] else [])
  {
    var none: seq<seq<V>> := [];
    Drop.DropStream(d, ts);
    assert ts[|ts|..] == none;
    Take.TakeStream(t, none);
  }

  /** At least `d` values: `drop` forwards the rest without an `End`. */
  lemma LongStream<V>(d: nat, t: nat, ts: seq<seq<V>>)
    requires d <= |ts|
    ensures Feed(Take.Step, Take.Stage(t), Feed(Drop.Step, Drop.Stage(d), Stream(ts)).out).out
         == [Begin] + Vals(ts[d..][..Min(t, |ts| - d)]) + (if t > 0 && |ts| - d >= t then [End] else [])
  {
    var rest := ts[d..];
    Drop.DropStream(d, ts);
    assert [Begin] + Vals(rest) + [] == [Begin] + Vals(rest);
    Take.OpenStream(t, rest);
  }

  /** The count of values that get through is `max(0, min(t, L - d))`. */
  lemma SliceLength<V>(d: nat, t: nat, ts: seq<seq<V>>)
    ensures |Payloads(Feed(Take.Step, Take.Stage(t), Feed(Drop.Step, Drop.Stage(d), Stream(ts)).out).out)|
         == (if |ts| <= d then 0 else Min(t, |ts| - d))
  {
    var slice := ts[Min(d, |ts|)..Min(d + t, |ts|)];
    var close: seq<Event<V>> := if t > 0 && (|ts| < d || |ts| - d >= t) then [End] else [];
    DropThenTake(d, t, ts);
    FramedPayloads(slice, close);
    assert |slice| == (if |ts| <= d then 0 else Min(t, |ts| - d));
  }
}
