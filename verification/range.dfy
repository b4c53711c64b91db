/** The numeric sources `range<T>` and `unrolled_range<start, end, step>`
    (include/strange/sources/range.h). */
module Range {
  import opened Core
  import opened Streams

  /** `range{start, end, step}`; the step defaults to 1 (see `Default`). */
  datatype Range = Range(start: int, end: int, step: int)

  /** A range the loop can run over: positive step. */
  type Loop = r: Range | r.step > 0 witness Range(0, 0, 1)

  /** `unrolled_range`: positive step and `start <= end`, so that the number
      of iterations is a valid index-sequence length, and a non-negative
      start, so that `start + k * step` computed in `std::size_t` (the type
      of the index `k`) is the integer value itself. */
  type Unrolled = r: Range | r.step > 0 && 0 <= r.start <= r.end witness Range(0, 0, 1)

  /** `range{start, end}` with the default step. */
  function Default(start: int, end: int): (r: Loop)
    ensures r.step == 1 && r.start == start && r.end == end
  {
    Range(start, end, 1)
  }

  /** The values the `for (i = start; i < end; i += step)` loop visits. */
  function Values(start: int, end: int, step: int): seq<int>
    requires step > 0
    decreases end - start
  {
    if start < end then [start] + Values(start + step, end, step) else []
  }

  /** The loop visits `start, start + step, ...`, each below `end`, and stops
      at the first one that is not: `|vs|` is the least count `c` with
      `start + c * step >= end` (zero when `start >= end`). */
  lemma {:induction false} ValuesSpec(start: int, end: int, step: int)
    requires step > 0
    ensures var vs := Values(start, end, step);
            && (forall k :: 0 <= k < |vs| ==> vs[k] == start + k * step && vs[k] < end)
            && (start >= end ==> |vs| == 0)
            && (start < end ==> (|vs| - 1) * step < end - start <= |vs| * step)
    decreases end - start
  {
    if start < end {
      var vs := Values(start, end, step);
      var rest := Values(start + step, end, step);
      ValuesSpec(start + step, end, step);
      assert vs == [start] + rest;
      forall k | 1 <= k < |vs|
        ensures vs[k] == start + k * step
      {
        assert vs[k] == rest[k - 1];
        assert (k - 1) * step + step == k * step;
      }
      assert (|rest| + 1) * step == |rest| * step + step;
      if start + step < end {
        assert (|rest| - 1) * step + step == |rest| * step;
      }
    }
  }

  /** With the default step, `range{a, b}` visits exactly `a, a+1, ..., b-1`. */
  lemma Consecutive(a: int, b: int)
    requires a <= b
    ensures |Values(a, b, 1)| == b - a
    ensures forall k :: 0 <= k < b - a ==> Values(a, b, 1)[k] == a + k
  {
    ValuesSpec(a, b, 1);
  }

  /** Cutting a default-step range: its suffix from `i` and its prefix up to
      `i` are again default-step ranges. */
  lemma ConsecutiveSlices(a: int, b: int, i: nat)
    requires a + i <= b
    ensures |Values(a, b, 1)| == b - a
    ensures Values(a, b, 1)[i..] == Values(a + i, b, 1)
    ensures Values(a, b, 1)[..i] == Values(a, a + i, 1)
  {
    Consecutive(a, b);
    Consecutive(a + i, b);
    Consecutive(a, a + i);
  }

  /** The values of a range with a positive step increase strictly. */
  lemma Increasing(start: int, end: int, step: int)
    requires step > 0
    ensures var vs := Values(start, end, step);
            forall j, k :: 0 <= j < k < |vs| ==> vs[j] < vs[k]
  {
    var vs := Values(start, end, step);
    ValuesSpec(start, end, step);
    forall j, k | 0 <= j < k < |vs|
      ensures vs[j] < vs[k]
    {
      assert k * step == j * step + (k - j) * step;
      assert (k - j) * step > 0;
    }
  }

  /** The whole stream `range` pushes. */
  function Stream(r: Loop): seq<Event<Value>> {
    Core.Stream(Nums(Values(r.start, r.end, r.step)))
  }

  /** `range::operator()`: the loop itself, pushing `Begin`, each value it
      visits, and `End`. */
  method Emit(r: Loop) returns (out: seq<Event<Value>>)
    ensures out == Stream(r)
  {
    out := [Begin];
    var i := r.start;
    ghost var seen: seq<int> := [];
    while i < r.end
      invariant Values(r.start, r.end, r.step) == seen + Values(i, r.end, r.step)
      invariant out == [Begin] + Vals(Nums(seen))
      decreases r.end - i
    {
      VisitOne(seen, i, r.end, r.step);
      EmitOne(seen, i);
      out := out + [Val([Int(i)])];
      seen := seen + [i];
      i := i + r.step;
    }
    assert seen == Values(r.start, r.end, r.step);
    out := out + [End];
  }

  lemma VisitOne(seen: seq<int>, i: int, end: int, step: int)
    requires step > 0 && i < end
    ensures seen + Values(i, end, step) == (seen + [i]) + Values(i + step, end, step)
  {
    assert Values(i, end, step) == [i] + Values(i + step, end, step);
  }

  lemma EmitOne(seen: seq<int>, i: int)
    ensures [Begin] + Vals(Nums(seen + [i])) == [Begin] + Vals(Nums(seen)) + [Val([Int(i)])]
  {
    assert Nums(seen + [i]) == Nums(seen) + [[Int(i)]];
    ValsAppend(Nums(seen), [[Int(i)]]);
  }

  /** Reaction to one call: a source accepts only the argument-less driver
      call, and answers it with its whole stream; it is const, so every
      invocation pushes the same stream. */
  function Step(r: Loop, e: Event<Value>): (o: Pushed<Loop, Value>)
    ensures o.state == r
    ensures e == Val([]) ==> o.out == Stream(r)
  {
    if e == Val([]) then Pushed(r, Stream(r)) else Pushed(r, [])
  }

  /** The number of iterations `unrolled_range` computes: `(end - start) /
      step`, which rounds down since both operands are non-negative. */
  function Iterations(u: Unrolled): nat {
    (u.end - u.start) / u.step
  }

  /** The values `unrolled_range` pushes: `start + k * step` for every `k`
      below the iteration count. */
  function UnrolledValues(u: Unrolled): (vs: seq<int>)
    ensures |vs| == Iterations(u)
    ensures forall k :: 0 <= k < |vs| ==> vs[k] == u.start + k * u.step
  {
    seq(Iterations(u), k requires 0 <= k < Iterations(u) => u.start + k * u.step)
  }

  function UnrolledStream(u: Unrolled): seq<Event<Value>> {
    Core.Stream(Nums(UnrolledValues(u)))
  }

  function UnrolledStep(u: Unrolled, e: Event<Value>): (o: Pushed<Unrolled, Value>)
    ensures o.state == u
    ensures e == Val([]) ==> o.out == UnrolledStream(u)
  {
    if e == Val([]) then Pushed(u, UnrolledStream(u)) else Pushed(u, [])
  }

  lemma LessByMul(a: int, b: int, c: int)
    requires c > 0 && a * c < b * c
    ensures a < b
  {
  }

  /** A count `c` of steps with `(c - 1) * step < d <= c * step` is `d /
      step`, plus one when `step` does not divide `d`. */
  lemma StepsToCover(c: int, d: int, step: int)
    requires step > 0 && d > 0
    requires (c - 1) * step < d <= c * step
    ensures c == d / step + (if d % step == 0 then 0 else 1)
  {
    var n := d / step;
    var rem := d % step;
    assert d == n * step + rem;
    // (c - 1) * step < d <= c * step pins c to n or n + 1
    assert n * step <= d;
    LessByMul(c - 1, n + 1, step) by {
      assert (n + 1) * step == n * step + step;
    }
    if rem == 0 {
      LessByMul(n - 1, c, step) by {
        assert (n - 1) * step == n * step - step;
      }
    } else {
      LessByMul(n, c, step);
    }
  }

  /** The loop of `range{start, end, step}` runs `(end - start) / step`
      times, plus once more when `step` does not divide `end - start`. */
  lemma RangeLength(start: int, end: int, step: int)
    requires step > 0 && start <= end
    ensures |Values(start, end, step)|
         == (end - start) / step + (if (end - start) % step == 0 then 0 else 1)
  {
    ValuesSpec(start, end, step);
    if start < end {
      StepsToCover(|Values(start, end, step)|, end - start, step);
    }
  }

  /** `unrolled_range` pushes a prefix of what `range` pushes over the same
      bounds, and exactly the same values iff `step` divides `end - start`
      (otherwise `range` visits one value more). */
  lemma UnrolledAgainstRange(u: Unrolled)
    ensures var vs := Values(u.start, u.end, u.step);
            var us := UnrolledValues(u);
            && |us| <= |vs|
            && us == vs[..|us|]
            && (us == vs <==> (u.end - u.start) % u.step == 0)
  {
    var vs := Values(u.start, u.end, u.step);
    var us := UnrolledValues(u);
    RangeLength(u.start, u.end, u.step);
    ValuesSpec(u.start, u.end, u.step);
    assert us == vs[..|us|];
    if (u.end - u.start) % u.step != 0 {
      assert |us| != |vs|;
    }
  }
}
