# strange, modelled in Dafny

`strange` is a header-only C++ library of push-based stream pipelines. A
pipeline is a chain of components built with `operator|` from a `builder`.
Calling it calls the first component with the rest of the chain as its
continuation (`yield`). Each component reacts to three kinds of call:

- `begin`, sent once before any values;
- `end`, sent once after them;
- a call carrying a tuple of values.

A component forwards what it likes downstream, depth first. The last
component's continuation is `sink`, which must never be called.

This project models that engine and the components shipped with it:

- the adapters `take`, `drop`, `filter`, `transform`, `enumerate` and
  `transform_invoke`;
- the sources `range`, `unrolled_range` and `each`;
- the sink `to_vector`.

The model is built as follows:

- `Core.Event` is one call: `Begin`, `End`, or `Val(xs)` carrying a tuple.
  The argument-less driver call `pipeline()` is `Val([])`.
- Every component is a pure step function from its state and one call to
  its new state and the calls it pushes (`Streams.Pushed`).
- `Streams.Feed` runs a step function over a whole sequence of calls. This
  makes each component a stream transformer, and each component module
  proves what its transformer does to a complete stream.
- `Pipeline.Push` is the chain's `operator()`: one call, depth first, every
  pushed event carried through the whole rest of the chain before the next.
- `Pipeline.Transduce` is the same chain seen as a composition of stream
  transformers. `Pipeline.DeliverIsTransduce` proves the two agree.

What the C++ build rejects becomes a precondition. Most of it the compiler
rejects. A call that no component accepts reaches
`pipeline_params_rejected` (include/strange/pipeline.h:21, called at 42
and 59), which is declared but never defined, so that program fails when it
is linked. The rejected cases are:

- an arity that does not fit;
- a source that is not at the head of the chain;
- calling `sink`;
- calling `builder` or `pipeline<>`.

This precondition is `Pipeline.Composes`, with `Pipeline.Callable` for a
whole call.

Component state is never reset between calls. `operator|` stores a
component passed as a temporary inside the chain. A component passed as a
named object is stored as a reference, and its state lives in the caller's
object (include/strange/pipeline.h:91, 97). That is how the tests read a
checker's counts after a run. The model stores every component's state in
the chain value. It states what the tests read from that state, and it
never resets the state:

- a spent `take` forwards only `Begin` on the next call;
- `enumerate` keeps counting.

`drop` forwards `End` only when it saw fewer values than it was told to
drop (include/strange/adapters/drop.h:13-17). The model follows the code
here.

`Scenarios` restates the repository's own test chains (test/range.cpp)
against the model. `FizzBuzz` does the same for the FizzBuzz function of
test/fizzbuzz.cpp.

## Model

| member | source | states |
|---|---|---|
| Take.Step | include/strange/adapters/take.h:9-25 | Begin is forwarded unchanged. A value is forwarded and uses up one of `remaining` while any are left. The value that uses up the last one is followed by End. End itself is forwarded only while something remains. Nothing else is pushed, and the forwarded call comes before the End. `remaining` never grows. |
| Take.TakeStream | include/strange/adapters/take.h:9-25 | On a complete stream of L tuples, `take<n>` forwards Begin, the first min(n, L) tuples in order, and exactly one End. When n = 0 it forwards no End at all. It is left with n - min(n, L). |
| Take.OpenStream | include/strange/adapters/take.h:18-25 | Before End arrives, `take<n>` has already closed the stream exactly when n > 0 and at least n values came. |
| Take.Exhausted | include/strange/adapters/take.h:10-19 | With nothing remaining, a whole stream is reduced to its Begin. |
| Take.SecondInvocation | include/strange/adapters/take.h:9 | The state is not reset. After a first stream of at least n values, a second stream through the same `take<n>` yields only Begin. |
| Drop.Step | include/strange/adapters/drop.h:9-24 | Begin is forwarded. A value is swallowed, and counted off, while any remain to drop; after that it is forwarded. End is forwarded only while some remain to drop. Nothing but the call itself is ever pushed. |
| Drop.FeedVals | include/strange/adapters/drop.h:18-24 | A run of value calls loses its first min(n, L) tuples, and the rest pass in order. |
| Drop.DropStream | include/strange/adapters/drop.h:9-24 | On a complete stream of L tuples, `drop<n>` forwards Begin and the tuples after the first n. It forwards End exactly when L < n. It forwards max(0, L - n) values. |
| DropTake.DropThenTake | test/range.cpp:88-95 | `drop<d>` then `take<t>` lets through exactly the tuples from position d to before d + t. End gets through when t > 0 and either drop let it through (L < d) or take produced it (L - d >= t). |
| DropTake.SliceLength | test/range.cpp:85-108 | The number of values after `drop<d>` then `take<t>` is 0 if L <= d, else min(t, L - d). |
| Filter.SelectSpec | include/strange/adapters/filter.h:15-19 | The reference selection keeps exactly the tuples satisfying the predicate (membership in both directions), in their original order. |
| Filter.FilterStream | include/strange/adapters/filter.h:8-20 | A complete stream comes out as the complete stream of the selected tuples. |
| Transform.ImageSpec | include/strange/adapters/transform.h:15-17 | The image has one element per input tuple, the i-th being `[f(ts[i])]`. |
| Transform.TransformStream | include/strange/adapters/transform.h:8-18 | A complete stream comes out complete, with as many values as went in, the i-th being `f` of the i-th input tuple. |
| Enumerate.TaggedSpec | include/strange/adapters/enumerate.h:15-17 | The i-th tagged tuple is `[k + i]` followed by the i-th input tuple. |
| Enumerate.EnumerateStream | include/strange/adapters/enumerate.h:7-18 | From index k, a complete stream of L tuples comes out complete, numbered k, k+1, ...; the index ends at k + L. |
| Enumerate.SecondInvocation | include/strange/adapters/enumerate.h:8-16 | Begin does not reset the index. A second stream is numbered on from the length of the first. |
| TransformInvoke.FeedVals | include/strange/adapters/transform_invoke.h:15-17 | A run of value calls becomes the concatenation of what the function pushes for each tuple, in order. |
| TransformInvoke.InvokeStream | include/strange/adapters/transform_invoke.h:8-18 | A complete stream becomes Begin, the concatenated pushes, and End. |
| Range.ValuesSpec | include/strange/sources/range.h:14-16 | The loop visits start + k·step for k = 0, 1, ...: each below `end`, the count being the least one whose next value would reach `end`. |
| Range.Increasing | include/strange/sources/range.h:14-16 | With a positive step the visited values strictly increase. |
| Range.Consecutive | include/strange/sources/range.h:11-16 | With the default step 1, `range{a, b}` visits exactly a, a+1, ..., b-1. |
| Range.Emit | include/strange/sources/range.h:12-18 | The loop pushes Begin, every visited value as a one-value call in order, and End. |
| Range.RangeLength | include/strange/sources/range.h:14-16 | For any positive step and `start <= end`, the `range` loop runs `(end - start) / step` times (the unrolled count of range.h:23), plus once more when `step` does not divide `end - start`. |
| Range.UnrolledAgainstRange | include/strange/sources/range.h:21-33 | The unrolled values are a prefix of the looped ones. They are all of them if and only if step divides end - start. |
| Each.Step | include/strange/sources/each.h:14-20 | The driver call yields Begin, one single-value call per stored value in constructor order, and End. The source never changes. |
| Each.EachStream | include/strange/sources/each.h:14-20 | That stream carries exactly the stored values and exactly one End. |
| ToVector.Collect | include/strange/sinks/to_vector.h:10-17 | After any sequence of calls the vector holds its old contents followed by every value received, in arrival order. |
| ToVector.CollectStream | include/strange/sinks/to_vector.h:13-17 | A complete stream of single values appends exactly those values. |
| Pipeline.Step | include/strange/core.h:10-16 | Dispatching a call to a component never changes its shape. A terminal component, whose continuation is `sink`, never pushes anything. |
| Pipeline.Push | include/strange/pipeline.h:32-62 | `operator()` on a chain that compiles, with an admissible call, leaves a chain of the same shape that still compiles and whose head takes the same calls. `sink` is never reached. |
| Pipeline.Deliver | include/strange/pipeline.h:54-61 | Pushing a run of calls into a chain, one after another, keeps it well-formed with the same shape. |
| Pipeline.PushIsTransduce | include/strange/pipeline.h:47-62 | One call through a composed chain, depth first, equals applying the components' stream transformers one after another. |
| Pipeline.DeliverIsTransduce | include/strange/pipeline.h:47-62 | Delivering any admissible sequence of calls event by event, depth first, leaves every component in the state that composing the stream transformers gives. |
| Pipeline.TransduceAppend | include/strange/pipeline.h:54-58 | Running two streams through a chain back to back is running the second from the states the first left. No state is reset. |
| Pipeline.DeliverAppend | include/strange/pipeline.h:54-61 | Depth-first delivery of `a + b` is delivery of `a` and then of `b`. |
| Pipeline.OneStage | include/strange/pipeline.h:32-45 | A one-component pipeline calls its component with `sink` and the component pushes nothing. |
| Pipeline.AppendToPipeline | include/strange/pipeline.h:64-85 | Rebuilding head by head puts the new component last and keeps every earlier one in order, with its state. |
| Pipeline.Pipe | include/strange/pipeline.h:90-101 | Piping `c` onto the builder gives the one-component pipeline. Piping it onto a pipeline `p` gives `p` with `c` appended. |
| Pipeline.PipeAll | include/strange/pipeline.h:90-101 | A sequence of pipes yields exactly the components in order. It is still the builder only when nothing was piped. |
| Pipeline.PipeAssociative | include/strange/pipeline.h:64-101 | Building in two batches is building in one. |
| Pipeline.Invoke | include/strange/pipeline.h:54-61 | Calling a chain returns one that still compiles, with the same shape. Its component states are what the composed transformers give. |
| Pipeline.Run | include/strange/pipeline.h:32-62 | `pipeline()` is the argument-less call, with the same guarantees. |
| FizzBuzz.KindSpec | test/fizzbuzz.cpp:127-140 | For each natural i, the function yields FizzBuzz iff 3 and 5 divide i, Fizz iff only 3 does, Buzz iff only 5 does, and i itself iff neither does. |
| FizzBuzz.YieldAll | test/fizzbuzz.cpp:127-140 | Over a run of integers the function pushes exactly one single-value call per integer, carrying its kind. |
| FizzBuzz.FizzBuzzStream | test/fizzbuzz.cpp:120-145 | `range{1, n+1}` followed by `transform_invoke` of that function pushes Begin, exactly n values, the i-th being the kind of i, and one End, and nothing else: the whole stream is fixed. |
| Scenarios.SumConsecutive | test/range.cpp:31-44 | Twice the sum of a, ..., b-1 is (b - a)(a + b - 1). |
| Scenarios.CheckedConsecutive | test/range.cpp:11-28 | For a range starting above 0 (the checker's initial `last`), the checker stage passes `range{a, b}`: each value exceeds the one before. It records count b - a, the closed-form total, and last b - 1. |
| Scenarios.CheckerRejects | test/range.cpp:14-16 | A range that starts at or below 0 and reaches past it fails the checker's `x > last` test, whatever it would record. |
| Scenarios.SimpleRange | test/range.cpp:46-56 | `range{1, 100}` pushes the values 1..99 and one End. |
| Scenarios.SimpleRangeChecks | test/range.cpp:53-55 | Count 99, total 4950, last 99. |
| Scenarios.RangeWithDrop | test/range.cpp:58-69 | After `drop<20>`, the values 21..99. |
| Scenarios.RangeWithDropChecks | test/range.cpp:66-68 | Count 79, total 4740, last 99. |
| Scenarios.RangeWithTake | test/range.cpp:71-82 | After `take<20>`, the complete stream of 1..20. |
| Scenarios.RangeWithTakeChecks | test/range.cpp:79-81 | Count 20, total 210, last 20. |
| Scenarios.MillionCounts | test/range.cpp:97-105 | `range{1, 1'000'000}` pushes 999'999 values; `drop<500'000>` lets 499'999 through and `take<10>` after it 10. |
| Scenarios.MillionValuesAfterDrop | test/range.cpp:88-92 | The values `drop<500'000>` lets through in that chain: 500'001..999'999. |
| Scenarios.MillionValuesAfterTake | test/range.cpp:88-94 | Feeding the stream of `range{1, 1'000'000}` through `drop<500'000>` and then `take<10>` forwards the values 500'001..500'010. |
| Scenarios.DropTakeOfRange | test/range.cpp:88-95 | For a long enough `range{a, b}`, `drop<d>` then `take<t>` forwards exactly the values a + d, ..., a + d + t - 1. |
| Scenarios.UnrolledMillion | test/range.cpp:110-124 | `unrolled_range<1, 1'000'000>` pushes exactly what `range{1, 1'000'000}` does. |
| Scenarios.RangeDropTakeCollects | test/range.cpp:135-239 | One run of the chain range, `drop<d>`, `take<t>`, `to_vector` compiles. It appends to the vector the range's values from position d to before d + t. |
| Scenarios.DropTenTakeTenCollects | test/range.cpp:135-239 | In the drop-10 / take-10 trace the vector receives 11..20, for any range from 1 with at least 20 values. |
| Scenarios.RangeTakeCollects | include/strange/adapters/take.h:9-25 | One run of the chain range, `take<k>`, `to_vector` leaves the range unchanged and `take` with k - min(k, L). The vector receives the first min(k, L) values. |
| Scenarios.TakeThreeTwice | include/strange/pipeline.h:54-61 | Calling the same chain `range{1, n}`, `take<3>`, `to_vector` twice: the first call collects 1, 2, 3. The second call changes nothing, because `take`'s state is not reset. |

## Left out

- `file` source and sink, and `print`: they do file and console I/O. Values
  that reach them are not modelled beyond the stream they receive.
- `swallow` is modelled as a terminal component that accepts every call and
  keeps nothing. The file defining it is not part of this model.
- The `checker` stages of the tests are not components of the model. What
  they record is stated directly about the stream reaching them
  (`Scenarios.Checked`).
- C++ type machinery: overload resolution on value types is not tracked.
  Compile-time rejection is modelled by tuple arity only, plus "sources only
  at the head" and "`sink` last". One `Value` sum type stands for every
  element type. Each position in the chain is given a single arity. In C++,
  a component may push tuples of different arities to a continuation that
  accepts all of them, for example a `transform_invoke` that pushes `(i)`
  or `(i, i)` followed by a variadic `transform`. Such a chain compiles in
  C++ but does not satisfy `Pipeline.Composes`.
- `appendable_pipeline` / `callable_pipeline` flags: the library declares
  them (include/strange/pipeline.h:9-10, 13, 28-29, 34-35, 49-50 and
  include/strange/core.h:11) but never reads them, so they are not
  modelled as data.
  - `Pipeline.Appendable` follows the `operator|` overloads that exist
    instead. It holds for the builder and for non-empty pipelines. It does
    not hold for `pipeline<>`, which has no `append_to_pipeline` overload,
    although that type's flag says `true` (pipeline.h:28).
  - `sink`'s flag has no counterpart, because `sink` is not a chain in the
    model.
  - Only `Pipeline.Callable` agrees with `callable_pipeline`: `pipeline<>`
    is not callable, and non-empty pipelines are when they compose.
- `pipeline_params_rejected`, the error path of `operator()`: the build
  fails at link time, so it is a precondition (`Composes`, `Admits`), not a
  result.
- Storage by reference: a component piped as a named object is held by
  reference (include/strange/pipeline.h:91, 97). `to_vector` holds its
  vector as `std::vector<T>&` (include/strange/sinks/to_vector.h:11). The
  model keeps each state, and the vector, inside the chain value. It does
  not model aliasing, such as one object shared by two chains.
- `range<T>` for a floating-point `T`: `Range.Range` has integer fields,
  so only integer ranges are modelled. Floating-point steps and rounding
  are not.
- Integer width: `std::size_t` counters are modelled with unbounded
  integers. So is `range<T>` for every integral `T`: `Range.Range` has
  `int` fields. The model therefore leaves out what happens when
  `i += step` (include/strange/sources/range.h:14) passes the range of `T`:
  - for a signed `T`, such as the tests' `range<int>`, it is undefined
    behaviour;
  - a narrow unsigned `T` wraps, and the loop may never end, e.g.
    `range<std::uint8_t>{0, 255, 2}`.
  The counts and values in the tests (up to one million) are far below
  any of these limits.
- `range` with `step <= 0` is excluded by the `Range.Loop` type. When
  `start < end` the C++ loop never ends. When `start >= end` the loop runs
  zero times and the stream is just `Begin`, `End`. That is a well-defined
  case, and the model leaves it out.
- `Range.Unrolled`: admits only a positive `step`, `0 <= start` and
  `start <= end`. The C++ template also compiles in three of the excluded
  cases:
  - a negative `step` with `start > end` counts down. For example,
    `unrolled_range<10, 0, -2>` has `(0 - 10) / -2 = 5` iterations and
    pushes 10, 8, 6, 4, 2 through wrapped `std::size_t` arithmetic
    (include/strange/sources/range.h:23-26);
  - a positive `step` with `start > end` but `end - start > -step`
    truncates to zero iterations (range.h:23), so the stream is `Begin`,
    `End`. Only a gap of at least one step gives a negative count, and
    that does not compile;
  - a negative `start` wraps around. `unrolled_range` computes
    `start + xs * step` with `xs` a `std::size_t` (range.h:24-26). A value
    below 0 comes out as 2^64 plus the value, which the model does not
    represent; values from 0 up are unchanged. For example,
    `unrolled_range<-3, 3>` pushes 2^64-3, 2^64-2, 2^64-1, 0, 1, 2.
- `Scenarios.Checked`: compares the values as integers. The checker takes
  them as `std::size_t` (test/range.cpp:15), which would wrap a negative
  `int` around. For a range lying wholly below 0, the checker would pass
  where `Checked` fails. The tests' ranges all start at 1.
- The assertions at test/range.cpp:103, 106-107, 128 and 131-132 are not
  stated, because the model proves other values there. After
  `drop<500'000>` the last value is 999'999
  (`Scenarios.MillionValuesAfterDrop`). After `take<10>` the values are
  500'001..500'010 (`Scenarios.MillionValuesAfterTake`). The counts of
  lines 97-105 are stated; the totals of lines 98, 102 and 123, 127 follow
  from those two lemmas and `Scenarios.SumConsecutive`, but are not
  written out.
- `Scenarios.MillionCounts`: states the counts of test/range.cpp:97-105,
  not the totals and last values of those lines.
- `FizzBuzz.FizzBuzzStream`: proved for `range{1, n + 1}` for every n rather
  than instantiated at n = 99'999. The FizzBuzz checker's own assertions are
  restated through `FizzBuzz.KindSpec`.
- Re-entrancy and concurrency: the library is single-threaded and
  synchronous, and so is the model.
