/** The FizzBuzz function handed to `transform_invoke` in test/fizzbuzz.cpp:
    for each integer it pushes exactly one value, whose type says how the
    integer divides by 3 and 5. */
module FizzBuzz {
  import opened Core
  import opened Streams
  import TransformInvoke
  import Range

  const FizzBuzz: Value := Unit("FizzBuzz")
  const Fizz: Value := Unit("Fizz")
  const Buzz: Value := Unit("Buzz")

  /** The one value pushed for `i`. */
  function Kind(i: int): Value {
    var divides3 := i % 3 == 0;
    var divides5 := i % 5 == 0;
    if divides3 && divides5 then FizzBuzz
    else if divides3 then Fizz
    else if divides5 then Buzz
    else Int(i)
  }

  /** What the lambda pushes on its continuation for a call `xs`. It only
      accepts a single integer; any other shape would not compile, and gets
      no reaction here. */
  function Yield(xs: seq<Value>): (r: seq<Event<Value>>)
    ensures |xs| == 1 && xs[0].Int? ==> r == [Val([Kind(xs[0].i)])]
  {
    if |xs| == 1 && xs[0].Int? then [Val([Kind(xs[0].i)])] else []
  }

  /** The checker's expectation in the test, for every non-negative `i`:
      `FizzBuzz` iff 3 and 5 divide `i`, `Fizz` iff only 3 does, `Buzz` iff
      only 5 does, and `i` itself iff neither does. */
  lemma KindSpec(i: nat)
    ensures Kind(i) == FizzBuzz <==> i % 3 == 0 && i % 5 == 0
    ensures Kind(i) == Fizz <==> i % 3 == 0 && i % 5 != 0
    ensures Kind(i) == Buzz <==> i % 3 != 0 && i % 5 == 0
    ensures Kind(i) == Int(i) <==> i % 3 != 0 && i % 5 != 0
  {
    assert FizzBuzz != Fizz && FizzBuzz != Buzz && Fizz != Buzz by {
      assert |FizzBuzz.name| == 8 && |Fizz.name| == 4 && Fizz.name[0] != Buzz.name[0];
    }
  }

  /** Reference definition: the kind of each integer, in order. */
  function Kinds(vs: seq<int>): (r: seq<Value>)
    ensures |r| == |vs|
    ensures forall i :: 0 <= i < |vs| ==> r[i] == Kind(vs[i])
  {
    if |vs| == 0 then [] else [Kind(vs[0])] + Kinds(vs[1..])
  }

  lemma {:induction false} YieldAll(vs: seq<int>)
    ensures TransformInvoke.FlatMap(Yield, Nums(vs)) == Vals(Ones(Kinds(vs)))
    decreases |vs|
  {
    if |vs| > 0 {
      assert Nums(vs)[1..] == Nums(vs[1..]);
      YieldAll(vs[1..]);
      assert Ones(Kinds(vs)) == [[Kind(vs[0])]] + Ones(Kinds(vs[1..]));
      ValsAppend([[Kind(vs[0])]], Ones(Kinds(vs[1..])));
    }
  }

  /** `range{1, n + 1} | transform_invoke<fizzbuzz>`: between `Begin` and
      `End`, exactly `n` single-value calls, the i-th (from 1) carrying the
      kind of `i`, and nothing else. */
  lemma FizzBuzzStream(n: nat)
    ensures var out := Feed(TransformInvoke.Step, TransformInvoke.Stage(Yield), Range.Stream(Range.Default(1, n + 1))).out;
            && out == Stream(Ones(Kinds(Range.Values(1, n + 1, 1))))
            && out[0] == Begin && out[|out| - 1] == End
            && |Payloads(out)| == n
            && (forall i :: 1 <= i <= n ==> Payloads(out)[i - 1] == [Kind(i)])
            && Ends(out) == 1
  {
    var vs := Range.Values(1, n + 1, 1);
    Range.ValuesSpec(1, n + 1, 1);
    assert |vs| == n;
    TransformInvoke.InvokeStream(TransformInvoke.Stage(Yield), Nums(vs));
    YieldAll(vs);
    StreamPayloads(Ones(Kinds(vs)));
  }
}
