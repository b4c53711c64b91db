/** The composition and dispatch engine: chains of stages built by
    appending, and the depth-first invocation that pushes every event a stage
    emits through the rest of the chain (include/strange/pipeline.h, with the
    terminal `sink` of include/strange/core.h). */
module Pipeline {
  import opened Core
  import opened Streams
  import Take
  import Drop
  import Filter
  import Transform
  import Enumerate
  import TransformInvoke
  import Range
  import Each
  import ToVector

  /** Every kind of stage a chain can hold, with its private state. `arity`
      is the number of values per tuple a `transform_invoke` function pushes.
      `Swallow` is a sink that accepts anything and keeps nothing. */
  datatype Stage =
    | RangeSource(range: Range.Loop)
    | UnrolledSource(unrolled: Range.Unrolled)
    | EachSource(each: Each.Stage<Value>)
    | TakeStage(take: Take.Stage)
    | DropStage(drop: Drop.Stage)
    | FilterStage(filter: Filter.Stage<Value>)
    | TransformStage(transform: Transform.Stage<Value>)
    | EnumerateStage(enumerate: Enumerate.Stage)
    | InvokeStage(invoke: TransformInvoke.Stage<Value>, arity: nat)
    | ToVectorStage(vector: ToVector.Stage<Value>)
    | Swallow

  /** How many values per tuple a stage accepts. */
  datatype Arity = Any | Exactly(n: nat)

  /** How many values per tuple a stage forwards: as many as it received,
      one more (an index in front), or a fixed number. */
  datatype Output = Same | OneMore | Fixed(n: nat)

  /** What the compiler knows about a stage, independent of its state: is it
      a source (callable only without arguments), is it terminal (its
      continuation must be `sink`), and the shapes it accepts and forwards. */
  datatype Shape = Shape(source: bool, terminal: bool, input: Arity, output: Output)

  function ShapeOf(s: Stage): Shape {
    match s
    case RangeSource(_) => Shape(true, false, Exactly(0), Fixed(1))
    case UnrolledSource(_) => Shape(true, false, Exactly(0), Fixed(1))
    case EachSource(_) => Shape(true, false, Exactly(0), Fixed(1))
    case TakeStage(_) => Shape(false, false, Exactly(1), Same)
    case DropStage(_) => Shape(false, false, Exactly(1), Same)
    case FilterStage(_) => Shape(false, false, Any, Same)
    case TransformStage(_) => Shape(false, false, Any, Fixed(1))
    case EnumerateStage(_) => Shape(false, false, Any, OneMore)
    case InvokeStage(_, a) => Shape(false, false, Any, Fixed(a))
    case ToVectorStage(_) => Shape(false, true, Exactly(1), Same)
    case Swallow => Shape(false, true, Any, Same)
  }

  predicate IsTerminal(s: Stage) {
    ShapeOf(s).terminal
  }

  predicate Fits(a: Arity, k: nat) {
    a.Any? || a.n == k
  }

  /** Arity of the tuples a stage forwards when it receives arity `k`. */
  function OutArity(s: Stage, k: nat): nat {
    match ShapeOf(s).output
    case Same => k
    case OneMore => k + 1
    case Fixed(n) => n
  }

  /** A `transform_invoke` stage whose function only ever pushes tuples of
      its declared arity. */
  ghost predicate Conforming(s: Stage) {
    s.InvokeStage? ==> forall xs: seq<Value> :: AllCarry(s.invoke.f(xs), s.arity)
  }

  /** A stage at a position of arity `k` can be called with `e`: value calls
      carry `k` values, and sources take no markers. */
  predicate Admits(s: Shape, k: nat, e: Event<Value>) {
    Carries(e, k) && (IsMarker(e) ==> !s.source)
  }

  /** Reaction of a stage to one call: dispatch to the adapter. The shape of
      a stage never changes, and a terminal stage never pushes anything. */
  function Step(s: Stage, e: Event<Value>): (r: Pushed<Stage, Value>)
    ensures ShapeOf(r.state) == ShapeOf(s)
    ensures Conforming(r.state) == Conforming(s)
    ensures IsTerminal(s) ==> r.out == []
  {
    match s
    case RangeSource(g) => var o := Range.Step(g, e); Pushed(RangeSource(o.state), o.out)
    case UnrolledSource(u) => var o := Range.UnrolledStep(u, e); Pushed(UnrolledSource(o.state), o.out)
    case EachSource(c) => var o := Each.Step(c, e); Pushed(EachSource(o.state), o.out)
    case TakeStage(t) => var o := Take.Step(t, e); Pushed(TakeStage(o.state), o.out)
    case DropStage(d) => var o := Drop.Step(d, e); Pushed(DropStage(o.state), o.out)
    case FilterStage(f) => var o := Filter.Step(f, e); Pushed(FilterStage(o.state), o.out)
    case TransformStage(f) => var o := Transform.Step(f, e); Pushed(TransformStage(o.state), o.out)
    case EnumerateStage(n) => var o := Enumerate.Step(n, e); Pushed(EnumerateStage(o.state), o.out)
    case InvokeStage(f, a) => var o := TransformInvoke.Step(f, e); Pushed(InvokeStage(o.state, a), o.out)
    case ToVectorStage(v) => var o := ToVector.Step(v, e); Pushed(ToVectorStage(o.state), o.out)
    case Swallow => Pushed(s, [])
  }

  /** The compile-time check of a chain whose head is called with tuples of
      arity `k`: at least one stage; each stage accepts what reaches it; only
      the head may be a source; the last stage, and only it, is terminal
      (takes `sink` as continuation). */
  ghost predicate Composes(p: seq<Stage>, k: nat)
    decreases |p|
  {
    && |p| > 0
    && Fits(ShapeOf(p[0]).input, k)
    && Conforming(p[0])
    && (IsTerminal(p[0]) <==> |p| == 1)
    && (|p| > 1 ==> !ShapeOf(p[1]).source && Composes(p[1..], OutArity(p[0], k)))
  }

  /** Two chains with the same stages up to their state. */
  ghost predicate Alike(p: seq<Stage>, q: seq<Stage>) {
    && |p| == |q|
    && forall i :: 0 <= i < |p| ==> ShapeOf(p[i]) == ShapeOf(q[i]) && Conforming(p[i]) == Conforming(q[i])
  }

  lemma {:induction false} ComposesAlike(p: seq<Stage>, q: seq<Stage>, k: nat)
    requires Composes(p, k) && Alike(p, q)
    ensures Composes(q, k)
    decreases |p|
  {
    if |p| > 1 {
      assert Alike(p[1..], q[1..]);
      ComposesAlike(p[1..], q[1..], OutArity(p[0], k));
    }
  }

  lemma StreamCarries(ts: seq<seq<Value>>, k: nat)
    requires forall i :: 0 <= i < |ts| ==> |ts[i]| == k
    ensures AllCarry(Stream(ts), k)
  {
    var es := Stream(ts);
    forall j | 0 <= j < |es|
      ensures Carries(es[j], k)
    {
      if 0 < j < |es| - 1 {
        ValsAt(ts, j - 1);
        assert es[j] == Vals(ts)[j - 1];
      }
    }
  }

  /** A stage that accepts its input forwards tuples of the arity the next
      position expects. */
  lemma StepCarries(s: Stage, k: nat, e: Event<Value>)
    requires Fits(ShapeOf(s).input, k) && Conforming(s) && Admits(ShapeOf(s), k, e)
    ensures AllCarry(Step(s, e).out, OutArity(s, k))
  {
    var out := Step(s, e).out;
    match s
    case RangeSource(g) =>
      if e == Val([]) {
        StreamCarries(Nums(Range.Values(g.start, g.end, g.step)), 1);
      }
    case UnrolledSource(u) =>
      if e == Val([]) {
        StreamCarries(Nums(Range.UnrolledValues(u)), 1);
      }
    case EachSource(c) =>
      if e.Val? && |e.xs| == 0 {
        StreamCarries(Ones(c.ts), 1);
      }
    case TakeStage(t) =>
    case DropStage(d) =>
    case FilterStage(f) =>
    case TransformStage(f) =>
    case EnumerateStage(n) =>
    case InvokeStage(f, a) =>
    case ToVectorStage(v) =>
    case Swallow =>
  }

  /** `pipeline<...>::operator()`: calls the head with `e`, its continuation
      being the rest of the chain — or `sink` for the last stage. Every event
      the head pushes is carried through the whole rest of the chain before
      the next one. The result is the chain with every stage's state as the
      call left it. */
  function Push(p: seq<Stage>, ghost k: nat, e: Event<Value>): (r: seq<Stage>)
    requires Composes(p, k) && Admits(ShapeOf(p[0]), k, e)
    ensures Alike(p, r) && Composes(r, k) && ShapeOf(r[0]) == ShapeOf(p[0])
    decreases |p|, 0
  {
    var h := Step(p[0], e);
    if |p| == 1 then
      // the only stage is terminal; were it to push anything, that would be
      // a call on `sink`, which the compiler rejects
      assert h.out == [];
      var r := [h.state];
      ComposesAlike(p, r, k);
      r
    else
      StepCarries(p[0], k, e);
      var rest := Deliver(p[1..], OutArity(p[0], k), h.out);
      var r := [h.state] + rest;
      assert r[1..] == rest;
      ComposesAlike(p, r, k);
      r
  }

  /** Pushes a sequence of events into a chain, one after another. */
  function Deliver(p: seq<Stage>, ghost k: nat, es: seq<Event<Value>>): (r: seq<Stage>)
    requires Composes(p, k)
    requires forall j :: 0 <= j < |es| ==> Admits(ShapeOf(p[0]), k, es[j])
    ensures Alike(p, r) && Composes(r, k) && ShapeOf(r[0]) == ShapeOf(p[0])
    decreases |p|, 1, |es|
  {
    if |es| == 0 then p
    else
      var q := Push(p, k, es[0]);
      assert forall j :: 0 <= j < |es[1..]| ==> Admits(ShapeOf(q[0]), k, es[1..][j]);
      var r := Deliver(q, k, es[1..]);
      assert Alike(p, r);
      r
  }

  /** The chain as a composition of stream transformers: the head transforms
      the whole of `es`, the next stage the whole of what the head pushed,
      and so on; every stage ends in the state its share leaves it in. */
  function Transduce(p: seq<Stage>, es: seq<Event<Value>>): (r: seq<Stage>)
    requires |p| > 0
    ensures |r| == |p|
    decreases |p|
  {
    var h := Feed(Step, p[0], es);
    if |p| == 1 then [h.state] else [h.state] + Transduce(p[1..], h.out)
  }

  /** The head transforms the whole input, the rest of the chain what the
      head pushed. */
  lemma TransduceCons(p: seq<Stage>, es: seq<Event<Value>>)
    requires |p| > 1
    ensures Transduce(p, es)
         == [Feed(Step, p[0], es).state] + Transduce(p[1..], Feed(Step, p[0], es).out)
  {
  }

  lemma {:induction false} TransduceNothing(p: seq<Stage>)
    requires |p| > 0
    ensures Transduce(p, []) == p
    decreases |p|
  {
    if |p| > 1 {
      TransduceNothing(p[1..]);
    }
  }

  /** Transducing two sequences back to back is transducing one, then the
      other from the states the first left behind. */
  lemma {:induction false} TransduceAppend(p: seq<Stage>, a: seq<Event<Value>>, b: seq<Event<Value>>)
    requires |p| > 0
    ensures Transduce(p, a + b) == Transduce(Transduce(p, a), b)
    decreases |p|
  {
    FeedAppend(Step, p[0], a, b);
    if |p| > 1 {
      var ha := Feed(Step, p[0], a);
      var hb := Feed(Step, ha.state, b);
      var q := Transduce(p, a);
      assert q[0] == ha.state && q[1..] == Transduce(p[1..], ha.out);
      TransduceAppend(p[1..], ha.out, hb.out);
    }
  }

  /** One call through a composed chain is the composition of the stages'
      stream transformers applied to that call. */
  lemma {:induction false} PushIsTransduce(p: seq<Stage>, k: nat, e: Event<Value>)
    requires Composes(p, k) && Admits(ShapeOf(p[0]), k, e)
    ensures Push(p, k, e) == Transduce(p, [e])
    decreases |p|, 0
  {
    FeedOne(Step, p[0], e);
    if |p| > 1 {
      StepCarries(p[0], k, e);
      DeliverIsTransduce(p[1..], OutArity(p[0], k), Step(p[0], e).out);
    }
  }

  /** Composition: feeding a chain event by event, depth first, leaves every
      stage in the same state as letting each stage transform the whole
      stream the previous one produced. */
  lemma {:induction false} DeliverIsTransduce(p: seq<Stage>, k: nat, es: seq<Event<Value>>)
    requires Composes(p, k)
    requires forall j :: 0 <= j < |es| ==> Admits(ShapeOf(p[0]), k, es[j])
    ensures Deliver(p, k, es) == Transduce(p, es)
    decreases |p|, 1, |es|
  {
    if |es| == 0 {
      TransduceNothing(p);
    } else {
      var q := Push(p, k, es[0]);
      PushIsTransduce(p, k, es[0]);
      assert forall j :: 0 <= j < |es[1..]| ==> Admits(ShapeOf(q[0]), k, es[1..][j]);
      DeliverIsTransduce(q, k, es[1..]);
      TransduceAppend(p, [es[0]], es[1..]);
      assert [es[0]] + es[1..] == es;
    }
  }

  /** Depth first: delivering `a` then `b` is delivering `a + b` — the chain
      has fully absorbed `a` before the first event of `b` enters it. */
  lemma DeliverAppend(p: seq<Stage>, k: nat, a: seq<Event<Value>>, b: seq<Event<Value>>)
    requires Composes(p, k)
    requires forall j :: 0 <= j < |a| ==> Admits(ShapeOf(p[0]), k, a[j])
    requires forall j :: 0 <= j < |b| ==> Admits(ShapeOf(p[0]), k, b[j])
    ensures Deliver(p, k, a + b) == Deliver(Deliver(p, k, a), k, b)
  {
    var q := Deliver(p, k, a);
    assert forall j :: 0 <= j < |a + b| ==> Admits(ShapeOf(p[0]), k, (a + b)[j]);
    assert forall j :: 0 <= j < |b| ==> Admits(ShapeOf(q[0]), k, b[j]);
    DeliverIsTransduce(p, k, a + b);
    DeliverIsTransduce(p, k, a);
    DeliverIsTransduce(q, k, b);
    TransduceAppend(p, a, b);
  }

  /** A one-stage pipeline calls its component with `sink` as continuation,
      and `sink` is never reached: the component pushes nothing. */
  lemma OneStage(c: Stage, k: nat, e: Event<Value>)
    requires Composes([c], k) && Admits(ShapeOf(c), k, e)
    ensures Push([c], k, e) == [Step(c, e).state]
    ensures Step(c, e).out == []
  {
  }

  // ---------------------------------------------------------------------
  // Building chains

  /** `builder` (nothing appended yet) or `pipeline<stages...>`. */
  datatype Chain = Builder | Pipeline(stages: seq<Stage>)

  function Components(ch: Chain): seq<Stage> {
    if ch.Builder? then [] else ch.stages
  }

  /** A chain `operator|` accepts on its left: the builder, or a pipeline
      with at least one stage (`append_to_pipeline` has no overload for
      `pipeline<>`). */
  predicate Appendable(ch: Chain) {
    ch.Builder? || |ch.stages| > 0
  }

  /** `append_to_pipeline`: rebuilds the chain head by head, the new
      component ending up as the continuation of the old last stage. */
  function AppendToPipeline(p: seq<Stage>, c: Stage): (r: seq<Stage>)
    requires |p| > 0
    ensures r == p + [c]
    decreases |p|
  {
    if |p| == 1 then [p[0], c] else [p[0]] + AppendToPipeline(p[1..], c)
  }

  /** `chain | c`: a one-stage pipeline from the builder, otherwise the
      chain with `c` appended last, every earlier stage kept in order and
      with its state. */
  function Pipe(ch: Chain, c: Stage): (r: Chain)
    requires Appendable(ch)
    ensures r.Pipeline? && r.stages == Components(ch) + [c]
  {
    if ch.Builder? then Pipeline([c]) else Pipeline(AppendToPipeline(ch.stages, c))
  }

  /** Appending the components of `cs` one at a time, left to right. */
  function PipeAll(ch: Chain, cs: seq<Stage>): (r: Chain)
    requires Appendable(ch)
    ensures Appendable(r)
    ensures Components(r) == Components(ch) + cs
    ensures r.Builder? <==> ch.Builder? && |cs| == 0
    decreases |cs|
  {
    if |cs| == 0 then ch
    else
      assert [cs[0]] + cs[1..] == cs;
      AppendAssoc(Components(ch), [cs[0]], cs[1..]);
      PipeAll(Pipe(ch, cs[0]), cs[1..])
  }

  /** Appending is associative: building in two batches is building in
      one. */
  lemma {:induction false} PipeAssociative(ch: Chain, a: seq<Stage>, b: seq<Stage>)
    requires Appendable(ch)
    ensures PipeAll(PipeAll(ch, a), b) == PipeAll(ch, a + b)
    decreases |a|
  {
    if |a| == 0 {
      assert a + b == b;
    } else {
      assert (a + b)[0] == a[0];
      assert (a + b)[1..] == a[1..] + b;
      PipeAssociative(Pipe(ch, a[0]), a[1..], b);
    }
  }

  // ---------------------------------------------------------------------
  // Invoking chains

  /** Whether `ch(e)` compiles: it is a pipeline (not the bare builder, not
      `pipeline<>`) whose stages compose, and the head accepts `e`. */
  ghost predicate Callable(ch: Chain, k: nat, e: Event<Value>) {
    ch.Pipeline? && Composes(ch.stages, k) && Admits(ShapeOf(ch.stages[0]), k, e)
  }

  /** `ch(e)`. `operator()` is not const: the chain returned, with every
      stage's state as this call left it, is the one the next call runs. */
  function Invoke(ch: Chain, ghost k: nat, e: Event<Value>): (r: Chain)
    requires Callable(ch, k, e)
    ensures r.Pipeline? && Alike(ch.stages, r.stages) && Composes(r.stages, k)
    ensures r.stages == Transduce(ch.stages, [e])
  {
    PushIsTransduce(ch.stages, k, e);
    Pipeline(Push(ch.stages, k, e))
  }

  /** `ch()`: the argument-less call that starts a source-headed chain. */
  function Run(ch: Chain): (r: Chain)
    requires Callable(ch, 0, Val([]))
    ensures r.Pipeline? && Composes(r.stages, 0)
    ensures r.stages == Transduce(ch.stages, [Val([])])
  {
    Invoke(ch, 0, Val([]))
  }

  // ---------------------------------------------------------------------
  // Adapters inside a chain behave as they do alone

  lemma FeedTake(t: Take.Stage, es: seq<Event<Value>>)
    ensures Feed(Step, TakeStage(t), es) == Pushed(TakeStage(Feed(Take.Step, t, es).state), Feed(Take.Step, t, es).out)
  {
    FeedLift(Take.Step, Step, (x: Take.Stage) => TakeStage(x), t, es);
  }

  lemma FeedDrop(d: Drop.Stage, es: seq<Event<Value>>)
    ensures Feed(Step, DropStage(d), es) == Pushed(DropStage(Feed(Drop.Step, d, es).state), Feed(Drop.Step, d, es).out)
  {
    FeedLift(Drop.Step, Step, (x: Drop.Stage) => DropStage(x), d, es);
  }

  lemma FeedToVector(v: ToVector.Stage<Value>, es: seq<Event<Value>>)
    ensures Feed(Step, ToVectorStage(v), es) == Pushed(ToVectorStage(Feed(ToVector.Step, v, es).state), [])
  {
    FeedLift(ToVector.Step, Step, (x: ToVector.Stage<Value>) => ToVectorStage(x), v, es);
    ToVector.Collect(v.result, es);
  }
}
