/**
 One training pass over a stack, on values: every gradient is computed with the parameters from before
 the pass, then every layer takes its step. The error path is part of the definition.
 */
module Training {
  import opened MachineInts
  import opened Options
  import opened Linear
  import opened Backprop

  /** What a layer stored in its last forward call, if there was one. */
  type Record = Option<TensorValue>

  /** The output gradients for which backward does not throw. */
  ghost predicate BackwardAccepts(l: LayerValue, rec: Record, g: TensorValue) {
    l.DenseValue? ==>
      && |g.shape| == 2 && |l.weights.shape| == 2 && g.shape[1] == l.weights.shape[1]
      && rec.Some? && |rec.value.shape| == 2 && rec.value.shape[0] == g.shape[0]
  }

  /** Tensors as the constructors build them. */
  ghost predicate Sound(t: TensorValue) {
    |t.shape| == 2 ==> IsMatrix(t, t.shape[0], t.shape[1])
  }

  /** Few enough elements for every int offset into the tensor. */
  ghost predicate FitsInt(t: TensorValue) {
    |t.data| <= TWO_31
  }

  /** What the code needs so that forward finds its cells: the matrices of a product can be addressed in int. */
  ghost predicate ForwardFits(l: LayerValue, x: TensorValue)
    requires WellFormed(l)
  {
    l.DenseValue? && Accepts(l, x) ==>
      FitsInt(x) && FitsInt(l.weights) && x.shape[0] * l.weights.shape[1] <= TWO_31
  }

  ghost predicate StackFits(ls: seq<LayerValue>, x: TensorValue)
    requires AllWellFormed(ls)
  {
    ls == [] || (ForwardFits(ls[0], x) && (Accepts(ls[0], x) ==> StackFits(ls[1..], Forward(ls[0], x))))
  }

  /**
   What the code needs so that backward reads inside its buffers: an activation reads as many recorded
   inputs as it has gradients; a dense layer reads one recorded column per row of its weights, and its
   matrices can be addressed in int.
   */
  ghost predicate ReadsInside(l: LayerValue, rec: Record, g: TensorValue) {
    && (rec.Some? ==> Sound(rec.value))
    && if l.DenseValue? then
         |l.weights.shape| == 2 ==>
           && FitsInt(l.weights)
           && (|g.shape| == 2 && g.shape[1] == l.weights.shape[1] ==>
                 FitsInt(g) && g.shape[0] * l.weights.shape[0] <= TWO_31)
           && (rec.Some? && |rec.value.shape| == 2 ==>
                 FitsInt(rec.value) && rec.value.shape[1] == l.weights.shape[0])
       else
         rec.Some? && |g.data| <= |rec.value.data|
  }

  /** The gradient that arrives at the output of layer i - 1, if no layer above throws. */
  ghost function Arriving(ls: seq<LayerValue>, recs: seq<Record>, g: TensorValue, i: nat): Option<TensorValue>
    requires AllWellFormed(ls) && |recs| == |ls| && i <= |ls| && Sound(g)
    ensures Arriving(ls, recs, g, i).Some? ==> Sound(Arriving(ls, recs, g, i).value)
    decreases |ls| - i
  {
    if i == |ls| then Some(g)
    else
      var above := Arriving(ls, recs, g, i + 1);
      if above.Some? && BackwardAccepts(ls[i], recs[i], above.value)
      then Some(Backward(ls[i], Unrecorded(recs[i]), above.value)) else None
  }

  function Unrecorded(rec: Record): TensorValue {
    rec.GetOr(TensorValue([], []))
  }

  /** The pass stays inside its buffers. */
  ghost predicate PassReadsInside(ls: seq<LayerValue>, recs: seq<Record>, g: TensorValue)
    requires AllWellFormed(ls) && |recs| == |ls| && Sound(g)
  {
    forall i :: 0 <= i < |ls| && Arriving(ls, recs, g, i + 1).Some? ==>
      ReadsInside(ls[i], recs[i], Arriving(ls, recs, g, i + 1).value)
  }

  /** Layer i takes part in the pass: no layer above it throws, and neither does it. */
  ghost predicate Reached(ls: seq<LayerValue>, recs: seq<Record>, g: TensorValue, i: nat)
    requires AllWellFormed(ls) && |recs| == |ls| && i < |ls| && Sound(g)
  {
    Arriving(ls, recs, g, i).Some?
  }

  /** Layer i after the pass; all gradients use the parameters `ls` from before it. */
  ghost function AfterPass(ls: seq<LayerValue>, recs: seq<Record>, g: TensorValue, lr: real, i: nat): LayerValue
    requires AllWellFormed(ls) && |recs| == |ls| && i < |ls| && Sound(g)
    requires PassReadsInside(ls, recs, g)
  {
    if Reached(ls, recs, g, i)
    then Descend(ls[i], Gradient(ls[i], Unrecorded(recs[i]), Arriving(ls, recs, g, i + 1).value), lr)
    else ls[i]
  }

  /** What happens to layer i and to the gradient when the pass comes to it. */
  lemma {:induction false} PassStep(ls: seq<LayerValue>, recs: seq<Record>, g: TensorValue, lr: real, i: nat,
                                    above: TensorValue)
    requires AllWellFormed(ls) && |recs| == |ls| && i < |ls| && Sound(g) && PassReadsInside(ls, recs, g)
    requires Arriving(ls, recs, g, i + 1) == Some(above)
    ensures Sound(above) && ReadsInside(ls[i], recs[i], above)
    ensures BackwardAccepts(ls[i], recs[i], above) ==>
              && Arriving(ls, recs, g, i) == Some(Backward(ls[i], Unrecorded(recs[i]), above))
              && AfterPass(ls, recs, g, lr, i) == Descend(ls[i], Gradient(ls[i], Unrecorded(recs[i]), above), lr)
    ensures !BackwardAccepts(ls[i], recs[i], above) ==>
              Arriving(ls, recs, g, i).None? && AfterPass(ls, recs, g, lr, i) == ls[i]
  {
  }

  /** Layers that the pass does not come to stay as they are. */
  lemma {:induction false} NotReachedIsUnchanged(ls: seq<LayerValue>, recs: seq<Record>, g: TensorValue, lr: real,
                                                 i: nat)
    requires AllWellFormed(ls) && |recs| == |ls| && i < |ls| && Sound(g) && PassReadsInside(ls, recs, g)
    requires Arriving(ls, recs, g, i).None?
    ensures AfterPass(ls, recs, g, lr, i) == ls[i]
  {
  }

  // ----- After a forward call -----

  /** The inputs of the layers during forward(x). */
  ghost function Inputs(ls: seq<LayerValue>, x: TensorValue): (xs: seq<TensorValue>)
    requires AllWellFormed(ls) && StackAccepts(ls, x)
    ensures |xs| == |ls|
  {
    if ls == [] then [] else [x] + Inputs(ls[1..], Forward(ls[0], x))
  }

  ghost predicate Recorded(ls: seq<LayerValue>, x: TensorValue, recs: seq<Record>)
    requires AllWellFormed(ls) && StackAccepts(ls, x)
  {
    |recs| == |ls| && forall i :: 0 <= i < |ls| ==> recs[i] == Some(Inputs(ls, x)[i])
  }

  lemma {:induction false} ArrivingInTail(ls: seq<LayerValue>, recs: seq<Record>, g: TensorValue, i: nat)
    requires AllWellFormed(ls) && |recs| == |ls| && 1 <= i <= |ls| && Sound(g)
    ensures Arriving(ls, recs, g, i) == Arriving(ls[1..], recs[1..], g, i - 1)
    decreases |ls| - i
  {
    if i < |ls| {
      ArrivingInTail(ls, recs, g, i + 1);
    }
  }

  /** What forward accepted, backward accepts with a gradient of the output's shape. */
  lemma {:induction false} BackwardFollowsForward(l: LayerValue, x: TensorValue, h: TensorValue)
    requires WellFormed(l) && Accepts(l, x) && FitsOutput(l, x, h) && Sound(x) && ForwardFits(l, x)
    ensures BackwardAccepts(l, Some(x), h) && ReadsInside(l, Some(x), h)
  {
  }

  /** What the pass does at layer i. */
  ghost predicate PassAt(ls: seq<LayerValue>, x: TensorValue, recs: seq<Record>, g: TensorValue, i: nat)
    requires AllWellFormed(ls) && StackAccepts(ls, x) && |recs| == |ls| && FitsStack(ls, x, g) && i < |ls| && Sound(g)
  {
    && Reached(ls, recs, g, i)
    && ReadsInside(ls[i], recs[i], Arriving(ls, recs, g, i + 1).value)
    && Gradient(ls[i], Unrecorded(recs[i]), Arriving(ls, recs, g, i + 1).value) == StackGradient(ls, x, g, i)
  }

  /**
   After forward(x) and with a gradient of the output's shape, the pass throws nowhere, stays inside
   its buffers, and hands each layer the gradient of the backward fold.
   */
  lemma {:induction false} PassAfterForward(ls: seq<LayerValue>, x: TensorValue, recs: seq<Record>, g: TensorValue)
    requires AllWellFormed(ls) && StackAccepts(ls, x) && Recorded(ls, x, recs)
    requires Sound(x) && Sound(g) && FitsStack(ls, x, g) && StackFits(ls, x)
    ensures PassReadsInside(ls, recs, g)
    ensures Arriving(ls, recs, g, 0) == Some(StackBackward(ls, x, g))
    ensures forall i :: 0 <= i < |ls| ==> PassAt(ls, x, recs, g, i)
  {
    hide Arriving, PassAt, Inputs, StackAccepts, StackForward, StackBackward, FitsStack, StackFits, ForwardFits,
         Forward, ReadsInside;
    if ls == [] {
      PassOfNothing(ls, x, recs, g);
    } else {
      StackTail(ls, x, g);
      var y := Forward(ls[0], x);
      RecordedTail(ls, x, recs);
      PassAfterForward(ls[1..], y, recs[1..], g);
      PassHead(ls, x, recs, g);
      forall i | 0 < i < |ls| ensures PassAt(ls, x, recs, g, i) {
        PassTail(ls, x, recs, g, i);
      }
      assert forall i :: 0 <= i < |ls| ==> PassAt(ls, x, recs, g, i);
      EachReadsInside(ls, x, recs, g);
    }
  }

  lemma PassOfNothing(ls: seq<LayerValue>, x: TensorValue, recs: seq<Record>, g: TensorValue)
    requires ls == [] && StackAccepts(ls, x) && recs == [] && Sound(g) && FitsStack(ls, x, g)
    ensures PassReadsInside(ls, recs, g)
    ensures Arriving(ls, recs, g, 0) == Some(StackBackward(ls, x, g))
  {
  }

  lemma StackTail(ls: seq<LayerValue>, x: TensorValue, g: TensorValue)
    requires AllWellFormed(ls) && StackAccepts(ls, x) && FitsStack(ls, x, g) && Sound(x) && ls != []
    requires StackFits(ls, x)
    ensures AllWellFormed(ls[1..]) && Accepts(ls[0], x) && StackAccepts(ls[1..], Forward(ls[0], x))
    ensures FitsStack(ls[1..], Forward(ls[0], x), g) && Sound(Forward(ls[0], x))
    ensures ForwardFits(ls[0], x) && StackFits(ls[1..], Forward(ls[0], x))
  {
  }

  lemma {:induction false} EachReadsInside(ls: seq<LayerValue>, x: TensorValue, recs: seq<Record>, g: TensorValue)
    requires AllWellFormed(ls) && StackAccepts(ls, x) && |recs| == |ls| && FitsStack(ls, x, g) && Sound(g)
    requires forall i :: 0 <= i < |ls| ==> PassAt(ls, x, recs, g, i)
    ensures PassReadsInside(ls, recs, g)
  {
    hide Arriving, ReadsInside;
    forall i | 0 <= i < |ls| && Arriving(ls, recs, g, i + 1).Some?
      ensures ReadsInside(ls[i], recs[i], Arriving(ls, recs, g, i + 1).value)
    {
      assert PassAt(ls, x, recs, g, i);
    }
  }

  lemma {:induction false} RecordedTail(ls: seq<LayerValue>, x: TensorValue, recs: seq<Record>)
    requires AllWellFormed(ls) && StackAccepts(ls, x) && Recorded(ls, x, recs) && ls != []
    ensures recs[0] == Some(x) && Recorded(ls[1..], Forward(ls[0], x), recs[1..])
  {
    forall i | 0 <= i < |ls| - 1
      ensures recs[1..][i] == Some(Inputs(ls[1..], Forward(ls[0], x))[i])
    {
      assert recs[i + 1] == Some(Inputs(ls, x)[i + 1]);
    }
  }

  lemma {:induction false} PassHead(ls: seq<LayerValue>, x: TensorValue, recs: seq<Record>, g: TensorValue)
    requires AllWellFormed(ls) && StackAccepts(ls, x) && |recs| == |ls| > 0 && Sound(x) && Sound(g)
    requires FitsStack(ls, x, g) && recs[0] == Some(x) && ForwardFits(ls[0], x)
    requires Arriving(ls[1..], recs[1..], g, 0) == Some(StackBackward(ls[1..], Forward(ls[0], x), g))
    ensures Arriving(ls, recs, g, 0) == Some(StackBackward(ls, x, g)) && PassAt(ls, x, recs, g, 0)
  {
    var h := StackBackward(ls[1..], Forward(ls[0], x), g);
    ArrivingInTail(ls, recs, g, 1);
    BackwardFollowsForward(ls[0], x, h);
  }

  lemma {:induction false} PassTail(ls: seq<LayerValue>, x: TensorValue, recs: seq<Record>, g: TensorValue, i: nat)
    requires AllWellFormed(ls) && StackAccepts(ls, x) && |recs| == |ls| && Sound(g) && FitsStack(ls, x, g)
    requires 0 < i < |ls| && PassAt(ls[1..], Forward(ls[0], x), recs[1..], g, i - 1)
    ensures PassAt(ls, x, recs, g, i)
  {
    ArrivingInTail(ls, recs, g, i);
    ArrivingInTail(ls, recs, g, i + 1);
  }

  /** Layer i after descending along the gradient that the whole stack assigns to it. */
  ghost function StepOf(ls: seq<LayerValue>, x: TensorValue, g: TensorValue, lr: real, i: nat): LayerValue
    requires AllWellFormed(ls) && StackAccepts(ls, x) && FitsStack(ls, x, g) && i < |ls|
  {
    Descend(ls[i], StackGradient(ls, x, g, i), lr)
  }

  /** The whole pass after forward(x): each layer descends along its exact gradient at the old parameters. */
  lemma {:induction false} PassDescendsExactly(ls: seq<LayerValue>, x: TensorValue, recs: seq<Record>, g: TensorValue,
                                               lr: real)
    requires AllWellFormed(ls) && StackAccepts(ls, x) && Recorded(ls, x, recs)
    requires Sound(x) && Sound(g) && FitsStack(ls, x, g) && StackFits(ls, x)
    ensures PassReadsInside(ls, recs, g)
    ensures Arriving(ls, recs, g, 0) == Some(StackBackward(ls, x, g))
    ensures forall i :: 0 <= i < |ls| ==> AfterPass(ls, recs, g, lr, i) == StepOf(ls, x, g, lr, i)
  {
    PassAfterForward(ls, x, recs, g);
    forall i | 0 <= i < |ls|
      ensures AfterPass(ls, recs, g, lr, i) == StepOf(ls, x, g, lr, i)
    {
      assert PassAt(ls, x, recs, g, i);
    }
  }
}
