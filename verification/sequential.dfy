/** Stacks of layers: forward records and passes on, backward updates in place from the last layer down. */
module Sequentials {
  import opened Options
  import opened Results
  import opened Linear
  import opened ThreadPools
  import opened ParallelLoops
  import opened Tensors
  import opened Backprop
  import opened Training
  import opened Layers

  ghost function BuffersOf(ls: seq<Layer>): set<array<real>> {
    set i, b | 0 <= i < |ls| && b in ls[i].Buffers() :: b
  }

  /** The parameters of the stack. */
  ghost function ValuesOf(ls: seq<Layer>): (vs: seq<LayerValue>)
    reads BuffersOf(ls)
    ensures |vs| == |ls|
    ensures forall i :: 0 <= i < |ls| ==> vs[i] == ls[i].Value()
  {
    seq(|ls|, i requires 0 <= i < |ls| reads BuffersOf(ls) => ls[i].Value())
  }

  ghost function RecordBuffersOf(ls: seq<Layer>): set<array<real>>
    reads ls
  {
    set i, b | 0 <= i < |ls| && b in ls[i].RecordBuffer() :: b
  }

  /** The recorded inputs of the stack. */
  ghost function RecordsOf(ls: seq<Layer>): (rs: seq<Record>)
    reads ls, RecordBuffersOf(ls)
    ensures |rs| == |ls|
    ensures forall i :: 0 <= i < |ls| ==> rs[i] == ls[i].Rec()
  {
    seq(|ls|, i requires 0 <= i < |ls| reads ls, RecordBuffersOf(ls) => ls[i].Rec())
  }

  /** The layers are distinct objects and share no parameters. */
  ghost predicate Distinct(ls: seq<Layer>) {
    && (forall i, j :: 0 <= i < j < |ls| ==> ls[i] != ls[j])
    && (forall i, j :: 0 <= i < j < |ls| ==> ls[i].Buffers() !! ls[j].Buffers())
  }

  /** The layers are in order, use this pool, and their recorded inputs are copies. */
  ghost predicate AllReady(ls: seq<Layer>, pool: ThreadPool)
    reads ls
  {
    forall i :: 0 <= i < |ls| ==>
      ls[i].Valid() && ls[i].pool == pool && ls[i].RecordBuffer() !! BuffersOf(ls)
  }

  lemma {:induction false} WellFormedValues(ls: seq<Layer>, pool: ThreadPool)
    requires AllReady(ls, pool)
    ensures AllWellFormed(ValuesOf(ls))
  {
    forall i | 0 <= i < |ls|
      ensures WellFormed(ls[i].Value())
    {
      ls[i].ValueIsWellFormed();
    }
  }

  // ----- Forward -----

  /** Layer i records and computes; layer by layer, nothing else changes. */
  method RecordOne(ls: seq<Layer>, pool: ThreadPool, other: ThreadPool?, i: nat, x: Tensor) returns (r: Result<Tensor>)
    requires AllReady(ls, pool) && Distinct(ls) && i < |ls|
    requires WellFormed(ls[i].Value()) && ForwardFits(ls[i].Value(), x.Get())
    requires x.Valid() && (x.pool == pool || x.pool == other) && Usable(pool) && Usable(other)
    modifies ls[i], pool, other
    ensures Usable(pool) && Usable(other)
    ensures ls[i].Valid() && ls[i].pool == pool
    ensures ls[i].Rec() == Some(x.Get()) && fresh(ls[i].RecordBuffer())
    ensures ValuesOf(ls) == old(ValuesOf(ls))
    ensures forall j :: 0 <= j < |ls| && j != i ==>
              ls[j].Valid() && ls[j].pool == pool &&
              ls[j].RecordBuffer() == old(ls[j].RecordBuffer()) && ls[j].Rec() == old(ls[j].Rec())
    ensures WellFormed(ls[i].Value()) && (r.Ok? <==> Accepts(ls[i].Value(), x.Get()))
    ensures r.Ok? ==> r.value.Valid() && fresh(r.value.data) && (r.value.pool == pool || r.value.pool == other)
    ensures r.Ok? ==> r.value.Get() == Forward(ls[i].Value(), x.Get())
  {
    hide Usable, Forward, Accepts, WellFormed, ForwardFits;
    r := ls[i].ForwardPass(x);
  }

  /** One iteration of forward, seen from the whole stack. */
  method ForwardOne(ls: seq<Layer>, pool: ThreadPool, other: ThreadPool?, i: nat, x: Tensor) returns (r: Result<Tensor>)
    requires AllReady(ls, pool) && Distinct(ls) && i < |ls|
    requires WellFormed(ls[i].Value()) && ForwardFits(ls[i].Value(), x.Get())
    requires x.Valid() && (x.pool == pool || x.pool == other) && Usable(pool) && Usable(other)
    modifies ls[i], pool, other
    ensures AllReady(ls, pool) && Usable(pool) && Usable(other)
    ensures ValuesOf(ls) == old(ValuesOf(ls)) && AllWellFormed(ValuesOf(ls))
    ensures RecordsOf(ls) == old(RecordsOf(ls))[i := Some(x.Get())]
    ensures r.Ok? <==> Accepts(ValuesOf(ls)[i], x.Get())
    ensures r.Ok? ==> r.value.Valid() && fresh(r.value.data) && (r.value.pool == pool || r.value.pool == other)
    ensures r.Ok? ==> r.value.Get() == Forward(ValuesOf(ls)[i], x.Get())
  {
    hide Usable, Forward, Accepts, WellFormed, ForwardFits;
    WellFormedValues(ls, pool);
    r := RecordOne(ls, pool, other, i, x);
  }

  /** forward: every layer records its input and passes its output on. */
  method ForwardStack(ls: seq<Layer>, pool: ThreadPool, input: Tensor) returns (r: Result<Tensor>)
    requires AllReady(ls, pool) && Distinct(ls)
    requires input.Valid() && Usable(pool) && Usable(input.pool)
    requires AllWellFormed(ValuesOf(ls)) && StackFits(ValuesOf(ls), input.Get())
    modifies ls, pool, input.pool
    ensures AllReady(ls, pool) && Usable(pool) && Usable(input.pool)
    ensures ValuesOf(ls) == old(ValuesOf(ls)) && AllWellFormed(ValuesOf(ls))
    ensures r.Ok? <==> StackAccepts(ValuesOf(ls), input.Get())
    ensures r.Ok? ==> r.value.Valid() && r.value.Get() == StackForward(ValuesOf(ls), input.Get())
    ensures r.Ok? ==> Recorded(ValuesOf(ls), input.Get(), RecordsOf(ls))
  {
    hide Usable, AllReady, Distinct, Forward, Accepts, StackAccepts, StackForward, Inputs, WellFormed, ForwardFits,
         StackFits, Chain;
    ghost var vs := ValuesOf(ls);
    ghost var xs := [input.Get()];
    WellFormedValues(ls, pool);
    ChainStarts(vs, input.Get());
    var x := Copy(input);
    for i := 0 to |ls|
      invariant AllReady(ls, pool) && Usable(pool) && Usable(input.pool)
      invariant ValuesOf(ls) == vs
      invariant x.Valid() && fresh(x.data) && (x.pool == pool || x.pool == input.pool)
      invariant Chain(vs, xs, i) && |xs| == i + 1 && xs[0] == input.Get() && xs[i] == x.Get()
      invariant forall j :: 0 <= j < i ==> RecordsOf(ls)[j] == Some(xs[j])
    {
      ChainFits(vs, xs, i);
      var y := ForwardOne(ls, pool, input.pool, i, x);
      if y.Err? {
        ChainBreaks(vs, xs, i);
        return y;
      }
      x := y.value;
      ChainGrows(vs, xs, i, x.Get());
      xs := xs + [x.Get()];
    }
    ChainIsForward(vs, xs);
    r := Ok(x);
  }

  // ----- Backward -----

  /** Layer i goes backward; only its own parameters change. */
  method BackwardOne(ls: seq<Layer>, pool: ThreadPool, other: ThreadPool?, i: nat, g: Tensor, lr: real)
    returns (r: Result<Tensor>)
    requires AllReady(ls, pool) && Distinct(ls) && i < |ls|
    requires g.Valid() && (g.pool == pool || g.pool == other) && Usable(pool) && Usable(other)
    requires g.data !in BuffersOf(ls) && ReadsInside(ls[i].Value(), ls[i].Rec(), g.Get())
    modifies pool, other, ls[i].Buffers()
    ensures Usable(pool) && Usable(other) && AllReady(ls, pool)
    ensures RecordsOf(ls) == old(RecordsOf(ls))
    ensures WellFormed(old(ls[i].Value())) && Sound(g.Get())
    ensures forall j :: 0 <= j < |ls| && j != i ==> ls[j].Value() == old(ls[j].Value())
    ensures r.Ok? <==> BackwardAccepts(old(ls[i].Value()), ls[i].Rec(), g.Get())
    ensures r.Err? ==> ls[i].Value() == old(ls[i].Value())
    ensures r.Ok? ==> r.value.Valid() && fresh(r.value.data) && (r.value.pool == pool || r.value.pool == other)
    ensures r.Ok? ==> r.value.Get() == Backward(old(ls[i].Value()), Unrecorded(ls[i].Rec()), g.Get())
    ensures r.Ok? ==>
              ls[i].Value() == Descend(old(ls[i].Value()),
                                       Gradient(old(ls[i].Value()), Unrecorded(ls[i].Rec()), g.Get()), lr)
  {
    hide Usable, Backward, BackwardAccepts, Gradient, Descend, WellFormed, Sound, ReadsInside;
    r := ls[i].BackwardPass(g, lr);
  }

  /**
   backward: one pass from the last layer to the first, updating parameters on the way. The source
   returns nothing; `grad` is the gradient left in its local variable, None if a layer threw.
   */
  method BackwardStack(ls: seq<Layer>, pool: ThreadPool, gradOutput: Tensor, lr: real)
    returns (threw: bool, ghost grad: Option<TensorValue>)
    requires AllReady(ls, pool) && Distinct(ls)
    requires gradOutput.Valid() && Usable(pool) && Usable(gradOutput.pool)
    requires AllWellFormed(ValuesOf(ls)) && Sound(gradOutput.Get())
    requires PassReadsInside(ValuesOf(ls), RecordsOf(ls), gradOutput.Get())
    modifies pool, gradOutput.pool, BuffersOf(ls)
    ensures AllReady(ls, pool) && Usable(pool) && Usable(gradOutput.pool)
    ensures RecordsOf(ls) == old(RecordsOf(ls))
    ensures grad == Arriving(old(ValuesOf(ls)), old(RecordsOf(ls)), old(gradOutput.Get()), 0)
    ensures threw <==> grad.None?
    ensures forall i :: 0 <= i < |ls| ==>
              ls[i].Value() == AfterPass(old(ValuesOf(ls)), old(RecordsOf(ls)), old(gradOutput.Get()), lr, i)
  {
    hide Usable, AllReady, Distinct, Backward, BackwardAccepts, Gradient, Descend, WellFormed, Sound, ReadsInside,
         PassReadsInside, AfterPass;
    ghost var vs, recs, g := ValuesOf(ls), RecordsOf(ls), gradOutput.Get();
    var x := Copy(gradOutput);
    var i := |ls|;
    while i > 0
      invariant 0 <= i <= |ls|
      invariant AllReady(ls, pool) && Usable(pool) && Usable(gradOutput.pool)
      invariant x.Valid() && fresh(x.data) && (x.pool == pool || x.pool == gradOutput.pool)
      invariant RecordsOf(ls) == recs
      invariant Arriving(vs, recs, g, i) == Some(x.Get())
      invariant forall j :: 0 <= j < i ==> ls[j].Value() == vs[j]
      invariant forall j :: i <= j < |ls| ==> ls[j].Value() == AfterPass(vs, recs, g, lr, j)
    {
      i := i - 1;
      PassStep(vs, recs, g, lr, i, x.Get());
      var y := BackwardOne(ls, pool, gradOutput.pool, i, x, lr);
      if y.Err? {
        NothingArrivesBelow(vs, recs, g, i);
        forall j | 0 <= j <= i ensures AfterPass(vs, recs, g, lr, j) == vs[j] {
          NotReachedIsUnchanged(vs, recs, g, lr, j);
        }
        return true, None;
      }
      x := y.value;
    }
    threw, grad := false, Some(x.Get());
  }

  // ----- The container -----

  class Sequential {
    var layers: seq<Layer>
    const pool: ThreadPool

    ghost predicate Valid()
      reads this, layers
    {
      AllReady(layers, pool) && Distinct(layers)
    }

    constructor (pool: ThreadPool)
      ensures Valid() && layers == [] && this.pool == pool
    {
      layers := [];
      this.pool := pool;
    }

    /** add: the layer takes the pool of the stack. A stack of distinct layers stays one with another new layer. */
    method Add(layer: Layer)
      requires layer.Valid()
      modifies this`layers, layer`pool
      ensures layers == old(layers) + [layer] && layer.pool == pool && layer.Valid()
      ensures ValuesOf(layers) == old(ValuesOf(layers)) + [layer.Value()] && layer.Rec() == old(layer.Rec())
      ensures old(Valid()) && layer !in old(layers) && layer.Buffers() !! BuffersOf(old(layers))
              && layer.RecordBuffer() !! BuffersOf(old(layers)) && layer.Buffers() !! old(RecordBuffersOf(layers))
              ==> Valid()
    {
      layer.pool := pool;
      AppendedBuffers(layers, layer);
      layers := layers + [layer];
    }
  }

  /**
   forward on an input x, then backward with a gradient g of the output's shape: every layer has
   moved along its exact gradient at the parameters vs it had before the step.
   */
  method TrainingStep(ls: seq<Layer>, pool: ThreadPool, input: Tensor, gradOutput: Tensor, lr: real,
                      ghost vs: seq<LayerValue>, ghost x: TensorValue, ghost g: TensorValue)
    returns (threw: bool, ghost inputGradient: Option<TensorValue>)
    requires AllReady(ls, pool) && Distinct(ls) && Usable(pool)
    requires input.Valid() && Usable(input.pool) && gradOutput.Valid() && Usable(gradOutput.pool)
    requires vs == ValuesOf(ls) && x == input.Get() && g == gradOutput.Get()
    requires AllWellFormed(vs) && StackAccepts(vs, x) && FitsStack(vs, x, g) && StackFits(vs, x)
    modifies ls, pool, input.pool, gradOutput.pool, BuffersOf(ls)
    ensures AllReady(ls, pool) && Usable(pool)
    ensures !threw && inputGradient == Some(StackBackward(vs, x, g))
    ensures forall i :: 0 <= i < |vs| ==> ls[i].Value() == StepOf(vs, x, g, lr, i)
  {
    hide Usable, AllReady, Distinct, WellFormed, StackAccepts, StackForward, StackBackward, Inputs, FitsStack,
         StackFits, Arriving, AfterPass, StepOf, PassReadsInside, Recorded, Sound;
    TensorIsSound(input);
    TensorIsSound(gradOutput);
    var output := ForwardStack(ls, pool, input);
    PassDescendsExactly(vs, x, RecordsOf(ls), g, lr);
    threw, inputGradient := BackwardStack(ls, pool, gradOutput, lr);
  }

  lemma AppendedBuffers(ls: seq<Layer>, l: Layer)
    ensures BuffersOf(ls + [l]) == BuffersOf(ls) + l.Buffers()
  {
    var all := ls + [l];
    forall b | b in l.Buffers()
      ensures b in BuffersOf(all)
    {
      assert all[|ls|] == l;
    }
    forall b | b in BuffersOf(ls)
      ensures b in BuffersOf(all)
    {
      var i :| 0 <= i < |ls| && b in ls[i].Buffers();
      assert all[i] == ls[i];
    }
  }

  /** Once a layer throws, the layers below are not reached. */
  lemma {:induction false} NothingArrivesBelow(vs: seq<LayerValue>, recs: seq<Record>, g: TensorValue, i: nat)
    requires AllWellFormed(vs) && |recs| == |vs| && i < |vs| && Sound(g)
    requires Arriving(vs, recs, g, i).None?
    ensures forall j :: 0 <= j <= i ==> Arriving(vs, recs, g, j).None?
  {
    if i > 0 {
      NothingArrivesBelow(vs, recs, g, i - 1);
    }
  }

  /** xs[0], ..., xs[n] are the values that pass through the first n layers. */
  ghost predicate Chain(vs: seq<LayerValue>, xs: seq<TensorValue>, n: nat)
    requires AllWellFormed(vs)
  {
    && n <= |vs| && |xs| == n + 1
    && forall j :: 0 <= j < n ==> Accepts(vs[j], xs[j]) && xs[j + 1] == Forward(vs[j], xs[j])
  }

  lemma ChainStarts(vs: seq<LayerValue>, x: TensorValue)
    requires AllWellFormed(vs)
    ensures Chain(vs, [x], 0)
  {
  }

  lemma {:induction false} ChainGrows(vs: seq<LayerValue>, xs: seq<TensorValue>, n: nat, y: TensorValue)
    requires AllWellFormed(vs) && Chain(vs, xs, n) && |xs| == n + 1 && n < |vs|
    requires Accepts(vs[n], xs[n]) && y == Forward(vs[n], xs[n])
    ensures Chain(vs, xs + [y], n + 1)
  {
  }

  lemma {:induction false} ChainTail(vs: seq<LayerValue>, xs: seq<TensorValue>, n: nat)
    requires AllWellFormed(vs) && Chain(vs, xs, n) && n > 0
    ensures Chain(vs[1..], xs[1..], n - 1)
  {
    forall j | 0 <= j < n - 1
      ensures Accepts(vs[1..][j], xs[1..][j]) && xs[1..][j + 1] == Forward(vs[1..][j], xs[1..][j])
    {
      assert Accepts(vs[j + 1], xs[j + 1]) && xs[j + 1 + 1] == Forward(vs[j + 1], xs[j + 1]);
    }
  }

  lemma {:induction false} ChainIsForward(vs: seq<LayerValue>, xs: seq<TensorValue>)
    requires AllWellFormed(vs) && Chain(vs, xs, |vs|)
    ensures StackAccepts(vs, xs[0]) && StackForward(vs, xs[0]) == xs[|vs|]
    ensures Inputs(vs, xs[0]) == xs[..|vs|]
  {
    if vs != [] {
      ChainTail(vs, xs, |vs|);
      ChainIsForward(vs[1..], xs[1..]);
      assert xs[..|vs|] == [xs[0]] + xs[1..][..|vs| - 1];
    } else {
      assert xs[..0] == [];
    }
  }

  lemma {:induction false} ChainBreaks(vs: seq<LayerValue>, xs: seq<TensorValue>, n: nat)
    requires AllWellFormed(vs) && Chain(vs, xs, n) && n < |vs| && !Accepts(vs[n], xs[n])
    ensures !StackAccepts(vs, xs[0])
  {
    if n > 0 {
      ChainTail(vs, xs, n);
      ChainBreaks(vs[1..], xs[1..], n - 1);
    }
  }

  lemma {:induction false} ChainFits(vs: seq<LayerValue>, xs: seq<TensorValue>, n: nat)
    requires AllWellFormed(vs) && Chain(vs, xs, n) && n < |vs| && StackFits(vs, xs[0])
    ensures ForwardFits(vs[n], xs[n])
  {
    if n > 0 {
      ChainTail(vs, xs, n);
      ChainFits(vs[1..], xs[1..], n - 1);
    }
  }
}
