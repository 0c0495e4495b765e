/**
 The layers as objects: they store their input in forward, and dense layers update their parameters in
 backward. One class stands for the class hierarchy; the kind of a layer selects its methods.
 */
module Layers {
  import opened MachineInts
  import opened Options
  import opened Results
  import opened Sums
  import opened Linear
  import opened TensorIndex
  import opened Kernels
  import opened Reductions
  import opened ThreadPools
  import opened ParallelLoops
  import opened Tensors
  import opened Backprop
  import opened Training

  lemma TensorIsSound(t: Tensor)
    requires t.Valid()
    ensures Sound(t.Get())
  {
    if t.dims == 2 {
      MatrixShape(t);
    }
  }

  datatype Kind =
    | DenseKind(weights: Tensor, bias: Tensor)
    | ReluKind
    | LeakyKind(alpha: real)

  class Layer {
    const kind: Kind
    var lastInput: Option<Tensor>
    var pool: ThreadPool?

    ghost predicate Valid()
      reads this
    {
      && (kind.DenseKind? ==>
            && kind.weights.Valid() && kind.weights.dims == 2
            && kind.bias.Valid() && kind.bias.dims == 1 && kind.bias.shape == [kind.weights.shape[1]]
            && kind.weights.data != kind.bias.data)
      && (lastInput.Some? ==> lastInput.value.Valid() && lastInput.value.data !in Buffers())
    }

    /** The parameter buffers, which backward updates in place. */
    ghost function Buffers(): set<array<real>> {
      if kind.DenseKind? then {kind.weights.data, kind.bias.data} else {}
    }

    ghost function Value(): LayerValue
      reads Buffers()
    {
      match kind
      case DenseKind(w, b) => DenseValue(w.Get(), b.data[..])
      case ReluKind => ReluValue
      case LeakyKind(alpha) => LeakyValue(alpha)
    }

    /** The buffer of the recorded input. */
    ghost function RecordBuffer(): set<array<real>>
      reads this
    {
      if lastInput.Some? then {lastInput.value.data} else {}
    }

    ghost function Rec(): Record
      reads this, RecordBuffer()
    {
      if lastInput.Some? then Some(lastInput.value.Get()) else None
    }

    /** The weights as SetPool leaves them: with the pool of the layer. */
    function Weights(): Tensor
      requires kind.DenseKind?
      reads this
    {
      kind.weights.(pool := pool)
    }

    lemma ValueIsWellFormed()
      requires Valid()
      ensures WellFormed(Value())
      ensures kind.DenseKind? ==> kind.bias.data.Length == kind.weights.shape[1]
    {
      if kind.DenseKind? {
        MatrixShape(kind.weights);
        assert kind.bias.shape[1..] == [];
      }
    }

    /** The draws of the random generator are a parameter; the bias starts at zero. */
    constructor Dense(inputSize: nat, outputSize: nat, draws: seq<real>)
      requires inputSize < TWO_31 && outputSize < TWO_31 && |draws| == inputSize * outputSize
      ensures Valid() && lastInput == None && pool == null
      ensures kind.DenseKind? && fresh(Buffers())
      ensures Value() == DenseValue(TensorValue([inputSize, outputSize], draws), seq(outputSize, _ => 0.0))
    {
      MatrixLengthFits(inputSize, outputSize);
      StridesOfMatrix(inputSize, outputSize);
      var w := Create(2, null, [inputSize, outputSize]);
      assert [outputSize][1..] == [];
      var b := Create(1, null, [outputSize]);
      forall q | 0 <= q < |draws| {
        w.data[q] := draws[q];
      }
      UnaryMap(null, b.data, b.data, b.data.Length, _ => 0.0);
      kind, lastInput, pool := DenseKind(w, b), None, null;
      new;
      assert w.data[..] == draws;
      assert b.data[..] == seq(outputSize, _ => 0.0);
    }

    method DenseForward(input: Tensor) returns (r: Result<Tensor>)
      requires kind.DenseKind? && Valid() && input.Valid() && Usable(pool) && Usable(input.pool)
      requires WellFormed(Value()) && ForwardFits(Value(), input.Get())
      modifies this`lastInput, pool, input.pool
      ensures Valid() && Usable(pool) && Usable(input.pool)
      ensures lastInput.Some? && fresh(lastInput.value.data) && Rec() == Some(input.Get())
      ensures WellFormed(Value()) && (r.Ok? <==> Accepts(Value(), input.Get()))
      ensures r.Ok? ==> r.value.Valid() && fresh(r.value.data) && r.value.pool == input.pool
      ensures r.Ok? ==> r.value.Get() == Forward(Value(), input.Get()) && r.value.data != lastInput.value.data
    {
      hide Usable, Addressable, DotFits, IntStrides, Offset;
      ValueIsWellFormed();
      var stored := Copy(input);
      lastInput := Some(stored);
      MatrixShape(kind.weights);
      if input.dims == 2 {
        MatrixShape(input);
      }
      SmallDotFits(input, Weights());
      var output := Dot(input, Weights());
      if output.Err? {
        return output;
      }
      var y := output.value;
      ghost var product := y.Get();
      MatrixShape(y);
      SmallMatrixIsSafe(y, RowPointer);
      AddBiasBroadcast(pool, (u: real, v: real) => u + v, y.data, kind.bias.data,
                       y.shape[0], y.shape[1], y.strides[0], y.strides[1]);
      BiasIsBroadcast(product, y.Get(), kind.bias.data[..], y.shape[0], y.shape[1]);
      r := Ok(y);
    }

    /** The bias gradient: the sum over the rows. */
    method BiasGradient(gradOutput: Tensor) returns (gradBias: Tensor)
      requires kind.DenseKind? && Valid() && gradOutput.Valid() && Usable(pool)
      requires gradOutput.dims == 2 && gradOutput.shape[1] == kind.weights.shape[1] && FitsInt(gradOutput.Get())
      modifies pool
      ensures Usable(pool)
      ensures gradBias.Valid() && fresh(gradBias.data) && gradBias.data.Length == kind.bias.data.Length
      ensures |gradOutput.Get().shape| == 2 && gradBias.data[..] == ColumnSums(gradOutput.Get())
    {
      ValueIsWellFormed();
      MatrixShape(gradOutput);
      SmallMatrixIsSafe(gradOutput, RowPointer);
      gradBias := Create(1, pool, kind.bias.shape);
      ReduceSumRows(pool, gradOutput.data, gradOutput.shape[0], gradOutput.shape[1],
                    gradOutput.strides[0], gradOutput.strides[1], gradBias.data);
      ColumnsAreColumnSums(gradOutput.Get(), gradBias.data[..], gradOutput.shape[0], gradOutput.shape[1]);
    }

    /** The weight and bias gradients, after the checks of the products. */
    method ParameterGradients(gradOutput: Tensor) returns (r: Result<(Tensor, Tensor)>)
      requires kind.DenseKind? && Valid() && gradOutput.Valid() && Usable(pool) && Usable(gradOutput.pool)
      requires gradOutput.dims == 2 && gradOutput.shape[1] == kind.weights.shape[1]
      requires ReadsInside(Value(), Rec(), gradOutput.Get())
      modifies pool, gradOutput.pool
      ensures Usable(pool) && Usable(gradOutput.pool)
      ensures WellFormed(Value())
      ensures r.Ok? <==> BackwardAccepts(Value(), Rec(), gradOutput.Get())
      ensures r.Ok? ==> r.value.0.Valid() && r.value.1.Valid() && fresh(r.value.0.data) && fresh(r.value.1.data)
      ensures r.Ok? ==> DenseGradient(r.value.0.Get(), r.value.1.data[..])
                        == Gradient(Value(), Unrecorded(Rec()), gradOutput.Get())
      ensures r.Ok? ==> r.value.0.data.Length == lastInput.value.shape[1] * kind.weights.shape[1]
      ensures r.Ok? ==> r.value.1.data.Length == kind.bias.data.Length
    {
      hide Usable, Addressable, DotFits, IntStrides, Offset;
      ValueIsWellFormed();
      if lastInput.None? {
        return Err(RuntimeError);
      }
      if lastInput.value.dims == 2 {
        SmallMatrixIsSafe(lastInput.value, Index);
      }
      var xt := TransposeTensor(lastInput.value, pool);
      if xt.Err? {
        return Err(xt.error);
      }
      MatrixShape(lastInput.value);
      MatrixShape(gradOutput);
      MatrixShape(kind.weights);
      MatrixShape(xt.value);
      AddressableTransposed(lastInput.value.shape[0], lastInput.value.shape[1]);
      SmallDotFits(xt.value, gradOutput);
      var gradWeights := Dot(xt.value, gradOutput);
      if gradWeights.Err? {
        return Err(gradWeights.error);
      }
      var gradBias := BiasGradient(gradOutput);
      r := Ok((gradWeights.value, gradBias));
    }

    /** The gradient with respect to the input; it only reads the weights. */
    method InputGradient(gradOutput: Tensor) returns (r: Result<Tensor>)
      requires kind.DenseKind? && Valid() && gradOutput.Valid() && Usable(pool) && Usable(gradOutput.pool)
      requires ReadsInside(Value(), Rec(), gradOutput.Get())
      modifies pool, gradOutput.pool
      ensures Usable(pool) && Usable(gradOutput.pool)
      ensures WellFormed(Value()) && Sound(gradOutput.Get())
      ensures r.Ok? <==> gradOutput.dims == 2 && gradOutput.shape[1] == kind.weights.shape[1]
      ensures r.Ok? ==> r.value.Valid() && fresh(r.value.data) && r.value.pool == gradOutput.pool
      ensures r.Ok? ==> r.value.Get() == Backward(Value(), Unrecorded(Rec()), gradOutput.Get())
    {
      hide Usable, Addressable, InBuffer, NoOverlap, DotFits, IntStrides, Product;
      ValueIsWellFormed();
      TensorIsSound(gradOutput);
      MatrixShape(kind.weights);
      SmallMatrixIsSafe(kind.weights, Index);
      var wt := TransposeTensor(Weights(), pool);
      MatrixShape(wt.value);
      if gradOutput.dims == 2 {
        MatrixShape(gradOutput);
      }
      SmallDotFits(gradOutput, wt.value);
      r := Dot(gradOutput, wt.value);
    }

    method DenseBackward(gradOutput: Tensor, lr: real) returns (r: Result<Tensor>)
      requires kind.DenseKind? && Valid() && gradOutput.Valid() && Usable(pool) && Usable(gradOutput.pool)
      requires gradOutput.data != kind.weights.data && gradOutput.data != kind.bias.data
      requires ReadsInside(Value(), Rec(), gradOutput.Get())
      modifies pool, gradOutput.pool, kind.weights.data, kind.bias.data
      ensures Valid() && Usable(pool) && Usable(gradOutput.pool)
      ensures Rec() == old(Rec())
      ensures r.Ok? <==> BackwardAccepts(old(Value()), Rec(), gradOutput.Get())
      ensures r.Err? ==> Value() == old(Value())
      ensures WellFormed(old(Value())) && Sound(gradOutput.Get())
      ensures r.Ok? ==> r.value.Valid() && fresh(r.value.data) && r.value.pool == gradOutput.pool
      ensures r.Ok? ==> r.value.Get() == Backward(old(Value()), Unrecorded(Rec()), gradOutput.Get())
      ensures r.Ok? ==>
                Value() == Descend(old(Value()), Gradient(old(Value()), Unrecorded(Rec()), gradOutput.Get()), lr)
    {
      hide Usable;
      var gradInput := InputGradient(gradOutput);
      if gradInput.Err? {
        return gradInput;
      }
      var grads := ParameterGradients(gradOutput);
      if grads.Err? {
        return Err(grads.error);
      }
      MatrixShape(kind.weights);
      Update(grads.value.0, grads.value.1, lr);
      r := gradInput;
    }

    /** The SGD update, in place: the destination of each map is also its first input. */
    method Update(gradWeights: Tensor, gradBias: Tensor, lr: real)
      requires kind.DenseKind? && Valid() && Usable(pool)
      requires gradWeights.data.Length == kind.weights.data.Length && gradBias.data.Length == kind.bias.data.Length
      requires {gradWeights.data, gradBias.data} !! {kind.weights.data, kind.bias.data}
      modifies pool, kind.weights.data, kind.bias.data
      ensures Usable(pool)
      ensures Value() == Descend(old(Value()), DenseGradient(gradWeights.Get(), gradBias.data[..]), lr)
    {
      hide Usable;
      BinaryMap(pool, kind.weights.data, kind.weights.data, gradWeights.data, kind.weights.data.Length,
                (w, gw) => w - lr * gw);
      BinaryMap(pool, kind.bias.data, kind.bias.data, gradBias.data, kind.bias.data.Length,
                (b, gb) => b - lr * gb);
      StepIsMinusScaled(old(kind.weights.data[..]), gradWeights.data[..], kind.weights.data[..], lr);
      StepIsMinusScaled(old(kind.bias.data[..]), gradBias.data[..], kind.bias.data[..], lr);
    }

    // ----- Activations -----

    constructor Relu()
      ensures Valid() && kind == ReluKind && lastInput == None && pool == null
    {
      kind, lastInput, pool := ReluKind, None, null;
    }

    constructor LeakyRelu(alpha: real := 0.01)
      ensures Valid() && kind == LeakyKind(alpha) && lastInput == None && pool == null
    {
      kind, lastInput, pool := LeakyKind(alpha), None, null;
    }

    method ReluForward(input: Tensor) returns (output: Tensor)
      requires kind == ReluKind && Valid() && input.Valid() && Usable(pool)
      modifies this`lastInput, pool
      ensures Valid() && Usable(pool)
      ensures Rec() == Some(input.Get()) && fresh(RecordBuffer())
      ensures output.Valid() && fresh(output.data) && output.pool == pool
      ensures output.Get() == Forward(ReluValue, input.Get())
      ensures output.data.Length == input.data.Length
      ensures forall q :: 0 <= q < input.data.Length ==>
                var a, y := old(input.data[q]), output.data[q];
                y >= 0.0 && y >= a && (y == 0.0 || y == a)
    {
      hide Usable;
      var stored := Copy(input);
      lastInput := Some(stored);
      output := Create(input.dims, pool, input.shape);
      UnaryMap(pool, output.data, stored.data, stored.data.Length, Backprop.Relu);
      assert output.data[..] == Forward(ReluValue, input.Get()).data;
      ReluLaw(input.Get());
    }

    method ReluBackward(gradOutput: Tensor) returns (gradInput: Tensor)
      requires kind == ReluKind && Valid() && gradOutput.Valid() && Usable(pool)
      requires ReadsInside(ReluValue, Rec(), gradOutput.Get())
      modifies pool
      ensures Usable(pool)
      ensures gradInput.Valid() && fresh(gradInput.data) && gradInput.pool == gradOutput.pool
      ensures gradInput.Get() == Backward(ReluValue, Unrecorded(Rec()), gradOutput.Get())
    {
      gradInput := Copy(gradOutput);
      BinaryMap(pool, gradInput.data, lastInput.value.data, gradOutput.data, gradOutput.data.Length, ReluBack);
      assert gradInput.data[..] == Backward(ReluValue, Unrecorded(Rec()), gradOutput.Get()).data;
    }

    method LeakyForward(input: Tensor) returns (output: Tensor)
      requires kind.LeakyKind? && Valid() && input.Valid() && Usable(pool)
      modifies this`lastInput, pool
      ensures Valid() && Usable(pool)
      ensures Rec() == Some(input.Get()) && fresh(RecordBuffer())
      ensures output.Valid() && fresh(output.data) && output.pool == pool
      ensures output.Get() == Forward(LeakyValue(kind.alpha), input.Get())
      ensures output.data.Length == input.data.Length
      ensures forall q :: 0 <= q < input.data.Length ==>
                var a, y := old(input.data[q]), output.data[q];
                (a > 0.0 ==> y == a) && (a <= 0.0 ==> y == kind.alpha * a)
    {
      hide Usable;
      var stored := Copy(input);
      lastInput := Some(stored);
      output := Create(input.dims, pool, input.shape);
      UnaryMap(pool, output.data, input.data, input.data.Length, a => Leaky(kind.alpha, a));
      assert output.data[..] == Forward(LeakyValue(kind.alpha), input.Get()).data;
      assert input.Get() == old(input.Get());
      LeakyLaw(kind.alpha, input.Get());
    }

    /** The gradient starts as a copy of the output gradient and is scaled in place. */
    method LeakyBackward(gradOutput: Tensor) returns (gradInput: Tensor)
      requires kind.LeakyKind? && Valid() && gradOutput.Valid() && Usable(pool)
      requires ReadsInside(LeakyValue(kind.alpha), Rec(), gradOutput.Get())
      modifies pool
      ensures Usable(pool)
      ensures gradInput.Valid() && fresh(gradInput.data) && gradInput.pool == gradOutput.pool
      ensures gradInput.Get() == Backward(LeakyValue(kind.alpha), Unrecorded(Rec()), gradOutput.Get())
    {
      gradInput := Copy(gradOutput);
      BinaryMap(pool, gradInput.data, gradInput.data, lastInput.value.data, gradInput.data.Length,
                (a, b) => LeakyBack(kind.alpha, a, b));
      assert gradInput.data[..] == Backward(LeakyValue(kind.alpha), Unrecorded(Rec()), gradOutput.Get()).data;
    }

    // ----- Dispatch -----

    method ForwardPass(input: Tensor) returns (r: Result<Tensor>)
      requires Valid() && input.Valid() && Usable(pool) && Usable(input.pool)
      requires WellFormed(Value()) && ForwardFits(Value(), input.Get())
      modifies this`lastInput, pool, input.pool
      ensures Valid() && Usable(pool) && Usable(input.pool)
      ensures Rec() == Some(input.Get()) && fresh(RecordBuffer())
      ensures WellFormed(Value()) && (r.Ok? <==> Accepts(Value(), input.Get()))
      ensures r.Ok? ==> r.value.Valid() && fresh(r.value.data)
      ensures r.Ok? ==> r.value.pool == input.pool || r.value.pool == pool
      ensures r.Ok? ==> r.value.Get() == Forward(Value(), input.Get())
    {
      match kind
      case DenseKind(_, _) =>
        r := DenseForward(input);
      case ReluKind =>
        var output := ReluForward(input);
        r := Ok(output);
      case LeakyKind(_) =>
        var output := LeakyForward(input);
        r := Ok(output);
    }

    method BackwardPass(gradOutput: Tensor, lr: real) returns (r: Result<Tensor>)
      requires Valid() && gradOutput.Valid() && Usable(pool) && Usable(gradOutput.pool)
      requires gradOutput.data !in Buffers() && ReadsInside(Value(), Rec(), gradOutput.Get())
      modifies pool, gradOutput.pool, Buffers()
      ensures Usable(pool) && Usable(gradOutput.pool)
      ensures WellFormed(old(Value())) && Sound(gradOutput.Get())
      ensures r.Ok? <==> BackwardAccepts(old(Value()), old(Rec()), gradOutput.Get())
      ensures r.Err? ==> Value() == old(Value())
      ensures r.Ok? ==> r.value.Valid() && fresh(r.value.data) && r.value.pool == gradOutput.pool
      ensures r.Ok? ==> r.value.Get() == Backward(old(Value()), Unrecorded(old(Rec())), gradOutput.Get())
      ensures r.Ok? ==>
                Value() == Descend(old(Value()), Gradient(old(Value()), Unrecorded(old(Rec())), gradOutput.Get()), lr)
    {
      TensorIsSound(gradOutput);
      match kind
      case DenseKind(_, _) =>
        r := DenseBackward(gradOutput, lr);
      case ReluKind =>
        var gradInput := ReluBackward(gradOutput);
        r := Ok(gradInput);
      case LeakyKind(_) =>
        var gradInput := LeakyBackward(gradOutput);
        r := Ok(gradInput);
    }
  }

  lemma {:induction false} StepIsMinusScaled(a: seq<real>, d: seq<real>, r: seq<real>, lr: real)
    requires |a| == |d| == |r|
    requires forall q :: 0 <= q < |a| ==> r[q] == a[q] - lr * d[q]
    ensures r == Minus(a, Scale(lr, d))
  {
    forall q | 0 <= q < |a|
      ensures Minus(a, Scale(lr, d))[q] == a[q] - lr * d[q]
    {
    }
  }

  /** Adding the bias to every row of the product is adding the broadcast bias. */
  lemma {:induction false} BiasIsBroadcast(p: TensorValue, y: TensorValue, b: seq<real>, r: nat, c: nat)
    requires IsMatrix(p, r, c) && IsMatrix(y, r, c) && |b| == c < TWO_31 && Addressable(RowPointer, r, c)
    requires InBuffer(RowPointer, r, c, c, 1, r * c)
    requires forall i, j :: 0 <= i < r && 0 <= j < c ==>
               y.data[Offset(RowPointer, i, j, c, 1)] == p.data[Offset(RowPointer, i, j, c, 1)] + b[j]
    ensures y.data == Plus(p.data, Broadcast(b, r).data)
  {
    forall q | 0 <= q < r * c
      ensures y.data[q] == p.data[q] + Broadcast(b, r).data[q]
    {
      SplitIndex(q, r, c);
      var i, j := q / c, q % c;
      OffsetIsElement(RowPointer, i, j, r, c);
      assert y.data[Offset(RowPointer, i, j, c, 1)] == p.data[Offset(RowPointer, i, j, c, 1)] + b[j];
    }
  }

  /** What reduce_sum_rows adds to zeroes is the column sums. */
  lemma {:induction false} ColumnsAreColumnSums(g: TensorValue, s: seq<real>, r: nat, c: nat)
    requires IsMatrix(g, r, c) && |s| == c < TWO_31 && Addressable(RowPointer, r, c)
    requires forall j :: 0 <= j < c ==> s[j] == 0.0 + Sum(0, r, Column(g.data, j, c, 1))
    ensures s == ColumnSums(g)
  {
    forall j | 0 <= j < c
      ensures s[j] == ColumnSums(g)[j]
    {
      forall i | 0 <= i < r
        ensures Column(g.data, j, c, 1)(i) == Second(Cells(g), j)(i)
      {
        OffsetIsElement(RowPointer, i, j, r, c);
      }
      SumCong(0, r, Column(g.data, j, c, 1), Second(Cells(g), j));
    }
  }
}
