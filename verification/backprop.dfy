/**
 What the layers compute, on values, and why their backward passes are exact reverse mode.
 Numbers are reals; a layer's parameters are part of its value.
 */
module Backprop {
  import opened Sums
  import opened Kernels
  import opened Linear

  datatype LayerValue =
    | DenseValue(weights: TensorValue, bias: seq<real>)
    | ReluValue
    | LeakyValue(alpha: real)

  ghost predicate WellFormed(l: LayerValue) {
    l.DenseValue? ==>
      |l.weights.shape| == 2 && IsMatrix(l.weights, l.weights.shape[0], l.weights.shape[1]) &&
      |l.bias| == l.weights.shape[1]
  }

  /** The inputs for which forward does not throw: a dense layer needs a matrix with matching columns. */
  predicate Accepts(l: LayerValue, x: TensorValue)
    requires WellFormed(l)
  {
    l.DenseValue? ==> |x.shape| == 2 && x.shape[1] == l.weights.shape[0] && IsMatrix(x, x.shape[0], x.shape[1])
  }

  function Relu(a: real): real { if a > 0.0 then a else 0.0 }
  function ReluBack(a: real, b: real): real { if a > 0.0 then b else 0.0 }
  function Leaky(alpha: real, a: real): real { if a > 0.0 then a else alpha * a }
  function LeakyBack(alpha: real, a: real, b: real): real { a * (if b > 0.0 then 1.0 else alpha) }

  function Forward(l: LayerValue, x: TensorValue): (y: TensorValue)
    requires WellFormed(l) && Accepts(l, x)
    ensures y.shape == if l.DenseValue? then [x.shape[0], l.weights.shape[1]] else x.shape
    ensures l.DenseValue? ==> IsMatrix(y, x.shape[0], l.weights.shape[1])
    ensures !l.DenseValue? ==> |y.data| == |x.data|
  {
    match l
    case DenseValue(w, b) =>
      TensorValue([x.shape[0], w.shape[1]], Plus(MatMul(x, w).data, Broadcast(b, x.shape[0]).data))
    case ReluValue =>
      TensorValue(x.shape, seq(|x.data|, q requires 0 <= q => Relu(Entry(x.data, q))))
    case LeakyValue(alpha) =>
      TensorValue(x.shape, seq(|x.data|, q requires 0 <= q => Leaky(alpha, Entry(x.data, q))))
  }

  /** A ReLU layer gives the greater of 0 and its input: not less than either, and one of the two. */
  lemma ReluLaw(x: TensorValue)
    ensures var y := Forward(ReluValue, x);
            && y.shape == x.shape && |y.data| == |x.data|
            && forall q :: 0 <= q < |x.data| ==>
                 y.data[q] >= 0.0 && y.data[q] >= x.data[q] && (y.data[q] == 0.0 || y.data[q] == x.data[q])
  {
  }

  /** A leaky ReLU layer keeps positive elements and multiplies the others by alpha. */
  lemma LeakyLaw(alpha: real, x: TensorValue)
    ensures var y := Forward(LeakyValue(alpha), x);
            && y.shape == x.shape && |y.data| == |x.data|
            && forall q :: 0 <= q < |x.data| ==>
                 && (x.data[q] > 0.0 ==> y.data[q] == x.data[q])
                 && (x.data[q] <= 0.0 ==> y.data[q] == alpha * x.data[q])
  {
  }

  /** Cell (i, j) of a dense layer's output: row i of the input against column j of the weights, plus bias j. */
  lemma {:induction false} DenseLaw(w: TensorValue, b: seq<real>, x: TensorValue, i: int, j: int)
    requires WellFormed(DenseValue(w, b)) && Accepts(DenseValue(w, b), x)
    requires 0 <= i < x.shape[0] && 0 <= j < w.shape[1]
    ensures At(Forward(DenseValue(w, b), x), i, j)
         == Sum(0, x.shape[1], RowByColumn(Cells(x), Cells(w), i, j)) + b[j]
  {
    JoinIndex(i, j, x.shape[0], w.shape[1]);
    MatMulAt(x, w, i, j);
    FromCellsAt(x.shape[0], |b|, (i, j) => Entry(b, j), i, j);
  }

  /** g can be the gradient of the output that l produced from x. */
  ghost predicate FitsOutput(l: LayerValue, x: TensorValue, g: TensorValue)
    requires WellFormed(l) && Accepts(l, x)
  {
    g.shape == Forward(l, x).shape && |g.data| == |Forward(l, x).data|
  }

  /** The gradient with respect to the input, from the gradient g with respect to the output. */
  function Backward(l: LayerValue, x: TensorValue, g: TensorValue): (h: TensorValue)
    requires WellFormed(l)
    requires l.DenseValue? ==> |g.shape| == 2 && g.shape[0] >= 0
    ensures !l.DenseValue? ==> h.shape == g.shape && |h.data| == |g.data|
    ensures l.DenseValue? ==> IsMatrix(h, g.shape[0], l.weights.shape[0])
  {
    match l
    case DenseValue(w, b) => MatMul(g, Transpose(w))
    case ReluValue =>
      TensorValue(g.shape, seq(|g.data|, q requires 0 <= q => ReluBack(Entry(x.data, q), Entry(g.data, q))))
    case LeakyValue(alpha) =>
      TensorValue(g.shape, seq(|g.data|, q requires 0 <= q => LeakyBack(alpha, Entry(g.data, q), Entry(x.data, q))))
  }

  /** The gradients with respect to the weights and the bias. */
  datatype ParameterGradient = NoParameters | DenseGradient(weights: TensorValue, bias: seq<real>)

  function Gradient(l: LayerValue, x: TensorValue, g: TensorValue): ParameterGradient
    requires l.DenseValue? ==> |x.shape| == 2 && x.shape[0] >= 0 && x.shape[1] >= 0
    requires l.DenseValue? ==> |g.shape| == 2 && g.shape[0] >= 0 && g.shape[1] >= 0
  {
    if l.DenseValue? then DenseGradient(MatMul(Transpose(x), g), ColumnSums(g)) else NoParameters
  }

  /** One SGD step on the parameters. */
  function Descend(l: LayerValue, d: ParameterGradient, lr: real): LayerValue
    requires l.DenseValue? ==> d.DenseGradient?
  {
    if l.DenseValue? then
      DenseValue(TensorValue(l.weights.shape, Minus(l.weights.data, Scale(lr, d.weights.data))),
                 Minus(l.bias, Scale(lr, d.bias)))
    else l
  }

  // ----- One layer -----

  /** The two inputs lie on the same side of every kink of the layer. */
  ghost predicate SameSide(l: LayerValue, x: TensorValue, x': TensorValue) {
    !l.DenseValue? ==>
      forall q :: 0 <= q < |x.data| ==> (Entry(x.data, q) > 0.0 <==> Entry(x'.data, q) > 0.0)
  }

  lemma {:induction false} InnerOfDense(w: TensorValue, b: seq<real>, x: TensorValue, g: TensorValue)
    requires WellFormed(DenseValue(w, b)) && Accepts(DenseValue(w, b), x) && FitsOutput(DenseValue(w, b), x, g)
    ensures Inner(g.data, Forward(DenseValue(w, b), x).data)
         == Inner(g.data, MatMul(x, w).data) + Inner(g.data, Broadcast(b, x.shape[0]).data)
  {
    InnerPlus(g.data, MatMul(x, w).data, Broadcast(b, x.shape[0]).data);
  }

  lemma {:induction false} DenseIsExact(l: LayerValue, x: TensorValue, x': TensorValue, g: TensorValue)
    requires l.DenseValue? && WellFormed(l) && Accepts(l, x) && Accepts(l, x') && x.shape == x'.shape
    requires FitsOutput(l, x, g)
    ensures Inner(g.data, Minus(Forward(l, x').data, Forward(l, x).data))
         == Inner(Backward(l, x, g).data, Minus(x'.data, x.data))
  {
    var r, n, c := x.shape[0], x.shape[1], l.weights.shape[1];
    InnerMinus(g.data, Forward(l, x').data, Forward(l, x).data);
    InnerOfDense(l.weights, l.bias, x, g);
    InnerOfDense(l.weights, l.bias, x', g);
    AdjointOfInput(g, x, l.weights, r, n, c);
    AdjointOfInput(g, x', l.weights, r, n, c);
    InnerMinus(Backward(l, x, g).data, x'.data, x.data);
  }

  lemma {:induction false} ActivationIsExact(l: LayerValue, x: TensorValue, x': TensorValue, g: TensorValue)
    requires !l.DenseValue? && |x.data| == |x'.data| && SameSide(l, x, x')
    requires FitsOutput(l, x, g)
    ensures Inner(g.data, Minus(Forward(l, x').data, Forward(l, x).data))
         == Inner(Backward(l, x, g).data, Minus(x'.data, x.data))
  {
    var lhs := Products(g.data, Minus(Forward(l, x').data, Forward(l, x).data));
    var rhs := Products(Backward(l, x, g).data, Minus(x'.data, x.data));
    forall q | 0 <= q < |g.data|
      ensures lhs(q) == rhs(q)
    {
      var a, a', b := Entry(x.data, q), Entry(x'.data, q), Entry(g.data, q);
      if l.LeakyValue? {
        LeakySlope(l.alpha, a, a', b);
      }
    }
    SumCong(0, |g.data|, lhs, rhs);
  }

  lemma LeakySlope(alpha: real, a: real, a': real, b: real)
    requires a > 0.0 <==> a' > 0.0
    ensures b * (Leaky(alpha, a') - Leaky(alpha, a)) == LeakyBack(alpha, b, a) * (a' - a)
  {
  }

  /** A layer's backward is the exact adjoint of the change its forward makes. */
  lemma {:induction false} LayerIsExact(l: LayerValue, x: TensorValue, x': TensorValue, g: TensorValue)
    requires WellFormed(l) && Accepts(l, x) && Accepts(l, x')
    requires x.shape == x'.shape && |x.data| == |x'.data| && SameSide(l, x, x')
    requires FitsOutput(l, x, g)
    ensures Inner(g.data, Minus(Forward(l, x').data, Forward(l, x).data))
         == Inner(Backward(l, x, g).data, Minus(x'.data, x.data))
  {
    if l.DenseValue? {
      DenseIsExact(l, x, x', g);
    } else {
      ActivationIsExact(l, x, x', g);
    }
  }

  /** A change (v, u) of weights and bias. */
  function Perturbed(l: LayerValue, v: seq<real>, u: seq<real>): LayerValue
    requires l.DenseValue?
  {
    DenseValue(TensorValue(l.weights.shape, Plus(l.weights.data, v)), Plus(l.bias, u))
  }

  /** A dense layer's parameter gradients are exact for any change of its parameters. */
  lemma {:induction false} ParametersAreExact(l: LayerValue, x: TensorValue, v: seq<real>, u: seq<real>, g: TensorValue)
    requires l.DenseValue? && WellFormed(l) && Accepts(l, x) && FitsOutput(l, x, g)
    requires |v| == |l.weights.data| && |u| == |l.bias|
    ensures WellFormed(Perturbed(l, v, u)) && Accepts(Perturbed(l, v, u), x)
    ensures Inner(g.data, Minus(Forward(Perturbed(l, v, u), x).data, Forward(l, x).data))
         == Inner(Gradient(l, x, g).weights.data, v) + Inner(Gradient(l, x, g).bias, u)
  {
    var p := Perturbed(l, v, u);
    var r, n, c := x.shape[0], x.shape[1], l.weights.shape[1];
    InnerMinus(g.data, Forward(p, x).data, Forward(l, x).data);
    InnerOfDense(l.weights, l.bias, x, g);
    InnerOfDense(p.weights, p.bias, x, g);
    AdjointOfWeights(g, x, l.weights, r, n, c);
    AdjointOfWeights(g, x, p.weights, r, n, c);
    AdjointOfBias(g, l.bias, r, c);
    AdjointOfBias(g, p.bias, r, c);
    InnerPlus(Gradient(l, x, g).weights.data, l.weights.data, v);
    InnerPlus(Gradient(l, x, g).bias, l.bias, u);
  }

  /** An SGD step is the change of the parameters by -lr times their gradients. */
  lemma {:induction false} DescentIsPerturbation(l: LayerValue, d: ParameterGradient, lr: real)
    requires l.DenseValue? && d.DenseGradient?
    requires |d.weights.data| == |l.weights.data| && |d.bias| == |l.bias|
    ensures Descend(l, d, lr) == Perturbed(l, Scale(-lr, d.weights.data), Scale(-lr, d.bias))
  {
    PlusNegative(l.weights.data, d.weights.data, lr);
    PlusNegative(l.bias, d.bias, lr);
  }

  /** <d, lr * d> */
  ghost function StepGain(d: ParameterGradient, lr: real): real
    requires d.DenseGradient?
  {
    Inner(d.weights.data, Scale(lr, d.weights.data)) + Inner(d.bias, Scale(lr, d.bias))
  }

  /** ||dW||^2 + ||db||^2 */
  ghost function SquaredNorm(d: ParameterGradient): real
    requires d.DenseGradient?
  {
    Inner(d.weights.data, d.weights.data) + Inner(d.bias, d.bias)
  }

  lemma {:induction false} GainIsScaledNorm(d: ParameterGradient, lr: real)
    requires d.DenseGradient?
    ensures StepGain(d, lr) == lr * SquaredNorm(d)
  {
    InnerScale(d.weights.data, lr, d.weights.data);
    InnerScale(d.bias, lr, d.bias);
  }

  lemma {:induction false} GainOfNegative(d: ParameterGradient, lr: real)
    requires d.DenseGradient?
    ensures StepGain(d, -lr) == -StepGain(d, lr)
  {
    GainIsScaledNorm(d, lr);
    GainIsScaledNorm(d, -lr);
    var s := SquaredNorm(d);
    assert (-lr) * s == -(lr * s);
  }

  /** ParametersAreExact as a statement about the new output. */
  lemma {:induction false} OutputAfterChange(l: LayerValue, x: TensorValue, v: seq<real>, u: seq<real>, g: TensorValue)
    requires l.DenseValue? && WellFormed(l) && Accepts(l, x) && FitsOutput(l, x, g)
    requires |v| == |l.weights.data| && |u| == |l.bias|
    ensures WellFormed(Perturbed(l, v, u)) && Accepts(Perturbed(l, v, u), x)
    ensures Inner(g.data, Forward(Perturbed(l, v, u), x).data)
         == Inner(g.data, Forward(l, x).data)
            + (Inner(Gradient(l, x, g).weights.data, v) + Inner(Gradient(l, x, g).bias, u))
  {
    ParametersAreExact(l, x, v, u, g);
    InnerMinus(g.data, Forward(Perturbed(l, v, u), x).data, Forward(l, x).data);
  }

  ghost function Loss(l: LayerValue, x: TensorValue, g: TensorValue): real
    requires WellFormed(l) && Accepts(l, x)
  {
    Inner(g.data, Forward(l, x).data)
  }

  /** The layer after one SGD step. */
  ghost function Stepped(l: LayerValue, x: TensorValue, g: TensorValue, lr: real): LayerValue
    requires l.DenseValue? && WellFormed(l) && Accepts(l, x) && FitsOutput(l, x, g)
  {
    Descend(l, Gradient(l, x, g), lr)
  }

  lemma {:induction false} SteppedIsPerturbed(l: LayerValue, x: TensorValue, g: TensorValue, lr: real,
                                              d: ParameterGradient)
    requires l.DenseValue? && WellFormed(l) && Accepts(l, x) && FitsOutput(l, x, g) && d == Gradient(l, x, g)
    ensures Stepped(l, x, g, lr) == Perturbed(l, Scale(-lr, d.weights.data), Scale(-lr, d.bias))
    ensures WellFormed(Stepped(l, x, g, lr)) && Accepts(Stepped(l, x, g, lr), x)
  {
    DescentIsPerturbation(l, d, lr);
  }

  lemma {:induction false} LossAfterStep(l: LayerValue, x: TensorValue, g: TensorValue, lr: real, d: ParameterGradient)
    requires l.DenseValue? && WellFormed(l) && Accepts(l, x) && FitsOutput(l, x, g) && d == Gradient(l, x, g)
    ensures WellFormed(Stepped(l, x, g, lr)) && Accepts(Stepped(l, x, g, lr), x)
    ensures Loss(Stepped(l, x, g, lr), x, g) == Loss(l, x, g) - StepGain(d, lr)
  {
    SteppedIsPerturbed(l, x, g, lr, d);
    OutputAfterChange(l, x, Scale(-lr, d.weights.data), Scale(-lr, d.bias), g);
    GainOfNegative(d, lr);
  }

  /** One SGD step lowers <G, output> by exactly lr times the squared norm of the gradient. */
  lemma {:induction false} DescentIsExact(l: LayerValue, x: TensorValue, g: TensorValue, lr: real, d: ParameterGradient)
    requires l.DenseValue? && WellFormed(l) && Accepts(l, x) && FitsOutput(l, x, g) && d == Gradient(l, x, g)
    ensures WellFormed(Stepped(l, x, g, lr)) && Accepts(Stepped(l, x, g, lr), x)
    ensures Loss(Stepped(l, x, g, lr), x, g) == Loss(l, x, g) - lr * SquaredNorm(d)
  {
    LossAfterStep(l, x, g, lr, d);
    GainIsScaledNorm(d, lr);
  }

  // ----- A stack of layers -----

  ghost predicate AllWellFormed(ls: seq<LayerValue>) {
    forall i :: 0 <= i < |ls| ==> WellFormed(ls[i])
  }

  ghost predicate StackAccepts(ls: seq<LayerValue>, x: TensorValue)
    requires AllWellFormed(ls)
  {
    ls == [] || (Accepts(ls[0], x) && StackAccepts(ls[1..], Forward(ls[0], x)))
  }

  ghost function StackForward(ls: seq<LayerValue>, x: TensorValue): TensorValue
    requires AllWellFormed(ls) && StackAccepts(ls, x)
  {
    if ls == [] then x else StackForward(ls[1..], Forward(ls[0], x))
  }

  /** Every activation of the stack sees its two inputs on the same side of its kinks. */
  ghost predicate SamePattern(ls: seq<LayerValue>, x: TensorValue, x': TensorValue)
    requires AllWellFormed(ls) && StackAccepts(ls, x) && StackAccepts(ls, x')
  {
    ls == [] ||
    (SameSide(ls[0], x, x') && SamePattern(ls[1..], Forward(ls[0], x), Forward(ls[0], x')))
  }

  ghost predicate FitsStack(ls: seq<LayerValue>, x: TensorValue, g: TensorValue)
    requires AllWellFormed(ls) && StackAccepts(ls, x)
  {
    g.shape == StackForward(ls, x).shape && |g.data| == |StackForward(ls, x).data|
  }

  /** The backward fold: the gradient with respect to the input of the stack. */
  ghost function StackBackward(ls: seq<LayerValue>, x: TensorValue, g: TensorValue): (h: TensorValue)
    requires AllWellFormed(ls) && StackAccepts(ls, x) && FitsStack(ls, x, g)
    ensures h.shape == x.shape && |h.data| == |x.data|
  {
    if ls == [] then g
    else Backward(ls[0], x, StackBackward(ls[1..], Forward(ls[0], x), g))
  }

  /** The parameter gradients of layer i. */
  ghost function StackGradient(ls: seq<LayerValue>, x: TensorValue, g: TensorValue, i: nat): (d: ParameterGradient)
    requires AllWellFormed(ls) && StackAccepts(ls, x) && FitsStack(ls, x, g) && i < |ls|
    ensures ls[i].DenseValue? <==> d.DenseGradient?
  {
    if i == 0 then Gradient(ls[0], x, StackBackward(ls[1..], Forward(ls[0], x), g))
    else StackGradient(ls[1..], Forward(ls[0], x), g, i - 1)
  }

  /**
   Exact reverse mode, input: whatever the layers, the backward fold gives the exact change of
   <G, output> for every change of the input that crosses no kink.
   */
  lemma {:induction false} StackIsExact(ls: seq<LayerValue>, x: TensorValue, x': TensorValue, g: TensorValue)
    requires AllWellFormed(ls) && StackAccepts(ls, x) && StackAccepts(ls, x')
    requires x.shape == x'.shape && |x.data| == |x'.data| && SamePattern(ls, x, x')
    requires FitsStack(ls, x, g)
    ensures Inner(g.data, Minus(StackForward(ls, x').data, StackForward(ls, x).data))
         == Inner(StackBackward(ls, x, g).data, Minus(x'.data, x.data))
  {
    if ls != [] {
      var y, y' := Forward(ls[0], x), Forward(ls[0], x');
      StackIsExact(ls[1..], y, y', g);
      LayerIsExact(ls[0], x, x', StackBackward(ls[1..], y, g));
    }
  }

  /** Layer i after a change (v, u) of its parameters, the others as they were. */
  ghost function PerturbedStack(ls: seq<LayerValue>, i: nat, v: seq<real>, u: seq<real>): seq<LayerValue>
    requires i < |ls| && ls[i].DenseValue?
  {
    ls[i := Perturbed(ls[i], v, u)]
  }

  /** The layers after layer i see the change of its output without crossing a kink. */
  ghost predicate TailPattern(ls: seq<LayerValue>, x: TensorValue, i: nat, v: seq<real>, u: seq<real>)
    requires AllWellFormed(ls) && StackAccepts(ls, x) && i < |ls| && ls[i].DenseValue?
    requires |v| == |ls[i].weights.data| && |u| == |ls[i].bias|
  {
    if i == 0 then
      var y, y' := Forward(ls[0], x), Forward(Perturbed(ls[0], v, u), x);
      StackAccepts(ls[1..], y') && SamePattern(ls[1..], y, y')
    else
      TailPattern(ls[1..], Forward(ls[0], x), i - 1, v, u)
  }

  /** Exact reverse mode, parameters: the same for the weights and bias of any dense layer. */
  lemma {:induction false} StackGradientIsExact(ls: seq<LayerValue>, x: TensorValue, g: TensorValue,
                                                i: nat, v: seq<real>, u: seq<real>)
    requires AllWellFormed(ls) && StackAccepts(ls, x) && FitsStack(ls, x, g)
    requires i < |ls| && ls[i].DenseValue? && |v| == |ls[i].weights.data| && |u| == |ls[i].bias|
    requires TailPattern(ls, x, i, v, u)
    ensures var ls' := PerturbedStack(ls, i, v, u);
            var d := StackGradient(ls, x, g, i);
            AllWellFormed(ls') && StackAccepts(ls', x) && d.DenseGradient? &&
            Inner(g.data, Minus(StackForward(ls', x).data, StackForward(ls, x).data))
            == Inner(d.weights.data, v) + Inner(d.bias, u)
  {
    var ls' := PerturbedStack(ls, i, v, u);
    var y := Forward(ls[0], x);
    if i == 0 {
      assert ls'[1..] == ls[1..];
      var h := StackBackward(ls[1..], y, g);
      ParametersAreExact(ls[0], x, v, u, h);
      StackIsExact(ls[1..], y, Forward(ls'[0], x), g);
    } else {
      StackGradientIsExact(ls[1..], y, g, i - 1, v, u);
      assert ls'[1..] == PerturbedStack(ls[1..], i - 1, v, u);
    }
  }
}
