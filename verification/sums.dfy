/** Finite sums of reals, and the exchange laws the adjoint identities rest on. */
module Sums {

  /** f(lo) + ... + f(hi - 1) */
  function Sum(lo: int, hi: int, f: int -> real): real
    decreases hi - lo
  {
    if hi <= lo then 0.0 else Sum(lo, hi - 1, f) + f(hi - 1)
  }

  lemma {:induction false} SumCong(lo: int, hi: int, f: int -> real, g: int -> real)
    requires forall i :: lo <= i < hi ==> f(i) == g(i)
    ensures Sum(lo, hi, f) == Sum(lo, hi, g)
    decreases hi - lo
  {
    if lo < hi {
      SumCong(lo, hi - 1, f, g);
    }
  }

  lemma {:induction false} SumAdd(lo: int, hi: int, h: int -> real, f: int -> real, g: int -> real)
    requires forall i :: lo <= i < hi ==> h(i) == f(i) + g(i)
    ensures Sum(lo, hi, h) == Sum(lo, hi, f) + Sum(lo, hi, g)
    decreases hi - lo
  {
    if lo < hi {
      SumAdd(lo, hi - 1, h, f, g);
    }
  }

  lemma {:induction false} SumScale(lo: int, hi: int, h: int -> real, c: real, f: int -> real)
    requires forall i :: lo <= i < hi ==> h(i) == c * f(i)
    ensures Sum(lo, hi, h) == c * Sum(lo, hi, f)
    decreases hi - lo
  {
    if lo < hi {
      SumScale(lo, hi - 1, h, c, f);
    }
  }

  lemma {:induction false} SumZero(lo: int, hi: int, f: int -> real)
    requires forall i :: lo <= i < hi ==> f(i) == 0.0
    ensures Sum(lo, hi, f) == 0.0
    decreases hi - lo
  {
    if lo < hi {
      SumZero(lo, hi - 1, f);
    }
  }

  lemma {:induction false} SumConcat(lo: int, mid: int, hi: int, f: int -> real)
    requires lo <= mid <= hi
    ensures Sum(lo, hi, f) == Sum(lo, mid, f) + Sum(mid, hi, f)
    decreases hi - mid
  {
    if mid < hi {
      SumConcat(lo, mid, hi - 1, f);
    }
  }

  lemma {:induction false} SumShift(base: int, n: nat, f: int -> real, g: int -> real)
    requires forall j :: 0 <= j < n ==> g(j) == f(base + j)
    ensures Sum(base, base + n, f) == Sum(0, n, g)
  {
    if n > 0 {
      SumShift(base, n - 1, f, g);
    }
  }

  // ----- Double sums -----

  function First(f: (int, int) -> real, i: int): int -> real { j => f(i, j) }
  function Second(f: (int, int) -> real, j: int): int -> real { i => f(i, j) }

  function RowTotal(c: int, f: (int, int) -> real, i: int): real { Sum(0, c, First(f, i)) }

  /** The sum of f(i, j) over j < c, as a function of i. */
  function RowSum(c: int, f: (int, int) -> real): int -> real { i => RowTotal(c, f, i) }

  /** The sum of f(i, j) over i < r and j < c. */
  function Sum2(r: int, c: int, f: (int, int) -> real): real { Sum(0, r, RowSum(c, f)) }

  lemma {:induction false} Sum2Cong(r: int, c: int, f: (int, int) -> real, g: (int, int) -> real)
    requires forall i, j :: 0 <= i < r && 0 <= j < c ==> f(i, j) == g(i, j)
    ensures Sum2(r, c, f) == Sum2(r, c, g)
  {
    forall i | 0 <= i < r
      ensures RowSum(c, f)(i) == RowSum(c, g)(i)
    {
      SumCong(0, c, First(f, i), First(g, i));
    }
    SumCong(0, r, RowSum(c, f), RowSum(c, g));
  }

  function Flip(f: (int, int) -> real): (int, int) -> real { (j, i) => f(i, j) }

  lemma {:induction false} Sum2LastColumn(r: nat, c: nat, f: (int, int) -> real)
    requires c > 0
    ensures Sum2(r, c, f) == Sum2(r, c - 1, f) + Sum(0, r, Second(f, c - 1))
  {
    SumAdd(0, r, RowSum(c, f), RowSum(c - 1, f), Second(f, c - 1));
  }

  /** The order of summation does not matter. */
  lemma {:induction false} Sum2Swap(r: nat, c: nat, f: (int, int) -> real)
    ensures Sum2(r, c, f) == Sum2(c, r, Flip(f))
  {
    if c == 0 {
      SumZero(0, r, RowSum(0, f));
    } else {
      Sum2Swap(r, c - 1, f);
      Sum2LastColumn(r, c, f);
      SumCong(0, r, Second(f, c - 1), First(Flip(f), c - 1));
    }
  }

  /** A flat sum over r * c elements is the double sum over their coordinates. */
  lemma {:induction false} SumBlocks(r: nat, c: nat, flat: int -> real, f: (int, int) -> real)
    requires forall i, j :: 0 <= i < r && 0 <= j < c ==> f(i, j) == flat(i * c + j)
    ensures Sum(0, r * c, flat) == Sum2(r, c, f)
  {
    if r > 0 {
      SumBlocks(r - 1, c, flat, f);
      var base := (r - 1) * c;
      assert r * c == base + c;
      SumConcat(0, base, base + c, flat);
      SumShift(base, c, flat, First(f, r - 1));
    }
  }

  // ----- Triple sums -----

  function Third(f: (int, int, int) -> real, i: int, j: int): int -> real { k => f(i, j, k) }

  function DepthTotal(d: int, f: (int, int, int) -> real, i: int, j: int): real { Sum(0, d, Third(f, i, j)) }

  function DepthSum(d: int, f: (int, int, int) -> real): (int, int) -> real { (i, j) => DepthTotal(d, f, i, j) }

  /** The sum of f(i, j, k) over i < r, j < c and k < d. */
  function Sum3(r: int, c: int, d: int, f: (int, int, int) -> real): real { Sum2(r, c, DepthSum(d, f)) }

  function SwapFirst(f: (int, int, int) -> real): (int, int, int) -> real { (j, i, k) => f(i, j, k) }
  function SwapLast(f: (int, int, int) -> real): (int, int, int) -> real { (i, k, j) => f(i, j, k) }

  lemma {:induction false} Sum3Cong(r: nat, c: nat, d: nat, f: (int, int, int) -> real, g: (int, int, int) -> real)
    requires forall i, j, k :: 0 <= i < r && 0 <= j < c && 0 <= k < d ==> f(i, j, k) == g(i, j, k)
    ensures Sum3(r, c, d, f) == Sum3(r, c, d, g)
  {
    forall i, j | 0 <= i < r && 0 <= j < c
      ensures DepthSum(d, f)(i, j) == DepthSum(d, g)(i, j)
    {
      SumCong(0, d, Third(f, i, j), Third(g, i, j));
    }
    Sum2Cong(r, c, DepthSum(d, f), DepthSum(d, g));
  }

  lemma {:induction false} Sum3SwapFirst(r: nat, c: nat, d: nat, f: (int, int, int) -> real)
    ensures Sum3(r, c, d, f) == Sum3(c, r, d, SwapFirst(f))
  {
    Sum2Swap(r, c, DepthSum(d, f));
    forall j, i | 0 <= j < c && 0 <= i < r
      ensures Flip(DepthSum(d, f))(j, i) == DepthSum(d, SwapFirst(f))(j, i)
    {
      SumCong(0, d, Third(f, i, j), Third(SwapFirst(f), j, i));
    }
    Sum2Cong(c, r, Flip(DepthSum(d, f)), DepthSum(d, SwapFirst(f)));
  }

  function Slab(f: (int, int, int) -> real, i: int): (int, int) -> real { (j, k) => f(i, j, k) }

  lemma {:induction false} SlabSum(c: nat, d: nat, f: (int, int, int) -> real, i: int)
    ensures RowSum(c, DepthSum(d, f))(i) == Sum2(c, d, Slab(f, i))
  {
    forall j | 0 <= j < c
      ensures First(DepthSum(d, f), i)(j) == RowSum(d, Slab(f, i))(j)
    {
      SumCong(0, d, Third(f, i, j), First(Slab(f, i), j));
    }
    SumCong(0, c, First(DepthSum(d, f), i), RowSum(d, Slab(f, i)));
  }

  lemma {:induction false} Sum3SwapLast(r: nat, c: nat, d: nat, f: (int, int, int) -> real)
    ensures Sum3(r, c, d, f) == Sum3(r, d, c, SwapLast(f))
  {
    forall i | 0 <= i < r
      ensures RowSum(c, DepthSum(d, f))(i) == RowSum(d, DepthSum(c, SwapLast(f)))(i)
    {
      SlabSum(c, d, f, i);
      SlabSum(d, c, SwapLast(f), i);
      Sum2Swap(c, d, Slab(f, i));
      Sum2Cong(d, c, Flip(Slab(f, i)), Slab(SwapLast(f), i));
    }
    SumCong(0, r, RowSum(c, DepthSum(d, f)), RowSum(d, DepthSum(c, SwapLast(f))));
  }

  // ----- Products of tables -----

  /** Cell-by-cell product of two tables. */
  function Pair(f: (int, int) -> real, g: (int, int) -> real): (int, int) -> real {
    (i, j) => f(i, j) * g(i, j)
  }

  /** Row i of f against column j of g. */
  function RowByColumn(f: (int, int) -> real, g: (int, int) -> real, i: int, j: int): int -> real {
    k => f(i, k) * g(k, j)
  }

  /** p is the product of the r by n table f and the n by c table g. */
  ghost predicate IsProduct(p: (int, int) -> real, f: (int, int) -> real, g: (int, int) -> real,
                            r: nat, n: nat, c: nat) {
    forall i, j :: 0 <= i < r && 0 <= j < c ==> p(i, j) == Sum(0, n, RowByColumn(f, g, i, j))
  }

  function Triple(g: (int, int) -> real, f: (int, int) -> real, h: (int, int) -> real): (int, int, int) -> real {
    (i, j, k) => g(i, j) * (f(i, k) * h(k, j))
  }

  lemma {:induction false} PairWithProduct(g: (int, int) -> real, p: (int, int) -> real,
                                           f: (int, int) -> real, h: (int, int) -> real, r: nat, n: nat, c: nat)
    requires IsProduct(p, f, h, r, n, c)
    ensures Sum2(r, c, Pair(g, p)) == Sum3(r, c, n, Triple(g, f, h))
  {
    forall i, j | 0 <= i < r && 0 <= j < c
      ensures Pair(g, p)(i, j) == DepthSum(n, Triple(g, f, h))(i, j)
    {
      SumScale(0, n, Third(Triple(g, f, h), i, j), g(i, j), RowByColumn(f, h, i, j));
    }
    Sum2Cong(r, c, Pair(g, p), DepthSum(n, Triple(g, f, h)));
  }

  /** Pairing with a table whose rows are all v leaves the column sums paired with v. */
  lemma {:induction false} PairWithBroadcast(g: (int, int) -> real, b: (int, int) -> real, r: nat, c: nat,
                                             v: int -> real, paired: int -> real)
    requires forall i, j :: 0 <= i < r && 0 <= j < c ==> b(i, j) == v(j)
    requires forall j :: 0 <= j < c ==> paired(j) == v(j) * Sum(0, r, Second(g, j))
    ensures Sum2(r, c, Pair(g, b)) == Sum(0, c, paired)
  {
    var flipped := Flip(Pair(g, b));
    Sum2Swap(r, c, Pair(g, b));
    forall j | 0 <= j < c
      ensures RowSum(r, flipped)(j) == paired(j)
    {
      SumScale(0, r, First(flipped, j), v(j), Second(g, j));
    }
    SumCong(0, c, RowSum(r, flipped), paired);
  }

  // ----- Sequences of reals -----

  function Entry(x: seq<real>, pos: int): real {
    if 0 <= pos < |x| then x[pos] else 0.0
  }

  function Products(a: seq<real>, b: seq<real>): int -> real {
    i => Entry(a, i) * Entry(b, i)
  }

  /** The inner product of two sequences of equal length. */
  function Inner(a: seq<real>, b: seq<real>): real {
    Sum(0, |a|, Products(a, b))
  }

  lemma {:induction false} InnerSymmetric(a: seq<real>, b: seq<real>)
    requires |a| == |b|
    ensures Inner(a, b) == Inner(b, a)
  {
    SumCong(0, |a|, Products(a, b), Products(b, a));
  }

  function Plus(a: seq<real>, b: seq<real>): (r: seq<real>)
    ensures |r| == |a|
  {
    seq(|a|, i requires 0 <= i => Entry(a, i) + Entry(b, i))
  }

  function Minus(a: seq<real>, b: seq<real>): (r: seq<real>)
    ensures |r| == |a|
  {
    seq(|a|, i requires 0 <= i => Entry(a, i) - Entry(b, i))
  }

  function Scale(c: real, a: seq<real>): (r: seq<real>)
    ensures |r| == |a|
  {
    seq(|a|, i requires 0 <= i => c * Entry(a, i))
  }

  lemma {:induction false} InnerPlus(g: seq<real>, a: seq<real>, b: seq<real>)
    requires |g| == |a| == |b|
    ensures Inner(g, Plus(a, b)) == Inner(g, a) + Inner(g, b)
  {
    SumAdd(0, |g|, Products(g, Plus(a, b)), Products(g, a), Products(g, b));
  }

  lemma {:induction false} InnerMinus(g: seq<real>, a: seq<real>, b: seq<real>)
    requires |g| == |a| == |b|
    ensures Inner(g, Minus(a, b)) == Inner(g, a) - Inner(g, b)
  {
    SumAdd(0, |g|, Products(g, a), Products(g, Minus(a, b)), Products(g, b));
  }

  lemma {:induction false} InnerScale(g: seq<real>, c: real, a: seq<real>)
    requires |g| == |a|
    ensures Inner(g, Scale(c, a)) == c * Inner(g, a)
  {
    SumScale(0, |g|, Products(g, Scale(c, a)), c, Products(g, a));
  }

  lemma {:induction false} PlusNegative(a: seq<real>, d: seq<real>, c: real)
    requires |a| == |d|
    ensures Plus(a, Scale(-c, d)) == Minus(a, Scale(c, d))
  {
    forall q | 0 <= q < |a|
      ensures Plus(a, Scale(-c, d))[q] == Minus(a, Scale(c, d))[q]
    {
      assert (-c) * d[q] == -(c * d[q]);
    }
  }
}
