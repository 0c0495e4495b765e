/** Row-major indexing: strides, the linear index, and its inverse. */
module TensorIndex {
  import opened MachineInts
  import opened Chunking
  import opened Kernels

  function Product(s: seq<int>): int {
    if s == [] then 1 else s[0] * Product(s[1..])
  }

  ghost predicate NonNegative(s: seq<int>) {
    forall i :: 0 <= i < |s| ==> 0 <= s[i]
  }

  /** Extents that fit an int. */
  ghost predicate IntExtents(s: seq<int>) {
    forall i :: 0 <= i < |s| ==> 0 <= s[i] < TWO_31
  }

  /** strides[i] is the product of the extents after i. */
  function Strides(s: seq<int>): (r: seq<int>)
    ensures |r| == |s|
  {
    if s == [] then [] else [Product(s[1..])] + Strides(s[1..])
  }

  lemma {:induction false} StridesAt(s: seq<int>, i: nat)
    requires i < |s|
    ensures Strides(s)[i] == Product(s[i + 1..])
  {
    if i > 0 {
      StridesAt(s[1..], i - 1);
      assert s[1..][i..] == s[i + 1..];
    }
  }

  lemma {:induction false} ProductNonNegative(s: seq<int>)
    requires NonNegative(s)
    ensures Product(s) >= 0
  {
    if s != [] {
      ProductNonNegative(s[1..]);
    }
  }

  /** Coordinates for which toLinearIndex does not throw. */
  predicate InShape(c: seq<int>, s: seq<int>) {
    |c| == |s| && forall i :: 0 <= i < |s| ==> 0 <= c[i] < s[i]
  }

  function LinearIndex(c: seq<int>, s: seq<int>): int
    requires |c| == |s|
  {
    if s == [] then 0 else c[0] * Product(s[1..]) + LinearIndex(c[1..], s[1..])
  }

  /** The coordinates of element q. */
  function Unravel(q: int, s: seq<int>): (c: seq<int>)
    ensures |c| == |s|
    decreases |s|
  {
    if s == [] then []
    else
      var p := Product(s[1..]);
      if p == 0 then seq(|s|, _ => 0) else [q / p] + Unravel(q % p, s[1..])
  }

  /** In-range coordinates index into the buffer, and come back from their index. */
  lemma {:induction false} UnravelOfIndex(c: seq<int>, s: seq<int>)
    requires InShape(c, s)
    ensures 0 <= LinearIndex(c, s) < Product(s)
    ensures Unravel(LinearIndex(c, s), s) == c
  {
    if s != [] {
      UnravelOfIndex(c[1..], s[1..]);
      var p, low := Product(s[1..]), LinearIndex(c[1..], s[1..]);
      assert Element(c[0], low, p) == LinearIndex(c, s);
      JoinIndex(c[0], low, s[0], p);
      assert [c[0]] + c[1..] == c;
    }
  }

  /** Every element of the buffer has in-range coordinates that lead back to it. */
  lemma {:induction false} IndexOfUnravel(q: int, s: seq<int>)
    requires NonNegative(s) && 0 <= q < Product(s)
    ensures InShape(Unravel(q, s), s)
    ensures LinearIndex(Unravel(q, s), s) == q
  {
    if s != [] {
      var p := Product(s[1..]);
      ProductNonNegative(s[1..]);
      SplitIndex(q, s[0], p);
      IndexOfUnravel(q % p, s[1..]);
      var c := Unravel(q, s);
      assert c[1..] == Unravel(q % p, s[1..]);
    }
  }

  /** Coordinate i of element q is (q / strides[i]) % shape[i]. */
  lemma {:induction false} UnravelAt(q: int, s: seq<int>, i: nat)
    requires NonNegative(s) && 0 <= q < Product(s) && i < |s|
    ensures Strides(s)[i] > 0 && s[i] > 0
    ensures Unravel(q, s)[i] == (q / Strides(s)[i]) % s[i]
  {
    var p := Product(s[1..]);
    ProductNonNegative(s[1..]);
    SplitIndex(q, s[0], p);
    if i == 0 {
      FirstDigit(q, s[0], p);
    } else {
      UnravelAt(q % p, s[1..], i - 1);
      StrideDivides(s[1..], i - 1);
      DropHighDigit(q, p, Product(s[1..][..i - 1]), s[i], Strides(s)[i]);
    }
  }

  lemma {:induction false} FirstDigit(q: int, e: int, p: int)
    requires p > 0 && 0 <= q / p < e
    ensures (q / p) % e == q / p
  {
  }

  /** A coordinate does not depend on the coordinates before it. */
  lemma {:induction false} DropHighDigit(q: int, p: int, m: int, e: int, d: int)
    requires p > 0 && d > 0 && e > 0 && p == m * (e * d)
    ensures (q / d) % e == (q % p / d) % e
  {
    assert q == (q / p) * p + q % p;
    DivideThenWrap(q / p, q % p, m, e, d);
  }

  /** A stride times its extent divides the whole product. */
  lemma {:induction false} StrideDivides(s: seq<int>, i: nat)
    requires i < |s|
    ensures Product(s) == Product(s[..i]) * (s[i] * Strides(s)[i])
  {
    if i == 0 {
      assert s[..0] == [];
    } else {
      StrideDivides(s[1..], i - 1);
      assert s[..i][1..] == s[1..][..i - 1];
      var a, b := Product(s[1..][..i - 1]), s[i] * Strides(s)[i];
      assert s[0] * (a * b) == (s[0] * a) * b;
    }
  }

  /** Dropping a multiple of m * e * d does not change (q / d) % e. */
  lemma {:induction false} DivideThenWrap(h: int, low: int, m: int, e: int, d: int)
    requires d > 0 && e > 0
    ensures ((h * (m * (e * d)) + low) / d) % e == (low / d) % e
  {
    var k := h * m;
    assert h * (m * (e * d)) == (k * e) * d;
    DivideAddMultiple(k * e, low, d);
    ModAddMultiple(k, low / d, e);
  }

  lemma {:induction false} DivideAddMultiple(k: int, low: int, d: int)
    requires d > 0
    ensures (k * d + low) / d == k + low / d
  {
    var x := k * d + low;
    assert x == (x / d) * d + x % d;
    assert low == (low / d) * d + low % d;
    var u := x / d - k - low / d;
    assert u * d == low % d - x % d;
    if u >= 1 {
      Times(1, u, d);
      assert false;
    } else if u <= -1 {
      Times(u, -1, d);
      assert false;
    }
  }

  lemma {:induction false} ModAddMultiple(k: int, x: int, e: int)
    requires e > 0
    ensures (k * e + x) % e == x % e
  {
    DivideAddMultiple(k, x, e);
    var y := k * e + x;
    assert y == (y / e) * e + y % e;
    assert x == (x / e) * e + x % e;
  }

  ghost predicate LexLess(c: seq<int>, d: seq<int>)
    requires |c| == |d|
  {
    c != [] && (c[0] < d[0] || (c[0] == d[0] && LexLess(c[1..], d[1..])))
  }

  lemma {:induction false} HighDigitDecides(a: int, b: int, x: int, y: int, p: nat)
    requires a < b && 0 <= x < p && 0 <= y < p
    ensures a * p + x < b * p + y
  {
    Times(a + 1, b, p);
  }

  /** The linear index orders in-range coordinates lexicographically. */
  lemma {:induction false} IndexIsMonotone(c: seq<int>, d: seq<int>, s: seq<int>)
    requires InShape(c, s) && InShape(d, s)
    ensures LexLess(c, d) <==> LinearIndex(c, s) < LinearIndex(d, s)
  {
    if s != [] {
      var p := Product(s[1..]);
      var x, y := LinearIndex(c[1..], s[1..]), LinearIndex(d[1..], s[1..]);
      UnravelOfIndex(c[1..], s[1..]);
      UnravelOfIndex(d[1..], s[1..]);
      if c[0] < d[0] {
        HighDigitDecides(c[0], d[0], x, y, p);
      } else if d[0] < c[0] {
        HighDigitDecides(d[0], c[0], y, x, p);
      } else {
        IndexIsMonotone(c[1..], d[1..], s[1..]);
      }
    }
  }

  // ----- In the machine's integers -----

  /** The strides as the code computes them, in int. */
  function IntStrides(s: seq<int>): (r: seq<int>)
    ensures |r| == |s|
  {
    if s == [] then [] else [ToInt32(Product(s[1..]))] + IntStrides(s[1..])
  }

  lemma {:induction false} IntStridesAt(s: seq<int>, i: nat)
    requires i < |s|
    ensures IntStrides(s)[i] == ToInt32(Product(s[i + 1..]))
  {
    if i > 0 {
      IntStridesAt(s[1..], i - 1);
      assert s[1..][i..] == s[i + 1..];
    }
  }

  /** The product of the extents after i. */
  function TailProduct(s: seq<int>, i: nat): int
    requires i < |s|
  {
    Product(s[i + 1..])
  }

  ghost predicate StridesFit(s: seq<int>) {
    forall i :: 0 <= i < |s| ==> TailProduct(s, i) < TWO_31
  }

  /** The computed strides are the right ones if and only if every product of trailing extents fits an int. */
  lemma {:induction false} IntStridesAreExactIff(s: seq<int>)
    requires NonNegative(s)
    ensures IntStrides(s) == Strides(s) <==> StridesFit(s)
  {
    forall i | 0 <= i < |s|
      ensures IntStrides(s)[i] == Strides(s)[i] <==> TailProduct(s, i) < TWO_31
    {
      IntStridesAt(s, i);
      StridesAt(s, i);
      ProductNonNegative(s[i + 1..]);
    }
  }

  /** A shape whose first stride overflows. */
  lemma StrideOverflows()
    ensures IntExtents([1, 65536, 32768]) && Product([1, 65536, 32768]) < TWO_64
    ensures IntStrides([1, 65536, 32768])[0] == -TWO_31
  {
    var s := [1, 65536, 32768];
    assert s[1..] == [65536, 32768] && [65536, 32768][1..] == [32768] && [32768][1..] == [];
  }

  /** The index as the code computes it: int products, added as 64-bit unsigned numbers. */
  function IntIndex(c: seq<int>, s: seq<int>): (q: int)
    requires |c| == |s|
    ensures 0 <= q < TWO_64
  {
    if s == [] then 0 else (ToInt32(c[0] * ToInt32(Product(s[1..]))) + IntIndex(c[1..], s[1..])) % TWO_64
  }

  /** The largest product of a coordinate and its stride, in dimension i. */
  function LargestTerm(s: seq<int>, i: nat): int
    requires i < |s|
  {
    (s[i] - 1) * TailProduct(s, i)
  }

  ghost predicate TermsFit(s: seq<int>) {
    forall i :: 0 <= i < |s| ==> LargestTerm(s, i) < TWO_31
  }

  lemma {:induction false} TermsFitTail(s: seq<int>)
    requires s != []
    ensures TermsFit(s) <==> (s[0] - 1) * Product(s[1..]) < TWO_31 && TermsFit(s[1..])
  {
    forall i: nat | i < |s| - 1
      ensures LargestTerm(s[1..], i) == LargestTerm(s, i + 1)
    {
      assert s[1..][i + 1..] == s[i + 2..];
    }
    if (s[0] - 1) * Product(s[1..]) < TWO_31 && TermsFit(s[1..]) {
      forall i | 0 <= i < |s|
        ensures LargestTerm(s, i) < TWO_31
      {
        if i > 0 {
          assert LargestTerm(s[1..], i - 1) < TWO_31;
        }
      }
    }
    if TermsFit(s) {
      assert LargestTerm(s, 0) < TWO_31;
      forall i | 0 <= i < |s| - 1
        ensures LargestTerm(s[1..], i) < TWO_31
      {
        assert LargestTerm(s, i + 1) < TWO_31;
      }
    }
  }

  lemma {:induction false} TermIsExact(a: nat, b: nat, p: nat)
    requires a <= b && b * p < TWO_31
    ensures ToInt32(a * ToInt32(p)) == a * p
  {
    Times(a, b, p);
    if a > 0 {
      Times(1, a, p);
    }
  }

  lemma {:induction false} IntIndexIsExact(c: seq<int>, s: seq<int>)
    requires InShape(c, s) && TermsFit(s) && Product(s) < TWO_64
    ensures IntIndex(c, s) == LinearIndex(c, s)
  {
    if s != [] {
      var p := Product(s[1..]);
      TermsFitTail(s);
      UnravelOfIndex(c, s);
      UnravelOfIndex(c[1..], s[1..]);
      Times(1, s[0], p);
      TermIsExact(c[0], s[0] - 1, p);
      IntIndexIsExact(c[1..], s[1..]);
    }
  }

  ghost predicate Positive(s: seq<int>) {
    forall i :: 0 <= i < |s| ==> 0 < s[i]
  }

  lemma {:induction false} ProductPositive(s: seq<int>)
    requires Positive(s)
    ensures Product(s) > 0
  {
    if s != [] {
      ProductPositive(s[1..]);
      Times(1, s[0], Product(s[1..]));
    }
  }

  /** The first coordinate whose product with the stride p leaves int. */
  lemma {:induction false} FirstTooLarge(e: int, p: int) returns (a: int)
    requires e > 0 && p > 0 && (e - 1) * p >= TWO_31 && e * p < TWO_64
    ensures 0 < a < e && TWO_31 <= a * p < TWO_64 - TWO_31
  {
    a := (TWO_31 + p - 1) / p;
    CeilingDivision(TWO_31, p);
    if a >= e {
      Times(e - 1, a - 1, p);
      assert false;
    }
    if a == 1 {
      Times(2, e, p);
    } else {
      Times(1, a - 1, p);
      assert a * p == (a - 1) * p + p;
    }
  }

  lemma {:induction false} IndexOfZeros(c: seq<int>, s: seq<int>)
    requires |c| == |s| && forall i :: 0 <= i < |c| ==> c[i] == 0
    ensures LinearIndex(c, s) == IntIndex(c, s) == 0
  {
    if s != [] {
      IndexOfZeros(c[1..], s[1..]);
    }
  }

  lemma {:induction false} WrongInFirstDimension(s: seq<int>, a: int) returns (c: seq<int>)
    requires s != [] && Positive(s) && 0 < a < s[0] && TWO_31 <= a * Product(s[1..]) < TWO_64 - TWO_31
    ensures InShape(c, s) && IntIndex(c, s) != LinearIndex(c, s)
  {
    var zeros := seq(|s| - 1, _ => 0);
    c := [a] + zeros;
    assert c[1..] == zeros;
    IndexOfZeros(zeros, s[1..]);
  }

  lemma {:induction false} WrongInLaterDimension(s: seq<int>, d: seq<int>) returns (c: seq<int>)
    requires s != [] && Positive(s) && InShape(d, s[1..]) && IntIndex(d, s[1..]) != LinearIndex(d, s[1..])
    ensures InShape(c, s) && IntIndex(c, s) != LinearIndex(c, s)
  {
    c := [0] + d;
    assert c[1..] == d;
    var p := Product(s[1..]);
    assert ToInt32(0 * ToInt32(p)) == 0;
    assert 0 * p == 0;
  }

  lemma {:induction false} WrongIndexExists(s: seq<int>) returns (c: seq<int>)
    requires Positive(s) && Product(s) < TWO_64 && !TermsFit(s)
    ensures InShape(c, s) && IntIndex(c, s) != LinearIndex(c, s)
  {
    hide InShape, IntIndex, LinearIndex, TermsFit;
    if s == [] {
      NothingMisfits();
      assert false;
    }
    TermsFitTail(s);
    var p := Product(s[1..]);
    ProductPositive(s[1..]);
    if (s[0] - 1) * p >= TWO_31 {
      var a := FirstTooLarge(s[0], p);
      c := WrongInFirstDimension(s, a);
    } else {
      Times(1, s[0], p);
      var d := WrongIndexExists(s[1..]);
      c := WrongInLaterDimension(s, d);
    }
  }

  lemma NothingMisfits()
    ensures TermsFit([])
  {
  }

  /** Every in-range index is computed right if and only if no product of a coordinate and its stride leaves int. */
  lemma {:induction false} IntIndexIsExactIff(s: seq<int>)
    requires Positive(s) && Product(s) < TWO_64
    ensures (forall c :: InShape(c, s) ==> IntIndex(c, s) == LinearIndex(c, s)) <==> TermsFit(s)
  {
    if TermsFit(s) {
      forall c | InShape(c, s)
        ensures IntIndex(c, s) == LinearIndex(c, s)
      {
        IntIndexIsExact(c, s);
      }
    } else {
      var c := WrongIndexExists(s);
    }
  }

  // ----- Two dimensions -----

  lemma StridesOfMatrix(r: int, c: int)
    requires 0 <= c < TWO_31
    ensures IntStrides([r, c]) == Strides([r, c]) == [c, 1] && Product([r, c]) == r * c
  {
    assert [r, c][1..] == [c] && [c][1..] == [];
    assert Product([c]) == c;
    assert IntStrides([c]) == [1] && Strides([c]) == [1];
  }

  /** The sizes of a row-major matrix for which the code finds every cell. */
  predicate Addressable(how: Addressing, r: nat, c: nat) {
    r == 0 || c == 0 ||
    match how
    case Index => r * c <= TWO_31
    case RowPointer => (r - 1) * c < TWO_31
  }

  lemma {:induction false} SmallIsAddressable(how: Addressing, r: nat, c: nat)
    requires r * c <= TWO_31
    ensures Addressable(how, r, c)
  {
    if r > 0 {
      assert (r - 1) * c == r * c - c;
    }
  }

  lemma {:induction false} OffsetIsElement(how: Addressing, i: int, j: int, r: nat, c: nat)
    requires 0 <= i < r && 0 <= j < c < TWO_31 && Addressable(how, r, c)
    ensures Offset(how, i, j, c, 1) == Element(i, j, c)
  {
    Times(i, r - 1, c);
    JoinIndex(i, j, r, c);
    assert i * c >= 0;
  }

  lemma {:induction false} LargeMatrixLosesACell(how: Addressing, r: nat, c: nat) returns (i: nat, j: nat)
    requires 0 < c < TWO_31 && !Addressable(how, r, c)
    ensures i < r && j < c && Offset(how, i, j, c, 1) < 0
  {
    match how
    case Index =>
      SplitIndex(TWO_31, r, c);
      i, j := TWO_31 / c, TWO_31 % c;
      assert i * c + j == TWO_31 && i * c >= 0;
    case RowPointer =>
      i, j := (TWO_31 + c - 1) / c, 0;
      CeilingDivision(TWO_31, c);
      if i > r - 1 {
        Times(r - 1, i - 1, c);
        assert false;
      }
      assert (i - 1) * c == i * c - c;
  }

  /** The code finds every cell of a row-major matrix inside its buffer if and only if its size allows it. */
  lemma {:induction false} RowMajorIsInBufferIff(how: Addressing, r: nat, c: nat)
    requires c < TWO_31
    ensures InBuffer(how, r, c, c, 1, r * c) <==> Addressable(how, r, c)
  {
    if Addressable(how, r, c) {
      forall i, j | 0 <= i < r && 0 <= j < c
        ensures 0 <= Offset(how, i, j, c, 1) < r * c
      {
        JoinIndex(i, j, r, c);
        OffsetIsElement(how, i, j, r, c);
      }
    } else {
      var i, j := LargeMatrixLosesACell(how, r, c);
    }
  }

  /** Constructor-built strides keep every cell inside the buffer and apart from the others. */
  lemma {:induction false} RowMajorIsSafe(how: Addressing, r: nat, c: nat)
    requires c < TWO_31 && Addressable(how, r, c)
    ensures InBuffer(how, r, c, c, 1, r * c) && NoOverlap(how, r, c, c, 1)
  {
    RowMajorIsInBufferIff(how, r, c);
    forall i, j, i', j' | 0 <= i < r && 0 <= j < c && 0 <= i' < r && 0 <= j' < c &&
                          Offset(how, i, j, c, 1) == Offset(how, i', j', c, 1)
      ensures i == i' && j == j'
    {
      OffsetIsElement(how, i, j, r, c);
      OffsetIsElement(how, i', j', r, c);
      SameElement(i, j, i', j', r, c);
    }
  }
}
