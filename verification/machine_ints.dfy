/** The machine's integers. Numbers are unbounded in this model; where bits can be lost, that is written out. */
module MachineInts {
  const TWO_31 := 0x8000_0000
  const TWO_32 := 0x1_0000_0000
  const TWO_63 := 0x8000_0000_0000_0000
  const TWO_64 := 0x1_0000_0000_0000_0000

  /** The value of a wider integer after conversion to a 32-bit two's complement int. */
  function ToInt32(x: int): (r: int)
    ensures -TWO_31 <= r < TWO_31
    ensures -TWO_31 <= x < TWO_31 ==> r == x
  {
    var low := x % TWO_32;
    if low < TWO_31 then low else low - TWO_32
  }

  /** It keeps the low 32 bits, read as a number with a sign. */
  lemma {:induction false} ToInt32Law(x: int)
    ensures -0x8000_0000 <= ToInt32(x) <= 0x7fff_ffff
    ensures (x - ToInt32(x)) % 0x1_0000_0000 == 0
  {
    assert x == x / TWO_32 * TWO_32 + x % TWO_32;
    assert (x / TWO_32 + 1) * TWO_32 == x / TWO_32 * TWO_32 + TWO_32;
    MultipleOfWidth(x / TWO_32);
    MultipleOfWidth(x / TWO_32 + 1);
  }

  lemma MultipleOfWidth(k: int)
    ensures k * TWO_32 % 0x1_0000_0000 == 0
  {
  }

  lemma {:induction false} ToInt32Congruent(x: int, y: int, k: int)
    requires x == y + k * TWO_32
    ensures ToInt32(x) == ToInt32(y)
  {
  }

  /** Wrapping early or late makes no difference to a product. */
  lemma {:induction false} ToInt32OfProduct(a: int, b: int)
    ensures ToInt32(ToInt32(a) * b) == ToInt32(a * b)
  {
    var k := if a % TWO_32 < TWO_31 then a / TWO_32 else a / TWO_32 + 1;
    assert a == ToInt32(a) + k * TWO_32;
    assert a * b == ToInt32(a) * b + (k * b) * TWO_32;
    ToInt32Congruent(a * b, ToInt32(a) * b, k * b);
  }
}
