/**
 The wire format: a 32-bit big-endian length, a type byte and the payload. Hosts differ in the order
 in which they keep the bytes of an integer in memory.
 */
module Wire {
  import opened MachineInts

  type Byte = x: int | 0 <= x < 256

  // ----- Byte order -----

  datatype Endian = BigEndian | LittleEndian

  /** The n low bytes of v, most significant first. */
  function ToBytes(v: nat, n: nat): (s: seq<Byte>)
    ensures |s| == n
  {
    if n == 0 then [] else ToBytes(v / 256, n - 1) + [v % 256]
  }

  function FromBytes(s: seq<Byte>): nat {
    if s == [] then 0 else FromBytes(s[..|s| - 1]) * 256 + s[|s| - 1]
  }

  function Power256(n: nat): nat {
    if n == 0 then 1 else 256 * Power256(n - 1)
  }

  lemma {:induction false} FromToBytes(v: nat, n: nat)
    requires v < Power256(n)
    ensures FromBytes(ToBytes(v, n)) == v
  {
    if n > 0 {
      FromToBytes(v / 256, n - 1);
      assert ToBytes(v, n)[..n - 1] == ToBytes(v / 256, n - 1);
    }
  }

  lemma {:induction false} ToFromBytes(s: seq<Byte>)
    ensures FromBytes(s) < Power256(|s|)
    ensures ToBytes(FromBytes(s), |s|) == s
  {
    if s != [] {
      ToFromBytes(s[..|s| - 1]);
      assert s == s[..|s| - 1] + [s[|s| - 1]];
    }
  }

  lemma Powers()
    ensures Power256(4) == TWO_32 && Power256(8) == TWO_64
  {
    assert Power256(2) == 65536;
    assert Power256(4) == 65536 * 65536;
    assert Power256(6) == TWO_32 * 65536;
  }

  function Reversed(s: seq<Byte>): (r: seq<Byte>)
    ensures |r| == |s|
  {
    seq(|s|, i requires 0 <= i < |s| => s[|s| - 1 - i])
  }

  /** memcpy from an integer of n bytes, and into one. */
  function Store(host: Endian, v: nat, n: nat): (s: seq<Byte>)
    ensures |s| == n
  {
    if host.BigEndian? then ToBytes(v, n) else Reversed(ToBytes(v, n))
  }

  function Load(host: Endian, s: seq<Byte>): nat {
    FromBytes(if host.BigEndian? then s else Reversed(s))
  }

  lemma {:induction false} LoadStore(host: Endian, v: nat, n: nat)
    requires v < Power256(n)
    ensures Load(host, Store(host, v, n)) == v
  {
    FromToBytes(v, n);
    assert Reversed(Reversed(ToBytes(v, n))) == ToBytes(v, n);
  }

  lemma {:induction false} StoreLoad(host: Endian, s: seq<Byte>)
    ensures Load(host, s) < Power256(|s|)
    ensures Store(host, Load(host, s), |s|) == s
  {
    ToFromBytes(s);
    ToFromBytes(Reversed(s));
    assert Reversed(Reversed(s)) == s;
  }

  /** The integer whose bytes in memory are those of v, most significant first. */
  function HostToNet32(host: Endian, v: nat): nat
    requires v < TWO_32
  {
    Load(host, [v / 0x100_0000, v / 0x1_0000 % 256, v / 256 % 256, v % 256])
  }

  function NetToHost32(host: Endian, v: nat): int
    requires v < TWO_32
  {
    var b := Store(host, v, 4);
    Assembled(b[0], b[1], b[2], b[3])
  }

  function Assembled(b0: int, b1: int, b2: int, b3: int): int {
    b0 * 0x100_0000 + b1 * 0x1_0000 + b2 * 256 + b3
  }

  /** On every host, what hostToNet32 leaves in memory is the big-endian form. */
  lemma {:induction false} NetBytes(host: Endian, v: nat)
    requires v < TWO_32
    ensures HostToNet32(host, v) < TWO_32
    ensures Store(host, HostToNet32(host, v), 4) == ToBytes(v, 4)
  {
    Powers();
    var b: seq<Byte> := [v / 0x100_0000, v / 0x1_0000 % 256, v / 256 % 256, v % 256];
    StoreLoad(host, b);
    FourBytes(v);
  }

  lemma {:induction false} FourBytes(v: nat)
    requires v < TWO_32
    ensures ToBytes(v, 4) == [v / 0x100_0000, v / 0x1_0000 % 256, v / 256 % 256, v % 256]
  {
    var a, b, c := v / 256, v / 256 / 256, v / 256 / 256 / 256;
    assert ToBytes(c, 1) == [c % 256];
    assert ToBytes(b, 2) == [c % 256, b % 256];
    assert ToBytes(a, 3) == [c % 256, b % 256, a % 256];
  }

  lemma {:induction false} FromFourBytes(s: seq<Byte>)
    requires |s| == 4
    ensures FromBytes(s) == Assembled(s[0], s[1], s[2], s[3])
  {
    assert s[..3][..2] == s[..2] && s[..2][..1] == s[..1] && s[..1][..0] == [];
    var b0: int, b1: int, b2: int := s[0], s[1], s[2];
    assert FromBytes(s[..1]) == b0;
    assert FromBytes(s[..2]) == b0 * 256 + b1;
    assert FromBytes(s[..3]) == (b0 * 256 + b1) * 256 + b2;
  }

  /** Reading four network bytes with netToHost32 gives the same number on every host. */
  lemma {:induction false} NetToHostOfBytes(host: Endian, s: seq<Byte>)
    requires |s| == 4
    ensures Load(host, s) < TWO_32 && NetToHost32(host, Load(host, s)) == FromBytes(s)
  {
    Powers();
    StoreLoad(host, s);
    FromFourBytes(s);
  }

  /** r is v without its bits below `shift`. */
  predicate HighPart(r: bv64, v: bv64, shift: bv64)
    requires shift <= 64
  {
    r == (v >> shift) << shift
  }

  lemma OrLowByte(r: bv64, v: bv64, shift: bv64)
    requires shift in [0, 8] && HighPart(r, v, shift + 8)
    ensures HighPart(r | (((v >> shift) & 0xFF) << shift), v, shift)
  {
    if shift == 0 {
    } else {
    }
  }

  lemma OrThirdByte(r: bv64, v: bv64, shift: bv64)
    requires shift in [16, 24] && HighPart(r, v, shift + 8)
    ensures HighPart(r | (((v >> shift) & 0xFF) << shift), v, shift)
  {
    if shift == 16 {
    } else {
    }
  }

  lemma OrMiddleByte(r: bv64, v: bv64, shift: bv64)
    requires shift in [32, 40] && HighPart(r, v, shift + 8)
    ensures HighPart(r | (((v >> shift) & 0xFF) << shift), v, shift)
  {
    if shift == 32 {
    } else {
    }
  }

  lemma OrHighByte(r: bv64, v: bv64, shift: bv64)
    requires shift in [48, 56] && HighPart(r, v, shift + 8)
    ensures HighPart(r | (((v >> shift) & 0xFF) << shift), v, shift)
  {
    if shift == 48 {
    } else {
    }
  }

  /** hostToNet64: both shifts of a byte are by the same amount, so the result is the argument. */
  method HostToNet64(v: bv64) returns (r: bv64)
    ensures r == v
  {
    r := 0;
    var shift: bv64 := 64;
    while shift > 0
      invariant shift in [0, 8, 16, 24, 32, 40, 48, 56, 64]
      invariant HighPart(r, v, shift)
      decreases shift
    {
      shift := shift - 8;
      if shift >= 48 {
        OrHighByte(r, v, shift);
      } else if shift >= 32 {
        OrMiddleByte(r, v, shift);
      } else if shift >= 16 {
        OrThirdByte(r, v, shift);
      } else {
        OrLowByte(r, v, shift);
      }
      r := r | (((v >> shift) & 0xFF) << shift);
    }
  }
}
