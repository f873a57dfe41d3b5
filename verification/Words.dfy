/** Machine words as bounded integers, with Go's bitwise operators written out
    arithmetically: bit `i` of `x` is the parity of `x / 2^i`. */
module Words {
  type Bit = x: int | 0 <= x < 2
  type Byte = x: int | 0 <= x < 256
  const TWO_63: int := 0x8000_0000_0000_0000
  const TWO_64: nat := 0x1_0000_0000_0000_0000
  type U64 = x: int | 0 <= x < TWO_64

  datatype Option<+T> = None | Some(value: T)

  function BitOf(x: nat, i: nat): Bit
    decreases i
  {
    if i == 0 then x % 2 else BitOf(x / 2, i - 1)
  }

  function Shl(x: nat, k: nat): nat
    decreases k
  {
    if k == 0 then x else Shl(2 * x, k - 1)
  }

  function Shr(x: nat, k: nat): nat
    decreases k
  {
    if k == 0 then x else Shr(x / 2, k - 1)
  }

  function Or(x: nat, y: nat): nat
    decreases x + y
  {
    if x == 0 && y == 0 then 0
    else 2 * Or(x / 2, y / 2) + (if x % 2 == 1 || y % 2 == 1 then 1 else 0)
  }

  function Pow2(n: nat): (p: nat)
    ensures p > 0
  {
    if n == 0 then 1 else 2 * Pow2(n - 1)
  }

  /** The number whose binary digits, least significant first, are `bits`. */
  function FromBits(bits: seq<Bit>): nat {
    if bits == [] then 0 else bits[0] + 2 * FromBits(bits[1..])
  }

  /** The `n` low-order digits of `x`, least significant first. */
  function ToBits(x: nat, n: nat): (bits: seq<Bit>)
    ensures |bits| == n
    ensures forall i :: 0 <= i < n ==> bits[i] == BitOf(x, i)
  {
    seq(n, i requires 0 <= i < n => BitOf(x, i))
  }

  lemma {:induction false} ShrBit(x: nat, k: nat)
    ensures Shr(x, k) % 2 == BitOf(x, k)
    decreases k
  {
    if k > 0 { ShrBit(x / 2, k - 1); }
  }

  lemma {:induction false} OrBit(x: nat, y: nat, i: nat)
    ensures BitOf(Or(x, y), i) == if BitOf(x, i) == 1 || BitOf(y, i) == 1 then 1 else 0
    decreases i
  {
    if x == 0 && y == 0 {
      ZeroBit(i);
    } else if i > 0 {
      OrBit(x / 2, y / 2, i - 1);
      assert Or(x, y) / 2 == Or(x / 2, y / 2);
    }
  }

  lemma {:induction false} ZeroBit(i: nat)
    ensures BitOf(0, i) == 0
    decreases i
  {
    if i > 0 { ZeroBit(i - 1); }
  }

  lemma {:induction false} ShlBit(x: nat, k: nat, i: nat)
    ensures BitOf(Shl(x, k), i) == if i < k then 0 else BitOf(x, i - k)
    decreases k
  {
    if k > 0 {
      ShlBit(2 * x, k - 1, i);
      if i == k - 1 {
        assert BitOf(2 * x, 0) == 0;
      } else if i >= k {
        assert (2 * x) / 2 == x;
        assert BitOf(2 * x, i - (k - 1)) == BitOf((2 * x) / 2, i - k);
      }
    }
  }

  lemma ShlOneBit(b: Bit, k: nat, i: nat)
    ensures BitOf(Shl(b, k), i) == if i == k then b else 0
  {
    ShlBit(b, k, i);
    if i > k {
      assert BitOf(b, i - k) == BitOf(b / 2, i - k - 1);
      ZeroBit(i - k - 1);
    }
  }

  lemma {:induction false} ShlValue(x: nat, k: nat)
    ensures Shl(x, k) == x * Pow2(k)
    decreases k
  {
    if k > 0 { ShlValue(2 * x, k - 1); }
  }

  lemma {:induction false} OrBound(x: nat, y: nat, n: nat)
    requires x < Pow2(n) && y < Pow2(n)
    ensures Or(x, y) < Pow2(n)
    decreases n
  {
    if n > 0 && !(x == 0 && y == 0) { OrBound(x / 2, y / 2, n - 1); }
  }

  lemma {:induction false} Pow2Mono(m: nat, n: nat)
    requires m <= n
    ensures Pow2(m) <= Pow2(n)
    decreases n
  {
    if m < n { Pow2Mono(m, n - 1); }
  }

  lemma Pow2Of8()
    ensures Pow2(8) == 256 && Pow2(4) == 16 && Pow2(2) == 4
  {
    assert Pow2(4) == 16;
    assert Pow2(6) == 64;
  }

  lemma ShlByte(b: Bit, k: nat)
    requires k < 8
    ensures Shl(b, k) < 256
  {
    ShlValue(b, k);
    Pow2Mono(k, 7);
    Pow2Of8();
    assert b * Pow2(k) <= Pow2(k) by { if b == 0 {} else { assert b == 1; } }
  }

  lemma OrByte(x: Byte, b: Bit, k: nat)
    requires k < 8
    ensures Or(x, Shl(b, k)) < 256
  {
    ShlByte(b, k);
    Pow2Of8();
    OrBound(x, Shl(b, k), 8);
  }

  /** A number below 2^n is determined by its n low-order bits. */
  lemma {:induction false} BitsDetermine(x: nat, y: nat, n: nat)
    requires x < Pow2(n) && y < Pow2(n)
    requires forall i :: 0 <= i < n ==> BitOf(x, i) == BitOf(y, i)
    ensures x == y
    decreases n
  {
    if n > 0 {
      assert BitOf(x, 0) == BitOf(y, 0);
      forall i | 0 <= i < n - 1 ensures BitOf(x / 2, i) == BitOf(y / 2, i) {
        assert BitOf(x, i + 1) == BitOf(y, i + 1);
      }
      BitsDetermine(x / 2, y / 2, n - 1);
    }
  }

  lemma {:induction false} FromBitsBit(bits: seq<Bit>, i: nat)
    ensures FromBits(bits) < Pow2(|bits|)
    ensures BitOf(FromBits(bits), i) == if i < |bits| then bits[i] else 0
    decreases |bits|
  {
    if bits == [] {
      ZeroBit(i);
    } else {
      FromBitsBit(bits[1..], if i == 0 then 0 else i - 1);
      assert FromBits(bits) / 2 == FromBits(bits[1..]);
    }
  }

  lemma FromToBits(x: nat, n: nat)
    requires x < Pow2(n)
    ensures FromBits(ToBits(x, n)) == x
  {
    var bits := ToBits(x, n);
    FromBitsBit(bits, 0);
    forall i | 0 <= i < n ensures BitOf(FromBits(bits), i) == BitOf(x, i) {
      FromBitsBit(bits, i);
    }
    BitsDetermine(FromBits(bits), x, n);
  }

  lemma ToFromBits(bits: seq<Bit>)
    ensures ToBits(FromBits(bits), |bits|) == bits
  {
    forall i | 0 <= i < |bits| ensures BitOf(FromBits(bits), i) == bits[i] {
      FromBitsBit(bits, i);
    }
  }
}
