/** The packed bit vector of main/extern/rleplus/internal/bitvector.go, proved to
    refine a plain sequence of bits for both byte packings. */
module BitVectors {
  import opened Words

  datatype BitNumbering = LSB0 | MSB0

  /** The binary digit of a byte that holds position `i` under `order`. */
  function Slot(order: BitNumbering, i: nat): (k: nat)
    requires i < 8
    ensures k < 8
    ensures order.LSB0? ==> k == i
  {
    if order.LSB0? then i else 7 - i
  }

  /** Bit `i` of a byte buffer, whether or not it is below the logical length. */
  function RawBit(buf: seq<Byte>, packing: BitNumbering, i: nat): Bit
    requires i < 8 * |buf|
  {
    BitOf(buf[i / 8], Slot(packing, i % 8))
  }

  /** Under LSB0 the first bit of a byte is its low-order digit, under MSB0 its high-order one. */
  lemma BitOrder(b: Byte, i: nat)
    requires i < 8
    ensures RawBit([b], LSB0, i) == BitOf(b, i)
    ensures RawBit([b], MSB0, i) == BitOf(b, 7 - i)
  {
  }

  /** The first `n` bits of a byte buffer, in vector order. */
  function Prefix(buf: seq<Byte>, packing: BitNumbering, n: nat): (bits: seq<Bit>)
    requires n <= 8 * |buf|
    ensures |bits| == n
    ensures forall i :: 0 <= i < n ==> bits[i] == RawBit(buf, packing, i)
  {
    seq<Bit>(n, i requires 0 <= i < n => RawBit(buf, packing, i))
  }

  /** Every bit of the buffer. */
  function Unpack(buf: seq<Byte>, packing: BitNumbering): (bits: seq<Bit>)
    ensures |bits| == 8 * |buf|
  {
    Prefix(buf, packing, 8 * |buf|)
  }

  /** Reading a finite bit sequence that continues with endless zeros. */
  function At(bits: seq<Bit>, i: nat): Bit {
    if i < |bits| then bits[i] else 0
  }

  function Window(bits: seq<Bit>, pos: nat, n: nat): (w: seq<Bit>)
    ensures |w| == n
    ensures forall i :: 0 <= i < n ==> w[i] == At(bits, pos + i)
  {
    seq<Bit>(n, i requires 0 <= i < n => At(bits, pos + i))
  }

  /** The digits of `val` that Extend adds, first one first. */
  function Selected(val: Byte, count: nat, order: BitNumbering): (bits: seq<Bit>)
    requires count <= 8
    ensures |bits| == count
  {
    seq(count, i requires 0 <= i < count => BitOf(val, Slot(order, i)))
  }

  /** `val` with every digit outside the selected ones cleared. */
  ghost predicate IsMasked(out: Byte, val: Byte, count: nat, order: BitNumbering)
    requires count <= 8
  {
    forall i :: 0 <= i < 8 ==>
      BitOf(out, Slot(order, i)) == if i < count then BitOf(val, Slot(order, i)) else 0
  }

  /** What Take computes: the byte's slots hold the `count` bits from `index` on. */
  ghost predicate IsTaken(out: Byte, bits: seq<Bit>, index: nat, count: nat, order: BitNumbering)
    requires count <= 8
  {
    forall i :: 0 <= i < 8 ==>
      BitOf(out, Slot(order, i)) == if i < count then At(bits, index + i) else 0
  }

  /** LSB0 packing of a bit sequence into bytes, the last one padded with zeros. */
  function Pack(bits: seq<Bit>): (buf: seq<Byte>)
    ensures |buf| == (|bits| + 7) / 8
  {
    seq((|bits| + 7) / 8, k requires 0 <= k < (|bits| + 7) / 8 => PackByte(bits, k))
  }

  function PackByte(bits: seq<Bit>, k: nat): Byte {
    FromBitsBit(Window(bits, 8 * k, 8), 0);
    Pow2Of8();
    FromBits(Window(bits, 8 * k, 8))
  }

  /** The bits of the last byte from position `n` on are zero. */
  ghost predicate PaddedFrom(buf: seq<Byte>, packing: BitNumbering, n: nat) {
    forall i :: n <= i < 8 * |buf| ==> RawBit(buf, packing, i) == 0
  }

  /** What is already stored at position `n`, a byte still to be appended being zero. */
  function Stale(buf: seq<Byte>, packing: BitNumbering, n: nat): Bit {
    if n < 8 * |buf| then RawBit(buf, packing, n) else 0
  }

  /** The buffer after one Push at position `n`. */
  function Pushed(was: seq<Byte>, packing: BitNumbering, n: nat, b: Bit): (buf: seq<Byte>)
    requires |was| == (n + 7) / 8
  {
    var grown: seq<Byte> := if n % 8 == 0 then was + [0] else was;
    var k := Slot(packing, n % 8);
    OrByte(grown[n / 8], b, k);
    grown[n / 8 := Or(grown[n / 8], Shl(b, k))]
  }

  /** Or-ing a bit into the byte that holds position `n` changes no other position. */
  lemma PushedBit(was: seq<Byte>, packing: BitNumbering, n: nat, b: Bit, i: nat)
    requires |was| == (n + 7) / 8
    requires i < 8 * |Pushed(was, packing, n, b)|
    ensures RawBit(Pushed(was, packing, n, b), packing, i) ==
            if i == n && b == 1 then 1 else Stale(was, packing, i)
  {
    var grown: seq<Byte> := if n % 8 == 0 then was + [0] else was;
    var k := Slot(packing, n % 8);
    var s := Slot(packing, i % 8);
    if i / 8 == n / 8 {
      OrBit(grown[n / 8], Shl(b, k), s);
      ShlOneBit(b, k, s);
    }
    if i >= 8 * |was| { ZeroBit(s); }
  }

  lemma PushedBits(was: seq<Byte>, packing: BitNumbering, n: nat, b: Bit)
    requires |was| == (n + 7) / 8
    ensures var buf := Pushed(was, packing, n, b);
      && |buf| == (n + 8) / 8
      && Prefix(buf, packing, n + 1) ==
         Prefix(was, packing, n) + [if b == 1 then 1 else Stale(was, packing, n)]
      && (forall i :: i > n ==> Stale(buf, packing, i) == Stale(was, packing, i))
      && (PaddedFrom(was, packing, n) ==> PaddedFrom(buf, packing, n + 1) && Stale(was, packing, n) == 0)
  {
    var buf := Pushed(was, packing, n, b);
    forall i | 0 <= i < 8 * |buf|
      ensures RawBit(buf, packing, i) == if i == n && b == 1 then 1 else Stale(was, packing, i)
    {
      PushedBit(was, packing, n, b, i);
    }
  }

  /** New bits as they appear from position `n` on, stale ones showing through. */
  function Merged(bits: seq<Bit>, buf: seq<Byte>, packing: BitNumbering, n: nat): (m: seq<Bit>)
    ensures |m| == |bits|
    ensures forall i :: 0 <= i < |bits| ==> m[i] == if bits[i] == 1 then 1 else Stale(buf, packing, n + i)
  {
    seq<Bit>(|bits|, i requires 0 <= i < |bits| => if bits[i] == 1 then 1 else Stale(buf, packing, n + i))
  }

  lemma MergedPadded(bits: seq<Bit>, buf: seq<Byte>, packing: BitNumbering, n: nat)
    requires PaddedFrom(buf, packing, n)
    ensures Merged(bits, buf, packing, n) == bits
  {
  }

  lemma TakenStep(out: Byte, bits: seq<Bit>, index: nat, i: nat, order: BitNumbering)
    requires i < 8 && IsTaken(out, bits, index, i, order)
    ensures Or(out, Shl(At(bits, index + i), Slot(order, i))) < 256
    ensures IsTaken(Or(out, Shl(At(bits, index + i), Slot(order, i))), bits, index, i + 1, order)
  {
    var val := At(bits, index + i);
    OrByte(out, val, Slot(order, i));
    forall k | 0 <= k < 8
      ensures BitOf(Or(out, Shl(val, Slot(order, i))), Slot(order, k)) ==
              if k < i + 1 then At(bits, index + k) else 0
    {
      OrBit(out, Shl(val, Slot(order, i)), Slot(order, k));
      ShlOneBit(val, Slot(order, i), Slot(order, k));
    }
  }

  class BitVector {
    var Buf: seq<Byte>
    var BytePacking: BitNumbering
    var Len: nat

    /** The buffer holds exactly the bytes the logical length needs. */
    ghost predicate Valid()
      reads this
    {
      |Buf| == (Len + 7) / 8
    }

    /** The abstract value: the first Len bits. */
    ghost function Bits(): (bits: seq<Bit>)
      requires Valid()
      reads this
      ensures |bits| == Len
    {
      Prefix(Buf, BytePacking, Len)
    }

    ghost predicate ZeroPadded()
      reads this
    {
      PaddedFrom(Buf, BytePacking, Len)
    }

    /** The zero value of the struct. */
    constructor Empty(packing: BitNumbering)
      ensures Valid() && ZeroPadded()
      ensures Bits() == [] && BytePacking == packing && Buf == [] && Len == 0
    {
      Buf := [];
      BytePacking := packing;
      Len := 0;
    }

    /** NewBitVector: every bit of the given bytes. */
    constructor FromBytes(buf: seq<Byte>, packing: BitNumbering)
      ensures Valid() && ZeroPadded()
      ensures Buf == buf && BytePacking == packing
      ensures Bits() == Unpack(buf, packing)
    {
      Buf := buf;
      BytePacking := packing;
      Len := 8 * |buf|;
    }

    /** Adds the low-order bit of `val`. The bit is or-ed in, so a stale one in the
        padding shows through; when the padding is zero the vector grows by exactly
        that bit and stays zero padded. */
    method Push(val: Byte)
      requires Valid()
      modifies `Buf, `Len
      ensures Valid()
      ensures Bits() == old(Bits()) +
              [if val % 2 == 1 then 1 else old(Stale(Buf, BytePacking, Len))]
      ensures forall i :: i >= Len ==> Stale(Buf, BytePacking, i) == Stale(old(Buf), BytePacking, i)
      ensures old(ZeroPadded()) ==> ZeroPadded() && Bits() == old(Bits()) + [val % 2]
    {
      hide Prefix, PaddedFrom, RawBit, Or, Shl;
      ghost var was, packing, n, b := Buf, BytePacking, Len, val % 2;
      if Len % 8 == 0 {
        Buf := Buf + [0];
      }
      var lastIdx := Len / 8;
      var k := match BytePacking {
        case LSB0 => Len % 8
        case MSB0 => 7 - Len % 8
      };
      OrByte(Buf[lastIdx], val % 2, k);
      Buf := Buf[lastIdx := Or(Buf[lastIdx], Shl(val % 2, k))];
      Len := Len + 1;
      assert Buf == Pushed(was, packing, n, b);
      PushedBits(was, packing, n, b);
    }

    /** One bit as a byte, or an out-of-range error together with 0. */
    function Get(idx: nat): (r: (Byte, bool))
      requires Valid()
      reads this
      ensures r.1 <==> idx < Len
      ensures r.0 == At(Bits(), idx)
    {
      if idx >= Len then (0, false)
      else
        var b := Buf[idx / 8];
        ShrBit(b, idx % 8);
        ShrBit(b, 7 - idx % 8);
        match BytePacking
        case LSB0 => (Shr(b, idx % 8) % 2, true)
        case MSB0 => (Shr(b, 7 - idx % 8) % 2, true)
    }

    /** Adds `count` bits of `val`; a larger count than 8 makes the source panic. */
    method Extend(val: Byte, count: nat, order: BitNumbering)
      requires Valid() && count <= 8
      modifies `Buf, `Len
      ensures Valid()
      ensures Len == old(Len) + count
      ensures Bits() == old(Bits()) + Merged(Selected(val, count, order), old(Buf), BytePacking, old(Len))
      ensures old(ZeroPadded()) ==> ZeroPadded() && Bits() == old(Bits()) + Selected(val, count, order)
    {
      hide Prefix, PaddedFrom, Stale;
      ghost var was, buf, packing, n := Bits(), Buf, BytePacking, Len;
      ghost var padded := ZeroPadded();
      ghost var all := Selected(val, count, order);
      ghost var merged := Merged(all, buf, packing, n);
      if padded { MergedPadded(all, buf, packing, n); }
      var i := 0;
      while i < count
        invariant 0 <= i <= count
        invariant Valid() && Len == n + i
        invariant forall k :: k >= Len ==> Stale(Buf, packing, k) == Stale(buf, packing, k)
        invariant Bits() == was + merged[..i]
        invariant padded ==> ZeroPadded()
      {
        ghost var s := Slot(order, i);
        ShrBit(val, s);
        match order {
          case LSB0 => Push(Shr(val, i) % 2);
          case MSB0 => Push(Shr(val, 7 - i) % 2);
        }
        assert merged[..i + 1] == merged[..i] + [merged[i]];
        i := i + 1;
      }
      assert merged[..count] == merged;
    }

    /** Reads `count` bits at `index`, zeros past the end. */
    method Take(index: nat, count: nat, order: BitNumbering) returns (out: Byte)
      requires Valid() && count <= 8
      ensures IsTaken(out, Bits(), index, count, order)
      ensures order.LSB0? ==> out == FromBits(Window(Bits(), index, count))
    {
      ghost var bits := Bits();
      out := 0;
      forall k | 0 <= k < 8 ensures BitOf(out, Slot(order, k)) == 0 { ZeroBit(Slot(order, k)); }
      var i := 0;
      while i < count
        invariant 0 <= i <= count
        invariant IsTaken(out, bits, index, i, order)
      {
        var val := Get(index + i).0;
        var s := match order {
          case LSB0 => i
          case MSB0 => 7 - i
        };
        OrByte(out, val, s);
        TakenStep(out, bits, index, i, order);
        out := Or(out, Shl(val, s));
        i := i + 1;
      }
      if order.LSB0? { TakenIsWindow(out, bits, index, count); }
    }
  }

  /** The closure returned by Iterator: a cursor over a vector. */
  class BitIterator {
    const vector: BitVector
    const order: BitNumbering
    var cursor: nat

    constructor (vector: BitVector, order: BitNumbering)
      ensures this.vector == vector && this.order == order && cursor == 0
    {
      this.vector := vector;
      this.order := order;
      cursor := 0;
    }

    method Next(count: nat) returns (out: Byte)
      requires vector.Valid() && count <= 8
      modifies `cursor
      ensures cursor == old(cursor) + count
      ensures IsTaken(out, vector.Bits(), old(cursor), count, order)
      ensures order.LSB0? ==> out == FromBits(Window(vector.Bits(), old(cursor), count))
    {
      out := vector.Take(cursor, count, order);
      cursor := cursor + count;
    }
  }

  lemma TakenIsWindow(out: Byte, bits: seq<Bit>, index: nat, count: nat)
    requires count <= 8 && IsTaken(out, bits, index, count, LSB0)
    ensures out == FromBits(Window(bits, index, count))
  {
    var w := Window(bits, index, count);
    FromBitsBit(w, 0);
    Pow2Mono(count, 8);
    Pow2Of8();
    forall i | 0 <= i < 8 ensures BitOf(out, i) == BitOf(FromBits(w), i) {
      FromBitsBit(w, i);
      assert Slot(LSB0, i) == i;
    }
    BitsDetermine(out, FromBits(w), 8);
  }

  /** A byte is determined by what its eight slots hold. */
  lemma SlotsDetermine(a: Byte, b: Byte, order: BitNumbering)
    requires forall i :: 0 <= i < 8 ==> BitOf(a, Slot(order, i)) == BitOf(b, Slot(order, i))
    ensures a == b
  {
    Pow2Of8();
    forall k | 0 <= k < 8 ensures BitOf(a, k) == BitOf(b, k) {
      var i := if order.LSB0? then k else 7 - k;
      assert Slot(order, i) == k;
    }
    BitsDetermine(a, b, 8);
  }

  /** Take of an Extend at the same position, count and order gives back exactly the
      selected digits of the byte, whatever precedes and follows. */
  lemma TakeRecoversExtend(before: seq<Bit>, val: Byte, count: nat, order: BitNumbering,
                           after: seq<Bit>, out: Byte, masked: Byte)
    requires count <= 8
    requires IsTaken(out, before + Selected(val, count, order) + after, |before|, count, order)
    requires IsMasked(masked, val, count, order)
    ensures out == masked
    ensures count == 8 ==> out == val
  {
    SlotsDetermine(out, masked, order);
    if count == 8 { SlotsDetermine(out, val, order); }
  }

  /** An LSB0 buffer with zero padding is the packing of its bits. */
  lemma PaddedIsPack(buf: seq<Byte>, n: nat)
    requires |buf| == (n + 7) / 8 && PaddedFrom(buf, LSB0, n)
    ensures buf == Pack(Prefix(buf, LSB0, n))
  {
    var bits := Prefix(buf, LSB0, n);
    forall k | 0 <= k < |buf| ensures buf[k] == Pack(bits)[k] {
      forall i | 0 <= i < 8
        ensures BitOf(buf[k], Slot(LSB0, i)) == if i < 8 then At(bits, 8 * k + i) else 0
      {
        assert RawBit(buf, LSB0, 8 * k + i) == At(bits, 8 * k + i);
      }
      TakenIsWindow(buf[k], bits, 8 * k, 8);
    }
  }

  /** Packing then unpacking gives the bits back, followed only by zeros. */
  lemma UnpackPack(bits: seq<Bit>, i: nat)
    ensures At(Unpack(Pack(bits), LSB0), i) == At(bits, i)
  {
    var buf := Pack(bits);
    if i < 8 * |buf| {
      FromBitsBit(Window(bits, 8 * (i / 8), 8), i % 8);
    }
  }
}
