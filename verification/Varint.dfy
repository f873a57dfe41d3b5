/** Unsigned base-128 varints, as Go's encoding/binary writes and reads them. */
module Varint {
  import opened Words

  /** Bytes written by PutUvarint: seven bits each, low group first, the top bit set
      on all but the last. */
  function PutUvarint(x: nat): seq<Byte> {
    if x < 128 then [x] else [x % 128 + 128] + PutUvarint(x / 128)
  }

  /** Exactly one byte, the last, is below 0x80. */
  ghost predicate Terminated(buf: seq<Byte>) {
    |buf| > 0 && buf[|buf| - 1] < 128 && forall i :: 0 <= i < |buf| - 1 ==> buf[i] >= 128
  }

  /** The unbounded base-128 value. */
  function Value(buf: seq<Byte>): nat {
    if buf == [] then 0 else buf[0] % 128 + 128 * Value(buf[1..])
  }

  /** The value Uvarint returns for a terminated buffer: zero on overflow, which the
      library detects on the tenth byte. */
  function Uvarint(buf: seq<Byte>): U64
    requires Terminated(buf)
  {
    if |buf| > 10 || (|buf| == 10 && buf[9] > 1) then 0
    else ValueFits(buf); Value(buf)
  }

  function Pow128(n: nat): (p: nat)
    ensures p > 0
  {
    if n == 0 then 1 else 128 * Pow128(n - 1)
  }

  lemma Pow128Of9()
    ensures Pow128(9) == TWO_63
  {
    assert Pow128(3) == 128 * 128 * 128;
    assert Pow128(6) == 128 * 128 * 128 * 128 * 128 * 128;
  }

  lemma ScaleBounds(last: nat, p: nat, v: nat, low: nat)
    requires last * p <= v < (last + 1) * p && low < 128
    ensures last * (128 * p) <= low + 128 * v < (last + 1) * (128 * p)
  {
    var a := last * p;
    assert last * (128 * p) == 128 * a;
    assert (last + 1) * (128 * p) == 128 * (a + p);
  }

  /** A terminated buffer's value lies between the weight of its last byte and the next. */
  lemma {:induction false} ValueBounds(buf: seq<Byte>)
    requires Terminated(buf)
    ensures buf[|buf| - 1] * Pow128(|buf| - 1) <= Value(buf)
    ensures Value(buf) < (buf[|buf| - 1] + 1) * Pow128(|buf| - 1)
    decreases |buf|
  {
    if |buf| > 1 {
      ValueBounds(buf[1..]);
      ScaleBounds(buf[|buf| - 1], Pow128(|buf| - 2), Value(buf[1..]), buf[0] % 128);
    } else {
      assert Value(buf[1..]) == 0;
    }
  }

  lemma {:induction false} Pow128Mono(m: nat, n: nat)
    requires m <= n
    ensures Pow128(m) <= Pow128(n)
    decreases n
  {
    if m < n { Pow128Mono(m, n - 1); }
  }

  lemma MulMono(a: nat, b: nat, p: nat)
    requires a <= b
    ensures a * p <= b * p
  {
  }

  lemma ValueFits(buf: seq<Byte>)
    requires Terminated(buf)
    requires |buf| < 10 || (|buf| == 10 && buf[9] <= 1)
    ensures Value(buf) < TWO_64
  {
    ValueBounds(buf);
    Pow128Of9();
    var last, p := buf[|buf| - 1], Pow128(|buf| - 1);
    if |buf| < 10 {
      Pow128Mono(|buf| - 1, 8);
      MulMono(last + 1, 128, p);
    } else {
      MulMono(last + 1, 2, p);
    }
  }

  /** A varint that needs an eleventh byte, or more than one bit of the tenth, is too big. */
  lemma ValueOverflows(buf: seq<Byte>)
    requires Terminated(buf)
    requires (|buf| == 10 && buf[9] > 1) || (|buf| > 10 && buf[|buf| - 1] > 0)
    ensures Value(buf) >= TWO_64
  {
    ValueBounds(buf);
    Pow128Of9();
    var last, p := buf[|buf| - 1], Pow128(|buf| - 1);
    if |buf| == 10 {
      MulMono(2, last, p);
    } else {
      Pow128Mono(10, |buf| - 1);
      MulMono(1, last, p);
    }
  }

  /** The overflow test on the tenth byte is exact: Uvarint returns the base-128 value
      precisely when it fits 64 bits in at most ten bytes, and 0 otherwise. */
  lemma UvarintExact(buf: seq<Byte>)
    requires Terminated(buf)
    ensures Uvarint(buf) == if |buf| <= 10 && Value(buf) < TWO_64 then Value(buf) else 0
  {
    if |buf| == 10 && buf[9] > 1 {
      ValueOverflows(buf);
    } else if |buf| <= 10 {
      ValueFits(buf);
    }
  }

  /** What PutUvarint writes is terminated, has the right value, and is the shortest. */
  lemma {:induction false} PutUvarintExact(x: nat)
    ensures Terminated(PutUvarint(x)) && Value(PutUvarint(x)) == x
    ensures x >= 128 ==> PutUvarint(x)[|PutUvarint(x)| - 1] > 0
    decreases x
  {
    if x >= 128 {
      var tail := PutUvarint(x / 128);
      PutUvarintExact(x / 128);
      assert PutUvarint(x)[1..] == tail;
      assert PutUvarint(x)[|PutUvarint(x)| - 1] == tail[|tail| - 1];
    } else {
      assert PutUvarint(x)[1..] == [];
    }
  }

  /** Ten bytes hold any 64-bit value, and reading them back gives it. */
  lemma UvarintRoundTrip(x: U64)
    ensures |PutUvarint(x)| <= 10
    ensures Terminated(PutUvarint(x)) && Uvarint(PutUvarint(x)) == x
  {
    var buf := PutUvarint(x);
    PutUvarintExact(x);
    if |buf| > 10 || (|buf| == 10 && buf[9] > 1) {
      ValueOverflows(buf);
    }
  }
}
