/** The RLE+ block grammar (Filecoin specification, section "RLE+ Bitset Encoding"):
    a printer for block lists, a parser for bit strings that continue with endless
    zeros, and the proof that the parser inverts the printer. */
module RleFormat {
  import opened Words
  import opened BitVectors
  import opened Varint

  type Nibble = x: int | 0 <= x < 16

  /** block_single, block_short and block_long of the grammar. */
  datatype Block = Single | Short(n: Nibble) | Long(bytes: seq<Byte>)

  const MAX_VARINT: nat := 11

  /** A byte group as the decoder collects it: up to and including the first byte below
      0x80, or eleven continuation bytes. */
  ghost predicate Group(bytes: seq<Byte>, left: nat) {
    && 0 < |bytes| <= left
    && (forall i :: 0 <= i < |bytes| - 1 ==> bytes[i] >= 128)
    && (bytes[|bytes| - 1] >= 128 ==> |bytes| == left)
  }

  ghost predicate WellFormed(b: Block) {
    b.Long? ==> Group(b.bytes, MAX_VARINT)
  }

  /** A long block whose eleventh byte still announces another one. */
  predicate IsOverlong(b: Block) {
    b.Long? && |b.bytes| > 0 && b.bytes[|b.bytes| - 1] >= 128
  }

  /** The run length a block stands for. */
  ghost function RunOf(b: Block): U64 {
    match b
    case Single => 1
    case Short(n) => n
    case Long(bytes) => if Terminated(bytes) then Uvarint(bytes) else 0
  }

  /** A long block of value 0 ends the encoding. */
  ghost predicate IsStop(b: Block) {
    b.Long? && !IsOverlong(b) && RunOf(b) == 0
  }

  ghost predicate IsFinal(b: Block) {
    IsOverlong(b) || IsStop(b)
  }

  // ---------------------------------------------------------------- printing

  function BytesBits(bytes: seq<Byte>): (bits: seq<Bit>)
    ensures |bits| == 8 * |bytes|
  {
    if bytes == [] then [] else ToBits(bytes[0], 8) + BytesBits(bytes[1..])
  }

  /** Bits taken by a block. */
  function Size(b: Block): nat {
    match b
    case Single => 1
    case Short(_) => 6
    case Long(bytes) => 2 + 8 * |bytes|
  }

  function Print(b: Block): (bits: seq<Bit>)
    ensures |bits| == Size(b)
  {
    match b
    case Single => [1]
    case Short(n) => [0, 1] + ToBits(n, 4)
    case Long(bytes) => [0, 0] + BytesBits(bytes)
  }

  function PrintAll(blocks: seq<Block>): seq<Bit> {
    if blocks == [] then [] else Print(blocks[0]) + PrintAll(blocks[1..])
  }

  // ----------------------------------------------------------------- parsing

  function ByteAt(s: seq<Bit>, pos: nat): Byte {
    FromBitsBit(Window(s, pos, 8), 0);
    Pow2Of8();
    FromBits(Window(s, pos, 8))
  }

  function ReadVarint(s: seq<Bit>, pos: nat, left: nat): (bytes: seq<Byte>)
    requires left > 0
    ensures Group(bytes, left)
    decreases left, pos
  {
    var b := ByteAt(s, pos);
    if b < 128 || left == 1 then [b] else [b] + ReadVarint(s, pos + 8, left - 1)
  }

  function NibbleAt(s: seq<Bit>, pos: nat): Nibble {
    FromBitsBit(Window(s, pos, 4), 0);
    Pow2Of8();
    FromBits(Window(s, pos, 4))
  }

  function ReadBlock(s: seq<Bit>, pos: nat): (b: Block)
    ensures WellFormed(b)
  {
    if At(s, pos) == 1 then Single
    else if At(s, pos + 1) == 1 then Short(NibbleAt(s, pos + 2))
    else Long(ReadVarint(s, pos + 2, MAX_VARINT))
  }

  /** All blocks up to and including the first final one. */
  ghost function Parse(s: seq<Bit>, pos: nat): (blocks: seq<Block>)
    ensures |blocks| > 0
    decreases Unread(s, pos)
  {
    var b := ReadBlock(s, pos);
    if IsFinal(b) then [b]
    else
      NotFinalInside(s, pos);
      [b] + Parse(s, pos + Size(b))
  }

  function Unread(s: seq<Bit>, pos: nat): nat {
    if pos < |s| then |s| - pos else 0
  }

  /** Past the end of the data the decoder reads a zero varint. */
  lemma ZerosAreStop(s: seq<Bit>, pos: nat)
    requires pos >= |s|
    ensures ReadBlock(s, pos) == Long([0])
  {
    var w := Window(s, pos + 2, 8);
    forall i | 0 <= i < 8 ensures BitOf(FromBits(w), i) == BitOf(0, i) {
      FromBitsBit(w, i);
      ZeroBit(i);
    }
    FromBitsBit(w, 0);
    BitsDetermine(FromBits(w), 0, 8);
  }

  lemma NotFinalInside(s: seq<Bit>, pos: nat)
    requires !IsFinal(ReadBlock(s, pos))
    ensures pos < |s|
  {
    if pos >= |s| { ZerosAreStop(s, pos); }
  }

  /** The stream holds these bytes, eight bits each, from `pos` on. */
  ghost predicate BytesFrom(s: seq<Bit>, pos: nat, bytes: seq<Byte>) {
    forall k :: 0 <= k < |bytes| ==> bytes[k] == ByteAt(s, pos + 8 * k)
  }

  lemma {:induction false} ReadVarintIs(s: seq<Bit>, pos: nat, left: nat, bytes: seq<Byte>)
    requires left > 0 && Group(bytes, left) && BytesFrom(s, pos, bytes)
    ensures bytes == ReadVarint(s, pos, left)
    decreases left
  {
    hide ByteAt;
    assert bytes[0] == ByteAt(s, pos + 8 * 0);
    if |bytes| > 1 {
      forall k | 0 <= k < |bytes| - 1 ensures bytes[1..][k] == ByteAt(s, pos + 8 + 8 * k) {
        assert bytes[k + 1] == ByteAt(s, pos + 8 * (k + 1));
      }
      ReadVarintIs(s, pos + 8, left - 1, bytes[1..]);
      assert bytes == [bytes[0]] + bytes[1..];
    }
  }

  // ----------------------------------------------- the parser and the grammar

  /** The stream holds `w` at `pos`. */
  ghost predicate Matches(s: seq<Bit>, pos: nat, w: seq<Bit>) {
    Window(s, pos, |w|) == w
  }

  /** A well-formed block list whose one final block is its last. */
  ghost predicate Ended(blocks: seq<Block>) {
    && |blocks| > 0
    && WellFormed(blocks[0])
    && (if IsFinal(blocks[0]) then |blocks| == 1 else Ended(blocks[1..]))
  }

  /** `blocks` is a grammatical reading of the stream at `pos`, ending at its first
      final block. */
  ghost predicate Derives(s: seq<Bit>, pos: nat, blocks: seq<Block>) {
    Ended(blocks) && Matches(s, pos, PrintAll(blocks))
  }

  lemma MatchesConcat(s: seq<Bit>, pos: nat, u: seq<Bit>, v: seq<Bit>)
    ensures Matches(s, pos, u + v) <==> Matches(s, pos, u) && Matches(s, pos + |u|, v)
  {
    var a, b := Window(s, pos, |u|), Window(s, pos + |u|, |v|);
    assert Window(s, pos, |u + v|) == a + b;
    assert a == (a + b)[..|u|] && b == (a + b)[|u|..];
    assert u == (u + v)[..|u|] && v == (u + v)[|u|..];
  }

  lemma MatchesNothing(s: seq<Bit>, pos: nat)
    ensures Matches(s, pos, [])
  {
  }

  /** The stream holds the `n` digits of `x` exactly when reading `n` bits gives `x`. */
  lemma MatchesNumber(s: seq<Bit>, pos: nat, x: nat, n: nat)
    requires x < Pow2(n)
    ensures Matches(s, pos, ToBits(x, n)) <==> FromBits(Window(s, pos, n)) == x
  {
    FromToBits(x, n);
    ToFromBits(Window(s, pos, n));
  }

  lemma {:induction false} ReadVarintExact(s: seq<Bit>, pos: nat, left: nat, bytes: seq<Byte>)
    requires left > 0 && Group(bytes, left)
    ensures Matches(s, pos, BytesBits(bytes)) <==> bytes == ReadVarint(s, pos, left)
    decreases left
  {
    hide Matches, FromBits, ToBits, Pow2;
    Pow2Of8();
    MatchesNumber(s, pos, bytes[0], 8);
    MatchesConcat(s, pos, ToBits(bytes[0], 8), BytesBits(bytes[1..]));
    if |bytes| > 1 {
      ReadVarintExact(s, pos + 8, left - 1, bytes[1..]);
      assert bytes == [bytes[0]] + bytes[1..];
    } else {
      assert BytesBits(bytes[1..]) == [];
      MatchesNothing(s, pos + 8);
    }
  }

  lemma MatchesOne(s: seq<Bit>, pos: nat, b: Bit)
    ensures Matches(s, pos, [b]) <==> At(s, pos) == b
  {
    assert Window(s, pos, 1) == [At(s, pos)];
  }

  lemma MatchesTwo(s: seq<Bit>, pos: nat, b: Bit, c: Bit)
    ensures Matches(s, pos, [b, c]) <==> At(s, pos) == b && At(s, pos + 1) == c
  {
    assert Window(s, pos, 2) == [At(s, pos), At(s, pos + 1)];
  }

  lemma ReadBlockExact(s: seq<Bit>, pos: nat, b: Block)
    requires WellFormed(b)
    ensures Matches(s, pos, Print(b)) <==> b == ReadBlock(s, pos)
  {
    hide ReadVarint, BytesBits, ToBits, FromBits, Matches, Pow2;
    Pow2Of8();
    match b {
      case Single =>
        MatchesOne(s, pos, 1);
      case Short(n) =>
        MatchesNumber(s, pos + 2, n, 4);
        MatchesConcat(s, pos, [0, 1], ToBits(n, 4));
        MatchesTwo(s, pos, 0, 1);
      case Long(bytes) =>
        ReadVarintExact(s, pos + 2, MAX_VARINT, bytes);
        MatchesConcat(s, pos, [0, 0], BytesBits(bytes));
        MatchesTwo(s, pos, 0, 0);
    }
  }

  lemma {:induction false} PrintAllCons(b: Block, tail: seq<Block>)
    ensures PrintAll([b] + tail) == Print(b) + PrintAll(tail)
  {
    assert ([b] + tail)[1..] == tail;
  }

  lemma EndedCons(b: Block, tail: seq<Block>)
    requires WellFormed(b)
    ensures Ended([b] + tail) <==> if IsFinal(b) then tail == [] else Ended(tail)
  {
    assert ([b] + tail)[1..] == tail;
  }

  lemma DerivesCons(s: seq<Bit>, pos: nat, b: Block, tail: seq<Block>)
    requires WellFormed(b)
    ensures Derives(s, pos, [b] + tail) <==>
      && b == ReadBlock(s, pos)
      && (if IsFinal(b) then tail == [] else Derives(s, pos + Size(b), tail))
  {
    hide ReadBlock, IsFinal, WellFormed, Print, Size, Ended, Matches;
    PrintAllCons(b, tail);
    ReadBlockExact(s, pos, b);
    MatchesConcat(s, pos, Print(b), PrintAll(tail));
    EndedCons(b, tail);
    if IsFinal(b) && tail == [] {
      assert PrintAll(tail) == [];
      MatchesNothing(s, pos + |Print(b)|);
    }
  }

  /** Parse reads the stream grammatically. */
  lemma {:induction false} ParseSound(s: seq<Bit>, pos: nat)
    ensures Derives(s, pos, Parse(s, pos))
    decreases Unread(s, pos)
  {
    hide ReadBlock, IsFinal, Derives, Size, WellFormed;
    var b := ReadBlock(s, pos);
    var tail := [];
    if !IsFinal(b) {
      NotFinalInside(s, pos);
      tail := Parse(s, pos + Size(b));
      ParseSound(s, pos + Size(b));
    }
    DerivesCons(s, pos, b, tail);
    assert Parse(s, pos) == [b] + tail;
  }

  /** Any grammatical reading is the one Parse returns. */
  lemma {:induction false} ParseComplete(s: seq<Bit>, pos: nat, blocks: seq<Block>)
    requires Derives(s, pos, blocks)
    ensures blocks == Parse(s, pos)
    decreases |blocks|
  {
    hide ReadBlock, IsFinal, Matches, Print, PrintAll, Size;
    var b, tail := blocks[0], blocks[1..];
    assert blocks == [b] + tail;
    DerivesCons(s, pos, b, tail);
    assert b == ReadBlock(s, pos);
    if IsFinal(b) {
      assert Parse(s, pos) == [b];
    } else {
      ParseComplete(s, pos + Size(b), tail);
      assert Parse(s, pos) == [b] + tail;
    }
  }

  /** The grammar is unambiguous and Parse computes its one reading: a block list is a
      reading of the stream if and only if it is what Parse returns. */
  lemma ParseExact(s: seq<Bit>, pos: nat, blocks: seq<Block>)
    ensures Derives(s, pos, blocks) <==> blocks == Parse(s, pos)
  {
    ParseSound(s, pos);
    if Derives(s, pos, blocks) { ParseComplete(s, pos, blocks); }
  }

  /** Each block but the last consumes at least one bit of the data, so the number of
      blocks read is bounded by the unread bits plus one. */
  lemma {:induction false} ParseLength(s: seq<Bit>, pos: nat)
    ensures |Parse(s, pos)| <= Unread(s, pos) + 1
    decreases Unread(s, pos)
  {
    hide ReadBlock, IsFinal;
    var b := ReadBlock(s, pos);
    if !IsFinal(b) {
      NotFinalInside(s, pos);
      ParseLength(s, pos + Size(b));
    }
  }
}
