/** Encode and Decode of main/extern/rleplus/rleplus.go: the functions that specify them and
    the methods that mutate a bit vector and a cursor. */
module RlePlus {
  import opened Words
  import opened BitVectors
  import opened Varint
  import opened RleFormat
  import opened RleRuns

  datatype DecodeError = WrongVersion | InvalidEncoding
  datatype Decoded = Ints(ints: seq<U64>) | Failed(error: DecodeError)

  // ---------------------------------------------------------------- encoding

  /** The block Encode writes for a run. */
  function BlockOf(run: U64): Block {
    if run == 1 then Single else if run < 16 then Short(run) else Long(PutUvarint(run))
  }

  function BlocksOf(runs: seq<U64>): (blocks: seq<Block>)
    ensures |blocks| == |runs|
  {
    if runs == [] then [] else [BlockOf(runs[0])] + BlocksOf(runs[1..])
  }

  const HEADER: seq<Bit> := [0, 0]

  /** The bits of an encoding: version, first bit, one block per run. */
  function EncodedBits(ints: seq<U64>): seq<Bit> {
    var s := Sort(ints);
    HEADER + [FirstBit(s)] + PrintAll(BlocksOf(RunList(s)))
  }

  function EncodedBytes(ints: seq<U64>): seq<Byte> {
    Pack(EncodedBits(ints))
  }

  lemma {:induction false} PrintAllSnoc(blocks: seq<Block>, b: Block)
    ensures PrintAll(blocks + [b]) == PrintAll(blocks) + Print(b)
    decreases |blocks|
  {
    hide Print;
    if blocks == [] {
      assert blocks + [b] == [b];
    } else {
      PrintAllSnoc(blocks[1..], b);
      assert (blocks + [b])[1..] == blocks[1..] + [b];
      Assoc(Print(blocks[0]), PrintAll(blocks[1..]), Print(b));
    }
  }

  lemma {:induction false} BlocksOfSnoc(runs: seq<U64>, run: U64)
    ensures BlocksOf(runs + [run]) == BlocksOf(runs) + [BlockOf(run)]
    decreases |runs|
  {
    if runs == [] {
      assert runs + [run] == [run];
    } else {
      BlocksOfSnoc(runs[1..], run);
      assert (runs + [run])[1..] == runs[1..] + [run];
    }
  }

  lemma {:induction false} BytesBitsSnoc(bytes: seq<Byte>, b: Byte)
    ensures BytesBits(bytes + [b]) == BytesBits(bytes) + ToBits(b, 8)
    decreases |bytes|
  {
    if bytes == [] {
      assert bytes + [b] == [b];
    } else {
      BytesBitsSnoc(bytes[1..], b);
      assert (bytes + [b])[1..] == bytes[1..] + [b];
    }
  }

  lemma SelectedLow(val: Byte, count: nat)
    requires count <= 8
    ensures Selected(val, count, LSB0) == ToBits(val, count)
  {
  }

  /** Writes the bytes of a varint. */
  method PushBytes(v: BitVector, bytes: seq<Byte>)
    requires v.Valid() && v.ZeroPadded()
    modifies v`Buf, v`Len
    ensures v.Valid() && v.ZeroPadded()
    ensures v.Bits() == old(v.Bits()) + BytesBits(bytes)
  {
    hide BytesBits, Selected, Prefix, PaddedFrom;
    ghost var was := v.Bits();
    var i := 0;
    NoBytesNoBits();
    assert bytes[..0] == [];
    while i < |bytes|
      invariant 0 <= i <= |bytes|
      invariant v.Valid() && v.ZeroPadded()
      invariant v.Bits() == was + BytesBits(bytes[..i])
    {
      SelectedLow(bytes[i], 8);
      v.Extend(bytes[i], 8, LSB0);
      BytesBitsSnoc(bytes[..i], bytes[i]);
      assert bytes[..i + 1] == bytes[..i] + [bytes[i]];
      i := i + 1;
    }
    assert bytes[..i] == bytes;
  }

  lemma NoRunsNoBits()
    ensures PrintAll(BlocksOf([])) == []
  {
  }

  lemma NoBytesNoBits()
    ensures BytesBits([]) == []
  {
  }

  /** Writes one run as a block. */
  method PushRun(v: BitVector, run: U64)
    requires v.Valid() && v.ZeroPadded()
    modifies v`Buf, v`Len
    ensures v.Valid() && v.ZeroPadded()
    ensures v.Bits() == old(v.Bits()) + Print(BlockOf(run))
  {
    hide BytesBits, Selected, Prefix, PaddedFrom, PutUvarint;
    ghost var was := v.Bits();
    if run == 1 {
      v.Push(1);
    } else if run < 16 {
      v.Push(0);
      v.Push(1);
      SelectedLow(run, 4);
      v.Extend(run, 4, LSB0);
      assert was + [0] + [1] + ToBits(run, 4) == was + Print(Short(run));
    } else {
      v.Push(0);
      v.Push(0);
      var buf := PutUvarint(run);
      PushBytes(v, buf);
      assert was + [0] + [0] + BytesBits(buf) == was + Print(Long(buf));
    }
  }

  /** The bytes and the bit count. The source's error branch needs a run that is none of
      1, below 16 or at least 16, so it is never taken; a run of 0 does not arise. */
  method Encode(ints: array<U64>) returns (buf: seq<Byte>, length: nat)
    requires ints.Length < TWO_63
    modifies ints
    ensures ints[..] == Sort(old(ints[..]))
    ensures buf == EncodedBytes(old(ints[..]))
    ensures length == |EncodedBits(old(ints[..]))|
  {
    hide Prefix, PaddedFrom, Selected, Print, PrintAll, BlocksOf, BlockOf, Sort, RunList, Denotes;
    var v := new BitVector.Empty(LSB0);
    var firstBit, runs := RunLengths(ints);
    SelectedLow(0, 2);
    ZeroBit(1);
    v.Extend(0, 2, LSB0);
    assert v.Bits() == HEADER;
    v.Push(firstBit);
    ghost var sorted := ints[..];
    NoRunsNoBits();
    var i := 0;
    assert runs[..0] == [];
    while i < |runs|
      invariant 0 <= i <= |runs|
      invariant v.Valid() && v.ZeroPadded() && v.BytePacking == LSB0
      invariant ints[..] == sorted
      invariant v.Bits() == HEADER + [firstBit] + PrintAll(BlocksOf(runs[..i]))
    {
      PushRun(v, runs[i]);
      BlocksOfSnoc(runs[..i], runs[i]);
      PrintAllSnoc(BlocksOf(runs[..i]), BlockOf(runs[i]));
      assert runs[..i + 1] == runs[..i] + [runs[i]];
      i := i + 1;
    }
    assert runs[..i] == runs;
    PaddedIsPack(v.Buf, v.Len);
    buf, length := v.Buf, v.Len;
  }

  // ---------------------------------------------------------------- decoding

  /** Go's conversion of a uint64 to a 64-bit int. */
  function AsInt(x: U64): int {
    if x < TWO_63 then x else x - TWO_64
  }

  /** Go's conversion of a 64-bit int to a uint64. */
  function AsU64(n: int): U64
    requires -TWO_63 <= n < TWO_63
  {
    if n >= 0 then n else n + TWO_64
  }

  /** A run length that passes through a negative int comes back unchanged. */
  lemma AsIntAndBack(x: U64)
    ensures -TWO_63 <= AsInt(x) < TWO_63 && AsU64(AsInt(x)) == x
    ensures AsInt(x) < 0 <==> x >= TWO_63
  {
  }

  /** Unsigned 64-bit wrap-around. */
  function Wrap(x: nat): U64 {
    x % TWO_64
  }

  /** What one pass of the decoding loop appends for a run of `bit`s whose position,
      before wrap-around, is `start`. */
  function EmitRun(bit: Bit, start: nat, run: U64): (r: seq<U64>)
    ensures |r| == if bit == 1 && run < TWO_63 then run else 0
    ensures forall j :: 0 <= j < |r| ==> r[j] == Wrap(start + j)
  {
    if bit == 1 && run < TWO_63
    then seq<U64>(run, j requires 0 <= j < run => Wrap(start + j))
    else []
  }

  /** Everything the decoding loop appends. */
  function Emit(bit: Bit, start: nat, runs: seq<U64>): seq<U64>
    decreases |runs|
  {
    if runs == [] then []
    else EmitRun(bit, start, runs[0]) + Emit(Flip(bit), start + runs[0], runs[1..])
  }

  ghost function RunsOf(blocks: seq<Block>): (runs: seq<U64>)
    ensures |runs| == |blocks|
    ensures forall i :: 0 <= i < |blocks| ==> runs[i] == RunOf(blocks[i])
  {
    seq<U64>(|blocks|, i requires 0 <= i < |blocks| => RunOf(blocks[i]))
  }

  /** What Decode returns for the bits `s` of a non-empty buffer. */
  ghost function DecodeBits(s: seq<Bit>): Decoded {
    if Window(s, 0, 2) != HEADER then Failed(WrongVersion)
    else
      var blocks := Parse(s, 3);
      if IsOverlong(blocks[|blocks| - 1]) then Failed(InvalidEncoding)
      else Ints(Emit(At(s, 2), 0, RunsOf(blocks)))
  }

  ghost function DecodeSpec(buf: seq<Byte>): Decoded {
    if buf == [] then Ints([]) else DecodeBits(Unpack(buf, LSB0))
  }

  lemma Assoc<T>(a: seq<T>, b: seq<T>, c: seq<T>)
    ensures (a + b) + c == a + (b + c)
  {
  }

  lemma WrapAdd(a: nat, b: nat)
    ensures Wrap(Wrap(a) + b) == Wrap(a + b)
  {
  }

  lemma {:induction false} EmitSnoc(bit: Bit, start: nat, runs: seq<U64>, run: U64)
    ensures Emit(bit, start, runs + [run]) ==
            Emit(bit, start, runs) + EmitRun(BitAfter(bit, runs), start + Sum(runs), run)
    decreases |runs|
  {
    hide EmitRun, Wrap;
    if runs == [] {
      assert runs + [run] == [run];
    } else {
      assert (runs + [run])[1..] == runs[1..] + [run];
      EmitSnoc(Flip(bit), start + runs[0], runs[1..], run);
      Assoc(EmitRun(bit, start, runs[0]), Emit(Flip(bit), start + runs[0], runs[1..]),
            EmitRun(BitAfter(bit, runs), start + Sum(runs), run));
    }
  }

  lemma WindowOne(s: seq<Bit>, pos: nat)
    ensures FromBits(Window(s, pos, 1)) == At(s, pos)
  {
    assert Window(s, pos, 1)[1..] == [];
  }

  lemma ZeroHeader(s: seq<Bit>)
    ensures FromBits(Window(s, 0, 2)) == 0 <==> Window(s, 0, 2) == HEADER
  {
    var w := Window(s, 0, 2);
    assert w[1..][1..] == [];
    assert w == [w[0], w[1]];
  }

  lemma ByteAtIs(s: seq<Bit>, pos: nat)
    ensures ByteAt(s, pos) == FromBits(Window(s, pos, 8))
  {
  }

  /** The loop that collects the bytes of a long block. */
  method TakeVarint(it: BitIterator, ghost s: seq<Bit>) returns (bytes: seq<Byte>, ok: bool)
    requires it.vector.Valid() && it.vector.Bits() == s && it.order == LSB0
    modifies it`cursor
    ensures bytes == ReadVarint(s, old(it.cursor), MAX_VARINT)
    ensures it.cursor == old(it.cursor) + 8 * |bytes|
    ensures ok <==> bytes[|bytes| - 1] < 128
  {
    hide ReadVarint, FromBits, Window, Prefix, IsTaken, ByteAt;
    bytes, ok := [], true;
    ghost var from := it.cursor;
    while true
      invariant it.cursor == from + 8 * |bytes| && |bytes| < MAX_VARINT
      invariant it.vector.Valid() && it.vector.Bits() == s
      invariant BytesFrom(s, from, bytes)
      invariant forall k :: 0 <= k < |bytes| ==> bytes[k] >= 128
      decreases MAX_VARINT - |bytes|
    {
      ByteAtIs(s, it.cursor);
      var b := it.Next(8);
      bytes := bytes + [b];
      if b < 128 {
        break;
      }
      if |bytes| > 10 {
        ok := false;
        break;
      }
    }
    ReadVarintIs(s, from, MAX_VARINT, bytes);
  }

  /** One pass of the loop's switch: the block at the cursor, its run length, and whether
      it ends the encoding. */
  method TakeRun(it: BitIterator, ghost s: seq<Bit>)
    returns (run: U64, done: bool, ok: bool, ghost b: Block)
    requires it.vector.Valid() && it.vector.Bits() == s && it.order == LSB0
    modifies it`cursor
    ensures b == ReadBlock(s, old(it.cursor))
    ensures it.cursor == old(it.cursor) + Size(b)
    ensures ok <==> !IsOverlong(b)
    ensures ok ==> run == RunOf(b) && (done <==> IsStop(b))
  {
    hide FromBits, Window, Prefix, IsTaken, ReadVarint, Value;
    ghost var pos := it.cursor;
    run, done, ok := 0, false, true;
    var y := it.Next(1);
    WindowOne(s, pos);
    if y == 1 {
      run := 1;
      b := Single;
    } else {
      var val := it.Next(1);
      WindowOne(s, pos + 1);
      if val == 1 {
        var n := it.Next(4);
        NibbleAtIs(s, pos + 2);
        run := n;
        b := Short(n);
      } else {
        var bytes, fine := TakeVarint(it, s);
        b := Long(bytes);
        if fine {
          run := Uvarint(bytes);
          done := run == 0;
        } else {
          ok := false;
        }
      }
    }
  }

  lemma NibbleAtIs(s: seq<Bit>, pos: nat)
    ensures NibbleAt(s, pos) == FromBits(Window(s, pos, 4))
  {
  }

  /** The inner loop: the indices of a run of ones, none when the length is negative as a
      signed integer. */
  method Indices(curIdx: U64, runLength: int, ghost start: nat, ghost run: U64) returns (ints: seq<U64>)
    requires curIdx == Wrap(start) && runLength == AsInt(run)
    ensures ints == EmitRun(1, start, run)
  {
    hide Wrap;
    ints := [];
    var j := 0;
    while j < runLength
      invariant 0 <= j && (j == 0 || j <= runLength)
      invariant |ints| == j && forall k :: 0 <= k < j ==> ints[k] == Wrap(start + k)
    {
      WrapAdd(start, j);
      ints := ints + [Wrap(curIdx + j)];
      j := j + 1;
    }
    ghost var all := EmitRun(1, start, run);
    assert |ints| == |all|;
    assert forall k :: 0 <= k < |all| ==> ints[k] == all[k];
  }

  /** The state of the outer loop after the blocks read so far. */
  ghost predicate LoopState(s: seq<Bit>, blocks: seq<Block>, ints: seq<U64>, curBit: Bit, curIdx: U64) {
    && ints == Emit(At(s, 2), 0, RunsOf(blocks))
    && curBit == BitAfter(At(s, 2), RunsOf(blocks))
    && curIdx == Wrap(Sum(RunsOf(blocks)))
  }

  lemma LoopStep(s: seq<Bit>, blocks: seq<Block>, b: Block, ints: seq<U64>, curBit: Bit, curIdx: U64)
    requires LoopState(s, blocks, ints, curBit, curIdx)
    ensures var start := Sum(RunsOf(blocks));
      LoopState(s, blocks + [b], ints + EmitRun(curBit, start, RunOf(b)), Flip(curBit),
                Wrap(curIdx + RunOf(b)))
  {
    hide EmitRun, Emit, Wrap, BitAfter, Sum, RunOf;
    var runs := RunsOf(blocks);
    assert RunsOf(blocks + [b]) == runs + [RunOf(b)];
    EmitSnoc(At(s, 2), 0, runs, RunOf(b));
    BitAfterSnoc(At(s, 2), runs, RunOf(b));
    SumSnoc(runs, RunOf(b));
    WrapAdd(Sum(runs), RunOf(b));
  }

  lemma ParseUnfold(s: seq<Bit>, pos: nat)
    ensures var b := ReadBlock(s, pos);
      Parse(s, pos) == [b] + (if IsFinal(b) then [] else Parse(s, pos + Size(b)))
  {
    hide ReadBlock, IsFinal;
  }

  /** The outer loop. It terminates on every input: unread bits bound the remaining
      passes, and a pass that starts past the end is the last. */
  method DecodeRuns(it: BitIterator, ghost s: seq<Bit>, firstBit: Bit)
    returns (ints: seq<U64>, ok: bool, ghost passes: nat)
    requires it.vector.Valid() && it.vector.Bits() == s && it.order == LSB0
    requires it.cursor == 3 && firstBit == At(s, 2)
    modifies it`cursor
    ensures ok <==> !IsOverlong(Parse(s, 3)[|Parse(s, 3)| - 1])
    ensures ok ==> ints == Emit(At(s, 2), 0, RunsOf(Parse(s, 3)))
    ensures passes == |Parse(s, 3)|
  {
    hide Window, Prefix, Parse, ReadBlock, Emit, EmitRun, BitAfter, Sum, Wrap, RunsOf, RunOf, Size, LoopState;
    var curIdx: U64 := 0;
    var curBit: Bit := firstBit;
    ints, ok, passes := [], true, 0;
    var done := false;
    ghost var blocks: seq<Block> := [];
    LoopStart(s);
    while !done
      invariant it.vector.Valid() && it.vector.Bits() == s
      invariant Parse(s, 3) == blocks + (if done then [] else Parse(s, it.cursor))
      invariant done ==> blocks != [] && !IsOverlong(blocks[|blocks| - 1])
      invariant LoopState(s, blocks, ints, curBit, curIdx)
      invariant passes == |blocks|
      decreases !done, Unread(s, it.cursor)
    {
      passes := passes + 1;
      ghost var pos, start := it.cursor, Sum(RunsOf(blocks));
      ParseUnfold(s, pos);
      var run, stop, fine, b := TakeRun(it, s);
      Assoc(blocks, [b], if IsFinal(b) then [] else Parse(s, it.cursor));
      if !fine {
        assert Parse(s, 3) == blocks + [b];
        ok := false;
        return;
      }
      if !stop { NotFinalInside(s, pos); SizePositive(b); }
      LoopStep(s, blocks, b, ints, curBit, curIdx);
      LoopIndex(s, blocks, ints, curBit, curIdx);
      var runLength := AsInt(run);
      if curBit == 1 {
        var more := Indices(curIdx, runLength, start, run);
        ints := ints + more;
      } else {
        NothingForZeros(start, run);
        assert ints + [] == ints;
      }
      AsIntAndBack(run);
      curIdx := Wrap(curIdx + AsU64(runLength));
      curBit := Flip(curBit);
      done := stop;
      blocks := blocks + [b];
    }
    LoopInts(s, blocks, ints, curBit, curIdx);
    assert Parse(s, 3) == blocks;
  }

  /** The parse of a non-empty buffer has at most 8·len(buf) - 2 blocks. */
  lemma DecodePasses(buf: seq<Byte>)
    requires buf != []
    ensures |Parse(Unpack(buf, LSB0), 3)| <= 8 * |buf| - 2
  {
    ParseLength(Unpack(buf, LSB0), 3);
  }

  /** Decode computes its specification on every byte string, in at most 8·len(buf) - 2
      passes of its outer loop. */
  method Decode(buf: seq<Byte>) returns (r: Decoded, ghost passes: nat)
    ensures r == DecodeSpec(buf)
    ensures passes == 0 || passes <= 8 * |buf| - 2
  {
    hide FromBits, Window, Prefix, IsTaken, Parse, Emit, RunsOf, IsOverlong;
    passes := 0;
    if |buf| == 0 {
      return Ints([]), 0;
    }
    var v := new BitVector.FromBytes(buf, LSB0);
    var it := new BitIterator(v, LSB0);
    ghost var s := v.Bits();
    var ver := it.Next(2);
    ZeroHeader(s);
    if ver != 0 {
      return Failed(WrongVersion), 0;
    }
    var curBit := it.Next(1);
    WindowOne(s, 2);
    var ints, ok, n := DecodeRuns(it, s, curBit);
    DecodePasses(buf);
    passes := n;
    r := if ok then Ints(ints) else Failed(InvalidEncoding);
  }

  lemma LoopStart(s: seq<Bit>)
    ensures LoopState(s, [], [], At(s, 2), 0)
  {
    assert RunsOf([]) == [];
  }

  lemma LoopIndex(s: seq<Bit>, blocks: seq<Block>, ints: seq<U64>, curBit: Bit, curIdx: U64)
    requires LoopState(s, blocks, ints, curBit, curIdx)
    ensures curIdx == Wrap(Sum(RunsOf(blocks)))
  {
  }

  lemma LoopInts(s: seq<Bit>, blocks: seq<Block>, ints: seq<U64>, curBit: Bit, curIdx: U64)
    requires LoopState(s, blocks, ints, curBit, curIdx)
    ensures ints == Emit(At(s, 2), 0, RunsOf(blocks))
  {
  }

  lemma NothingForZeros(start: nat, run: U64)
    ensures EmitRun(0, start, run) == []
  {
  }

  lemma SizePositive(b: Block)
    ensures Size(b) > 0
  {
  }
}
