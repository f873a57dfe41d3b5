/** Which of the many encodings of a set Encode chooses: the only alternating runs, in the
    shortest blocks. And the encodings that fix every detail of the format. */
module RleCanonical {
  import opened Words
  import opened BitVectors
  import opened Varint
  import opened RleFormat
  import opened RleRuns
  import opened RlePlus
  import opened RleTheorems

  // ------------------------------------------------------------ shortest blocks

  /** PutUvarint writes the shortest varint of a value, and the only one that short. */
  lemma {:induction false} PutUvarintShortest(buf: seq<Byte>)
    requires Terminated(buf)
    ensures |PutUvarint(Value(buf))| <= |buf|
    ensures |PutUvarint(Value(buf))| == |buf| ==> buf == PutUvarint(Value(buf))
    decreases |buf|
  {
    var x, tail := Value(buf), buf[1..];
    assert buf == [buf[0]] + tail;
    if tail != [] {
      PutUvarintShortest(tail);
      assert x % 128 == buf[0] % 128 && x / 128 == Value(tail);
    } else {
      assert Value(tail) == 0;
    }
  }

  /** The block written for a run is the shortest that stands for it, and the only one that
      short. */
  lemma BlockShortest(b: Block, run: U64)
    requires WellFormed(b) && !IsFinal(b) && RunOf(b) == run >= 1
    ensures Size(BlockOf(run)) <= Size(b)
    ensures Size(BlockOf(run)) == Size(b) ==> b == BlockOf(run)
  {
    if b.Long? {
      UvarintExact(b.bytes);
      PutUvarintShortest(b.bytes);
    }
  }

  /** Every block reads as its run, and none ends the encoding. */
  ghost predicate Reads(blocks: seq<Block>, runs: seq<U64>) {
    && |blocks| == |runs|
    && forall i :: 0 <= i < |runs| ==> WellFormed(blocks[i]) && !IsFinal(blocks[i]) && RunOf(blocks[i]) == runs[i]
  }

  /** The blocks of an encoding are the shortest that read as its runs, and the only ones
      that short. */
  lemma {:induction false} BlocksShortest(blocks: seq<Block>, runs: seq<U64>)
    requires Reads(blocks, runs) && forall i :: 0 <= i < |runs| ==> runs[i] >= 1
    ensures |PrintAll(BlocksOf(runs))| <= |PrintAll(blocks)|
    ensures |PrintAll(BlocksOf(runs))| == |PrintAll(blocks)| ==> blocks == BlocksOf(runs)
    decreases |runs|
  {
    hide Size, BlockOf, IsFinal, RunOf, WellFormed;
    if runs != [] {
      BlockShortest(blocks[0], runs[0]);
      BlocksShortest(blocks[1..], runs[1..]);
      assert blocks == [blocks[0]] + blocks[1..];
    }
  }

  // ------------------------------------------------------------- the only runs

  /** Positive alternating runs whose last one, if any, is of ones. */
  ghost predicate Alternates(bit: Bit, runs: seq<nat>) {
    (forall i :: 0 <= i < |runs| ==> runs[i] >= 1) && (runs == [] || BitAfter(bit, runs) == 0)
  }

  lemma AlternatesTail(bit: Bit, runs: seq<nat>)
    requires Alternates(bit, runs) && runs != []
    ensures Alternates(Flip(bit), runs[1..]) && (bit == 0 ==> runs[1..] != [])
  {
    assert BitAfter(bit, runs) == BitAfter(Flip(bit), runs[1..]);
  }

  /** Where the ones begin. */
  lemma FirstOne(bit: Bit, start: nat, runs: seq<nat>)
    requires Alternates(bit, runs) && runs != []
    ensures (if bit == 1 then start else start + runs[0]) in Ones(bit, start, runs)
    ensures forall x :: x in Ones(bit, start, runs) ==> x >= if bit == 1 then start else start + runs[0]
  {
    OnesAscending(bit, start, runs);
    var tail := Ones(Flip(bit), start + runs[0], runs[1..]);
    assert Ones(bit, start, runs) == RunOnes(bit, start, runs[0]) + tail;
    if bit == 1 {
      assert RunOnes(bit, start, runs[0])[0] == start;
    } else {
      AlternatesTail(bit, runs);
      OnesAscending(1, start + runs[0], runs[1..]);
      assert RunOnes(1, start + runs[0], runs[1..][0])[0] == start + runs[0];
      assert tail == RunOnes(1, start + runs[0], runs[1..][0]) +
                     Ones(0, start + runs[0] + runs[1..][0], runs[1..][1..]);
      assert start + runs[0] in tail;
    }
  }

  /** A first run of ones is exactly as long as the ones that start the set. */
  lemma FirstRunEnds(start: nat, runs: seq<nat>)
    requires Alternates(1, runs) && runs != []
    ensures forall x :: start <= x < start + runs[0] ==> x in Ones(1, start, runs)
    ensures start + runs[0] !in Ones(1, start, runs)
  {
    var head, tail := RunOnes(1, start, runs[0]), Ones(0, start + runs[0], runs[1..]);
    assert Ones(1, start, runs) == head + tail;
    forall x | start <= x < start + runs[0] ensures x in head {
      assert head[x - start] == x;
    }
    AlternatesTail(1, runs);
    if runs[1..] != [] { FirstOne(0, start + runs[0], runs[1..]); }
  }

  /** The runs of a set are unique: one alternating list of positive runs that ends in ones
      denotes it, and the set tells which bit comes first. */
  lemma {:induction false} RunsUnique(bit: Bit, runs: seq<nat>, other: Bit, others: seq<nat>, start: nat)
    requires Alternates(bit, runs) && Alternates(other, others)
    requires Ones(bit, start, runs) == Ones(other, start, others)
    ensures runs == others && (runs != [] ==> bit == other)
    decreases |runs|
  {
    hide Alternates, Ones;
    if runs == [] || others == [] {
      OneEmpty(bit, runs, other, others, start);
    } else {
      FirstOne(bit, start, runs);
      FirstOne(other, start, others);
      FirstBitsAgree(bit, runs, other, others, start);
      if bit == 1 {
        FirstRunEnds(start, runs);
        FirstRunEnds(start, others);
      }
      assert runs[0] == others[0];
      TailsAgree(bit, start, runs, others);
      AlternatesTail(bit, runs);
      AlternatesTail(bit, others);
      RunsUnique(Flip(bit), runs[1..], Flip(bit), others[1..], start + runs[0]);
      assert runs == [runs[0]] + runs[1..] && others == [others[0]] + others[1..];
    }
  }

  lemma OneEmpty(bit: Bit, runs: seq<nat>, other: Bit, others: seq<nat>, start: nat)
    requires Alternates(bit, runs) && Alternates(other, others) && (runs == [] || others == [])
    requires Ones(bit, start, runs) == Ones(other, start, others)
    ensures runs == others
  {
    if runs != [] { FirstOne(bit, start, runs); }
    if others != [] { FirstOne(other, start, others); }
  }

  lemma FirstBitsAgree(bit: Bit, runs: seq<nat>, other: Bit, others: seq<nat>, start: nat)
    requires Alternates(bit, runs) && Alternates(other, others) && runs != [] && others != []
    requires Ones(bit, start, runs) == Ones(other, start, others)
    ensures bit == other
  {
    hide Ones;
    FirstOne(bit, start, runs);
    FirstOne(other, start, others);
  }

  lemma TailsAgree(bit: Bit, start: nat, runs: seq<nat>, others: seq<nat>)
    requires runs != [] && others != [] && runs[0] == others[0]
    requires Ones(bit, start, runs) == Ones(bit, start, others)
    ensures Ones(Flip(bit), start + runs[0], runs[1..]) == Ones(Flip(bit), start + others[0], others[1..])
  {
    var head := RunOnes(bit, start, runs[0]);
    assert Ones(bit, start, runs)[|head|..] == Ones(Flip(bit), start + runs[0], runs[1..]);
    assert Ones(bit, start, others)[|head|..] == Ones(Flip(bit), start + others[0], others[1..]);
  }

  /** Encode's bits for a set given by its runs. */
  lemma EncodedByRuns(ints: seq<U64>, bit: Bit, runs: seq<U64>)
    requires |ints| < TWO_63 && ints != [] && Alternates(bit, runs) && runs != []
    requires forall x :: x in ints <==> x in Ones(bit, 0, runs)
    ensures EncodedBits(ints) == HEADER + [bit] + PrintAll(BlocksOf(runs))
  {
    hide Ones, BlocksOf, PrintAll, Sort, Dedup, RunList;
    var s := Sort(ints);
    SortExact(ints);
    SortKeeps(ints);
    DistinctExact(ints);
    assert s != [];
    RunListExact(s);
    OnesAscending(bit, 0, runs);
    AscendingUnique(Dedup(s), Ones(bit, 0, runs));
    RunsUnique(FirstBit(s), RunList(s), bit, runs, 0);
  }

  /** Encode is optimal for its runs: however the runs of the set are written as blocks that
      read as them, header and blocks take at least as many bits, and as many only in Encode's
      own words. */
  lemma EncodingShortest(ints: seq<U64>, bit: Bit, runs: seq<U64>, blocks: seq<Block>)
    requires |ints| < TWO_63 && ints != [] && Alternates(bit, runs) && runs != []
    requires forall x :: x in ints <==> x in Ones(bit, 0, runs)
    requires Reads(blocks, runs)
    ensures |EncodedBits(ints)| <= |HEADER + [bit] + PrintAll(blocks)|
    ensures |EncodedBits(ints)| == |HEADER + [bit] + PrintAll(blocks)| ==>
      EncodedBits(ints) == HEADER + [bit] + PrintAll(blocks)
  {
    hide Ones, BlocksOf, PrintAll, EncodedBits;
    EncodedByRuns(ints, bit, runs);
    BlocksShortest(blocks, runs);
  }

  // ------------------------------------------------------- the format, fixed

  const REFERENCE_RUNS: seq<U64> := [1, 1, 1, 1, 3, 4, 17]

  const REFERENCE_BITS: seq<Bit> :=
    [0, 0, 1, 1, 1, 1, 1, 0, 1, 1, 1, 0, 0, 0, 1, 0, 0, 1, 0, 0, 0, 1, 0, 0, 0, 1, 0, 0, 0]

  lemma OnesUnfold(bit: Bit, start: nat, runs: seq<nat>)
    requires runs != []
    ensures forall x :: x in Ones(bit, start, runs) <==>
              (bit == 1 && start <= x < start + runs[0]) || x in Ones(Flip(bit), start + runs[0], runs[1..])
  {
    var head, tail := RunOnes(bit, start, runs[0]), Ones(Flip(bit), start + runs[0], runs[1..]);
    assert Ones(bit, start, runs) == head + tail;
    if bit == 1 {
      forall x | start <= x < start + runs[0] ensures x in head { assert head[x - start] == x; }
    }
  }

  lemma ReferenceOnes()
    ensures forall x :: x in Ones(1, 0, REFERENCE_RUNS) <==> x == 0 || x == 2 || 4 <= x <= 6 || 11 <= x <= 27
    ensures Alternates(1, REFERENCE_RUNS)
  {
    hide Ones, RunOnes;
    var r := REFERENCE_RUNS;
    OnesUnfold(1, 0, r);
    assert r[1..] == [1, 1, 1, 3, 4, 17];
    OnesUnfold(0, 1, [1, 1, 1, 3, 4, 17]);
    assert [1, 1, 1, 3, 4, 17][1..] == [1, 1, 3, 4, 17];
    OnesUnfold(1, 2, [1, 1, 3, 4, 17]);
    assert [1, 1, 3, 4, 17][1..] == [1, 3, 4, 17];
    OnesUnfold(0, 3, [1, 3, 4, 17]);
    assert [1, 3, 4, 17][1..] == [3, 4, 17];
    OnesUnfold(1, 4, [3, 4, 17]);
    assert [3, 4, 17][1..] == [4, 17];
    OnesUnfold(0, 7, [4, 17]);
    assert [4, 17][1..] == [17];
    OnesUnfold(1, 11, [17]);
    assert [17][1..] == [];
    NoOnes(28);
    assert BitAfter(1, r) == 0;
  }

  lemma NoOnes(start: nat)
    ensures Ones(0, start, []) == []
  {
  }

  lemma ReferenceBlocks()
    ensures HEADER + [1] + PrintAll(BlocksOf(REFERENCE_RUNS)) == REFERENCE_BITS
  {
    hide Print, PrintAll, BlocksOf;
    var four, short3, short4, long := [Single, Single, Single, Single], Short(3), Short(4), Long([17]);
    ReferenceChoice();
    assert BlocksOf(REFERENCE_RUNS) == four + [short3] + [short4] + [long];
    PrintAllSnoc(four + [short3] + [short4], long);
    PrintAllSnoc(four + [short3], short4);
    PrintAllSnoc(four, short3);
    FourSingles();
    ReferencePrints();
  }

  lemma ReferenceChoice()
    ensures BlocksOf(REFERENCE_RUNS) == [Single, Single, Single, Single, Short(3), Short(4), Long([17])]
  {
  }

  lemma FourSingles()
    ensures PrintAll([Single, Single, Single, Single]) == [1, 1, 1, 1]
  {
    hide Print;
    assert Print(Single) == [1] by { OneSingle(); }
    PrintAllSnoc([Single, Single, Single], Single);
    PrintAllSnoc([Single, Single], Single);
    PrintAllSnoc([Single], Single);
    PrintAllSnoc([], Single);
  }

  lemma OneSingle()
    ensures Print(Single) == [1]
  {
  }

  lemma ReferencePrints()
    ensures Print(Short(3)) == [0, 1, 1, 1, 0, 0] && Print(Short(4)) == [0, 1, 0, 0, 1, 0]
    ensures Print(Long([17])) == [0, 0, 1, 0, 0, 0, 1, 0, 0, 0]
  {
    hide ToBits, FromBits;
    Digits4([1, 1, 0, 0], 3);
    Digits4([0, 0, 1, 0], 4);
    Digits8([1, 0, 0, 0, 1, 0, 0, 0], 17);
    assert BytesBits([17]) == ToBits(17, 8) by { assert [17][1..] == []; }
  }

  function Four(b: seq<int>): int
    requires |b| == 4
  {
    b[0] + 2 * b[1] + 4 * b[2] + 8 * b[3]
  }

  function Eight(b: seq<int>): int
    requires |b| == 8
  {
    Four(b[..4]) + 16 * Four(b[4..])
  }

  lemma FourBits(bits: seq<Bit>)
    requires |bits| == 4
    ensures FromBits(bits) == Four(bits)
  {
    assert bits[1..][1..] == bits[2..] && bits[2..][1..] == bits[3..];
    assert FromBits(bits[3..]) == bits[3] + 2 * FromBits(bits[3..][1..]);
    assert FromBits(bits[2..]) == bits[2] + 2 * FromBits(bits[3..]);
    assert FromBits(bits[1..]) == bits[1] + 2 * FromBits(bits[2..]);
  }

  /** Bits in front of a number scale it. */
  lemma EightBits(bits: seq<Bit>)
    requires |bits| == 8
    ensures FromBits(bits) == Eight(bits)
  {
    FourBits(bits[4..]);
    assert bits[1..][1..] == bits[2..] && bits[2..][1..] == bits[3..] && bits[3..][1..] == bits[4..];
    assert FromBits(bits[3..]) == bits[3] + 2 * FromBits(bits[4..]);
    assert FromBits(bits[2..]) == bits[2] + 2 * FromBits(bits[3..]);
    assert FromBits(bits[1..]) == bits[1] + 2 * FromBits(bits[2..]);
  }

  lemma Digits4(bits: seq<Bit>, x: nat)
    requires |bits| == 4 && Four(bits) == x
    ensures ToBits(x, 4) == bits
  {
    FourBits(bits);
    ToFromBits(bits);
  }

  lemma Digits8(bits: seq<Bit>, x: nat)
    requires |bits| == 8 && Eight(bits) == x
    ensures ToBits(x, 8) == bits
  {
    EightBits(bits);
    ToFromBits(bits);
  }

  lemma ByteIs(bits: seq<Bit>, k: nat, w: seq<Bit>)
    requires |w| == 8 && forall i :: 0 <= i < 8 ==> At(bits, 8 * k + i) == w[i]
    ensures PackByte(bits, k) == Eight(w)
  {
    assert Window(bits, 8 * k, 8) == w;
    EightBits(w);
  }

  lemma ReferenceBytes()
    ensures Pack(REFERENCE_BITS) == [124, 71, 34, 2]
  {
    hide PackByte;
    ByteIs(REFERENCE_BITS, 0, [0, 0, 1, 1, 1, 1, 1, 0]);
    ByteIs(REFERENCE_BITS, 1, [1, 1, 1, 0, 0, 0, 1, 0]);
    ByteIs(REFERENCE_BITS, 2, [0, 1, 0, 0, 0, 1, 0, 0]);
    ByteIs(REFERENCE_BITS, 3, [0, 1, 0, 0, 0, 0, 0, 0]);
  }

  /** The reference implementation's example: any list of exactly these numbers takes these bits
      and these bytes. */
  lemma ReferenceEncoding(ints: seq<U64>)
    requires |ints| < TWO_63
    requires forall x :: x in ints <==> x == 0 || x == 2 || 4 <= x <= 6 || 11 <= x <= 27
    ensures EncodedBits(ints) == REFERENCE_BITS && EncodedBytes(ints) == [124, 71, 34, 2]
  {
    hide EncodedBits, Ones, Pack;
    ReferenceOnes();
    assert 0 in ints;
    EncodedByRuns(ints, 1, REFERENCE_RUNS);
    ReferenceBlocks();
    ReferenceBytes();
  }

  /** A version other than 0 is refused. */
  lemma WrongVersionExample()
    ensures DecodeSpec([0xff]) == Failed(WrongVersion)
  {
    hide Parse, Emit;
    var s := Unpack([0xff], LSB0);
    assert s[0] == RawBit([0xff], LSB0, 0) == 1;
    assert Window(s, 0, 2)[0] == 1;
  }

  const OVERLONG: seq<Byte> := [0xe0] + seq(11, i => 0xff)

  lemma OverlongBits(pos: nat)
    requires pos < 96
    ensures At(Unpack(OVERLONG, LSB0), pos) == if pos < 5 then 0 else 1
  {
    assert At(Unpack(OVERLONG, LSB0), pos) == BitOf(OVERLONG[pos / 8], pos % 8);
    if pos >= 8 { assert OVERLONG[pos / 8] == 0xff; }
    AllOnes(pos % 8);
  }

  lemma AllOnes(i: nat)
    requires i < 8
    ensures BitOf(0xff, i) == 1 && BitOf(0xe0, i) == if i < 5 then 0 else 1
  {
    var bits: seq<Bit> := [1, 1, 1, 1, 1, 1, 1, 1];
    var high: seq<Bit> := [0, 0, 0, 0, 0, 1, 1, 1];
    hide FromBits, BitOf, ToBits;
    Digits8(bits, 0xff);
    Digits8(high, 0xe0);
    assert ToBits(0xff, 8)[i] == 1 && ToBits(0xe0, 8)[i] == high[i];
  }

  /** A varint of eleven continuation bytes is refused. */
  lemma OverlongExample()
    ensures DecodeSpec(OVERLONG) == Failed(InvalidEncoding)
  {
    hide Parse, Emit, ReadVarint, Unpack;
    var s, ones := Unpack(OVERLONG, LSB0), seq<Byte>(11, i => 0xff);
    forall k | 0 <= k < 11 ensures ones[k] == ByteAt(s, 5 + 8 * k) {
      var w := Window(s, 5 + 8 * k, 8);
      forall i | 0 <= i < 8 ensures w[i] == 1 { OverlongBits(5 + 8 * k + i); }
      EightBits(w);
    }
    ReadVarintIs(s, 5, 11, ones);
    OverlongBits(0);
    OverlongBits(1);
    OverlongBits(3);
    OverlongBits(4);
    assert Window(s, 0, 2) == HEADER;
    assert ReadBlock(s, 3) == Long(ones) && IsFinal(Long(ones));
    assert Parse(s, 3) == [Long(ones)] by { OneBlock(s); }
  }

  lemma OneBlock(s: seq<Bit>)
    requires IsFinal(ReadBlock(s, 3))
    ensures Parse(s, 3) == [ReadBlock(s, 3)]
  {
  }
}
