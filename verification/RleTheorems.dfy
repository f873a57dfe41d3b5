/** What Encode and Decode promise together: the round trip, canonicity, the size bound,
    and what Decode returns on arbitrary bytes. */
module RleTheorems {
  import opened Words
  import opened BitVectors
  import opened Varint
  import opened RleFormat
  import opened RleRuns
  import opened RlePlus

  // ------------------------------------------- decoded integers, on any runs

  /** Every run of ones is a positive number as a signed 64-bit integer and ends within
      64 bits. Runs of zeros are not restricted. */
  ghost predicate Representable(bit: Bit, start: nat, runs: seq<U64>)
    decreases |runs|
  {
    runs == [] ||
    (&& (bit == 1 ==> runs[0] < TWO_63 && (runs[0] == 0 || start + runs[0] <= TWO_64))
     && Representable(Flip(bit), start + runs[0], runs[1..]))
  }

  lemma EmitRunExact(bit: Bit, start: nat, run: U64)
    requires bit == 1 ==> run < TWO_63 && (run == 0 || start + run <= TWO_64)
    ensures EmitRun(bit, start, run) == RunOnes(bit, start, run)
  {
    var a, b := EmitRun(bit, start, run), RunOnes(bit, start, run);
    forall j | 0 <= j < |a| ensures a[j] == b[j] {
      assert a[j] == Wrap(start + j);
    }
  }

  lemma {:induction false} EmitIsOnes(bit: Bit, start: nat, runs: seq<U64>)
    requires Representable(bit, start, runs)
    ensures Emit(bit, start, runs) == Ones(bit, start, runs)
    decreases |runs|
  {
    hide EmitRun, RunOnes;
    if runs != [] {
      EmitRunExact(bit, start, runs[0]);
      EmitIsOnes(Flip(bit), start + runs[0], runs[1..]);
    }
  }

  /** A run of ones of 2^63 or more is dropped, so the output is shorter than what is
      denoted. */
  lemma {:induction false} EmitLength(bit: Bit, start: nat, runs: seq<U64>)
    ensures |Emit(bit, start, runs)| <= |Ones(bit, start, runs)|
    ensures (&& |Emit(bit, start, runs)| == |Ones(bit, start, runs)|
             && forall x :: x in Ones(bit, start, runs) ==> x < TWO_64)
            ==> Representable(bit, start, runs)
    decreases |runs|
  {
    if runs != [] {
      var head, tail := RunOnes(bit, start, runs[0]), Ones(Flip(bit), start + runs[0], runs[1..]);
      assert Ones(bit, start, runs) == head + tail;
      EmitLength(Flip(bit), start + runs[0], runs[1..]);
      if forall x :: x in head + tail ==> x < TWO_64 {
        assert forall x :: x in tail ==> x in head + tail;
        if bit == 1 && runs[0] > 0 {
          assert head[runs[0] - 1] in head + tail;
        }
      }
    }
  }

  /** The decoder's 64-bit arithmetic yields exactly the denoted positions if and only if
      every run of ones is representable. */
  lemma EmitExact(bit: Bit, runs: seq<U64>)
    ensures Emit(bit, 0, runs) == Ones(bit, 0, runs) <==> Representable(bit, 0, runs)
  {
    if Representable(bit, 0, runs) {
      EmitIsOnes(bit, 0, runs);
    }
    if Emit(bit, 0, runs) == Ones(bit, 0, runs) {
      var e := Emit(bit, 0, runs);
      forall x | x in Ones(bit, 0, runs) ensures x < TWO_64 {
        assert x in e;
      }
      EmitLength(bit, 0, runs);
    }
  }

  /** Runs of at most 2^64 in total, each run of ones below 2^63, are representable. */
  lemma {:induction false} BoundedIsRepresentable(bit: Bit, start: nat, runs: seq<U64>)
    requires start + Sum(runs) <= TWO_64
    requires forall i :: 0 <= i < |runs| && (i % 2 == 0 <==> bit == 1) ==> runs[i] < TWO_63
    ensures Representable(bit, start, runs)
    decreases |runs|
  {
    if runs != [] {
      var tail := runs[1..];
      forall i | 0 <= i < |tail| && (i % 2 == 0 <==> Flip(bit) == 1) ensures tail[i] < TWO_63 {
        assert tail[i] == runs[i + 1];
      }
      BoundedIsRepresentable(Flip(bit), start + runs[0], tail);
    }
  }

  /** Nothing but padding: the stream reads as no ones at all. */
  lemma EmptyStream()
    ensures Parse([], 3) == [Long([0])] && RunsOf([Long([0])]) == [0]
    ensures DecodeBits([]) == Ints([])
  {
    ZerosAreStop([], 3);
    assert Terminated([0]) && Value([0]) == 0;
    assert Window([], 0, 2) == HEADER;
    assert Emit(0, 0, [0]) == EmitRun(0, 0, 0) + Emit(1, 0, [0][1..]);
    assert [0][1..] == [];
  }

  /** An overlong varint is eleven bytes that all announce another one. */
  lemma OverlongExact(b: Block)
    requires WellFormed(b)
    ensures IsOverlong(b) <==> b.Long? && |b.bytes| == 11 && forall i :: 0 <= i < 11 ==> b.bytes[i] >= 128
  {
  }

  /** Decode refines the grammar on every byte string: with a correct version,
      the result is given by any grammatical reading of the bits followed by endless
      zeros, it is an error exactly when that reading ends in an overlong varint, and it
      is the denoted set, ascending, exactly when the runs of ones are representable. */
  lemma DecodeRefinesGrammar(buf: seq<Byte>, blocks: seq<Block>)
    requires Derives(Unpack(buf, LSB0), 3, blocks)
    ensures var s := Unpack(buf, LSB0);
      var runs := RunsOf(blocks);
      && (DecodeSpec(buf) == Failed(WrongVersion) <==> Window(s, 0, 2) != HEADER)
      && (Window(s, 0, 2) == HEADER ==>
           && (DecodeSpec(buf) == Failed(InvalidEncoding) <==> IsOverlong(blocks[|blocks| - 1]))
           && (!IsOverlong(blocks[|blocks| - 1]) ==>
                && DecodeSpec(buf).Ints?
                && (DecodeSpec(buf).ints == Ones(At(s, 2), 0, runs) <==> Representable(At(s, 2), 0, runs))))
    ensures DecodeSpec(buf).Ints? && Representable(At(Unpack(buf, LSB0), 2), 0, RunsOf(blocks)) ==>
              Ascending(DecodeSpec(buf).ints)
    ensures buf == [] ==> DecodeSpec(buf) == Ints([])
  {
    hide Emit, Ones, RunsOf, Representable, Parse, Prefix, Window;
    var s := Unpack(buf, LSB0);
    if buf == [] { EmptyStream(); }
    ParseExact(s, 3, blocks);
    EmitExact(At(s, 2), RunsOf(blocks));
    OnesAscending(At(s, 2), 0, RunsOf(blocks));
  }

  // ------------------------------------------------------------- round trip

  /** The block written for a run reads back as that run and does not end the parse. */
  lemma BlockRoundTrip(run: U64)
    requires run >= 1
    ensures WellFormed(BlockOf(run)) && !IsFinal(BlockOf(run)) && RunOf(BlockOf(run)) == run
  {
    if run >= 16 { UvarintRoundTrip(run); }
  }

  const STOP: Block := Long([0])

  lemma {:induction false} BlocksEnded(runs: seq<U64>)
    requires forall i :: 0 <= i < |runs| ==> runs[i] >= 1
    ensures Ended(BlocksOf(runs) + [STOP])
    ensures RunsOf(BlocksOf(runs) + [STOP]) == runs + [0]
    decreases |runs|
  {
    hide Ended, BlockOf, RunOf;
    var blocks := BlocksOf(runs) + [STOP];
    if runs == [] {
      assert blocks == [STOP];
      StopEnds();
    } else {
      BlocksEnded(runs[1..]);
      var tail := BlocksOf(runs[1..]) + [STOP];
      assert blocks == [BlockOf(runs[0])] + tail;
      BlockRoundTrip(runs[0]);
      EndedCons(BlockOf(runs[0]), tail);
      assert RunsOf(blocks) == [runs[0]] + RunsOf(tail);
    }
  }

  lemma StopEnds()
    ensures Ended([STOP]) && RunsOf([STOP]) == [0]
  {
    assert Terminated([0]) && Value([0]) == 0;
  }

  ghost predicate SameStream(s: seq<Bit>, t: seq<Bit>) {
    forall i: nat :: At(s, i) == At(t, i)
  }

  lemma SameWindow(s: seq<Bit>, t: seq<Bit>, pos: nat, n: nat)
    requires SameStream(s, t)
    ensures Window(s, pos, n) == Window(t, pos, n)
  {
    var a, b := Window(s, pos, n), Window(t, pos, n);
    forall i | 0 <= i < n ensures a[i] == b[i] {
      assert At(s, pos + i) == At(t, pos + i);
    }
  }

  lemma WindowOfConcat(h: seq<Bit>, body: seq<Bit>, zeros: seq<Bit>)
    requires forall i :: 0 <= i < |zeros| ==> zeros[i] == 0
    ensures Window(h + body, |h|, |body + zeros|) == body + zeros
  {
    var w, all := Window(h + body, |h|, |body + zeros|), body + zeros;
    forall i | 0 <= i < |all| ensures w[i] == all[i] {
      assert w[i] == At(h + body, |h| + i);
    }
  }

  /** The padding zeros read as the block that ends the parse. */
  lemma EncodedDerives(first: Bit, runs: seq<U64>, s: seq<Bit>)
    requires forall i :: 0 <= i < |runs| ==> runs[i] >= 1
    requires SameStream(s, HEADER + [first] + PrintAll(BlocksOf(runs)))
    ensures Window(s, 0, 2) == HEADER && At(s, 2) == first
    ensures Derives(s, 3, BlocksOf(runs) + [STOP])
  {
    hide Ended, BlocksOf, PrintAll, Print, RunsOf, SameStream;
    var body := PrintAll(BlocksOf(runs));
    var head: seq<Bit> := HEADER + [first];
    BlocksEnded(runs);
    PrintAllSnoc(BlocksOf(runs), STOP);
    StopIsZeros();
    SameWindow(s, head + body, 3, |body + Print(STOP)|);
    WindowOfConcat(head, body, Print(STOP));
    EncodedHeader(first, body, s);
  }

  lemma EncodedHeader(first: Bit, body: seq<Bit>, s: seq<Bit>)
    requires SameStream(s, HEADER + [first] + body)
    ensures Window(s, 0, 2) == HEADER && At(s, 2) == first
  {
    var bits: seq<Bit> := HEADER + [first] + body;
    assert At(s, 0) == At(bits, 0) && At(s, 1) == At(bits, 1) && At(s, 2) == At(bits, 2);
    assert Window(s, 0, 2) == [0, 0];
  }

  lemma StopIsZeros()
    ensures |Print(STOP)| == 10 && forall i :: 0 <= i < 10 ==> Print(STOP)[i] == 0
  {
    forall i | 0 <= i < 8 ensures BitOf(0, i) == 0 { ZeroBit(i); }
    assert BytesBits([0]) == ToBits(0, 8) by {
      assert [0][1..] == [];
    }
  }

  lemma {:induction false} RepresentableSnoc(bit: Bit, start: nat, runs: seq<U64>)
    ensures Representable(bit, start, runs + [0]) <==> Representable(bit, start, runs)
    ensures Ones(bit, start, runs + [0]) == Ones(bit, start, runs)
    decreases |runs|
  {
    if runs == [] {
      assert runs + [0] == [0];
      assert [0][1..] == [];
    } else {
      assert (runs + [0])[1..] == runs[1..] + [0];
      RepresentableSnoc(Flip(bit), start + runs[0], runs[1..]);
    }
  }

  /** Runs of ones no longer in total than a slice, within 64 bits, are representable. */
  lemma {:induction false} CountedIsRepresentable(bit: Bit, start: nat, runs: seq<U64>)
    requires OnesCount(bit, runs) < TWO_63
    requires start + Sum(runs) <= TWO_64
    ensures Representable(bit, start, runs)
    decreases |runs|
  {
    if runs != [] { CountedIsRepresentable(Flip(bit), start + runs[0], runs[1..]); }
  }

  /** Sorting and deduplicating leaves exactly the distinct elements, in order. */
  lemma DistinctExact(ints: seq<U64>)
    ensures Ascending(Dedup(Sort(ints))) && forall x :: x in Dedup(Sort(ints)) <==> x in ints
  {
    SortExact(ints);
    SortKeeps(ints);
    DedupExact(Sort(ints));
  }

  lemma RunsRepresentable(ints: seq<U64>)
    requires |ints| < TWO_63
    ensures var s := Sort(ints);
      && (forall i :: 0 <= i < |RunList(s)| ==> RunList(s)[i] >= 1)
      && Ones(FirstBit(s), 0, RunList(s)) == Dedup(s)
      && Representable(FirstBit(s), 0, RunList(s))
  {
    var s := Sort(ints);
    SortExact(ints);
    if s != [] {
      RunListExact(s);
      DedupExact(s);
      OnesAscending(FirstBit(s), 0, RunList(s));
      CountedIsRepresentable(FirstBit(s), 0, RunList(s));
    }
  }

  /** Round trip to the byte: for every list, in any order and with repetitions, decoding
      the encoded bytes `buf` succeeds and gives exactly the elements, strictly ascending. */
  lemma RoundTrip(ints: seq<U64>, buf: seq<Byte>, r: Decoded)
    requires |ints| < TWO_63 && buf == EncodedBytes(ints) && r == DecodeSpec(buf)
    ensures r.Ints? && Ascending(r.ints) && forall x :: x in r.ints <==> x in ints
  {
    hide DecodeSpec, EncodedBytes, Dedup, Sort;
    DecodesToDistinct(ints);
    DistinctExact(ints);
  }

  lemma DecodesToDistinct(ints: seq<U64>)
    requires |ints| < TWO_63
    ensures DecodeSpec(EncodedBytes(ints)) == Ints(Dedup(Sort(ints)))
  {
    hide Sort, RunList, Dedup, Emit, Ones, Representable, PrintAll, BlocksOf, RunsOf, Pack, Prefix,
         FirstBit, Ascending, Derives, DecodeBits, Window;
    var sorted := Sort(ints);
    var first, runs := FirstBit(sorted), RunList(sorted);
    var bits := EncodedBits(ints);
    var s := Unpack(EncodedBytes(ints), LSB0);
    forall i: nat ensures At(s, i) == At(bits, i) { UnpackPack(bits, i); }
    RunsRepresentable(ints);
    EncodedDerives(first, runs, s);
    DecodeOfReading(first, runs, s);
    RepresentableSnoc(first, 0, runs);
    EmitExact(first, runs + [0]);
  }

  lemma DecodeOfReading(first: Bit, runs: seq<U64>, s: seq<Bit>)
    requires forall i :: 0 <= i < |runs| ==> runs[i] >= 1
    requires Window(s, 0, 2) == HEADER && At(s, 2) == first
    requires Derives(s, 3, BlocksOf(runs) + [STOP])
    ensures DecodeBits(s) == Ints(Emit(first, 0, runs + [0]))
  {
    hide Emit, BlocksOf, RunsOf, Parse, Derives, Window;
    var blocks := BlocksOf(runs) + [STOP];
    ParseExact(s, 3, blocks);
    BlocksEnded(runs);
    assert blocks[|blocks| - 1] == STOP;
  }

  /** The bytes of one run of 2^63 ones. */
  function LongRun(): seq<Byte> {
    Pack(HEADER + [1] + PrintAll(BlocksOf([TWO_63])))
  }

  /** A failing input: these bytes have a grammatical reading that denotes 2^63 positions,
      and decode without error to no integers at all. */
  lemma LongRunOfOnesIsDropped()
    ensures DecodeSpec(LongRun()) == Ints([])
    ensures exists blocks :: Derives(Unpack(LongRun(), LSB0), 3, blocks) &&
              |Ones(At(Unpack(LongRun(), LSB0), 2), 0, RunsOf(blocks))| == TWO_63
  {
    hide Pack, PrintAll, BlocksOf, RunsOf, Derives, DecodeBits, Prefix, Window;
    var runs: seq<U64> := [TWO_63];
    var bits := HEADER + [1] + PrintAll(BlocksOf(runs));
    var s := Unpack(LongRun(), LSB0);
    forall i: nat ensures At(s, i) == At(bits, i) { UnpackPack(bits, i); }
    EncodedDerives(1, runs, s);
    DecodeOfReading(1, runs, s);
    BlocksEnded(runs);
    LongRunDenotes();
  }

  lemma LongRunDenotes()
    ensures Emit(1, 0, [TWO_63] + [0]) == [] && |Ones(1, 0, [TWO_63] + [0])| == TWO_63
  {
    var runs: seq<U64> := [TWO_63];
    assert runs[1..] == [];
    EmitSnoc(1, 0, runs, 0);
    OnesSnoc(1, 0, runs, 0);
    assert Emit(1, 0, runs) == EmitRun(1, 0, TWO_63) + Emit(0, TWO_63, []);
    assert Ones(1, 0, runs) == RunOnes(1, 0, TWO_63) + Ones(0, TWO_63, []);
  }

  // --------------------------------------------------------------- canonicity

  /** The encoding depends only on the set of integers, and tells sets apart. */
  lemma EncodingCanonical(a: seq<U64>, b: seq<U64>)
    requires |a| < TWO_63 && |b| < TWO_63
    ensures EncodedBytes(a) == EncodedBytes(b) <==> (forall x :: x in a <==> x in b)
    ensures EncodedBytes(a) == EncodedBytes(b) ==> EncodedBits(a) == EncodedBits(b)
  {
    hide Pack, PrintAll, BlocksOf, Parse, Sort, Dedup, Ascending;
    DecodesToDistinct(a);
    DecodesToDistinct(b);
    DistinctExact(a);
    DistinctExact(b);
    var da, db := Dedup(Sort(a)), Dedup(Sort(b));
    if EncodedBytes(a) == EncodedBytes(b) {
      assert da == db;
      forall x ensures x in a <==> x in b {
        assert x in a <==> x in da;
      }
    }
    if forall x :: x in a <==> x in b {
      AscendingUnique(da, db);
    }
    if da == db {
      SameRuns(a);
      SameRuns(b);
    }
  }

  lemma SameRuns(ints: seq<U64>)
    ensures var d := Dedup(Sort(ints));
      RunList(Sort(ints)) == RunList(d) && FirstBit(Sort(ints)) == FirstBit(d)
  {
    RunListDedup(Sort(ints));
    if Sort(ints) != [] { DedupEnds(Sort(ints)); }
  }

  /** Encoding what an encoding decodes to reproduces it. */
  lemma ReencodeIsIdentity(ints: seq<U64>)
    requires |ints| < TWO_63
    ensures var r := DecodeSpec(EncodedBytes(ints));
      r.Ints? && EncodedBytes(r.ints) == EncodedBytes(ints) && EncodedBits(r.ints) == EncodedBits(ints)
  {
    hide EncodedBytes, EncodedBits, DecodeSpec, Sort, Dedup;
    DecodesToDistinct(ints);
    DistinctExact(ints);
    var d := Dedup(Sort(ints));
    SortExact(ints);
    DedupExact(Sort(ints));
    EncodingCanonical(d, ints);
  }

  // -------------------------------------------------------------------- size

  lemma {:induction false} BlocksSize(runs: seq<U64>)
    requires forall i :: 0 <= i < |runs| ==> runs[i] >= 1
    ensures |PrintAll(BlocksOf(runs))| <= 82 * |runs|
    decreases |runs|
  {
    if runs != [] {
      BlocksSize(runs[1..]);
      UvarintRoundTrip(runs[0]);
      PrintAllCons(BlockOf(runs[0]), BlocksOf(runs[1..]));
    }
  }

  /** n distinct integers need at most 3 + 164·n bits, packed into ⌈bits / 8⌉ bytes. */
  lemma EncodedSize(ints: seq<U64>)
    requires |ints| < TWO_63
    ensures 3 <= |EncodedBits(ints)| <= 3 + 164 * |Dedup(Sort(ints))|
    ensures |EncodedBytes(ints)| == (|EncodedBits(ints)| + 7) / 8
  {
    hide Pack, PrintAll, BlocksOf;
    var s := Sort(ints);
    SortExact(ints);
    RunsRepresentable(ints);
    BlocksSize(RunList(s));
    if s != [] { RunListExact(s); }
  }
}
