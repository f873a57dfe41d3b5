/** RunLengths: sorted integers as alternating run lengths, and what a list of run
    lengths denotes. */
module RleRuns {
  import opened Words

  ghost predicate Sorted(s: seq<U64>) {
    forall i, j :: 0 <= i < j < |s| ==> s[i] <= s[j]
  }

  ghost predicate Ascending(s: seq<int>) {
    forall i, j :: 0 <= i < j < |s| ==> s[i] < s[j]
  }

  // ------------------------------------------------------------- denotation

  function Flip(bit: Bit): Bit { 1 - bit }

  function Sum(runs: seq<nat>): nat {
    if runs == [] then 0 else runs[0] + Sum(runs[1..])
  }

  /** The bit of the run that would follow `runs`. */
  function BitAfter(bit: Bit, runs: seq<nat>): Bit
    decreases |runs|
  {
    if runs == [] then bit else BitAfter(Flip(bit), runs[1..])
  }

  function Range(start: nat, n: nat): (r: seq<nat>)
    ensures |r| == n
    ensures forall i :: 0 <= i < n ==> r[i] == start + i
  {
    seq<nat>(n, i requires 0 <= i < n => start + i)
  }

  /** The positions a single run contributes. */
  function RunOnes(bit: Bit, start: nat, run: nat): seq<nat> {
    if bit == 1 then Range(start, run) else []
  }

  /** The positions of the ones in a bit string given by alternating runs that start
      with `bit` at position `start`. */
  function Ones(bit: Bit, start: nat, runs: seq<nat>): seq<nat>
    decreases |runs|
  {
    if runs == [] then []
    else RunOnes(bit, start, runs[0]) + Ones(Flip(bit), start + runs[0], runs[1..])
  }

  /** Total length of the runs of ones. */
  function OnesCount(bit: Bit, runs: seq<nat>): nat
    decreases |runs|
  {
    if runs == [] then 0
    else (if bit == 1 then runs[0] else 0) + OnesCount(Flip(bit), runs[1..])
  }

  lemma {:induction false} SumSnoc(runs: seq<nat>, run: nat)
    ensures Sum(runs + [run]) == Sum(runs) + run
    decreases |runs|
  {
    if runs == [] {
      assert runs + [run] == [run];
    } else {
      assert (runs + [run])[1..] == runs[1..] + [run];
      SumSnoc(runs[1..], run);
    }
  }

  lemma {:induction false} BitAfterSnoc(bit: Bit, runs: seq<nat>, run: nat)
    ensures BitAfter(bit, runs + [run]) == Flip(BitAfter(bit, runs))
    decreases |runs|
  {
    if runs == [] {
      assert runs + [run] == [run];
    } else {
      assert (runs + [run])[1..] == runs[1..] + [run];
      BitAfterSnoc(Flip(bit), runs[1..], run);
    }
  }

  lemma {:induction false} OnesSnoc(bit: Bit, start: nat, runs: seq<nat>, run: nat)
    ensures Ones(bit, start, runs + [run]) ==
            Ones(bit, start, runs) + RunOnes(BitAfter(bit, runs), start + Sum(runs), run)
    decreases |runs|
  {
    hide RunOnes;
    if runs == [] {
      assert runs + [run] == [run];
    } else {
      assert (runs + [run])[1..] == runs[1..] + [run];
      OnesSnoc(Flip(bit), start + runs[0], runs[1..], run);
    }
  }

  /** All three at once. */
  lemma Snoc(bit: Bit, start: nat, runs: seq<nat>, run: nat)
    ensures Sum(runs + [run]) == Sum(runs) + run
    ensures BitAfter(bit, runs + [run]) == Flip(BitAfter(bit, runs))
    ensures Ones(bit, start, runs + [run]) ==
            Ones(bit, start, runs) + RunOnes(BitAfter(bit, runs), start + Sum(runs), run)
  {
    SumSnoc(runs, run);
    BitAfterSnoc(bit, runs, run);
    OnesSnoc(bit, start, runs, run);
  }

  lemma AscendingConcat(a: seq<int>, b: seq<int>, mid: int)
    requires Ascending(a) && Ascending(b)
    requires forall x :: x in a ==> x < mid
    requires forall x :: x in b ==> mid <= x
    ensures Ascending(a + b)
  {
    var c := a + b;
    forall i, j | 0 <= i < j < |c| ensures c[i] < c[j] {
      if i < |a| <= j {
        assert c[i] == a[i] && c[i] in a;
        assert c[j] == b[j - |a|] && c[j] in b;
      }
    }
  }

  /** The denoted positions are strictly ascending, lie in the covered span and are as
      many as the runs of ones are long. */
  lemma {:induction false} OnesAscending(bit: Bit, start: nat, runs: seq<nat>)
    ensures Ascending(Ones(bit, start, runs))
    ensures forall x :: x in Ones(bit, start, runs) ==> start <= x < start + Sum(runs)
    ensures |Ones(bit, start, runs)| == OnesCount(bit, runs)
    decreases |runs|
  {
    if runs != [] {
      var head, tail := RunOnes(bit, start, runs[0]), Ones(Flip(bit), start + runs[0], runs[1..]);
      OnesAscending(Flip(bit), start + runs[0], runs[1..]);
      AscendingConcat(head, tail, start + runs[0]);
    }
  }

  // ---------------------------------------------------------- the algorithm

  function FirstBit(s: seq<U64>): Bit {
    if s != [] && s[0] == 0 then 1 else 0
  }

  /** One iteration of the loop, in 64-bit arithmetic. */
  function Step(runs: seq<U64>, prev: U64, cur: U64): (r: seq<U64>)
    requires runs != []
    ensures r != []
  {
    var delta := (cur - prev) % TWO_64;
    if delta == 1 then runs[..|runs| - 1] + [(runs[|runs| - 1] + 1) % TWO_64]
    else if delta > 1 then runs + [delta - 1, 1]
    else runs
  }

  function Start(first: U64): seq<U64> {
    (if first == 0 then [] else [first]) + [1]
  }

  /** Run lengths of a list taken in the given order. */
  function RunList(s: seq<U64>): (runs: seq<U64>)
    ensures s != [] ==> runs != []
  {
    if s == [] then []
    else if |s| == 1 then Start(s[0])
    else Step(RunList(s[..|s| - 1]), s[|s| - 2], s[|s| - 1])
  }

  /** A sorted list without its repetitions. */
  function Dedup(s: seq<U64>): seq<U64> {
    if |s| <= 1 then s
    else if s[|s| - 1] == s[|s| - 2] then Dedup(s[..|s| - 1])
    else Dedup(s[..|s| - 1]) + [s[|s| - 1]]
  }

  lemma {:induction false} DedupExact(s: seq<U64>)
    requires Sorted(s)
    ensures Ascending(Dedup(s))
    ensures forall x :: x in Dedup(s) <==> x in s
    ensures s != [] ==> Dedup(s) != [] && Dedup(s)[|Dedup(s)| - 1] == s[|s| - 1]
    ensures |Dedup(s)| <= |s|
    decreases |s|
  {
    if |s| > 1 {
      var init, last := s[..|s| - 1], s[|s| - 1];
      DedupExact(init);
      assert s == init + [last];
      assert init[|init| - 1] == s[|s| - 2];
      if last != s[|s| - 2] {
        var d := Dedup(init);
        assert forall i :: 0 <= i < |d| ==> d[i] <= d[|d| - 1];
      }
    }
  }

  /** Two strictly ascending lists with the same elements are equal. */
  lemma {:induction false} AscendingUnique(a: seq<int>, b: seq<int>)
    requires Ascending(a) && Ascending(b)
    requires forall x :: x in a <==> x in b
    ensures a == b
    decreases |a|
  {
    assert b != [] ==> b[0] in b;
    if a != [] {
      assert a[0] in a && a[0] in b;
      assert b[0] in b && b[0] in a;
      assert a[0] == b[0];
      var a', b' := a[1..], b[1..];
      forall x ensures x in a' <==> x in b' {
        if x in a' { assert x in b && x != b[0]; }
        if x in b' { assert x in a && x != a[0]; }
      }
      AscendingUnique(a', b');
    }
  }

  /** What each iteration of the loop keeps: the runs so far denote exactly the elements
      so far, end in a run of ones, and end just above the last element. */
  ghost predicate Denotes(s: seq<U64>, runs: seq<U64>)
    requires s != []
  {
    && Ones(FirstBit(s), 0, runs) == Dedup(s)
    && Sum(runs) - 1 == s[|s| - 1]
    && BitAfter(FirstBit(s), runs) == 0
    && 0 < |runs| <= 2 * |Dedup(s)|
    && runs[|runs| - 1] <= |s|
    && forall i :: 0 <= i < |runs| ==> runs[i] >= 1
  }

  lemma DenotesStart(x: U64)
    ensures Ones(FirstBit([x]), 0, Start(x)) == [x]
    ensures Sum(Start(x)) == x as int + 1 && BitAfter(FirstBit([x]), Start(x)) == 0
  {
    if x == 0 {
      assert Start(x) == [] + [1];
      Snoc(1, 0, [], 1);
    } else {
      assert [x] == [] + [x];
      Snoc(0, 0, [], x);
      Snoc(0, 0, [x], 1);
    }
  }

  /** Another element directly above: the last run of ones grows by one. */
  lemma DenotesBump(bit: Bit, runs: seq<nat>)
    requires |runs| > 0 && BitAfter(bit, runs) == 0
    ensures var more := runs[..|runs| - 1] + [runs[|runs| - 1] + 1];
      && Ones(bit, 0, more) == Ones(bit, 0, runs) + [Sum(runs)]
      && Sum(more) == Sum(runs) + 1 && BitAfter(bit, more) == 0
  {
    hide Ones, Sum, BitAfter;
    var front, last := runs[..|runs| - 1], runs[|runs| - 1];
    assert runs == front + [last];
    Snoc(bit, 0, front, last);
    Snoc(bit, 0, front, last + 1);
    assert Range(Sum(front), last + 1) == Range(Sum(front), last) + [Sum(front) + last];
  }

  /** Another element after a gap: a run of zeros and a new run of ones. */
  lemma DenotesGap(bit: Bit, runs: seq<nat>, gap: nat)
    requires BitAfter(bit, runs) == 0
    ensures Ones(bit, 0, runs + [gap, 1]) == Ones(bit, 0, runs) + [Sum(runs) + gap]
    ensures Sum(runs + [gap, 1]) == Sum(runs) + gap + 1 && BitAfter(bit, runs + [gap, 1]) == 0
  {
    hide Ones, Sum, BitAfter;
    Snoc(bit, 0, runs, gap);
    Snoc(bit, 0, runs + [gap], 1);
    assert runs + [gap, 1] == (runs + [gap]) + [1];
  }

  /** RunLengths is exact, for every sorted list. */
  lemma {:induction false} RunListExact(s: seq<U64>)
    requires s != [] && Sorted(s) && |s| < TWO_63
    ensures Denotes(s, RunList(s))
    decreases |s|
  {
    hide Ones, Sum, BitAfter;
    if |s| == 1 {
      assert s == [s[0]];
      DenotesStart(s[0]);
    } else {
      var init := s[..|s| - 1];
      RunListExact(init);
      DenotesStep(init, s[|s| - 1], RunList(init));
      assert s == init + [s[|s| - 1]];
    }
  }

  lemma DedupSnoc(init: seq<U64>, last: U64)
    requires init != []
    ensures Dedup(init + [last]) ==
            if last == init[|init| - 1] then Dedup(init) else Dedup(init) + [last]
  {
    assert (init + [last])[..|init|] == init;
  }

  lemma DenotesStep(init: seq<U64>, last: U64, runs: seq<U64>)
    requires init != [] && |init| < TWO_63 && init[|init| - 1] <= last
    requires Denotes(init, runs)
    ensures Denotes(init + [last], Step(runs, init[|init| - 1], last))
  {
    hide Ones, Sum, BitAfter, Dedup;
    var prev := init[|init| - 1];
    DedupSnoc(init, last);
    var delta := last - prev;
    assert FirstBit(init + [last]) == FirstBit(init);
    if delta == 1 {
      DenotesBump(FirstBit(init), runs);
    } else if delta > 1 {
      DenotesGap(FirstBit(init), runs, delta - 1);
    }
  }

  lemma RunListSnoc(init: seq<U64>, last: U64)
    requires init != []
    ensures RunList(init + [last]) == Step(RunList(init), init[|init| - 1], last)
  {
    assert (init + [last])[..|init|] == init;
  }

  lemma DedupShort(s: seq<U64>)
    requires |s| <= 1
    ensures Dedup(s) == s
  {
  }

  lemma {:induction false} DedupEnds(s: seq<U64>)
    requires s != []
    ensures Dedup(s) != [] && Dedup(s)[0] == s[0] && Dedup(s)[|Dedup(s)| - 1] == s[|s| - 1]
    decreases |s|
  {
    if |s| > 1 { DedupEnds(s[..|s| - 1]); }
  }

  /** Runs depend only on which elements occur. */
  lemma {:induction false} RunListDedup(s: seq<U64>)
    ensures RunList(Dedup(s)) == RunList(s)
    decreases |s|
  {
    hide RunList, Dedup;
    if |s| <= 1 {
      DedupShort(s);
    } else {
      var init, last := s[..|s| - 1], s[|s| - 1];
      assert s == init + [last];
      RunListDedup(init);
      DedupEnds(init);
      DedupSnoc(init, last);
      RunListSnoc(init, last);
      if last != init[|init| - 1] {
        RunListSnoc(Dedup(init), last);
      }
    }
  }

  // ------------------------------------------------------------- the method

  /** Insertion of one element into a sorted list. */
  function Insert(x: U64, s: seq<U64>): seq<U64> {
    if s == [] || x <= s[0] then [x] + s else [s[0]] + Insert(x, s[1..])
  }

  function Sort(s: seq<U64>): seq<U64> {
    if s == [] then [] else Insert(s[0], Sort(s[1..]))
  }

  lemma {:induction false} InsertElements(x: U64, s: seq<U64>)
    ensures multiset(Insert(x, s)) == multiset(s) + multiset{x}
    decreases |s|
  {
    if s != [] && x > s[0] {
      InsertElements(x, s[1..]);
      assert s == [s[0]] + s[1..];
    }
  }

  lemma {:induction false} InsertSorted(x: U64, s: seq<U64>)
    requires Sorted(s)
    ensures Sorted(Insert(x, s))
    decreases |s|
  {
    if s != [] && x > s[0] {
      var rest := Insert(x, s[1..]);
      InsertSorted(x, s[1..]);
      InsertElements(x, s[1..]);
      forall i | 0 <= i < |rest| ensures s[0] <= rest[i] {
        assert rest[i] in multiset(rest);
        assert rest[i] == x || rest[i] in s[1..];
      }
    }
  }

  /** Sort gives an ascending permutation; for integers there is only one. */
  lemma {:induction false} SortExact(s: seq<U64>)
    ensures Sorted(Sort(s)) && multiset(Sort(s)) == multiset(s)
    ensures |Sort(s)| == |s|
    decreases |s|
  {
    if s != [] {
      SortExact(s[1..]);
      InsertSorted(s[0], Sort(s[1..]));
      InsertElements(s[0], Sort(s[1..]));
      assert s == [s[0]] + s[1..];
    }
    assert |multiset(Sort(s))| == |Sort(s)| && |multiset(s)| == |s|;
  }

  lemma SortKeeps(s: seq<U64>)
    ensures forall x :: x in Sort(s) <==> x in s
  {
    SortExact(s);
    forall x ensures x in Sort(s) <==> x in s {
      assert x in Sort(s) <==> x in multiset(Sort(s));
      assert x in s <==> x in multiset(s);
    }
  }

  /** sort.Slice on the caller's slice. */
  method SortSlice(ints: array<U64>)
    modifies ints
    ensures ints[..] == Sort(old(ints[..]))
  {
    var sorted := Sort(ints[..]);
    SortExact(ints[..]);
    forall i | 0 <= i < ints.Length {
      ints[i] := sorted[i];
    }
  }

  /** Sorts the caller's slice and returns the run lengths. Slices hold fewer than 2^63
      elements. */
  method RunLengths(ints: array<U64>) returns (firstBit: Bit, runs: seq<U64>)
    requires ints.Length < TWO_63
    modifies ints
    ensures ints[..] == Sort(old(ints[..])) && Sorted(ints[..])
    ensures runs == RunList(ints[..]) && firstBit == FirstBit(ints[..])
    ensures ints.Length > 0 ==> Denotes(ints[..], runs)
  {
    hide Denotes, Ones, Sum, BitAfter, Sort;
    firstBit, runs := 0, [];
    SortExact(ints[..]);
    if ints.Length == 0 {
      return;
    }
    SortSlice(ints);
    firstBit, runs := SortedRuns(ints[..]);
    RunListExact(ints[..]);
  }

  /** The loop of RunLengths over the sorted slice. */
  method SortedRuns(s: seq<U64>) returns (firstBit: Bit, runs: seq<U64>)
    requires s != []
    ensures runs == RunList(s) && firstBit == FirstBit(s)
  {
    firstBit, runs := 0, [];
    var prev := s[0];
    if prev == 0 {
      firstBit := 1;
    }
    if firstBit == 0 {
      runs := runs + [prev];
    }
    runs := runs + [1];
    assert s[..1] == [prev];
    var i := 1;
    while i < |s|
      invariant 1 <= i <= |s| && prev == s[i - 1]
      invariant runs == RunList(s[..i])
    {
      var cur := s[i];
      var delta := (cur - prev) % TWO_64;
      assert s[..i + 1][..i] == s[..i];
      ghost var before := runs;
      if delta == 1 {
        runs := runs[..|runs| - 1] + [(runs[|runs| - 1] + 1) % TWO_64];
      } else if delta > 1 {
        runs := runs + [delta - 1];
        runs := runs + [1];
      }
      assert runs == Step(before, prev, cur);
      prev := cur;
      i := i + 1;
    }
    assert s[..i] == s;
  }
}
