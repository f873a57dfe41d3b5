/** Public sector infos on their way into a proof verification: Go sorts them by replica
    commitment and flattens the commitments into one byte buffer; Rust splits the buffer
    again and builds a map from sector id to replica info. */
module ReplicaMap {
  import opened Words

  const COMMITMENT_LEN: nat := 32

  type CommR = c: seq<Byte> | |c| == COMMITMENT_LEN witness seq(COMMITMENT_LEN, _ => 0)

  datatype SectorInfo = SectorInfo(sectorID: U64, commR: CommR)

  // -------------------------------------------------------------------- order

  /** bytes.Compare. */
  function Compare(a: seq<Byte>, b: seq<Byte>): int {
    if a == [] then (if b == [] then 0 else -1)
    else if b == [] then 1
    else if a[0] < b[0] then -1
    else if a[0] > b[0] then 1
    else Compare(a[1..], b[1..])
  }

  lemma {:induction false} CompareEqual(a: seq<Byte>, b: seq<Byte>)
    ensures Compare(a, b) == 0 <==> a == b
    decreases |a|
  {
    if a != [] && b != [] {
      CompareEqual(a[1..], b[1..]);
      assert a == [a[0]] + a[1..] && b == [b[0]] + b[1..];
    }
  }

  lemma {:induction false} CompareAntisymmetric(a: seq<Byte>, b: seq<Byte>)
    ensures Compare(a, b) == -Compare(b, a) && -1 <= Compare(a, b) <= 1
    decreases |a|
  {
    if a != [] && b != [] { CompareAntisymmetric(a[1..], b[1..]); }
  }

  /** Compare is lexicographic: the first difference decides, and a proper prefix is less. */
  lemma {:induction false} CompareLexicographic(a: seq<Byte>, b: seq<Byte>, k: nat)
    requires k < |b| && k <= |a| && a[..k] == b[..k]
    requires k == |a| || a[k] < b[k]
    ensures Compare(a, b) == -1 && Compare(b, a) == 1
    decreases k
  {
    if k > 0 {
      assert a[0] == a[..k][0] == b[..k][0] == b[0];
      assert a[1..][..k - 1] == a[..k][1..] && b[1..][..k - 1] == b[..k][1..];
      CompareLexicographic(a[1..], b[1..], k - 1);
    }
  }

  /** The outcomes sort.Slice allows: no later element is less than an earlier one. */
  ghost predicate SortedByCommR(s: seq<SectorInfo>) {
    forall i, j :: 0 <= i < j < |s| ==> Compare(s[j].commR, s[i].commR) != -1
  }

  /** `out` is a possible result of sorting `input`; equal commitments may come in any order. */
  ghost predicate IsSortOf(out: seq<SectorInfo>, input: seq<SectorInfo>) {
    SortedByCommR(out) && multiset(out) == multiset(input)
  }

  lemma {:induction false} CompareTransitive(a: seq<Byte>, b: seq<Byte>, c: seq<Byte>)
    requires Compare(b, a) != -1 && Compare(c, b) != -1
    ensures Compare(c, a) != -1
    decreases |a|
  {
    if a != [] && b != [] && c != [] && a[0] == b[0] == c[0] {
      CompareTransitive(a[1..], b[1..], c[1..]);
    }
  }

  function Insert(x: SectorInfo, s: seq<SectorInfo>): seq<SectorInfo> {
    if s == [] || Compare(x.commR, s[0].commR) == -1 then [x] + s else [s[0]] + Insert(x, s[1..])
  }

  function Sort(s: seq<SectorInfo>): seq<SectorInfo> {
    if s == [] then [] else Insert(s[0], Sort(s[1..]))
  }

  lemma {:induction false} InsertSorts(x: SectorInfo, s: seq<SectorInfo>)
    requires SortedByCommR(s)
    ensures SortedByCommR(Insert(x, s)) && multiset(Insert(x, s)) == multiset(s) + multiset{x}
    decreases |s|
  {
    if s == [] {
    } else if Compare(x.commR, s[0].commR) == -1 {
      CompareAntisymmetric(x.commR, s[0].commR);
      forall i | 0 <= i < |s| ensures Compare(s[i].commR, x.commR) != -1 {
        CompareSelf(s[0].commR);
        CompareTransitive(x.commR, s[0].commR, s[i].commR);
      }
    } else {
      var rest := Insert(x, s[1..]);
      InsertSorts(x, s[1..]);
      assert s == [s[0]] + s[1..];
      forall i | 0 <= i < |rest| ensures Compare(rest[i].commR, s[0].commR) != -1 {
        assert rest[i] in multiset(rest);
        assert rest[i] == x || rest[i] in s[1..];
      }
    }
  }

  lemma NothingSorted()
    ensures SortedByCommR([])
  {
  }

  lemma CompareSelf(a: seq<Byte>)
    ensures Compare(a, a) == 0
  {
    CompareEqual(a, a);
  }

  lemma {:induction false} SortSorts(s: seq<SectorInfo>)
    ensures IsSortOf(Sort(s), s) && |Sort(s)| == |s|
    decreases |s|
  {
    hide SortedByCommR, Insert;
    if s == [] {
      NothingSorted();
    } else {
      SortSorts(s[1..]);
      InsertSorts(s[0], Sort(s[1..]));
      assert s == [s[0]] + s[1..];
    }
    assert |multiset(Sort(s))| == |Sort(s)| && |multiset(s)| == |s|;
  }

  /** Sorts the caller's slice by commitment. Only what sort.Slice promises is stated. */
  method NewSortedPublicSectorInfo(infos: array<SectorInfo>)
    modifies infos
    ensures IsSortOf(infos[..], old(infos[..]))
  {
    SortSorts(infos[..]);
    var sorted := Sort(infos[..]);
    forall i | 0 <= i < infos.Length {
      infos[i] := sorted[i];
    }
    assert infos[..] == sorted;
  }

  // ------------------------------------------------------- flattening and back

  function Ids(infos: seq<SectorInfo>): (ids: seq<U64>)
    ensures |ids| == |infos|
    ensures forall i :: 0 <= i < |infos| ==> ids[i] == infos[i].sectorID
  {
    seq<U64>(|infos|, i requires 0 <= i < |infos| => infos[i].sectorID)
  }

  function Comms(infos: seq<SectorInfo>): (c: seq<CommR>)
    ensures |c| == |infos|
    ensures forall i :: 0 <= i < |infos| ==> c[i] == infos[i].commR
  {
    seq<CommR>(|infos|, i requires 0 <= i < |infos| => infos[i].commR)
  }

  function Flat(infos: seq<SectorInfo>): (bytes: seq<Byte>)
    ensures |bytes| == COMMITMENT_LEN * |infos|
  {
    if infos == [] then [] else Flat(infos[..|infos| - 1]) + infos[|infos| - 1].commR
  }

  lemma {:induction false} FlatChunk(infos: seq<SectorInfo>, i: nat)
    requires i < |infos|
    ensures Flat(infos)[32 * i..32 * (i + 1)] == infos[i].commR
    decreases |infos|
  {
    if i < |infos| - 1 {
      FlatChunk(infos[..|infos| - 1], i);
      assert Flat(infos)[32 * i..32 * (i + 1)] == Flat(infos[..|infos| - 1])[32 * i..32 * (i + 1)];
    }
  }

  /** The two loops of VerifyPoSt that fill the id array and the flattened buffer. */
  method Flatten(infos: seq<SectorInfo>) returns (ids: array<U64>, flattened: array<Byte>)
    ensures ids[..] == Ids(infos)
    ensures flattened[..] == Flat(infos)
  {
    var n := |infos|;
    ids := new U64[n](_ => 0);
    var comms := new CommR[n](_ => seq(COMMITMENT_LEN, _ => 0));
    for idx := 0 to n
      invariant forall k :: 0 <= k < idx ==> ids[k] == infos[k].sectorID && comms[k] == infos[k].commR
    {
      comms[idx] := infos[idx].commR;
      ids[idx] := infos[idx].sectorID;
    }
    flattened := FlattenComms(infos, comms);
  }

  lemma FlatSnoc(infos: seq<SectorInfo>, n: nat)
    requires n < |infos|
    ensures Flat(infos[..n + 1]) == Flat(infos[..n]) + infos[n].commR
  {
    assert infos[..n + 1][..n] == infos[..n];
  }

  /** The copying loop. */
  method FlattenComms(ghost infos: seq<SectorInfo>, comms: array<CommR>) returns (flattened: array<Byte>)
    requires comms[..] == Comms(infos)
    ensures flattened[..] == Flat(infos)
    ensures fresh(flattened)
  {
    hide Flat, Comms;
    var n := comms.Length;
    flattened := new Byte[COMMITMENT_LEN * n](_ => 0);
    assert infos[..0] == [];
    for idx := 0 to n
      invariant comms[..] == Comms(infos)
      invariant flattened[..32 * idx] == Flat(infos[..idx])
    {
      Copy(flattened, COMMITMENT_LEN * idx, comms[idx]);
      FlatSnoc(infos, idx);
      assert flattened[..32 * (idx + 1)] == flattened[..32 * idx] + flattened[32 * idx..32 * (idx + 1)];
    }
    assert infos[..n] == infos;
    assert flattened[..32 * n] == flattened[..];
  }

  /** Go's copy into a window of the buffer. */
  method Copy(dst: array<Byte>, at: nat, src: seq<Byte>)
    requires at + |src| <= dst.Length
    modifies dst
    ensures dst[at..at + |src|] == src
    ensures dst[..at] == old(dst[..at]) && dst[at + |src|..] == old(dst[at + |src|..])
  {
    forall k | 0 <= k < |src| {
      dst[at + k] := src[k];
    }
  }

  /** into_commitments: a 32-byte window at every 32nd byte. The last window of a buffer whose
      length is not a multiple of 32 reaches past its end, which Rust leaves undefined. */
  method IntoCommitments(bytes: seq<Byte>) returns (comms: seq<CommR>, inBounds: bool)
    ensures inBounds <==> |bytes| % COMMITMENT_LEN == 0
    ensures inBounds ==> IsChunks(comms, bytes)
  {
    comms, inBounds := [], true;
    var at := 0;
    while at < |bytes|
      invariant 0 <= at <= |bytes| && at == 32 * |comms|
      invariant forall i :: 0 <= i < |comms| ==> comms[i] == bytes[32 * i..32 * (i + 1)]
    {
      if at + COMMITMENT_LEN > |bytes| {
        inBounds := false;
        return;
      }
      comms := comms + [bytes[at..at + COMMITMENT_LEN]];
      at := at + COMMITMENT_LEN;
    }
  }

  // ------------------------------------------------------------- building the map

  datatype BuildError = NullPointer | LengthMismatch | InvalidCommR
  datatype Built = Replicas(infos: map<U64, CommR>) | Rejected(error: BuildError) | OutOfBounds

  /** The insertion loop: `valid` stands for the check in PublicReplicaInfo::new, and a later
      entry for the same sector id replaces an earlier one. */
  function Inserted(ids: seq<U64>, comms: seq<CommR>, valid: CommR -> bool): Built
    requires |ids| == |comms|
    decreases |ids|
  {
    if ids == [] then Replicas(map[])
    else
      var n := |ids| - 1;
      var before := Inserted(ids[..n], comms[..n], valid);
      if !before.Replicas? then before
      else if !valid(comms[n]) then Rejected(InvalidCommR)
      else Replicas(before.infos[ids[n] := comms[n]])
  }

  /** Null pointers are refused, a buffer that is no multiple of 32 bytes is read past its end,
      and a differing number of ids and commitments is refused; otherwise all pairs are
      inserted. */
  method ToPublicReplicaInfoMap(ids: seq<U64>, idsNull: bool, bytes: seq<Byte>, bytesNull: bool, valid: CommR -> bool)
    returns (r: Built)
    ensures r == Rejected(NullPointer) <==> idsNull || bytesNull
    ensures r == OutOfBounds <==> !idsNull && !bytesNull && |bytes| % COMMITMENT_LEN != 0
    ensures r == Rejected(LengthMismatch) <==>
      !idsNull && !bytesNull && |bytes| % COMMITMENT_LEN == 0 && 32 * |ids| != |bytes|
    ensures !idsNull && !bytesNull && 32 * |ids| == |bytes| ==>
      forall comms: seq<CommR> :: IsChunks(comms, bytes) ==> r == Inserted(ids, comms, valid)
  {
    if idsNull || bytesNull {
      return Rejected(NullPointer);
    }
    var comms, inBounds := IntoCommitments(bytes);
    if !inBounds {
      return OutOfBounds;
    }
    if |ids| != |comms| {
      return Rejected(LengthMismatch);
    }
    ChunksUnique(comms, bytes);
    var m: map<U64, CommR> := map[];
    assert ids[..0] == [] && comms[..0] == [];
    for i := 0 to |ids|
      invariant Inserted(ids[..i], comms[..i], valid) == Replicas(m)
    {
      assert ids[..i + 1][..i] == ids[..i] && comms[..i + 1][..i] == comms[..i];
      if !valid(comms[i]) {
        InsertedRejects(ids, comms, valid, i);
        return Rejected(InvalidCommR);
      }
      m := m[ids[i] := comms[i]];
    }
    assert ids[..|ids|] == ids && comms[..|ids|] == comms;
    r := Replicas(m);
  }

  ghost predicate IsChunks(comms: seq<CommR>, bytes: seq<Byte>) {
    && 32 * |comms| == |bytes|
    && forall i :: 0 <= i < |comms| ==> comms[i] == bytes[32 * i..32 * (i + 1)]
  }

  lemma ChunksUnique(comms: seq<CommR>, bytes: seq<Byte>)
    requires IsChunks(comms, bytes)
    ensures forall other: seq<CommR> :: IsChunks(other, bytes) ==> other == comms
  {
  }

  /** The loop rejects exactly when some commitment fails the check. */
  lemma {:induction false} InsertedRejects(ids: seq<U64>, comms: seq<CommR>, valid: CommR -> bool, i: nat)
    requires |ids| == |comms| && i < |comms| && !valid(comms[i])
    ensures Inserted(ids, comms, valid) == Rejected(InvalidCommR)
    decreases |ids|
  {
    var n := |ids| - 1;
    OnlyInvalid(ids[..n], comms[..n], valid);
    if i < n { InsertedRejects(ids[..n], comms[..n], valid, i); }
  }

  lemma {:induction false} OnlyInvalid(ids: seq<U64>, comms: seq<CommR>, valid: CommR -> bool)
    requires |ids| == |comms|
    ensures Inserted(ids, comms, valid).Replicas? || Inserted(ids, comms, valid) == Rejected(InvalidCommR)
    decreases |ids|
  {
    if ids != [] { OnlyInvalid(ids[..|ids| - 1], comms[..|ids| - 1], valid); }
  }

  // --------------------------------------------------------- order independence

  /** Each sector id that occurs is mapped to its lexicographically greatest commitment. */
  ghost predicate IsGreatest(m: map<U64, CommR>, infos: seq<SectorInfo>) {
    && (forall id :: id in m <==> exists c :: SectorInfo(id, c) in infos)
    && (forall id :: id in m ==> SectorInfo(id, m[id]) in infos)
    && (forall x :: x in infos ==> x.sectorID in m && Compare(x.commR, m[x.sectorID]) != 1)
  }

  lemma GreatestUnique(m: map<U64, CommR>, k: map<U64, CommR>, infos: seq<SectorInfo>)
    requires IsGreatest(m, infos) && IsGreatest(k, infos)
    ensures m == k
  {
    forall id | id in m ensures id in k && m[id] == k[id] {
      var x, y := SectorInfo(id, m[id]), SectorInfo(id, k[id]);
      assert x in infos && y in infos;
      CompareAntisymmetric(m[id], k[id]);
      CompareEqual(m[id], k[id]);
    }
  }

  /** Inserting in ascending order of commitment keeps the greatest of each sector. */
  lemma {:induction false} InsertedGreatest(s: seq<SectorInfo>, valid: CommR -> bool)
    requires SortedByCommR(s) && forall x :: x in s ==> valid(x.commR)
    ensures Inserted(Ids(s), Comms(s), valid).Replicas?
    ensures IsGreatest(Inserted(Ids(s), Comms(s), valid).infos, s)
    decreases |s|
  {
    if s != [] {
      var n := |s| - 1;
      var init, last := s[..n], s[n];
      assert s == init + [last];
      assert Ids(s)[..n] == Ids(init) && Comms(s)[..n] == Comms(init);
      InsertedGreatest(init, valid);
      assert last in s;
      var m := Inserted(Ids(init), Comms(init), valid).infos;
      GreatestSnoc(m, init, last);
    }
  }

  lemma GreatestSnoc(m: map<U64, CommR>, init: seq<SectorInfo>, last: SectorInfo)
    requires IsGreatest(m, init) && SortedByCommR(init + [last])
    ensures IsGreatest(m[last.sectorID := last.commR], init + [last])
  {
    var s, k := init + [last], m[last.sectorID := last.commR];
    forall x | x in s ensures x.sectorID in k && Compare(x.commR, k[x.sectorID]) != 1 {
      CompareAntisymmetric(x.commR, last.commR);
      CompareEqual(last.commR, last.commR);
      if x in init && x.sectorID == last.sectorID {
        var i :| 0 <= i < |init| && init[i] == x;
        assert s[i] == x && s[|init|] == last;
      }
    }
    forall id ensures id in k <==> exists c :: SectorInfo(id, c) in s {
      if id == last.sectorID {
        assert SectorInfo(id, last.commR) == last && last in s;
      } else if id in m {
        assert SectorInfo(id, m[id]) in s;
      }
    }
  }

  lemma IsGreatestOfMultiset(m: map<U64, CommR>, s: seq<SectorInfo>, t: seq<SectorInfo>)
    requires IsGreatest(m, s) && multiset(s) == multiset(t)
    ensures IsGreatest(m, t)
  {
    forall x ensures x in s <==> x in t {
      assert x in s <==> x in multiset(s);
      assert x in t <==> x in multiset(t);
    }
  }

  /** What the whole path yields for a sorted list: flatten, split, insert. */
  function Path(s: seq<SectorInfo>, valid: CommR -> bool): Built {
    Inserted(Ids(s), Comms(s), valid)
  }

  /** The commitments Rust recovers from the flattened buffer are the ones Go put in. */
  lemma ChunksOfFlat(s: seq<SectorInfo>)
    ensures IsChunks(Comms(s), Flat(s))
  {
    forall i | 0 <= i < |s| ensures Comms(s)[i] == Flat(s)[32 * i..32 * (i + 1)] {
      FlatChunk(s, i);
    }
  }

  /** For every input and every outcome of the unstable sort, the path yields the map from
      each sector id to its greatest commitment, unless some commitment is invalid; then it
      yields an error. */
  lemma ReplicaMapExact(input: seq<SectorInfo>, out: seq<SectorInfo>, valid: CommR -> bool)
    requires IsSortOf(out, input)
    ensures Path(out, valid).Replicas? <==> forall x :: x in input ==> valid(x.commR)
    ensures Path(out, valid).Replicas? ==> IsGreatest(Path(out, valid).infos, input)
    ensures Path(out, valid).Replicas? || Path(out, valid) == Rejected(InvalidCommR)
  {
    forall x ensures x in out <==> x in input {
      assert x in out <==> x in multiset(out);
      assert x in input <==> x in multiset(input);
    }
    OnlyInvalid(Ids(out), Comms(out), valid);
    if forall x :: x in input ==> valid(x.commR) {
      InsertedGreatest(out, valid);
      IsGreatestOfMultiset(Path(out, valid).infos, out, input);
    } else {
      var x :| x in input && !valid(x.commR);
      assert x in out;
      var i :| 0 <= i < |out| && out[i] == x;
      InsertedRejects(Ids(out), Comms(out), valid, i);
    }
  }

  /** Order independence: permuting the input, and whatever the sort does with equal
      commitments, changes nothing. */
  lemma OrderIndependent(a: seq<SectorInfo>, b: seq<SectorInfo>, sortedA: seq<SectorInfo>,
                         sortedB: seq<SectorInfo>, valid: CommR -> bool)
    requires multiset(a) == multiset(b) && IsSortOf(sortedA, a) && IsSortOf(sortedB, b)
    ensures Path(sortedA, valid) == Path(sortedB, valid)
  {
    ReplicaMapExact(a, sortedA, valid);
    assert IsSortOf(sortedB, a);
    ReplicaMapExact(a, sortedB, valid);
    if Path(sortedA, valid).Replicas? {
      GreatestUnique(Path(sortedA, valid).infos, Path(sortedB, valid).infos, a);
    }
  }

  /** From Go to Rust in one go. */
  method VerifyPoStInputs(sorted: seq<SectorInfo>, valid: CommR -> bool) returns (r: Built)
    ensures r == Path(sorted, valid)
  {
    var ids, flattened := Flatten(sorted);
    ChunksOfFlat(sorted);
    r := ToPublicReplicaInfoMap(ids[..], false, flattened[..], false, valid);
  }
}
