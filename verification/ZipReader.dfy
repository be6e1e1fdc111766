/** An independent archive reader: end record, then central directory, then each stored offset. */
module ZipReader {
  import opened Bytes
  import opened ZipPlan
  import opened ZipFormat
  import opened ZipWriter
  import Crc32

  /** One recovered member. */
  datatype Extracted = Extracted(name: bytes, size: nat, crc: nat, payload: bytes)

  /** The part of `a` from `at`, `n` bytes long, if it is there. */
  predicate Has(a: bytes, at: nat, n: nat) {
    at + n <= |a|
  }

  function Field16(a: bytes, at: nat): nat
    requires Has(a, at, 2)
  {
    U16(a[at..at + 2])
  }

  function Field32(a: bytes, at: nat): nat
    requires Has(a, at, 4)
  {
    U32(a[at..at + 4])
  }

  /** Follows one stored offset to the payload and checks its signature, name, and checksum. */
  function ReadMember(a: bytes, offset: nat, name: bytes, crc: nat, size: nat): Option<Extracted> {
    if !Has(a, offset, 30) || Field32(a, offset) != LOCAL_SIGNATURE then None
    else
      var nameLength, extraLength := Field16(a, offset + 26), Field16(a, offset + 28);
      var start := offset + 30 + nameLength + extraLength;
      if !Has(a, start, size) || a[offset + 30..offset + 30 + nameLength] != name then None
      else
        var payload := a[start..start + size];
        if Crc32.Checksum(payload) as int != crc then None else Some(Extracted(name, size, crc, payload))
  }

  /** Walks `count` central-directory records from `at`, which must end exactly at `limit`. */
  function ReadDirectory(a: bytes, at: nat, limit: nat, count: nat): Option<seq<Extracted>>
    decreases count
  {
    if count == 0 then
      if at == limit then Some([]) else None
    else if !Has(a, at, 46) || Field32(a, at) != CENTRAL_SIGNATURE then None
    else
      var nameLength := Field16(a, at + 28);
      var trailing := Field16(a, at + 30) + Field16(a, at + 32);
      if !Has(a, at + 46, nameLength) then None
      else
        var member := ReadMember(a, Field32(a, at + 42), a[at + 46..at + 46 + nameLength],
                                 Field32(a, at + 16), Field32(a, at + 24));
        var rest := ReadDirectory(a, at + 46 + nameLength + trailing, limit, count - 1);
        if member.None? || rest.None? then None else Some([member.value] + rest.value)
  }

  function ReadArchive(a: bytes): Option<seq<Extracted>> {
    if |a| < 22 || Field32(a, |a| - 22) != END_SIGNATURE then None
    else
      var end := |a| - 22;
      var size, offset := Field32(a, end + 12), Field32(a, end + 16);
      ReadDirectory(a, offset, offset + size, Field16(a, end + 10))
  }

  /** What a reader must recover for member `i`. */
  function Expected(p: Plan, members: seq<Member>, i: nat): Extracted
    requires |members| == |p.payloads| && i < |members|
  {
    Extracted(members[i].name, |p.payloads[i]|, Crc32.Checksum(p.payloads[i]) as int, p.payloads[i])
  }

  function AllExpected(p: Plan, members: seq<Member>, from: nat): seq<Extracted>
    requires |members| == |p.payloads| && from <= |members|
    decreases |members| - from
  {
    if from == |members| then [] else [Expected(p, members, from)] + AllExpected(p, members, from + 1)
  }

  // ---- Fields of placed records ----

  /** `r` stands in `a` at `at`. */
  ghost predicate At(a: bytes, at: nat, r: bytes) {
    at + |r| <= |a| && a[at..at + |r|] == r
  }

  lemma FieldOfPlaced(a: bytes, at: nat, r: bytes, k: nat, n: nat)
    requires At(a, at, r) && k + n <= |r|
    ensures at + k + n <= |a| && a[at + k..at + k + n] == r[k..k + n]
  {
    var placed := a[at..at + |r|];
    var left, right := a[at + k..at + k + n], placed[k..k + n];
    forall i | 0 <= i < n
      ensures left[i] == right[i]
    {
    }
    assert a[at + k..at + k + n] == placed[k..k + n];
  }

  lemma ReadsField32(a: bytes, at: nat, r: bytes, k: nat, value: nat)
    requires At(a, at, r) && k + 4 <= |r| && r[k..k + 4] == LE32(value) && value < UINT32_LIMIT
    ensures Has(a, at + k, 4) && Field32(a, at + k) == value
  {
    FieldOfPlaced(a, at, r, k, 4);
    U32OfLE32(value);
  }

  lemma ReadsField16(a: bytes, at: nat, r: bytes, k: nat, value: nat)
    requires At(a, at, r) && k + 2 <= |r| && r[k..k + 2] == LE16(value) && value < UINT16_LIMIT
    ensures Has(a, at + k, 2) && Field16(a, at + k) == value
  {
    FieldOfPlaced(a, at, r, k, 2);
    U16OfLE16(value);
  }

  lemma PlacedSplits(a: bytes, at: nat, left: bytes, right: bytes)
    requires At(a, at, left + right)
    ensures At(a, at, left) && At(a, at + |left|, right)
  {
    FieldOfPlaced(a, at, left + right, 0, |left|);
    FieldOfPlaced(a, at, left + right, |left|, |right|);
    assert (left + right)[0..|left|] == left && (left + right)[|left|..|left| + |right|] == right;
  }

  lemma PrefixIsPlaced(a: bytes, front: bytes, r: bytes)
    requires front + r <= a
    ensures At(a, |front|, r)
  {
    assert a[..|front + r|] == front + r;
    assert a[|front|..|front| + |r|] == a[..|front + r|][|front|..];
  }

  lemma LocalHeaderFields(m: Member)
    requires ValidMember(m)
    ensures var r := LocalHeader(m);
            && r[0..4] == LE32(LOCAL_SIGNATURE)
            && r[26..28] == LE16(|m.name|)
            && r[28..30] == LE16(0)
            && r[30..30 + |m.name|] == m.name
  {
  }

  lemma CentralHeaderFields(m: Member, e: DirectoryEntry)
    requires ValidMember(m)
    ensures var r := CentralHeader(m, e);
            && r[0..4] == LE32(CENTRAL_SIGNATURE)
            && r[16..20] == LE32(e.crc as int)
            && r[24..28] == LE32(m.size)
            && r[28..30] == LE16(|m.name|)
            && r[30..32] == LE16(0)
            && r[32..34] == LE16(0)
            && r[42..46] == LE32(e.offset)
            && r[46..46 + |m.name|] == m.name
  {
  }

  lemma EndRecordFields(count: nat, offset: nat, size: nat)
    ensures var r := EndRecord(count, offset, size);
            && r[0..4] == LE32(END_SIGNATURE)
            && r[10..12] == LE16(count)
            && r[12..16] == LE32(size)
            && r[16..20] == LE32(offset)
  {
  }

  lemma NameFits(m: Member)
    requires ValidMember(m)
    ensures |m.name| < UINT16_LIMIT && 0 <= m.size < UINT32_LIMIT
  {
  }

  /** A local header placed in the archive reads back its name length and name. */
  lemma ReadsLocalHeader(a: bytes, at: nat, m: Member)
    requires ValidMember(m) && At(a, at, LocalHeader(m))
    ensures Has(a, at, 30 + |m.name|)
    ensures Field32(a, at) == LOCAL_SIGNATURE
    ensures Field16(a, at + 26) == |m.name| && Field16(a, at + 28) == 0
    ensures a[at + 30..at + 30 + |m.name|] == m.name
  {
    hide LocalHeader, LE16, LE32, Field16, Field32, At;
    var r := LocalHeader(m);
    NameFits(m);
    LocalHeaderFields(m);
    ReadsField32(a, at, r, 0, LOCAL_SIGNATURE);
    ReadsField16(a, at, r, 26, |m.name|);
    ReadsField16(a, at, r, 28, 0);
    FieldOfPlaced(a, at, r, 30, |m.name|);
  }

  /** A central record placed in the archive reads back the evidence it was built from. */
  lemma ReadsCentralHeader(a: bytes, at: nat, m: Member, e: DirectoryEntry)
    requires ValidMember(m) && At(a, at, CentralHeader(m, e)) && e.offset < UINT32_LIMIT
    ensures Has(a, at, 46 + |m.name|)
    ensures Field32(a, at) == CENTRAL_SIGNATURE
    ensures Field32(a, at + 16) == e.crc as int && Field32(a, at + 24) == m.size && Field32(a, at + 42) == e.offset
    ensures Field16(a, at + 28) == |m.name| && Field16(a, at + 30) == 0 && Field16(a, at + 32) == 0
    ensures a[at + 46..at + 46 + |m.name|] == m.name
  {
    hide CentralHeader, LE16, LE32, Field16, Field32, At;
    var r := CentralHeader(m, e);
    NameFits(m);
    CentralHeaderFields(m, e);
    ReadsField32(a, at, r, 0, CENTRAL_SIGNATURE);
    ReadsField32(a, at, r, 16, e.crc as int);
    ReadsField32(a, at, r, 24, m.size);
    ReadsField16(a, at, r, 28, |m.name|);
    ReadsField16(a, at, r, 30, 0);
    ReadsField16(a, at, r, 32, 0);
    ReadsField32(a, at, r, 42, e.offset);
    FieldOfPlaced(a, at, r, 46, |m.name|);
  }

  lemma ReadsEndRecord(a: bytes, count: nat, offset: nat, size: nat)
    requires |a| >= 22 && At(a, |a| - 22, EndRecord(count, offset, size))
    requires count < UINT16_LIMIT && offset < UINT32_LIMIT && size < UINT32_LIMIT
    ensures ReadArchive(a) == ReadDirectory(a, offset, offset + size, count)
  {
    hide EndRecord, LE16, LE32, Field16, Field32, At, ReadDirectory;
    var r, at := EndRecord(count, offset, size), |a| - 22;
    EndRecordFields(count, offset, size);
    ReadsField32(a, at, r, 0, END_SIGNATURE);
    ReadsField16(a, at, r, 10, count);
    ReadsField32(a, at, r, 12, size);
    ReadsField32(a, at, r, 16, offset);
  }

  // ---- The round trip ----

  lemma LocalPartIsPlaced(p: Plan, i: nat)
    requires WellFormed(p) && i < |p.payloads|
    ensures At(Whole(p), |LocalSection(p, i)|, p.headers[i])
    ensures At(Whole(p), |LocalSection(p, i)| + |p.headers[i]|, p.payloads[i])
  {
    var a, at := Whole(p), |LocalSection(p, i)|;
    LocalSectionStep(p, i);
    LocalSectionGrows(p, i + 1, |p.payloads|);
    PrefixOfWhole(p, LocalSection(p, i + 1));
    PrefixIsPlaced(a, LocalSection(p, i), LocalPart(p, i));
    PlacedSplits(a, at, p.headers[i] + p.payloads[i], p.descriptors[i]);
    PlacedSplits(a, at, p.headers[i], p.payloads[i]);
  }

  lemma PrefixOfWhole(p: Plan, front: bytes)
    requires WellFormed(p) && front <= LocalSection(p, |p.payloads|)
    ensures front <= Whole(p)
  {
  }

  lemma CentralPartIsPlaced(p: Plan, i: nat)
    requires WellFormed(p) && i < |p.payloads|
    ensures At(Whole(p), |LocalSection(p, |p.payloads|)| + |CentralSection(p, i)|, p.centrals[i])
  {
    var local, central := LocalSection(p, |p.payloads|), CentralSection(p, |p.payloads|);
    CentralSectionStep(p, i);
    CentralSectionGrows(p, i + 1, |p.payloads|);
    assert local + CentralSection(p, i + 1) <= local + central <= Whole(p);
    assert (local + CentralSection(p, i)) + p.centrals[i] == local + CentralSection(p, i + 1);
    PrefixIsPlaced(Whole(p), local + CentralSection(p, i), p.centrals[i]);
  }

  lemma MemberReads(members: seq<Member>, p: Plan, i: nat)
    requires ValidMembers(members) && Describes(p, members) && i < |members|
    ensures ReadMember(Whole(p), p.entries[i].offset, members[i].name, p.entries[i].crc as int, members[i].size)
            == Some(Expected(p, members, i))
  {
    hide Whole, Describes, LocalHeader, ValidMember, LocalSection, Field16, Field32, Crc32.Checksum;
    PieceFacts(members, p, i);
    LocalPartIsPlaced(p, i);
    assert ValidMember(members[i]);
    ReadsLocalHeader(Whole(p), p.entries[i].offset, members[i]);
  }

  lemma PieceFacts(members: seq<Member>, p: Plan, i: nat)
    requires Describes(p, members) && i < |members|
    ensures WellFormed(p) && |p.payloads| == |members| && members[i].size == |p.payloads[i]|
    ensures p.headers[i] == LocalHeader(members[i]) && |p.headers[i]| == 30 + |members[i].name|
    ensures p.entries[i] == DirectoryEntry(Crc32.Checksum(p.payloads[i]), |LocalSection(p, i)|)
    ensures p.centrals[i] == CentralHeader(members[i], p.entries[i]) && |p.centrals[i]| == 46 + |members[i].name|
    ensures p.entries[i].offset <= |Whole(p)|
  {
    assert PieceOf(p, members[i], i);
    LocalSectionGrows(p, i, |p.payloads|);
  }

  /** One central record, wherever it stands, makes the walk recover its member. */
  lemma WalksOneRecord(members: seq<Member>, p: Plan, i: nat, at: nat, limit: nat)
    requires ValidMembers(members) && Describes(p, members) && i < |members|
    requires |Whole(p)| < UINT32_LIMIT && At(Whole(p), at, p.centrals[i])
    ensures var rest := ReadDirectory(Whole(p), at + |p.centrals[i]|, limit, |members| - i - 1);
            ReadDirectory(Whole(p), at, limit, |members| - i)
            == if rest.None? then None else Some([Expected(p, members, i)] + rest.value)
  {
    hide Whole, Describes, CentralHeader, ReadMember, ValidMember, Field16, Field32, LocalSection, Expected, At;
    PieceFacts(members, p, i);
    MemberReads(members, p, i);
    assert ValidMember(members[i]);
    ReadsCentralHeader(Whole(p), at, members[i], p.entries[i]);
  }

  lemma {:induction false} DirectoryReads(members: seq<Member>, p: Plan, start: nat, limit: nat, i: nat)
    requires ValidMembers(members) && Describes(p, members) && i <= |members|
    requires |Whole(p)| < UINT32_LIMIT
    requires start == |LocalSection(p, |members|)| && limit == start + |CentralSection(p, |members|)|
    ensures ReadDirectory(Whole(p), start + |CentralSection(p, i)|, limit, |members| - i)
            == Some(AllExpected(p, members, i))
    decreases |members| - i
  {
    hide Whole, Describes, ValidMembers, LocalSection, CentralSection, Expected, At, ReadDirectory, AllExpected;
    PlanIsWellFormed(members, p);
    if i < |members| {
      CentralPartIsPlaced(p, i);
      CentralSectionStep(p, i);
      WalksOneRecord(members, p, i, start + |CentralSection(p, i)|, limit);
      DirectoryReads(members, p, start, limit, i + 1);
      NextExpected(p, members, i);
    } else {
      WalkEnds(members, p, limit);
    }
  }

  lemma PlanIsWellFormed(members: seq<Member>, p: Plan)
    requires Describes(p, members)
    ensures WellFormed(p) && |p.payloads| == |members|
  {
  }

  lemma NextExpected(p: Plan, members: seq<Member>, i: nat)
    requires |members| == |p.payloads| && i < |members|
    ensures AllExpected(p, members, i) == [Expected(p, members, i)] + AllExpected(p, members, i + 1)
  {
  }

  lemma WalkEnds(members: seq<Member>, p: Plan, limit: nat)
    requires |members| == |p.payloads| && WellFormed(p)
    ensures ReadDirectory(Whole(p), limit, limit, 0) == Some(AllExpected(p, members, |members|))
  {
  }

  /** Round trip. Reading the finished archive recovers exactly the members' names, sizes,
      checksums and payloads, in order, for every archive the size check admits. */
  lemma ArchiveRoundTrip(members: seq<Member>, payloads: seq<bytes>)
    requires AcceptsArchive(members, ZIP32_MAX_VALUE) && Matches(members, payloads)
    ensures ReadArchive(Archive(members, payloads)) == Some(AllExpected(PlanOf(members, payloads), members, 0))
  {
    PlanDescribes(members, payloads);
    PlanRoundTrip(members, PlanOf(members, payloads));
  }

  lemma EndIsPlaced(p: Plan)
    requires WellFormed(p)
    ensures |Whole(p)| == |LocalSection(p, |p.payloads|)| + |CentralSection(p, |p.payloads|)| + |p.end|
    ensures At(Whole(p), |Whole(p)| - |p.end|, p.end)
  {
  }

  lemma PlanRoundTrip(members: seq<Member>, p: Plan)
    requires AcceptsArchive(members, ZIP32_MAX_VALUE) && Describes(p, members)
    ensures ReadArchive(Whole(p)) == Some(AllExpected(p, members, 0))
  {
    hide ReadArchive, ReadDirectory, ValidMembers, Whole, LocalSection, EncodedSize, At, AllExpected;
    WholeSize(members, p);
    EndIsPlaced(p);
    var n := |members|;
    var start, size := |LocalSection(p, n)|, |CentralSection(p, n)|;
    ReadsEndRecord(Whole(p), n, start, size);
    DirectoryReads(members, p, start, start + size, 0);
    assert CentralSection(p, 0) == [];
  }

  /** The recovered list in order: one entry for each member. */
  lemma {:induction false} ExpectedAt(p: Plan, members: seq<Member>, from: nat, i: nat)
    requires |members| == |p.payloads| && from <= i < |members|
    ensures |AllExpected(p, members, from)| == |members| - from
    ensures AllExpected(p, members, from)[i - from] == Expected(p, members, i)
    decreases |members| - from
  {
    hide Expected;
    if from + 1 < |members| {
      ExpectedAt(p, members, from + 1, if from < i then i else from + 1);
    } else {
      assert AllExpected(p, members, from + 1) == [];
    }
  }
}
