/** The store-only ZIP32 records, their encoders, and the archive they make up in one shot. */
module ZipFormat {
  import opened Bytes
  import opened ZipPlan
  import Crc32

  /** Upper bound of member sizes, offsets, and the encoded archive. */
  const ZIP32_MAX_VALUE := 0xFFFF_FFFF

  const LOCAL_SIGNATURE := 0x0403_4B50
  const DESCRIPTOR_SIGNATURE := 0x0807_4B50
  const CENTRAL_SIGNATURE := 0x0201_4B50
  const END_SIGNATURE := 0x0605_4B50

  const SLASH: byte := 47
  const BACKSLASH: byte := 92
  const DOT: byte := 46

  /** One archive entry: the UTF-8 bytes of its path and its payload size. */
  datatype Member = Member(name: bytes, size: int)

  datatype ZipFailure =
    | LimitExceeded
    | UnsafePath
    | NameTooLong
    | InvalidSize
    | InvalidLimits
    | InvalidRange
    | BadCursor
    | SourceThrew(code: nat)

  // ---- Names ----

  function Segments(name: bytes): (parts: seq<bytes>)
    ensures |parts| > 0
  {
    if name == [] then [[]]
    else
      var rest := Segments(name[1..]);
      if name[0] == SLASH then [[]] + rest else [[name[0]] + rest[0]] + rest[1..]
  }

  predicate SafeSegment(part: bytes) {
    part != [] && part != [DOT] && part != [DOT, DOT]
  }

  function CheckName(name: bytes): (failure: Option<ZipFailure>)
  {
    if name == [] || name[0] == SLASH || BACKSLASH in name || exists part | part in Segments(name) :: !SafeSegment(part)
    then Some(UnsafePath)
    else if |name| > 0xFFFF then Some(NameTooLong)
    else None
  }

  predicate SafeName(name: bytes) {
    CheckName(name).None?
  }

  predicate ValidMember(m: Member) {
    SafeName(m.name) && 0 <= m.size <= ZIP32_MAX_VALUE
  }

  predicate ValidMembers(members: seq<Member>) {
    forall m | m in members :: ValidMember(m)
  }

  // ---- Records ----

  function LocalHeader(m: Member): (r: bytes)
    requires m.size >= 0
    ensures |r| == 30 + |m.name|
  {
    LE32(LOCAL_SIGNATURE) + LE16(20) + LE16(0x0808) + LE16(0) + LE16(0) + LE16(0x0021)
    + LE32(0) + LE32(m.size) + LE32(m.size) + LE16(|m.name|) + LE16(0) + m.name
  }

  function DataDescriptor(crc: bv32, size: nat): (r: bytes)
    ensures |r| == 16
  {
    LE32(DESCRIPTOR_SIGNATURE) + LE32(crc as int) + LE32(size) + LE32(size)
  }

  /** Signature, versions, flags, stored method, and the fixed time stamp of a central record. */
  function CentralFixed(): (r: bytes)
    ensures |r| == 16
  {
    LE32(CENTRAL_SIGNATURE) + LE16(20) + LE16(20) + LE16(0x0808) + LE16(0) + LE16(0) + LE16(0x0021)
  }

  function CentralHeader(m: Member, entry: DirectoryEntry): (r: bytes)
    requires m.size >= 0
    ensures |r| == 46 + |m.name|
  {
    CentralFixed() + LE32(entry.crc as int) + LE32(m.size) + LE32(m.size) + LE16(|m.name|)
    + LE32(0) + LE32(0) + LE32(0) + LE32(entry.offset) + m.name
  }

  function EndRecord(count: nat, offset: nat, size: nat): (r: bytes)
    ensures |r| == 22
  {
    LE32(END_SIGNATURE) + LE32(0) + LE16(count) + LE16(count) + LE32(size) + LE32(offset) + LE16(0)
  }

  // ---- Encoders: fields stored in order into a zeroed buffer ----

  function Zeros(n: nat): (r: bytes)
    ensures |r| == n
  {
    seq(n, _ => 0)
  }

  /** The buffer holds `prefix` and zeros after it. */
  ghost predicate Filled(view: array<byte>, prefix: bytes)
    reads view
  {
    |prefix| <= view.Length && view[..] == prefix + Zeros(view.Length - |prefix|)
  }

  /** Fields never stored keep the zeros the buffer was created with. */
  lemma ZeroField(view: array<byte>, prefix: bytes, field: bytes)
    requires Filled(view, prefix)
    requires |prefix| + |field| <= view.Length && field == Zeros(|field|)
    ensures Filled(view, prefix + field)
  {
  }

  method PutUint16(view: array<byte>, at: nat, value: nat, ghost prefix: bytes)
    requires at == |prefix| && at + 2 <= view.Length && Filled(view, prefix)
    modifies view
    ensures Filled(view, prefix + LE16(value))
  {
    var r := LE16(value);
    view[at], view[at + 1] := r[0], r[1];
  }

  method PutUint32(view: array<byte>, at: nat, value: nat, ghost prefix: bytes)
    requires at == |prefix| && at + 4 <= view.Length && Filled(view, prefix)
    modifies view
    ensures Filled(view, prefix + LE32(value))
  {
    var r := LE32(value);
    view[at], view[at + 1], view[at + 2], view[at + 3] := r[0], r[1], r[2], r[3];
  }

  method PutBytes(view: array<byte>, at: nat, value: bytes, ghost prefix: bytes)
    requires at == |prefix| && at + |value| <= view.Length && Filled(view, prefix)
    modifies view
    ensures Filled(view, prefix + value)
  {
    forall i | 0 <= i < |value| {
      view[at + i] := value[i];
    }
  }

  method PutSignature(view: array<byte>, value: nat)
    requires 4 <= view.Length && Filled(view, [])
    modifies view
    ensures Filled(view, LE32(value))
  {
    PutUint32(view, 0, value, []);
    assert [] + LE32(value) == LE32(value);
  }

  method Finish(view: array<byte>, ghost content: bytes) returns (r: bytes)
    requires Filled(view, content) && |content| == view.Length
    ensures r == content
  {
    r := view[..];
  }

  method EncodeLocalHeader(m: Member) returns (r: bytes)
    requires ValidMember(m)
    ensures r == LocalHeader(m)
  {
    var view := new byte[30 + |m.name|](_ => 0);
    ghost var p := LE32(LOCAL_SIGNATURE);
    PutSignature(view, LOCAL_SIGNATURE);
    PutUint16(view, 4, 20, p); p := p + LE16(20);
    PutUint16(view, 6, 0x0808, p); p := p + LE16(0x0808);
    PutUint16(view, 8, 0, p); p := p + LE16(0);
    PutUint16(view, 10, 0, p); p := p + LE16(0);
    PutUint16(view, 12, 0x0021, p); p := p + LE16(0x0021);
    ZeroField(view, p, LE32(0)); p := p + LE32(0);
    PutUint32(view, 18, m.size, p); p := p + LE32(m.size);
    PutUint32(view, 22, m.size, p); p := p + LE32(m.size);
    PutUint16(view, 26, |m.name|, p); p := p + LE16(|m.name|);
    ZeroField(view, p, LE16(0)); p := p + LE16(0);
    PutBytes(view, 30, m.name, p); p := p + m.name;
    r := Finish(view, p);
  }

  method EncodeDataDescriptor(crc: bv32, size: nat) returns (r: bytes)
    ensures r == DataDescriptor(crc, size)
  {
    var view := new byte[16](_ => 0);
    ghost var p := LE32(DESCRIPTOR_SIGNATURE);
    PutSignature(view, DESCRIPTOR_SIGNATURE);
    PutUint32(view, 4, crc as int, p); p := p + LE32(crc as int);
    PutUint32(view, 8, size, p); p := p + LE32(size);
    PutUint32(view, 12, size, p); p := p + LE32(size);
    r := Finish(view, p);
  }

  method PutCentralFixed(view: array<byte>)
    requires 46 <= view.Length && Filled(view, [])
    modifies view
    ensures Filled(view, CentralFixed())
  {
    ghost var p := LE32(CENTRAL_SIGNATURE);
    PutSignature(view, CENTRAL_SIGNATURE);
    PutUint16(view, 4, 20, p); p := p + LE16(20);
    PutUint16(view, 6, 20, p); p := p + LE16(20);
    PutUint16(view, 8, 0x0808, p); p := p + LE16(0x0808);
    PutUint16(view, 10, 0, p); p := p + LE16(0);
    PutUint16(view, 12, 0, p); p := p + LE16(0);
    PutUint16(view, 14, 0x0021, p);
  }

  method EncodeCentralHeader(m: Member, entry: DirectoryEntry) returns (r: bytes)
    requires ValidMember(m)
    ensures r == CentralHeader(m, entry)
  {
    var view := new byte[46 + |m.name|](_ => 0);
    PutCentralFixed(view);
    ghost var p := CentralFixed();
    PutUint32(view, 16, entry.crc as int, p); p := p + LE32(entry.crc as int);
    PutUint32(view, 20, m.size, p); p := p + LE32(m.size);
    PutUint32(view, 24, m.size, p); p := p + LE32(m.size);
    PutUint16(view, 28, |m.name|, p); p := p + LE16(|m.name|);
    ZeroField(view, p, LE32(0)); p := p + LE32(0);
    ZeroField(view, p, LE32(0)); p := p + LE32(0);
    ZeroField(view, p, LE32(0)); p := p + LE32(0);
    PutUint32(view, 42, entry.offset, p); p := p + LE32(entry.offset);
    PutBytes(view, 46, m.name, p); p := p + m.name;
    r := Finish(view, p);
  }

  method EncodeEndRecord(count: nat, offset: nat, size: nat) returns (r: bytes)
    ensures r == EndRecord(count, offset, size)
  {
    var view := new byte[22](_ => 0);
    ghost var p := LE32(END_SIGNATURE);
    PutSignature(view, END_SIGNATURE);
    ZeroField(view, p, LE32(0)); p := p + LE32(0);
    PutUint16(view, 8, count, p); p := p + LE16(count);
    PutUint16(view, 10, count, p); p := p + LE16(count);
    PutUint32(view, 12, size, p); p := p + LE32(size);
    PutUint32(view, 16, offset, p); p := p + LE32(offset);
    ZeroField(view, p, LE16(0)); p := p + LE16(0);
    r := Finish(view, p);
  }

  // ---- The archive in one shot ----

  /** Every member has a payload of its declared size. */
  ghost predicate Matches(members: seq<Member>, payloads: seq<bytes>) {
    |members| == |payloads| && forall i :: 0 <= i < |members| ==> members[i].size == |payloads[i]|
  }

  function Headers(members: seq<Member>): seq<bytes>
    requires forall m | m in members :: m.size >= 0
  {
    seq(|members|, i requires 0 <= i < |members| => LocalHeader(members[i]))
  }

  function Descriptors(payloads: seq<bytes>): seq<bytes> {
    seq(|payloads|, i requires 0 <= i < |payloads| => DataDescriptor(Crc32.Checksum(payloads[i]), |payloads[i]|))
  }

  /** The pieces of the reference archive that come before the central directory. */
  ghost function LocalPlan(members: seq<Member>, payloads: seq<bytes>): (p: Plan)
    requires Matches(members, payloads)
  {
    Plan(Headers(members), payloads, Descriptors(payloads),
         seq(|payloads|, i => DirectoryEntry(0, 0)), seq(|payloads|, i => []), [])
  }

  ghost function EntryOf(members: seq<Member>, payloads: seq<bytes>, i: nat): DirectoryEntry
    requires Matches(members, payloads) && i < |members|
  {
    DirectoryEntry(Crc32.Checksum(payloads[i]), |LocalSection(LocalPlan(members, payloads), i)|)
  }

  ghost function Entries(members: seq<Member>, payloads: seq<bytes>): seq<DirectoryEntry>
    requires Matches(members, payloads)
  {
    seq(|members|, i requires 0 <= i < |members| => EntryOf(members, payloads, i))
  }

  ghost function Centrals(members: seq<Member>, payloads: seq<bytes>): seq<bytes>
    requires Matches(members, payloads)
  {
    seq(|members|, i requires 0 <= i < |members| => CentralHeader(members[i], EntryOf(members, payloads, i)))
  }

  /** The reference archive of all members: local records, central directory, end record. */
  ghost function PlanOf(members: seq<Member>, payloads: seq<bytes>): (p: Plan)
    requires Matches(members, payloads)
    ensures WellFormed(p) && p.payloads == payloads
  {
    var centrals := Centrals(members, payloads);
    var local := LocalSection(LocalPlan(members, payloads), |members|);
    Plan(Headers(members), payloads, Descriptors(payloads), Entries(members, payloads), centrals,
         EndRecord(|members|, |local|, |Flatten(centrals)|))
  }

  ghost function Archive(members: seq<Member>, payloads: seq<bytes>): bytes
    requires Matches(members, payloads)
  {
    Whole(PlanOf(members, payloads))
  }

  /** The exact encoded size, from the member list alone. */
  function EncodedSize(members: seq<Member>): int
  {
    if members == [] then 22
    else EncodedSize(members[..|members| - 1]) + MemberCost(members[|members| - 1])
  }

  function MemberCost(m: Member): int {
    30 + |m.name| + m.size + 16 + 46 + |m.name|
  }

  lemma {:induction false} EncodedSizeGrows(members: seq<Member>, k: nat)
    requires ValidMembers(members) && k <= |members|
    ensures 22 <= EncodedSize(members[..k]) <= EncodedSize(members)
    decreases |members|
  {
    if k < |members| {
      var front := members[..|members| - 1];
      assert front[..k] == members[..k];
      assert ValidMember(members[|members| - 1]);
      EncodedSizeGrows(front, k);
    } else {
      assert members[..k] == members;
      if members != [] {
        assert ValidMember(members[|members| - 1]);
        EncodedSizeGrows(members[..|members| - 1], |members| - 1);
        assert members[..|members| - 1][..|members| - 1] == members[..|members| - 1];
      }
    }
  }

  /** Entries and offsets do not depend on the central directory they are later stored in. */
  lemma SameLocalSection(members: seq<Member>, payloads: seq<bytes>, k: nat)
    requires Matches(members, payloads) && k <= |members|
    ensures LocalSection(PlanOf(members, payloads), k) == LocalSection(LocalPlan(members, payloads), k)
  {
    assert LocalParts(PlanOf(members, payloads)) == LocalParts(LocalPlan(members, payloads));
  }

  /** What one member contributes to a plan. */
  ghost predicate PieceOf(p: Plan, m: Member, i: nat)
    requires WellFormed(p) && i < |p.payloads|
  {
    && m.size == |p.payloads[i]|
    && p.headers[i] == LocalHeader(m)
    && p.descriptors[i] == DataDescriptor(Crc32.Checksum(p.payloads[i]), m.size)
    && p.entries[i] == DirectoryEntry(Crc32.Checksum(p.payloads[i]), |LocalSection(p, i)|)
    && p.centrals[i] == CentralHeader(m, p.entries[i])
  }

  /** The plan is the layout of these members. */
  ghost predicate Describes(p: Plan, members: seq<Member>) {
    && WellFormed(p)
    && |p.payloads| == |members|
    && (forall i: nat :: i < |members| ==> PieceOf(p, members[i], i))
    && p.end == EndRecord(|members|, |LocalSection(p, |members|)|, |CentralSection(p, |members|)|)
  }

  lemma PlanDescribes(members: seq<Member>, payloads: seq<bytes>)
    requires Matches(members, payloads)
    ensures Describes(PlanOf(members, payloads), members)
  {
    var p := PlanOf(members, payloads);
    forall i: nat | i < |members|
      ensures PieceOf(p, members[i], i)
    {
      SameLocalSection(members, payloads, i);
    }
    SameLocalSection(members, payloads, |members|);
    assert p.centrals[..|members|] == p.centrals;
  }

  lemma {:induction false} SectionSizes(members: seq<Member>, p: Plan, k: nat)
    requires Describes(p, members) && k <= |members|
    ensures |LocalSection(p, k)| + |CentralSection(p, k)| + 22 == EncodedSize(members[..k])
    decreases k
  {
    if k > 0 {
      SectionSizes(members, p, k - 1);
      assert PieceOf(p, members[k - 1], k - 1);
      LocalSectionStep(p, k - 1);
      CentralSectionStep(p, k - 1);
      assert members[..k][..k - 1] == members[..k - 1];
    }
  }

  /** The archive is exactly as long as the bound computed before any payload is read. */
  lemma WholeSize(members: seq<Member>, p: Plan)
    requires Describes(p, members)
    ensures |Whole(p)| == EncodedSize(members)
  {
    SectionSizes(members, p, |members|);
    assert members[..|members|] == members;
  }

  lemma ArchiveSize(members: seq<Member>, payloads: seq<bytes>)
    requires Matches(members, payloads)
    ensures |Archive(members, payloads)| == EncodedSize(members)
  {
    PlanDescribes(members, payloads);
    WholeSize(members, PlanOf(members, payloads));
  }
}
