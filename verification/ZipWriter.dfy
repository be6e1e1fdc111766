/** The resumable archive writer: a persisted cursor advanced in bounded steps. */
module ZipWriter {
  import opened Bytes
  import opened ZipFormat
  import opened ZipPlan
  import Crc32

  /** Maximum source range one read may ask for. */
  const ZIP32_SOURCE_RANGE_BYTES := 65_536

  datatype Phase = Local | Data | Descriptor | Central | End | Done

  /** Everything a writer needs to continue; it is serialized between steps. */
  datatype Cursor = Cursor(
    phase: Phase,
    memberIndex: nat,
    memberOffset: nat,
    memberCrc: bv32,
    memberStart: nat,
    archiveOffset: nat,
    centralOffset: nat,
    centralIndex: nat,
    directory: seq<DirectoryEntry>,
    pendingRecord: bytes,
    pendingOffset: nat)

  datatype Limits = Limits(maxOutputBytes: int, maxSourceReads: int, maxSourceBytes: int)

  datatype Answer = Range(range: bytes) | Throws(code: nat)

  /** A member source. The first argument numbers the reads of one step, so the same range
      may be answered with different lengths at different times. */
  type Reader = (nat, nat, nat, nat) -> Answer

  datatype StepResult = StepResult(cursor: Cursor, output: bytes, sourceReads: nat, sourceBytes: nat)

  predicate ValidLimits(limits: Limits) {
    limits.maxOutputBytes >= 1 && limits.maxSourceReads >= 0 && limits.maxSourceBytes >= 0
  }

  /** A reader of the real payloads: never empty, never longer than asked, always the right bytes. */
  ghost predicate Faithful(reader: Reader, payloads: seq<bytes>) {
    forall call: nat, member: nat, offset: nat, length: nat ::
      member < |payloads| && 0 < length && offset + length <= |payloads[member]| ==>
        FaithfulAnswer(reader(call, member, offset, length), payloads[member], offset, length)
  }

  /** Whatever range this reader gives that has an acceptable length holds the right bytes;
      it may also throw, or answer with a length the writer rejects. */
  ghost predicate Truthful(reader: Reader, payloads: seq<bytes>) {
    forall call: nat, member: nat, offset: nat, length: nat ::
      member < |payloads| && 0 < length && offset + length <= |payloads[member]| ==>
        Failing(reader(call, member, offset, length), length).Some?
        || FaithfulAnswer(reader(call, member, offset, length), payloads[member], offset, length)
  }

  ghost predicate FaithfulAnswer(answer: Answer, payload: bytes, offset: nat, length: nat)
    requires offset + length <= |payload|
  {
    answer.Range? && 0 < |answer.range| <= length && answer.range == payload[offset..offset + |answer.range|]
  }

  function Failing(answer: Answer, length: nat): Option<ZipFailure> {
    match answer
    case Throws(code) => Some(SourceThrew(code))
    case Range(range) => if 0 < |range| <= length then None else Some(InvalidRange)
  }

  function StartCursor(members: seq<Member>): Cursor {
    Cursor(if members == [] then End else Local, 0, 0, Crc32.ALL_ONES, 0, 0, 0, 0, [], [], 0)
  }

  predicate AcceptsArchive(members: seq<Member>, maxArchiveBytes: int) {
    && |members| <= 0xFFFF
    && 22 <= maxArchiveBytes <= ZIP32_MAX_VALUE
    && ValidMembers(members)
    && EncodedSize(members) <= maxArchiveBytes
  }

  lemma {:induction false} PrefixSize(members: seq<Member>, k: nat)
    requires k < |members|
    ensures EncodedSize(members[..k + 1]) == EncodedSize(members[..k]) + MemberCost(members[k])
  {
    assert members[..k + 1][..k] == members[..k];
  }

  /** Validates every path and the exact encoded size before any payload is read. */
  method CreateZip32Cursor(members: seq<Member>, maxArchiveBytes: int) returns (r: Result<Cursor, ZipFailure>)
    ensures r.Success? <==> AcceptsArchive(members, maxArchiveBytes)
    ensures r.Success? ==> r.value == StartCursor(members)
    ensures r.Failure? ==> r.error in {LimitExceeded, UnsafePath, NameTooLong, InvalidSize}
    ensures r == Failure(UnsafePath) ==> exists m | m in members :: CheckName(m.name) == Some(UnsafePath)
    ensures r == Failure(NameTooLong) ==> exists m | m in members :: CheckName(m.name) == Some(NameTooLong)
    ensures r == Failure(InvalidSize) ==> exists m | m in members :: m.size < 0
  {
    if |members| > 0xFFFF || maxArchiveBytes < 22 || maxArchiveBytes > ZIP32_MAX_VALUE {
      return Failure(LimitExceeded);
    }
    var encodedSize := 22;
    for i := 0 to |members|
      invariant ValidMembers(members[..i])
      invariant encodedSize == EncodedSize(members[..i]) <= maxArchiveBytes
    {
      var m := members[i];
      PrefixSize(members, i);
      assert m in members;
      var named := CheckName(m.name);
      if named.Some? {
        return Failure(named.value);
      }
      if m.size < 0 {
        return Failure(InvalidSize);
      }
      encodedSize := encodedSize + 30 + |m.name| + m.size + 16;
      encodedSize := encodedSize + 46 + |m.name|;
      if m.size > ZIP32_MAX_VALUE || encodedSize > maxArchiveBytes {
        if ValidMembers(members) {
          EncodedSizeGrows(members, i + 1);
        }
        return Failure(LimitExceeded);
      }
      assert members[..i + 1] == members[..i] + [m];
    }
    assert members[..|members|] == members;
    return Success(StartCursor(members));
  }

  // ---- Cursor invariants ----

  function Remaining(c: Cursor): bytes
    requires c.pendingOffset <= |c.pendingRecord|
  {
    c.pendingRecord[c.pendingOffset..]
  }

  predicate Drained(c: Cursor) {
    c.pendingRecord == [] && c.pendingOffset == 0
  }

  /** Where a cursor may stand between transitions, whatever the bytes are. */
  predicate Shape(sizes: seq<int>, c: Cursor) {
    && (Drained(c) || c.pendingOffset < |c.pendingRecord|)
    && match c.phase
       case Local => c.memberIndex == |c.directory| <= |sizes| && c.centralIndex == 0
       case Data =>
         && c.memberIndex == |c.directory| < |sizes| && c.centralIndex == 0
         && c.memberOffset <= sizes[c.memberIndex]
         && (c.memberOffset > 0 ==> Drained(c))
       case Descriptor =>
         && c.memberIndex == |c.directory| < |sizes| && c.centralIndex == 0
         && c.memberOffset == sizes[c.memberIndex]
         && Drained(c)
       case Central => |c.directory| == |sizes| && c.centralIndex <= |sizes| && c.centralOffset <= c.archiveOffset
       case End => |c.directory| == |sizes| && Drained(c) && c.centralOffset <= c.archiveOffset
       case Done => true
  }

  predicate IsZip32Complete(c: Cursor) {
    c.phase == Done && c.pendingOffset == |c.pendingRecord|
  }

  ghost function Sizes(p: Plan): seq<int> {
    seq(|p.payloads|, i requires 0 <= i < |p.payloads| => |p.payloads[i]|)
  }

  /** The archive prefix the cursor has produced once its pending record is flushed. */
  ghost function Produced(p: Plan, c: Cursor): bytes
    requires WellFormed(p) && Shape(Sizes(p), c)
  {
    match c.phase
    case Local => LocalSection(p, c.memberIndex)
    case Data => InMember(p, c.memberIndex, c.memberOffset)
    case Descriptor => InMember(p, c.memberIndex, c.memberOffset)
    case Central => LocalSection(p, |p.payloads|) + CentralSection(p, c.centralIndex)
    case End => Body(p)
    case Done => Whole(p)
  }

  ghost function InMember(p: Plan, i: nat, offset: nat): bytes
    requires WellFormed(p) && i < |p.payloads| && offset <= |p.payloads[i]|
  {
    LocalSection(p, i) + (p.headers[i] + p.payloads[i][..offset])
  }

  /** The evidence the cursor computed is the evidence of the real payloads. */
  ghost predicate TrueEvidence(p: Plan, c: Cursor)
    requires WellFormed(p) && Shape(Sizes(p), c)
  {
    && c.directory <= p.entries
    && (c.phase.Data? || c.phase.Descriptor? ==>
          && c.memberStart == |LocalSection(p, c.memberIndex)|
          && c.memberCrc == Crc32.BitSerial(Crc32.ALL_ONES, p.payloads[c.memberIndex][..c.memberOffset]))
    && (c.phase.Central? || c.phase.End? ==> c.centralOffset == |LocalSection(p, |p.payloads|)|)
  }

  /** No stored position lies beyond what has been emitted, and no index beyond the members. */
  predicate Anchored(n: nat, c: Cursor) {
    && c.memberIndex <= n && c.centralIndex <= n
    && c.memberStart <= c.archiveOffset
    && c.memberOffset <= c.archiveOffset
    && c.centralOffset <= c.archiveOffset
  }

  /** The cursor stands at an archive prefix: what is produced but not emitted is pending. */
  ghost predicate Exact(p: Plan, c: Cursor) {
    && WellFormed(p)
    && Shape(Sizes(p), c)
    && TrueEvidence(p, c)
    && Anchored(|p.payloads|, c)
    && c.archiveOffset <= |Produced(p, c)|
    && Remaining(c) == Produced(p, c)[c.archiveOffset..]
  }

  /** The bytes already handed out. */
  ghost function Emitted(p: Plan, c: Cursor): bytes
    requires Exact(p, c)
  {
    Produced(p, c)[..c.archiveOffset]
  }

  // ---- One lemma for each transition of the step loop ----

  function Flushed(c: Cursor, end: nat): Cursor
    requires c.pendingOffset <= end <= |c.pendingRecord|
  {
    var moved := c.(pendingOffset := end, archiveOffset := c.archiveOffset + (end - c.pendingOffset));
    if end == |c.pendingRecord| then moved.(pendingRecord := [], pendingOffset := 0) else moved
  }

  /** Flushing moves no position: the same prefix stays produced. */
  lemma FlushKeepsPosition(p: Plan, c: Cursor, end: nat)
    requires Exact(p, c) && c.pendingOffset < end <= |c.pendingRecord|
    ensures Shape(Sizes(p), Flushed(c, end)) && TrueEvidence(p, Flushed(c, end))
    ensures Produced(p, Flushed(c, end)) == Produced(p, c)
  {
  }

  lemma FlushKeepsExact(p: Plan, c: Cursor, end: nat)
    requires Exact(p, c) && c.pendingOffset < end <= |c.pendingRecord|
    ensures Exact(p, Flushed(c, end))
    ensures Emitted(p, Flushed(c, end)) == Emitted(p, c) + c.pendingRecord[c.pendingOffset..end]
  {
    FlushKeepsPosition(p, c, end);
    var produced, next := Produced(p, c), Flushed(c, end);
    TailSlice(produced, c.archiveOffset, c.pendingRecord, c.pendingOffset, end);
    assert Remaining(next) == c.pendingRecord[end..];
  }

  lemma TailSlice<T>(produced: seq<T>, offset: nat, record: seq<T>, from: nat, end: nat)
    requires offset <= |produced| && from <= end <= |record|
    requires record[from..] == produced[offset..]
    ensures offset + (end - from) <= |produced|
    ensures record[end..] == produced[offset + (end - from)..]
    ensures produced[..offset + (end - from)] == produced[..offset] + record[from..end]
  {
    var k := end - from;
    assert record[end..] == record[from..][k..];
    assert produced[offset + k..] == produced[offset..][k..];
    assert record[from..end] == record[from..][..k];
    assert produced[..offset + k] == produced[..offset] + produced[offset..][..k];
  }

  /** A transition that appends one record to what is produced and leaves it pending emits nothing. */
  lemma RecordPending(p: Plan, c: Cursor, next: Cursor, record: bytes)
    requires Exact(p, c) && Drained(c)
    requires Shape(Sizes(p), next) && TrueEvidence(p, next) && Anchored(|p.payloads|, next)
    requires next.archiveOffset == c.archiveOffset && Remaining(next) == record
    requires Produced(p, next) == Produced(p, c) + record
    ensures Exact(p, next)
    ensures Emitted(p, next) == Emitted(p, c) == Produced(p, c)
  {
  }

  lemma StartIsExact(p: Plan, members: seq<Member>)
    requires WellFormed(p) && |members| == |p.payloads|
    requires members == [] ==> Body(p) == []
    ensures Exact(p, StartCursor(members))
    ensures Emitted(p, StartCursor(members)) == []
  {
  }

  function BeginMember(c: Cursor, header: bytes): Cursor {
    c.(memberStart := c.archiveOffset, memberOffset := 0, memberCrc := Crc32.ALL_ONES,
       phase := Data, pendingRecord := header)
  }

  lemma BeginMemberKeepsExact(p: Plan, c: Cursor)
    requires Exact(p, c) && Drained(c) && c.phase == Local && c.memberIndex < |p.payloads|
    ensures var next := BeginMember(c, p.headers[c.memberIndex]);
            Exact(p, next) && Emitted(p, next) == Emitted(p, c)
  {
    var header := p.headers[c.memberIndex];
    var next := BeginMember(c, header);
    assert p.payloads[c.memberIndex][..0] == [];
    assert header + [] == header;
    RecordPending(p, c, next, header);
  }

  lemma EnterCentralKeepsExact(p: Plan, c: Cursor)
    requires Exact(p, c) && Drained(c) && c.phase == Local && c.memberIndex >= |p.payloads|
    ensures var next := c.(centralOffset := c.archiveOffset, phase := Central);
            Exact(p, next) && Emitted(p, next) == Emitted(p, c)
  {
    var next := c.(centralOffset := c.archiveOffset, phase := Central);
    assert CentralSection(p, 0) == [];
    RecordPending(p, c, next, []);
  }

  lemma EndOfPayloadKeepsExact(p: Plan, c: Cursor)
    requires Exact(p, c) && Drained(c) && c.phase == Data && c.memberOffset == |p.payloads[c.memberIndex]|
    ensures var next := c.(phase := Descriptor);
            Exact(p, next) && Emitted(p, next) == Emitted(p, c)
  {
  }

  function Took(c: Cursor, crc: bv32, n: nat): Cursor {
    c.(memberCrc := crc, memberOffset := c.memberOffset + n, archiveOffset := c.archiveOffset + n)
  }

  lemma TakeRangeKeepsExact(p: Plan, c: Cursor, range: bytes)
    requires Exact(p, c) && Drained(c) && c.phase == Data
    requires c.memberOffset + |range| <= |p.payloads[c.memberIndex]|
    requires range == p.payloads[c.memberIndex][c.memberOffset..c.memberOffset + |range|]
    ensures var next := Took(c, Crc32.BitSerial(c.memberCrc, range), |range|);
            Exact(p, next) && Emitted(p, next) == Emitted(p, c) + range
  {
    var next := Took(c, Crc32.BitSerial(c.memberCrc, range), |range|);
    var payload := p.payloads[c.memberIndex];
    Crc32.BitSerialSplits(Crc32.ALL_ONES, payload[..c.memberOffset], range);
    assert payload[..next.memberOffset] == payload[..c.memberOffset] + range;
    Reassociate(LocalSection(p, c.memberIndex), p.headers[c.memberIndex], payload[..c.memberOffset], range);
    assert Produced(p, next) == Produced(p, c) + range;
  }

  lemma Reassociate<T>(a: seq<T>, b: seq<T>, c: seq<T>, d: seq<T>)
    ensures a + (b + (c + d)) == a + (b + c) + d
    ensures a + (b + c + d) == a + (b + c) + d
  {
  }

  function CloseMember(c: Cursor, crc: bv32, descriptor: bytes): Cursor {
    c.(directory := c.directory + [DirectoryEntry(crc, c.memberStart)],
       pendingRecord := descriptor, memberIndex := c.memberIndex + 1, phase := Local)
  }

  lemma CloseMemberKeepsExact(p: Plan, c: Cursor, crc: bv32)
    requires Exact(p, c) && Drained(c) && c.phase == Descriptor
    requires p.entries[c.memberIndex] == DirectoryEntry(crc, |LocalSection(p, c.memberIndex)|)
    requires p.descriptors[c.memberIndex] != []
    ensures var next := CloseMember(c, crc, p.descriptors[c.memberIndex]);
            Exact(p, next) && Emitted(p, next) == Emitted(p, c)
  {
    var i := c.memberIndex;
    var next := CloseMember(c, crc, p.descriptors[i]);
    assert p.payloads[i][..c.memberOffset] == p.payloads[i];
    LocalSectionStep(p, i);
    Reassociate(LocalSection(p, i), p.headers[i], p.payloads[i], p.descriptors[i]);
    RecordPending(p, c, next, p.descriptors[i]);
  }

  lemma NextCentralKeepsExact(p: Plan, c: Cursor)
    requires Exact(p, c) && Drained(c) && c.phase == Central && c.centralIndex < |p.payloads|
    requires p.centrals[c.centralIndex] != []
    ensures var next := c.(pendingRecord := p.centrals[c.centralIndex], centralIndex := c.centralIndex + 1);
            Exact(p, next) && Emitted(p, next) == Emitted(p, c)
  {
    var record := p.centrals[c.centralIndex];
    CentralSectionStep(p, c.centralIndex);
    var local, central := LocalSection(p, |p.payloads|), CentralSection(p, c.centralIndex);
    assert local + (central + record) == (local + central) + record;
    RecordPending(p, c, c.(pendingRecord := record, centralIndex := c.centralIndex + 1), record);
  }

  lemma EndOfCentralKeepsExact(p: Plan, c: Cursor)
    requires Exact(p, c) && Drained(c) && c.phase == Central && c.centralIndex >= |p.payloads|
    ensures var next := c.(phase := End);
            Exact(p, next) && Emitted(p, next) == Emitted(p, c)
  {
    RecordPending(p, c, c.(phase := End), []);
  }

  lemma FinishKeepsExact(p: Plan, c: Cursor)
    requires Exact(p, c) && Drained(c) && c.phase == End && p.end != []
    ensures c.archiveOffset - c.centralOffset == |CentralSection(p, |p.payloads|)|
    ensures var next := c.(pendingRecord := p.end, phase := Done);
            Exact(p, next) && Emitted(p, next) == Emitted(p, c)
  {
    RecordPending(p, c, c.(pendingRecord := p.end, phase := Done), p.end);
  }

  // ---- The step ----

  ghost function MemberSizes(members: seq<Member>): seq<int> {
    seq(|members|, i requires 0 <= i < |members| => members[i].size)
  }

  /** The cursor of a writer of these members can be advanced. */
  ghost predicate Resumable(members: seq<Member>, c: Cursor) {
    ValidMembers(members) && Shape(MemberSizes(members), c)
  }

  /** The step started at an exact prefix of the planned archive, with a truthful source. */
  ghost predicate Honest(p: Plan, members: seq<Member>, c: Cursor, reader: Reader) {
    Describes(p, members) && Exact(p, c) && Truthful(reader, p.payloads)
  }

  /** Some read of this step was answered outside the contract, which explains the failure. */
  ghost predicate Blames(failure: ZipFailure, reader: Reader) {
    exists call: nat, member: nat, offset: nat, length: nat ::
      length <= ZIP32_SOURCE_RANGE_BYTES && Failing(reader(call, member, offset, length), length) == Some(failure)
  }

  /** How far a cursor is from its next emitted byte, in transitions. */
  function Rank(c: Cursor): nat {
    if !Drained(c) then 0
    else match c.phase
      case Local => 3
      case Data => 2
      case Descriptor => 1
      case Central => 2
      case End => 1
      case Done => 0
  }

  method Concatenate(chunks: seq<bytes>, size: nat) returns (joined: bytes)
    requires |Flatten(chunks)| == size
    ensures joined == Flatten(chunks)
  {
    var buffer := new byte[size](_ => 0);
    var offset := 0;
    for i := 0 to |chunks|
      invariant offset == |Flatten(chunks[..i])| <= size
      invariant buffer[..offset] == Flatten(chunks[..i])
    {
      FlattenStep(chunks, i);
      FlattenGrows(chunks, i + 1, |chunks|);
      assert chunks[..|chunks|] == chunks;
      var chunk := chunks[i];
      forall k | 0 <= k < |chunk| {
        buffer[offset + k] := chunk[k];
      }
      assert buffer[..offset + |chunk|] == Flatten(chunks[..i]) + chunk;
      offset := offset + |chunk|;
    }
    assert chunks[..|chunks|] == chunks;
    joined := buffer[..];
  }

  lemma JoinTail<T>(a: seq<T>, b: seq<T>, c: seq<T>)
    ensures a + b + c == a + (b + c)
  {
  }

  lemma FlattenAppend(chunks: seq<bytes>, chunk: bytes)
    ensures Flatten(chunks + [chunk]) == Flatten(chunks) + chunk
  {
    assert (chunks + [chunk])[..|chunks|] == chunks;
  }

  /** What every transition that emits nothing keeps. */
  ghost predicate Quiet(members: seq<Member>, p: Plan, honest: bool, c: Cursor, next: Cursor) {
    && Resumable(members, next)
    && !IsZip32Complete(next)
    && Rank(next) < Rank(c)
    && next.archiveOffset == c.archiveOffset
    && (honest ==> Exact(p, c) && Exact(p, next) && Emitted(p, next) == Emitted(p, c))
  }

  method LocalPhase(members: seq<Member>, cursor: Cursor, ghost p: Plan, ghost honest: bool) returns (next: Cursor)
    requires Resumable(members, cursor) && Drained(cursor) && cursor.phase == Local
    requires honest ==> Describes(p, members) && Exact(p, cursor)
    ensures Quiet(members, p, honest, cursor, next)
  {
    if cursor.memberIndex >= |members| {
      if honest {
        EnterCentralKeepsExact(p, cursor);
      }
      next := cursor.(centralOffset := cursor.archiveOffset, phase := Central);
    } else {
      var header := EncodeLocalHeader(members[cursor.memberIndex]);
      if honest {
        assert PieceOf(p, members[cursor.memberIndex], cursor.memberIndex);
        BeginMemberKeepsExact(p, cursor);
      }
      next := BeginMember(cursor, header);
    }
  }

  method DescriptorPhase(members: seq<Member>, cursor: Cursor, ghost p: Plan, ghost honest: bool) returns (next: Cursor)
    requires Resumable(members, cursor) && Drained(cursor) && cursor.phase == Descriptor
    requires honest ==> Describes(p, members) && Exact(p, cursor)
    ensures Quiet(members, p, honest, cursor, next)
  {
    var crc := Crc32.Complement(cursor.memberCrc);
    var descriptor := EncodeDataDescriptor(crc, members[cursor.memberIndex].size);
    if honest {
      assert PieceOf(p, members[cursor.memberIndex], cursor.memberIndex);
      assert p.payloads[cursor.memberIndex][..cursor.memberOffset] == p.payloads[cursor.memberIndex];
      CloseMemberKeepsExact(p, cursor, crc);
    }
    next := CloseMember(cursor, crc, descriptor);
  }

  method CentralPhase(members: seq<Member>, cursor: Cursor, ghost p: Plan, ghost honest: bool) returns (next: Cursor)
    requires Resumable(members, cursor) && Drained(cursor) && cursor.phase == Central
    requires honest ==> Describes(p, members) && Exact(p, cursor)
    ensures Quiet(members, p, honest, cursor, next)
  {
    if cursor.centralIndex >= |members| {
      if honest {
        EndOfCentralKeepsExact(p, cursor);
      }
      next := cursor.(phase := End);
    } else {
      var record := EncodeCentralHeader(members[cursor.centralIndex], cursor.directory[cursor.centralIndex]);
      if honest {
        assert PieceOf(p, members[cursor.centralIndex], cursor.centralIndex);
        NextCentralKeepsExact(p, cursor);
      }
      next := cursor.(pendingRecord := record, centralIndex := cursor.centralIndex + 1);
    }
  }

  method EndPhase(members: seq<Member>, cursor: Cursor, ghost p: Plan, ghost honest: bool) returns (next: Cursor)
    requires Resumable(members, cursor) && Drained(cursor) && cursor.phase == End
    requires honest ==> Describes(p, members) && Exact(p, cursor)
    ensures Quiet(members, p, honest, cursor, next)
  {
    var record := EncodeEndRecord(|members|, cursor.centralOffset, cursor.archiveOffset - cursor.centralOffset);
    if honest {
      FinishKeepsExact(p, cursor);
    }
    next := cursor.(pendingRecord := record, phase := Done);
  }

  /** The transitions that read no payload: start or close a record, or change phase. */
  method NextRecord(members: seq<Member>, cursor: Cursor, ghost p: Plan, ghost honest: bool) returns (next: Cursor)
    requires Resumable(members, cursor) && Drained(cursor) && cursor.phase != Done
    requires cursor.phase == Data ==> cursor.memberOffset == members[cursor.memberIndex].size
    requires honest ==> Describes(p, members) && Exact(p, cursor)
    ensures Quiet(members, p, honest, cursor, next)
  {
    match cursor.phase {
      case Local => next := LocalPhase(members, cursor, p, honest);
      case Data =>
        if honest {
          assert PieceOf(p, members[cursor.memberIndex], cursor.memberIndex);
          EndOfPayloadKeepsExact(p, cursor);
        }
        next := cursor.(phase := Descriptor);
      case Descriptor => next := DescriptorPhase(members, cursor, p, honest);
      case Central => next := CentralPhase(members, cursor, p, honest);
      case End => next := EndPhase(members, cursor, p, honest);
    }
  }

  /** What every transition that hands out bytes keeps. */
  ghost predicate Emits(members: seq<Member>, p: Plan, honest: bool, c: Cursor, next: Cursor, chunk: bytes) {
    && chunk != []
    && Resumable(members, next)
    && next.archiveOffset == c.archiveOffset + |chunk|
    && (honest ==> Exact(p, c) && Exact(p, next) && Emitted(p, next) == Emitted(p, c) + chunk)
  }

  /** Hands out as much of the pending record as the output budget allows. */
  method FlushPending(members: seq<Member>, cursor: Cursor, budget: nat, ghost p: Plan, ghost honest: bool)
    returns (next: Cursor, chunk: bytes)
    requires Resumable(members, cursor) && cursor.pendingOffset < |cursor.pendingRecord| && budget > 0
    requires honest ==> Exact(p, cursor)
    ensures Emits(members, p, honest, cursor, next, chunk) && |chunk| <= budget
  {
    var end := if |cursor.pendingRecord| <= cursor.pendingOffset + budget
               then |cursor.pendingRecord| else cursor.pendingOffset + budget;
    chunk := cursor.pendingRecord[cursor.pendingOffset..end];
    if honest {
      FlushKeepsExact(p, cursor, end);
    }
    next := Flushed(cursor, end);
  }

  lemma HonestAnswer(p: Plan, members: seq<Member>, c: Cursor, reader: Reader, call: nat, length: nat)
    requires Honest(p, members, c, reader) && c.phase == Data
    requires c.memberIndex < |members| && 0 < length <= members[c.memberIndex].size - c.memberOffset
    ensures c.memberIndex < |p.payloads| && |p.payloads[c.memberIndex]| == members[c.memberIndex].size
    ensures var answer := reader(call, c.memberIndex, c.memberOffset, length);
            (Failing(answer, length).None? || Faithful(reader, p.payloads)) ==>
              FaithfulAnswer(answer, p.payloads[c.memberIndex], c.memberOffset, length)
  {
    assert PieceOf(p, members[c.memberIndex], c.memberIndex);
  }

  /** Reads one source range, rejects a malformed answer, and accounts for an accepted one. */
  method TakeRange(table: seq<bv32>, members: seq<Member>, cursor: Cursor, reader: Reader, call: nat, budget: nat,
                   ghost p: Plan, ghost honest: bool)
    returns (r: Result<(Cursor, bytes), ZipFailure>)
    requires Crc32.IsTable(table)
    requires Resumable(members, cursor) && Drained(cursor) && cursor.phase == Data && budget > 0
    requires cursor.memberOffset < members[cursor.memberIndex].size
    requires honest ==> Honest(p, members, cursor, reader)
    ensures r.Success? ==> Emits(members, p, honest, cursor, r.value.0, r.value.1) && |r.value.1| <= budget
    ensures r.Failure? ==> Blames(r.error, reader) && r.error != InvalidLimits
    ensures honest && Faithful(reader, p.payloads) ==> r.Success?
  {
    hide Exact, Emitted, Describes, Faithful, Truthful;
    var length := Smallest(ZIP32_SOURCE_RANGE_BYTES, members[cursor.memberIndex].size - cursor.memberOffset, budget);
    assert length > 0;  // the non-positive length guard never fires
    var answer := reader(call, cursor.memberIndex, cursor.memberOffset, length);
    var failure := Failing(answer, length);
    if honest {
      HonestAnswer(p, members, cursor, reader, call, length);
    }
    if failure.Some? {
      return Failure(failure.value);
    }
    var range := answer.range;
    var crc := Crc32.UpdateCrc32(table, cursor.memberCrc, range);
    if honest {
      TakeRangeKeepsExact(p, cursor, range);
    }
    return Success((Took(cursor, crc, |range|), range));
  }

  /** One step of the stream: transitions are taken until the output is full, a read budget is spent, or nothing is left. */
  method AdvanceZip32(
      table: seq<bv32>, members: seq<Member>, input: Cursor, reader: Reader, limits: Limits, ghost p: Plan)
    returns (r: Result<StepResult, ZipFailure>)
    requires Crc32.IsTable(table)
    requires Resumable(members, input)
    ensures r == Failure(InvalidLimits) <==> !ValidLimits(limits)
    ensures r.Failure? && r.error != InvalidLimits ==> Blames(r.error, reader)
    ensures r.Success? ==>
      && Resumable(members, r.value.cursor)
      && |r.value.output| <= limits.maxOutputBytes
      && r.value.sourceReads <= limits.maxSourceReads
      && r.value.sourceBytes <= limits.maxSourceBytes
      && r.value.sourceReads <= r.value.sourceBytes <= |r.value.output|
      && r.value.cursor.archiveOffset == input.archiveOffset + |r.value.output|
    ensures r.Success? && limits.maxSourceReads >= 1 && limits.maxSourceBytes >= 1 && !IsZip32Complete(input) ==>
      |r.value.output| >= 1
    ensures r.Success? && IsZip32Complete(input) ==> r.value == StepResult(input, [], 0, 0)
    ensures ValidLimits(limits) && Honest(p, members, input, reader) && Faithful(reader, p.payloads) ==> r.Success?
    ensures r.Success? && Honest(p, members, input, reader) ==>
      && Exact(p, r.value.cursor)
      && Emitted(p, r.value.cursor) == Emitted(p, input) + r.value.output
  {
    hide Exact, Emitted, Describes, Faithful, Truthful, Blames;
    if !ValidLimits(limits) {
      return Failure(InvalidLimits);
    }
    var cursor := input;
    var chunks: seq<bytes> := [];
    var outputBytes: nat := 0;
    var sourceReads: nat := 0;
    var sourceBytes: nat := 0;
    ghost var honest := Honest(p, members, input, reader);
    ghost var before := if honest then Emitted(p, input) else [];
    ghost var after := before;
    assert before + Flatten(chunks) == after;

    while outputBytes < limits.maxOutputBytes
          && (cursor.phase != Done || cursor.pendingOffset < |cursor.pendingRecord|)
      invariant Resumable(members, cursor)
      invariant outputBytes == |Flatten(chunks)| <= limits.maxOutputBytes
      invariant sourceReads <= limits.maxSourceReads && sourceBytes <= limits.maxSourceBytes
      invariant sourceReads <= sourceBytes <= outputBytes
      invariant cursor.archiveOffset == input.archiveOffset + outputBytes
      invariant outputBytes == 0 ==> IsZip32Complete(cursor) == IsZip32Complete(input)
      invariant IsZip32Complete(input) ==> cursor == input && outputBytes == 0
      invariant honest ==> Exact(p, cursor) && Emitted(p, cursor) == after
      invariant after == before + Flatten(chunks)
      decreases limits.maxOutputBytes - outputBytes, Rank(cursor)
    {
      var chunk: bytes;
      if cursor.pendingOffset < |cursor.pendingRecord| {
        cursor, chunk := FlushPending(members, cursor, limits.maxOutputBytes - outputBytes, p, honest);
      } else if cursor.phase != Data || cursor.memberOffset == members[cursor.memberIndex].size {
        cursor := NextRecord(members, cursor, p, honest);
        continue;
      } else {
        if sourceReads >= limits.maxSourceReads || sourceBytes >= limits.maxSourceBytes {
          break;
        }
        var budget := if limits.maxSourceBytes - sourceBytes <= limits.maxOutputBytes - outputBytes
                      then limits.maxSourceBytes - sourceBytes else limits.maxOutputBytes - outputBytes;
        var taken := TakeRange(table, members, cursor, reader, sourceReads, budget, p, honest);
        if taken.Failure? {
          return Failure(taken.error);
        }
        cursor, chunk := taken.value.0, taken.value.1;
        sourceReads := sourceReads + 1;
        sourceBytes := sourceBytes + |chunk|;
      }
      FlattenAppend(chunks, chunk);
      JoinTail(before, Flatten(chunks), chunk);
      after := after + chunk;
      chunks := chunks + [chunk];
      outputBytes := outputBytes + |chunk|;
    }
    var output := Concatenate(chunks, outputBytes);
    return Success(StepResult(cursor, output, sourceReads, sourceBytes));
  }

  function Smallest(a: nat, b: nat, c: nat): (m: nat)
    ensures m <= a && m <= b && m <= c && m in {a, b, c}
  {
    if a <= b && a <= c then a else if b <= c then b else c
  }
}
