/** Whole runs of the archive writer: any way of slicing the steps emits the one reference archive. */
module ZipRuns {
  import opened Bytes
  import opened ZipPlan
  import opened ZipFormat
  import opened ZipWriter
  import Crc32

  /** What one honest step does to the cursor; AdvanceZip32 ensures it. */
  ghost predicate Step(p: Plan, c: Cursor, next: Cursor, output: bytes) {
    Exact(p, c) && Exact(p, next) && Emitted(p, next) == Emitted(p, c) + output
  }

  /** A run of any number of steps from a fresh cursor; `cursors[i + 1]` follows `cursors[i]`. */
  ghost predicate IsRun(members: seq<Member>, p: Plan, cursors: seq<Cursor>, outputs: seq<bytes>) {
    && |cursors| == |outputs| + 1
    && cursors[0] == StartCursor(members)
    && forall i :: 0 <= i < |outputs| ==> Step(p, cursors[i], cursors[i + 1], outputs[i])
  }

  /** Whatever is produced at a position is a prefix of the whole archive. */
  lemma ProducedIsPrefix(p: Plan, c: Cursor)
    requires WellFormed(p) && Shape(Sizes(p), c)
    ensures Produced(p, c) <= Whole(p)
  {
    var n := |p.payloads|;
    var all, central := LocalSection(p, n), CentralSection(p, n);
    assert all <= Whole(p);
    match c.phase {
      case Local =>
        LocalSectionGrows(p, c.memberIndex, n);
      case Central =>
        CentralSectionGrows(p, c.centralIndex, n);
        assert all + CentralSection(p, c.centralIndex) <= all + central;
      case End =>
      case Done =>
      case Data =>
        InMemberIsPrefix(p, c.memberIndex, c.memberOffset);
      case Descriptor =>
        InMemberIsPrefix(p, c.memberIndex, c.memberOffset);
    }
  }

  lemma InMemberIsPrefix(p: Plan, i: nat, offset: nat)
    requires WellFormed(p) && i < |p.payloads| && offset <= |p.payloads[i]|
    ensures InMember(p, i, offset) <= LocalSection(p, |p.payloads|) <= Whole(p)
  {
    LocalSectionStep(p, i);
    LocalSectionGrows(p, i + 1, |p.payloads|);
    var header, payload, descriptor := p.headers[i], p.payloads[i], p.descriptors[i];
    assert header + payload[..offset] <= header + payload + descriptor;
    assert InMember(p, i, offset) <= LocalSection(p, i) + LocalPart(p, i);
  }

  lemma EmittedIsPrefix(p: Plan, c: Cursor)
    requires Exact(p, c)
    ensures c.archiveOffset <= |Whole(p)|
    ensures Emitted(p, c) == Whole(p)[..c.archiveOffset]
    ensures IsZip32Complete(c) ==> c.archiveOffset == |Whole(p)|
  {
    ProducedIsPrefix(p, c);
    assert Whole(p)[..|Produced(p, c)|] == Produced(p, c);
  }

  lemma {:induction false} OutputsJoin(members: seq<Member>, p: Plan, cursors: seq<Cursor>, outputs: seq<bytes>, k: nat)
    requires WellFormed(p) && |members| == |p.payloads|
    requires IsRun(members, p, cursors, outputs) && k <= |outputs|
    requires Exact(p, cursors[0]) && Emitted(p, cursors[0]) == []
    ensures Exact(p, cursors[k]) && Flatten(outputs[..k]) == Emitted(p, cursors[k])
    decreases k
  {
    hide Exact, Emitted;
    if k > 0 {
      OutputsJoin(members, p, cursors, outputs, k - 1);
      assert Step(p, cursors[k - 1], cursors[k - 1 + 1], outputs[k - 1]);
      FlattenStep(outputs, k - 1);
    } else {
      assert outputs[..0] == [];
    }
  }

  lemma FreshCursorIsExact(members: seq<Member>, payloads: seq<bytes>)
    requires Matches(members, payloads)
    ensures var p := PlanOf(members, payloads);
            Exact(p, StartCursor(members)) && Emitted(p, StartCursor(members)) == []
  {
    var p := PlanOf(members, payloads);
    if members == [] {
      assert LocalParts(p)[..0] == [] && p.centrals[..0] == [];
      assert Body(p) == [];
    }
    StartIsExact(p, members);
  }

  /** Chunk independence. Whatever limits and short reads slice the steps, the joined outputs are
      the archive prefix of length `archiveOffset` after every step, and the whole archive at the end. */
  lemma ChunkIndependence(members: seq<Member>, payloads: seq<bytes>, cursors: seq<Cursor>, outputs: seq<bytes>, k: nat)
    requires Matches(members, payloads)
    requires IsRun(members, PlanOf(members, payloads), cursors, outputs) && k <= |outputs|
    ensures cursors[k].archiveOffset <= |Archive(members, payloads)|
    ensures Flatten(outputs[..k]) == Archive(members, payloads)[..cursors[k].archiveOffset]
    ensures IsZip32Complete(cursors[k]) ==> Flatten(outputs[..k]) == Archive(members, payloads)
  {
    var p := PlanOf(members, payloads);
    FreshCursorIsExact(members, payloads);
    JoinedIsPrefix(members, p, cursors, outputs, k);
  }

  lemma JoinedIsPrefix(members: seq<Member>, p: Plan, cursors: seq<Cursor>, outputs: seq<bytes>, k: nat)
    requires WellFormed(p) && |members| == |p.payloads|
    requires IsRun(members, p, cursors, outputs) && k <= |outputs|
    requires Exact(p, StartCursor(members)) && Emitted(p, StartCursor(members)) == []
    ensures cursors[k].archiveOffset <= |Whole(p)|
    ensures Flatten(outputs[..k]) == Whole(p)[..cursors[k].archiveOffset]
    ensures IsZip32Complete(cursors[k]) ==> Flatten(outputs[..k]) == Whole(p)
  {
    hide Exact, Emitted;
    OutputsJoin(members, p, cursors, outputs, k);
    EmittedIsPrefix(p, cursors[k]);
    assert Whole(p)[..|Whole(p)|] == Whole(p);
  }

  /** Two complete runs over the same payloads emit the same bytes, however they were sliced. */
  lemma RunsAgree(
      members: seq<Member>, payloads: seq<bytes>,
      cursors: seq<Cursor>, outputs: seq<bytes>, otherCursors: seq<Cursor>, otherOutputs: seq<bytes>)
    requires Matches(members, payloads)
    requires IsRun(members, PlanOf(members, payloads), cursors, outputs)
    requires IsRun(members, PlanOf(members, payloads), otherCursors, otherOutputs)
    requires IsZip32Complete(cursors[|outputs|]) && IsZip32Complete(otherCursors[|otherOutputs|])
    ensures Flatten(outputs) == Flatten(otherOutputs)
  {
    ChunkIndependence(members, payloads, cursors, outputs, |outputs|);
    ChunkIndependence(members, payloads, otherCursors, otherOutputs, |otherOutputs|);
    assert outputs[..|outputs|] == outputs && otherOutputs[..|otherOutputs|] == otherOutputs;
  }

  /** Between two steps: the cursor stands at the archive prefix handed out so far. */
  ghost predicate Standing(members: seq<Member>, p: Plan, cursor: Cursor, output: bytes) {
    Describes(p, members) && Exact(p, cursor) && Resumable(members, cursor) && output == Emitted(p, cursor)
  }

  /** One more step, with its output appended. */
  method OneStep(
      table: seq<bv32>, members: seq<Member>, cursor: Cursor, output: bytes, reader: Reader, limits: Limits, ghost p: Plan)
    returns (r: Result<(Cursor, bytes), ZipFailure>)
    requires Crc32.IsTable(table) && Standing(members, p, cursor, output)
    requires ValidLimits(limits) && Truthful(reader, p.payloads)
    ensures r.Success? ==> Standing(members, p, r.value.0, r.value.1)
    ensures r.Failure? ==> Blames(r.error, reader) && !Faithful(reader, p.payloads)
    ensures r.Success? && IsZip32Complete(cursor) ==> IsZip32Complete(r.value.0)
    ensures r.Success? && limits.maxSourceReads >= 1 && limits.maxSourceBytes >= 1 && !IsZip32Complete(r.value.0) ==>
      r.value.0.archiveOffset > cursor.archiveOffset
  {
    hide Exact, Emitted, Describes, Truthful, Faithful, Blames, Resumable, IsZip32Complete;
    var step := AdvanceZip32(table, members, cursor, reader, limits, p);
    if step.Failure? {
      return Failure(step.error);
    }
    return Success((step.value.cursor, output + step.value.output));
  }

  lemma FreshStands(members: seq<Member>, payloads: seq<bytes>)
    requires ValidMembers(members) && Matches(members, payloads)
    ensures Standing(members, PlanOf(members, payloads), StartCursor(members), [])
  {
    FreshCursorIsExact(members, payloads);
    PlanDescribes(members, payloads);
    FreshIsResumable(members);
    hide Exact, Emitted, Describes, Resumable, PlanOf;
  }

  lemma StandingIsPrefix(members: seq<Member>, payloads: seq<bytes>, cursor: Cursor, output: bytes)
    requires Matches(members, payloads) && Standing(members, PlanOf(members, payloads), cursor, output)
    ensures cursor.archiveOffset <= |Archive(members, payloads)|
    ensures output == Archive(members, payloads)[..cursor.archiveOffset]
    ensures IsZip32Complete(cursor) ==> output == Archive(members, payloads)
  {
    EmittedIsPrefix(PlanOf(members, payloads), cursor);
    hide Exact, Emitted, Describes, Resumable, PlanOf, Whole;
    assert Archive(members, payloads)[..|Archive(members, payloads)|] == Archive(members, payloads);
  }

  /** Runs any number of steps from a fresh cursor, each under its own limits and with its own source. */
  method RunSteps(
      table: seq<bv32>, members: seq<Member>, limits: nat -> Limits, readers: nat -> Reader, n: nat, ghost payloads: seq<bytes>)
    returns (r: Result<(Cursor, bytes), ZipFailure>)
    requires Crc32.IsTable(table) && ValidMembers(members) && Matches(members, payloads)
    requires forall i: nat :: ValidLimits(limits(i)) && Truthful(readers(i), payloads)
    ensures r.Success? ==>
      && r.value.0.archiveOffset <= |Archive(members, payloads)|
      && r.value.1 == Archive(members, payloads)[..r.value.0.archiveOffset]
      && (IsZip32Complete(r.value.0) ==> r.value.1 == Archive(members, payloads))
    ensures r.Failure? ==> exists i: nat :: Blames(r.error, readers(i)) && !Faithful(readers(i), payloads)
    ensures r.Success? && n > |Archive(members, payloads)|
            && (forall i: nat :: limits(i).maxSourceReads >= 1 && limits(i).maxSourceBytes >= 1) ==>
      IsZip32Complete(r.value.0)
  {
    hide Standing, Truthful, Faithful, Blames, Archive, IsZip32Complete, Matches;
    ghost var p := PlanOf(members, payloads);
    FreshStands(members, payloads);
    assert p.payloads == payloads;
    hide PlanOf;
    ghost var ready := forall i: nat :: limits(i).maxSourceReads >= 1 && limits(i).maxSourceBytes >= 1;
    var cursor, output := StartCursor(members), [];
    for i := 0 to n
      invariant Standing(members, p, cursor, output)
      invariant ready && !IsZip32Complete(cursor) ==> cursor.archiveOffset >= i
    {
      var step := OneStep(table, members, cursor, output, readers(i), limits(i), p);
      if step.Failure? {
        return Failure(step.error);
      }
      cursor, output := step.value.0, step.value.1;
    }
    StandingIsPrefix(members, payloads, cursor, output);
    return Success((cursor, output));
  }

  lemma FreshIsResumable(members: seq<Member>)
    requires ValidMembers(members)
    ensures Resumable(members, StartCursor(members))
  {
  }

  // ---- Persistence ----

  datatype RawEntry = RawEntry(crc: int, offset: int)

  /** A cursor as it comes back from storage: every number unchecked, the phase name possibly unknown. */
  datatype RawCursor = RawCursor(
    phase: Option<Phase>, memberIndex: int, memberOffset: int, memberCrc: int, memberStart: int,
    archiveOffset: int, centralOffset: int, centralIndex: int,
    directory: seq<RawEntry>, pendingRecord: seq<int>, pendingOffset: int)

  predicate IsUnsigned(value: int, maximum: int) {
    0 <= value <= maximum
  }

  predicate InBounds(raw: RawCursor) {
    && raw.phase.Some?
    && IsUnsigned(raw.memberIndex, 0xFFFF)
    && IsUnsigned(raw.memberOffset, ZIP32_MAX_VALUE)
    && IsUnsigned(raw.memberCrc, ZIP32_MAX_VALUE)
    && IsUnsigned(raw.memberStart, ZIP32_MAX_VALUE)
    && IsUnsigned(raw.archiveOffset, ZIP32_MAX_VALUE)
    && IsUnsigned(raw.centralOffset, ZIP32_MAX_VALUE)
    && IsUnsigned(raw.centralIndex, 0xFFFF)
    && (forall b | b in raw.pendingRecord :: IsUnsigned(b, 255))
    && IsUnsigned(raw.pendingOffset, |raw.pendingRecord|)
    && (forall e | e in raw.directory :: EntryInBounds(e))
  }

  /** A checksum register as the number it is stored as, read byte by byte, and back. */
  function NumberOf(register: bv32): (n: nat)
    ensures n <= ZIP32_MAX_VALUE
  {
    LE32OfU32(Split(register));
    U32(Split(register))
  }

  function RegisterOf(n: int): bv32
    requires IsUnsigned(n, ZIP32_MAX_VALUE)
  {
    Join(LE32(n))
  }

  function Split(register: bv32): (s: bytes)
    ensures |s| == 4
  {
    [ByteOf(Lowest(register)), ByteOf(Lowest(register >> 8)), ByteOf(Lowest(register >> 16)), ByteOf(Lowest(register >> 24))]
  }

  function Join(s: bytes): bv32
    requires |s| == 4
  {
    Words(WordFrom(s[0]), WordFrom(s[1]), WordFrom(s[2]), WordFrom(s[3]))
  }

  function Words(first: bv8, second: bv8, third: bv8, fourth: bv8): bv32 {
    (first as bv32) | ((second as bv32) << 8) | ((third as bv32) << 16) | ((fourth as bv32) << 24)
  }

  function Lowest(register: bv32): bv8 {
    (register & 0xFF) as bv8
  }

  function ByteOf(word: bv8): byte {
    word as int
  }

  function WordFrom(b: byte): bv8 {
    b as bv8
  }

  /** Rebuilds a stored cursor, or reports it as corrupt. */
  function ParseZip32Cursor(raw: RawCursor): (r: Result<Cursor, ZipFailure>)
    ensures r.Success? <==> InBounds(raw)
    ensures r.Failure? ==> r.error == BadCursor
  {
    if !InBounds(raw) then Failure(BadCursor)
    else Success(Cursor(
      raw.phase.value, raw.memberIndex, raw.memberOffset, RegisterOf(raw.memberCrc), raw.memberStart,
      raw.archiveOffset, raw.centralOffset, raw.centralIndex,
      ParsedEntries(raw.directory), ParsedBytes(raw.pendingRecord), raw.pendingOffset))
  }

  predicate EntryInBounds(e: RawEntry) {
    IsUnsigned(e.crc, ZIP32_MAX_VALUE) && IsUnsigned(e.offset, ZIP32_MAX_VALUE)
  }

  function ParsedEntries(raws: seq<RawEntry>): (r: seq<DirectoryEntry>)
    requires forall e | e in raws :: EntryInBounds(e)
    ensures |r| == |raws|
    ensures forall i | 0 <= i < |raws| :: raws[i] in raws && r[i] == ParsedEntry(raws[i])
  {
    seq(|raws|, i requires 0 <= i < |raws| => assert raws[i] in raws; ParsedEntry(raws[i]))
  }

  function ParsedEntry(e: RawEntry): DirectoryEntry
    requires EntryInBounds(e)
  {
    DirectoryEntry(RegisterOf(e.crc), e.offset)
  }

  function ParsedBytes(raws: seq<int>): (r: bytes)
    requires forall b | b in raws :: IsUnsigned(b, 255)
    ensures |r| == |raws| && forall i | 0 <= i < |raws| :: r[i] == raws[i]
  {
    seq(|raws|, i requires 0 <= i < |raws| => ParsedByte(raws[i]))
  }

  function ParsedByte(b: int): byte
    requires IsUnsigned(b, 255)
  {
    b
  }

  function Stored(c: Cursor): RawCursor {
    RawCursor(
      Some(c.phase), c.memberIndex, c.memberOffset, NumberOf(c.memberCrc), c.memberStart,
      c.archiveOffset, c.centralOffset, c.centralIndex,
      StoredEntries(c.directory), StoredBytes(c.pendingRecord), c.pendingOffset)
  }

  function StoredEntries(entries: seq<DirectoryEntry>): (r: seq<RawEntry>)
    ensures |r| == |entries|
    ensures forall i | 0 <= i < |entries| :: r[i] == RawEntry(NumberOf(entries[i].crc), entries[i].offset)
  {
    seq(|entries|, i requires 0 <= i < |entries| => RawEntry(NumberOf(entries[i].crc), entries[i].offset))
  }

  function StoredBytes(record: bytes): (r: seq<int>)
    ensures |r| == |record| && forall i | 0 <= i < |record| :: r[i] == record[i]
  {
    seq(|record|, i requires 0 <= i < |record| => record[i] as int)
  }

  lemma WordsSplit(first: bv8, second: bv8, third: bv8, fourth: bv8)
    ensures var register := Words(first, second, third, fourth);
            && Lowest(register) == first && Lowest(register >> 8) == second
            && Lowest(register >> 16) == third && Lowest(register >> 24) == fourth
  {
  }

  lemma WordsJoin(register: bv32)
    ensures Words(Lowest(register), Lowest(register >> 8), Lowest(register >> 16), Lowest(register >> 24)) == register
  {
  }

  lemma WordSurvives(word: bv8)
    ensures WordFrom(ByteOf(word)) == word
  {
    Crc32.BackToWord(word, ByteOf(word));
  }

  lemma ByteSurvives(b: byte)
    ensures ByteOf(WordFrom(b)) == b
  {
    var word := Crc32.WordOf(b);
    Crc32.BackToWord(word, b);
  }

  lemma RegisterSurvives(register: bv32)
    ensures RegisterOf(NumberOf(register)) == register
  {
    hide Lowest, Words, ByteOf, WordFrom, U32, LE32;
    LE32OfU32(Split(register));
    WordSurvives(Lowest(register));
    WordSurvives(Lowest(register >> 8));
    WordSurvives(Lowest(register >> 16));
    WordSurvives(Lowest(register >> 24));
    WordsJoin(register);
  }

  lemma SplitOfWords(first: bv8, second: bv8, third: bv8, fourth: bv8)
    ensures Split(Words(first, second, third, fourth)) == [ByteOf(first), ByteOf(second), ByteOf(third), ByteOf(fourth)]
  {
    WordsSplit(first, second, third, fourth);
    hide Words, Lowest, ByteOf;
  }

  lemma SplitOfJoin(s: bytes)
    requires |s| == 4
    ensures Split(Join(s)) == s
  {
    hide Words, Split, ByteOf, WordFrom;
    SplitOfWords(WordFrom(s[0]), WordFrom(s[1]), WordFrom(s[2]), WordFrom(s[3]));
    ByteSurvives(s[0]);
    ByteSurvives(s[1]);
    ByteSurvives(s[2]);
    ByteSurvives(s[3]);
  }

  lemma NumberSurvives(n: int)
    requires IsUnsigned(n, ZIP32_MAX_VALUE)
    ensures NumberOf(RegisterOf(n)) == n
  {
    hide Split, Join, U32, LE32;
    SplitOfJoin(LE32(n));
    U32OfLE32(n);
  }

  lemma EntriesSurvive(entries: seq<DirectoryEntry>)
    requires forall e | e in entries :: e.offset <= ZIP32_MAX_VALUE
    ensures forall e | e in StoredEntries(entries) :: EntryInBounds(e)
    ensures ParsedEntries(StoredEntries(entries)) == entries
  {
    hide NumberOf, RegisterOf, StoredEntries, ParsedEntries;
    var raws := StoredEntries(entries);
    forall e | e in raws
      ensures EntryInBounds(e)
    {
      var i :| 0 <= i < |entries| && e == raws[i];
      assert entries[i] in entries;
    }
    forall i | 0 <= i < |entries|
      ensures ParsedEntries(raws)[i] == entries[i]
    {
      RegisterSurvives(entries[i].crc);
    }
  }

  /** Any cursor whose numbers fit their fields comes back from storage unchanged. */
  lemma StoredCursorParses(c: Cursor)
    requires c.memberIndex <= 0xFFFF && c.centralIndex <= 0xFFFF
    requires c.memberOffset <= ZIP32_MAX_VALUE && c.memberStart <= ZIP32_MAX_VALUE
    requires c.archiveOffset <= ZIP32_MAX_VALUE && c.centralOffset <= ZIP32_MAX_VALUE
    requires c.pendingOffset <= |c.pendingRecord|
    requires forall e | e in c.directory :: e.offset <= ZIP32_MAX_VALUE
    ensures ParseZip32Cursor(Stored(c)) == Success(c)
  {
    hide NumberOf, RegisterOf, StoredEntries, ParsedEntries, StoredBytes, ParsedBytes;
    EntriesSurvive(c.directory);
    RegisterSurvives(c.memberCrc);
    assert ParsedBytes(StoredBytes(c.pendingRecord)) == c.pendingRecord;
  }

  /** Parsing loses nothing: an accepted document is what storing its cursor gives back. */
  lemma ParsedCursorIsStored(raw: RawCursor)
    requires InBounds(raw)
    ensures Stored(ParseZip32Cursor(raw).value) == raw
  {
    hide NumberOf, RegisterOf, StoredEntries, ParsedEntries, StoredBytes, ParsedBytes;
    var c := ParseZip32Cursor(raw).value;
    NumberSurvives(raw.memberCrc);
    forall i | 0 <= i < |raw.directory|
      ensures StoredEntries(c.directory)[i] == raw.directory[i]
    {
      assert raw.directory[i] in raw.directory;
      NumberSurvives(raw.directory[i].crc);
    }
    assert StoredEntries(c.directory) == raw.directory;
    assert StoredBytes(c.pendingRecord) == raw.pendingRecord;
  }

  lemma ExactIsAnchored(p: Plan, c: Cursor)
    requires Exact(p, c)
    ensures Anchored(|p.payloads|, c) && c.directory <= p.entries && c.pendingOffset <= |c.pendingRecord|
  {
  }

  /** Every cursor a run can reach passes the storage checks and resumes as itself. */
  lemma ReachableCursorParses(members: seq<Member>, payloads: seq<bytes>, c: Cursor)
    requires AcceptsArchive(members, ZIP32_MAX_VALUE)
    requires Matches(members, payloads) && Exact(PlanOf(members, payloads), c)
    ensures ParseZip32Cursor(Stored(c)) == Success(c)
  {
    PlanDescribes(members, payloads);
    ExactCursorParses(members, PlanOf(members, payloads), c);
  }

  lemma ExactCursorParses(members: seq<Member>, p: Plan, c: Cursor)
    requires AcceptsArchive(members, ZIP32_MAX_VALUE)
    requires Describes(p, members) && Exact(p, c)
    ensures ParseZip32Cursor(Stored(c)) == Success(c)
  {
    hide Exact, ParseZip32Cursor, Stored, Whole, Emitted;
    WholeSize(members, p);
    EmittedIsPrefix(p, c);
    ExactIsAnchored(p, c);
    forall e | e in c.directory
      ensures e.offset <= ZIP32_MAX_VALUE
    {
      var i :| 0 <= i < |c.directory| && c.directory[i] == e;
      EntryOffsetFits(members, p, i);
    }
    StoredCursorParses(c);
  }

  lemma EntryOffsetFits(members: seq<Member>, p: Plan, i: nat)
    requires Describes(p, members) && i < |members|
    ensures p.entries[i].offset <= |Whole(p)|
  {
    assert PieceOf(p, members[i], i);
    LocalSectionGrows(p, i, |p.payloads|);
  }
}
