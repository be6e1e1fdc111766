/** Slicing the archive stream into fixed multipart parts, with compare-and-set checkpoints and retries. */
module PackedExport {
  import opened Bytes
  import opened ZipPlan
  import opened ZipFormat
  import opened ZipWriter
  import opened ZipRuns
  import Crc32

  const MAX_EXPORT_FILE_COUNT := 10_000
  const MAX_EXPORT_ARCHIVE_BYTES := 2_000_000_000
  const MAX_EXPORT_MANIFEST_BYTES := 33_554_432
  const EXPORT_PART_BYTES := 5_242_880
  const EXPORT_STEP_OUTPUT_BYTES := 1_048_576
  const EXPORT_STEP_SOURCE_BYTES := 1_048_576
  const EXPORT_STEP_SOURCE_READS := 16

  const MANIFEST_NAME: bytes := [109, 97, 110, 105, 102, 101, 115, 116, 46, 106, 115, 111, 110]
  const FILES_PREFIX: bytes := [102, 105, 108, 101, 115, 47]

  /** One captured live file: its canonical path as UTF-8 and its exact payload size. */
  datatype ExportFile = ExportFile(path: bytes, size: int)

  datatype ExportFailure = SourceUnavailable | LimitsExceeded | StorageUnavailable

  datatype Status = Active | Complete(size: nat) | Failed(failure: ExportFailure)

  datatype PackedExportPart = PackedExportPart(partNumber: nat, etag: nat)

  datatype StoredPart = StoredPart(etag: nat, data: bytes)

  /** One upload attempt that left the service, whether or not it was answered. */
  datatype Sent = Sent(uploadId: nat, partNumber: nat, data: bytes)

  /** How a storage call ends: answered, refused without effect, or carried out with the answer lost. */
  datatype Reply = Accepted | Refused | Lost

  /** How a compare-and-set ends: saved, missed, or saved just before the process died. */
  datatype Swap = Saved | Missed | Crashed

  datatype StoreFailure = Unavailable | Rejected

  /** Everything the outside world decides during one batch. */
  datatype Environment = Environment(
    create: Reply, attach: Swap, put: Reply, checkpoint: Swap, head: Reply, complete: Reply, publish: Swap,
    manifest: (nat, nat, nat) -> Answer,
    source: (nat, nat, nat, nat) -> Answer)

  /** A source error is retried later only when it is a storage failure. */
  const STORAGE_FAILURE := 0
  const SOURCE_FAILURE := 1

  function SourceError(answer: Answer): Answer {
    if answer.Throws? && answer.code != STORAGE_FAILURE then Throws(SOURCE_FAILURE) else answer
  }

  /** Member 0 is the manifest; member `i + 1` is captured file `i`. */
  function BatchReader(env: Environment): Reader {
    (call: nat, member: nat, offset: nat, length: nat) =>
      if member == 0 then env.manifest(call, offset, length)
      else SourceError(env.source(call, member - 1, offset, length))
  }

  predicate Calm(env: Environment) {
    env.create == env.put == env.head == env.complete == Accepted
    && env.attach == env.checkpoint == env.publish == Saved
  }

  function ClassifyFailure(failure: ZipFailure): ExportFailure {
    match failure
    case SourceThrew(code) => if code == SOURCE_FAILURE then SourceUnavailable else StorageUnavailable
    case InvalidRange => SourceUnavailable
    case LimitExceeded | UnsafePath | NameTooLong | InvalidSize => LimitsExceeded
    case InvalidLimits | BadCursor => StorageUnavailable
  }

  function MembersOf(manifestSize: int, files: seq<ExportFile>): seq<Member> {
    [Member(MANIFEST_NAME, manifestSize)]
    + seq(|files|, i requires 0 <= i < |files| => Member(FILES_PREFIX + files[i].path, files[i].size))
  }

  function ArchiveMembers(manifestSize: int, files: seq<ExportFile>): (r: Result<seq<Member>, ZipFailure>)
    ensures r.Success? <==> 1 <= manifestSize <= MAX_EXPORT_MANIFEST_BYTES && |files| <= MAX_EXPORT_FILE_COUNT
    ensures r.Failure? ==> ClassifyFailure(r.error) == LimitsExceeded
    ensures r.Success? ==> |r.value| == |files| + 1 && r.value[0] == Member(MANIFEST_NAME, manifestSize)
    ensures r.Success? ==> forall i | 0 <= i < |files| :: r.value[i + 1] == Member(FILES_PREFIX + files[i].path, files[i].size)
  {
    if manifestSize < 1 || manifestSize > MAX_EXPORT_MANIFEST_BYTES then Failure(LimitExceeded)
    else
      var members := MembersOf(manifestSize, files);
      if |members| > MAX_EXPORT_FILE_COUNT + 1 then Failure(LimitExceeded) else Success(members)
  }

  /** The snapshot is within the product limits. */
  predicate Fits(manifestSize: int, files: seq<ExportFile>) {
    && 1 <= manifestSize <= MAX_EXPORT_MANIFEST_BYTES
    && |files| <= MAX_EXPORT_FILE_COUNT
    && AcceptsArchive(MembersOf(manifestSize, files), MAX_EXPORT_ARCHIVE_BYTES)
  }

  // ---- Parts of one archive ----

  function Min(a: nat, b: nat): nat {
    if a <= b then a else b
  }

  /** Where part `k` (counted from 0) begins, clipped to the archive. */
  function PartStart(a: bytes, k: nat): (at: nat)
    ensures at <= |a|
  {
    Min(k * EXPORT_PART_BYTES, |a|)
  }

  lemma PartsAreOrdered(a: bytes, k: nat)
    ensures PartStart(a, k) <= PartStart(a, k + 1)
  {
  }

  /** The bytes of part `k` of an archive: full parts, then one shorter last part. */
  function PartBytes(a: bytes, k: nat): bytes {
    PartsAreOrdered(a, k);
    a[PartStart(a, k)..PartStart(a, k + 1)]
  }

  function FirstParts(a: bytes, n: nat): (r: seq<bytes>)
    ensures |r| == n
  {
    seq(n, k requires 0 <= k < n => PartBytes(a, k))
  }

  /** The first `n` parts join to the archive prefix they cover. */
  lemma {:induction false} PartsJoin(a: bytes, n: nat)
    ensures Flatten(FirstParts(a, n)) == a[..PartStart(a, n)]
    decreases n
  {
    if n > 0 {
      PartsJoin(a, n - 1);
      PartsAreOrdered(a, n - 1);
      assert FirstParts(a, n)[..n - 1] == FirstParts(a, n - 1);
    } else {
      assert PartStart(a, 0) == 0;
    }
  }

  /** Accepted parts and the remainder cover the archive exactly up to `offset`. */
  ghost predicate Covers(a: bytes, offset: nat, done: bool, parts: nat, pending: bytes) {
    && offset <= |a|
    && (done ==> offset == |a|)
    && |pending| < EXPORT_PART_BYTES
    && pending == a[Min(parts * EXPORT_PART_BYTES, offset)..offset]
    && (parts * EXPORT_PART_BYTES > offset ==> done && (parts - 1) * EXPORT_PART_BYTES < offset)
  }

  /** Accepted parts followed by the remainder are the archive prefix. */
  lemma CoveredPrefix(a: bytes, offset: nat, done: bool, parts: nat, pending: bytes)
    requires Covers(a, offset, done, parts, pending)
    ensures Flatten(FirstParts(a, parts)) + pending == a[..offset]
  {
    PartsJoin(a, parts);
  }

  /** Every part but the last one is full; the last is full whenever bytes remain pending or unwritten. */
  lemma CoveredPartsAreFull(a: bytes, offset: nat, done: bool, parts: nat, pending: bytes, k: nat)
    requires Covers(a, offset, done, parts, pending) && k < parts
    ensures k + 1 < parts || !done || pending != [] ==> |PartBytes(a, k)| == EXPORT_PART_BYTES
    ensures 0 < |PartBytes(a, k)| <= EXPORT_PART_BYTES
  {
    assert (k + 1) * EXPORT_PART_BYTES == k * EXPORT_PART_BYTES + EXPORT_PART_BYTES;
    assert k + 1 < parts ==> (k + 1) * EXPORT_PART_BYTES <= (parts - 1) * EXPORT_PART_BYTES;
  }

  /** A full part cut from the front of the combined bytes is the next part of the archive. */
  lemma CutFullPart(a: bytes, offset: nat, next: nat, done: bool, parts: nat, pending: bytes, output: bytes)
    requires Covers(a, offset, false, parts, pending)
    requires offset <= next <= |a| && output == a[offset..next] && (done ==> next == |a|)
    requires EXPORT_PART_BYTES <= |pending + output| < 2 * EXPORT_PART_BYTES
    ensures (pending + output)[..EXPORT_PART_BYTES] == PartBytes(a, parts)
    ensures Covers(a, next, done, parts + 1, (pending + output)[EXPORT_PART_BYTES..])
  {
    assert pending + output == a[parts * EXPORT_PART_BYTES..next];
  }

  /** The short rest of a finished archive is its last part. */
  lemma CutLastPart(a: bytes, offset: nat, parts: nat, pending: bytes, output: bytes)
    requires exists done :: Covers(a, offset, done, parts, pending)
    requires parts * EXPORT_PART_BYTES <= offset
    requires output == a[offset..] && 0 < |pending + output| < EXPORT_PART_BYTES
    ensures pending + output == PartBytes(a, parts)
    ensures Covers(a, |a|, true, parts + 1, [])
  {
    assert pending + output == a[parts * EXPORT_PART_BYTES..];
  }

  /** Whichever of the two cuts applies, the part sent is the next part of the archive. */
  lemma CutNextPart(a: bytes, offset: nat, next: nat, done: bool, parts: nat, pending: bytes, output: bytes)
    requires Covers(a, offset, false, parts, pending)
    requires offset <= next <= |a| && output == a[offset..next] && (done ==> next == |a|)
    requires |output| <= EXPORT_STEP_OUTPUT_BYTES
    requires |pending + output| >= EXPORT_PART_BYTES || (done && |pending + output| > 0)
    ensures var size := Min(|pending + output|, EXPORT_PART_BYTES);
            && (pending + output)[..size] == PartBytes(a, parts)
            && Covers(a, next, done, parts + 1, (pending + output)[size..])
  {
    hide PartBytes;
    if |pending + output| >= EXPORT_PART_BYTES {
      CutFullPart(a, offset, next, done, parts, pending, output);
    } else {
      CutLastPart(a, offset, parts, pending, output);
    }
  }

  lemma KeepPending(a: bytes, offset: nat, next: nat, done: bool, parts: nat, pending: bytes, output: bytes)
    requires Covers(a, offset, false, parts, pending)
    requires offset <= next <= |a| && output == a[offset..next] && (done ==> next == |a|)
    requires |pending + output| < EXPORT_PART_BYTES
    ensures Covers(a, next, done, parts, pending + output)
  {
  }

  // ---- The collaborators ----

  /** Receipt `k` names part `k + 1` as last written; every part but the last is full. */
  predicate ReceiptHolds(parts: map<(nat, nat), StoredPart>, uploadId: nat, receipts: seq<PackedExportPart>, k: nat)
    requires k < |receipts|
  {
    && receipts[k].partNumber == k + 1
    && (uploadId, k + 1) in parts
    && parts[(uploadId, k + 1)].etag == receipts[k].etag
    && (k + 1 < |receipts| ==> |parts[(uploadId, k + 1)].data| == EXPORT_PART_BYTES)
  }

  predicate ReceiptsHold(parts: map<(nat, nat), StoredPart>, uploadId: nat, receipts: seq<PackedExportPart>) {
    forall k: nat | k < |receipts| :: ReceiptHolds(parts, uploadId, receipts, k)
  }

  function PartData(parts: map<(nat, nat), StoredPart>, uploadId: nat, receipts: seq<PackedExportPart>): (r: seq<bytes>)
    requires ReceiptsHold(parts, uploadId, receipts)
    ensures |r| == |receipts|
  {
    seq(|receipts|, k requires 0 <= k < |receipts| =>
      assert ReceiptHolds(parts, uploadId, receipts, k); parts[(uploadId, k + 1)].data)
  }

  /** Dedicated multipart object storage for one archive key. */
  class ArchiveStore {
    var nextId: nat
    var live: set<nat>
    var parts: map<(nat, nat), StoredPart>
    var finished: Option<bytes>
    ghost var sent: seq<Sent>

    /** Identifiers handed out are never handed out again. */
    ghost predicate Valid()
      reads this
    {
      forall id | id in live :: id < nextId
    }

    constructor ()
      ensures Valid() && live == {} && parts == map[] && finished == None && sent == [] && nextId == 0
    {
      nextId, live, parts, finished, sent := 0, {}, map[], None, [];
    }

    method Create(reply: Reply) returns (r: Result<nat, StoreFailure>)
      requires Valid()
      modifies this
      ensures Valid()
      ensures r.Success? <==> reply == Accepted
      ensures r.Success? ==> r.value in live && r.value !in old(live)
      ensures old(live) <= live
      ensures parts == old(parts) && finished == old(finished) && sent == old(sent)
    {
      if reply == Refused {
        return Failure(Unavailable);
      }
      var id := nextId;
      nextId, live := id + 1, live + {id};
      return if reply == Accepted then Success(id) else Failure(Unavailable);
    }

    method PutPart(uploadId: nat, partNumber: nat, data: bytes, reply: Reply)
      returns (r: Result<PackedExportPart, StoreFailure>)
      requires Valid()
      modifies this
      ensures Valid()
      ensures sent == old(sent) + [Sent(uploadId, partNumber, data)]
      ensures live == old(live) && finished == old(finished)
      ensures r.Success? <==> uploadId in live && reply == Accepted
      ensures r == Failure(Rejected) <==> uploadId !in live
      ensures r.Success? ==>
        && r.value.partNumber == partNumber
        && (uploadId, partNumber) in parts && parts[(uploadId, partNumber)] == StoredPart(r.value.etag, data)
      ensures forall key | key in old(parts) && key != (uploadId, partNumber) ::
        key in parts && parts[key] == old(parts)[key]
    {
      sent := sent + [Sent(uploadId, partNumber, data)];
      if uploadId !in live {
        return Failure(Rejected);
      }
      if reply == Refused {
        return Failure(Unavailable);
      }
      var etag := nextId;
      nextId := nextId + 1;
      parts := parts[(uploadId, partNumber) := StoredPart(etag, data)];
      return if reply == Accepted then Success(PackedExportPart(partNumber, etag)) else Failure(Unavailable);
    }

    method CompleteUpload(uploadId: nat, receipts: seq<PackedExportPart>, reply: Reply)
      returns (r: Result<nat, StoreFailure>)
      requires Valid()
      modifies this
      ensures Valid()
      ensures sent == old(sent) && parts == old(parts) && nextId == old(nextId)
      ensures r == Failure(Rejected) <==> !(uploadId in old(live) && ReceiptsHold(parts, uploadId, receipts))
      ensures r.Success? ==> reply == Accepted && finished.Some? && r.value == |finished.value|
      ensures r != Failure(Rejected) && reply == Accepted ==> r.Success?
      ensures if r == Failure(Rejected) || reply == Refused
              then finished == old(finished) && live == old(live)
              else finished == Some(Flatten(PartData(parts, uploadId, receipts))) && live == old(live) - {uploadId}
    {
      if uploadId !in live {
        return Failure(Rejected);
      }
      var chunks: seq<bytes> := [];
      for k := 0 to |receipts|
        invariant |chunks| == k
        invariant forall j: nat | j < k :: ReceiptHolds(parts, uploadId, receipts, j) && chunks[j] == parts[(uploadId, j + 1)].data
      {
        if !ReceiptHolds(parts, uploadId, receipts, k) {
          return Failure(Rejected);
        }
        chunks := chunks + [parts[(uploadId, k + 1)].data];
      }
      assert chunks == PartData(parts, uploadId, receipts);
      if reply == Refused {
        return Failure(Unavailable);
      }
      var size := TotalLength(chunks);
      var joined := Concatenate(chunks, size);
      finished, live := Some(joined), live - {uploadId};
      return if reply == Accepted then Success(size) else Failure(Unavailable);
    }

    method Abort(uploadId: nat)
      requires Valid()
      modifies this
      ensures Valid()
      ensures live == old(live) - {uploadId}
      ensures parts == old(parts) && finished == old(finished) && sent == old(sent)
    {
      live := live - {uploadId};
    }
  }

  method TotalLength(chunks: seq<bytes>) returns (n: nat)
    ensures n == |Flatten(chunks)|
  {
    n := 0;
    for k := 0 to |chunks|
      invariant n == |Flatten(chunks[..k])|
    {
      FlattenStep(chunks, k);
      n := n + |chunks[k]|;
    }
    assert chunks[..|chunks|] == chunks;
  }

  /** The durable row of one export: pinned snapshot metadata and the last saved checkpoint. */
  class ExportRow {
    const manifestSize: int
    const files: seq<ExportFile>
    var status: Status
    var uploadId: Option<nat>
    var zipState: Option<RawCursor>
    var pendingPart: bytes
    var completedParts: seq<PackedExportPart>

    constructor (manifestSize: int, files: seq<ExportFile>)
      ensures this.manifestSize == manifestSize && this.files == files
      ensures status == Active && uploadId == None && zipState == None && pendingPart == [] && completedParts == []
    {
      this.manifestSize, this.files := manifestSize, files;
      status, uploadId, zipState, pendingPart, completedParts := Active, None, None, [], [];
    }

    /** Saves a checkpoint only at the observed cursor. */
    method Checkpoint(observed: Option<RawCursor>, next: Option<RawCursor>, pending: bytes, parts: seq<PackedExportPart>, swap: Swap)
      returns (saved: bool)
      modifies this`zipState, this`pendingPart, this`completedParts
      ensures saved <==> swap == Saved && old(zipState) == observed
      ensures swap != Missed && old(zipState) == observed ==>
        zipState == next && pendingPart == pending && completedParts == parts
      ensures !(swap != Missed && old(zipState) == observed) ==>
        zipState == old(zipState) && pendingPart == old(pendingPart) && completedParts == old(completedParts)
    {
      if swap == Missed || zipState != observed {
        return false;
      }
      zipState, pendingPart, completedParts := next, pending, parts;
      return swap == Saved;
    }

    method AttachUpload(observed: Option<RawCursor>, id: nat, swap: Swap) returns (saved: bool)
      modifies this`uploadId
      ensures saved <==> swap == Saved && zipState == observed && old(uploadId).None?
      ensures uploadId == if swap != Missed && zipState == observed && old(uploadId).None? then Some(id) else old(uploadId)
    {
      if swap == Missed || zipState != observed || uploadId.Some? {
        return false;
      }
      uploadId := Some(id);
      return swap == Saved;
    }
  }

  // ---- The service ----

  /** The cursor a batch resumes from: the saved one, or a fresh one before the first checkpoint. */
  function Resumed(members: seq<Member>, zipState: Option<RawCursor>): Result<Cursor, ZipFailure> {
    if zipState.Some? then ParseZip32Cursor(zipState.value) else Success(StartCursor(members))
  }

  /** Every receipt names a stored part, and that part holds its slice of the archive. */
  ghost predicate Receipted(a: bytes, parts: map<(nat, nat), StoredPart>, uploadId: nat, receipts: seq<PackedExportPart>) {
    forall k: nat | k < |receipts| :: ReceiptedAt(a, parts, uploadId, receipts, k)
  }

  ghost predicate ReceiptedAt(
      a: bytes, parts: map<(nat, nat), StoredPart>, uploadId: nat, receipts: seq<PackedExportPart>, k: nat)
    requires k < |receipts|
  {
    && receipts[k].partNumber == k + 1
    && (uploadId, k + 1) in parts
    && parts[(uploadId, k + 1)] == StoredPart(receipts[k].etag, PartBytes(a, k))
  }

  /** Writing under a new part number disturbs no receipt. */
  lemma ReceiptedStays(
      a: bytes, before: map<(nat, nat), StoredPart>, after: map<(nat, nat), StoredPart>, uploadId: nat,
      receipts: seq<PackedExportPart>)
    requires Receipted(a, before, uploadId, receipts)
    requires forall key | key in before && key != (uploadId, |receipts| + 1) :: key in after && after[key] == before[key]
    ensures Receipted(a, after, uploadId, receipts)
  {
    hide PartBytes, ReceiptedAt;
    forall k: nat | k < |receipts|
      ensures ReceiptedAt(a, after, uploadId, receipts, k)
    {
      assert ReceiptedAt(a, before, uploadId, receipts, k);
      OneReceiptStays(a, before, after, uploadId, receipts, k);
    }
  }

  lemma OneReceiptStays(
      a: bytes, before: map<(nat, nat), StoredPart>, after: map<(nat, nat), StoredPart>, uploadId: nat,
      receipts: seq<PackedExportPart>, k: nat)
    requires k < |receipts| && ReceiptedAt(a, before, uploadId, receipts, k)
    requires forall key | key in before && key != (uploadId, |receipts| + 1) :: key in after && after[key] == before[key]
    ensures ReceiptedAt(a, after, uploadId, receipts, k)
  {
    hide PartBytes;
    var key := (uploadId, k + 1);
    assert key in before && key != (uploadId, |receipts| + 1);
  }

  /** Storing the next part under a new number keeps every earlier receipt and adds its own. */
  lemma ReceiptedOneMore(
      a: bytes, parts: map<(nat, nat), StoredPart>, uploadId: nat, receipts: seq<PackedExportPart>, part: PackedExportPart)
    requires Receipted(a, parts, uploadId, receipts)
    requires part.partNumber == |receipts| + 1 && (uploadId, part.partNumber) in parts
    requires parts[(uploadId, part.partNumber)] == StoredPart(part.etag, PartBytes(a, |receipts|))
    ensures Receipted(a, parts, uploadId, receipts + [part])
  {
    hide PartBytes;
    var all := receipts + [part];
    forall k: nat | k < |all|
      ensures ReceiptedAt(a, parts, uploadId, all, k)
    {
      if k < |receipts| {
        assert ReceiptedAt(a, parts, uploadId, receipts, k);
      }
    }
  }

  /** Every upload attempt for part `k`, accepted or not, carried the same slice of the archive. */
  ghost predicate SendsOnlyParts(a: bytes, sent: seq<Sent>) {
    forall i | 0 <= i < |sent| :: sent[i].partNumber >= 1 && sent[i].data == PartBytes(a, sent[i].partNumber - 1)
  }

  lemma SendsOneMore(a: bytes, sent: seq<Sent>, uploadId: nat, k: nat, data: bytes)
    requires SendsOnlyParts(a, sent) && data == PartBytes(a, k)
    ensures SendsOnlyParts(a, sent + [Sent(uploadId, k + 1, data)])
  {
  }

  /** The checkpoint and the stored parts agree with the archive prefix at cursor `c`. */
  ghost predicate Agrees(p: Plan, c: Cursor, pending: bytes, parts: nat) {
    Exact(p, c) && Covers(Whole(p), c.archiveOffset, IsZip32Complete(c), parts, pending)
  }

  lemma DescribedSizes(p: Plan, members: seq<Member>)
    requires Describes(p, members)
    ensures Sizes(p) == MemberSizes(members)
  {
    forall i: nat | i < |members|
      ensures members[i].size == |p.payloads[i]|
    {
      assert PieceOf(p, members[i], i);
    }
  }

  /** One step's output extends the covered prefix; nothing else is said about how much was read. */
  lemma StepExtends(p: Plan, c: Cursor, next: Cursor, output: bytes)
    requires Exact(p, c) && Exact(p, next) && Emitted(p, next) == Emitted(p, c) + output
    ensures c.archiveOffset <= next.archiveOffset <= |Whole(p)|
    ensures output == Whole(p)[c.archiveOffset..next.archiveOffset]
    ensures IsZip32Complete(next) ==> next.archiveOffset == |Whole(p)|
  {
    hide Exact, Whole;
    EmittedIsPrefix(p, c);
    EmittedIsPrefix(p, next);
    assert |Emitted(p, c)| == c.archiveOffset && |Emitted(p, next)| == next.archiveOffset;
    assert Emitted(p, next)[|Emitted(p, c)|..] == output;
  }

  /** Receipts that cover an archive to its end are the ones the store accepts, and their data is the archive. */
  lemma CoveredReceiptsJoin(
      a: bytes, offset: nat, parts: map<(nat, nat), StoredPart>, uploadId: nat, receipts: seq<PackedExportPart>)
    requires Covers(a, offset, true, |receipts|, [])
    requires Receipted(a, parts, uploadId, receipts)
    ensures ReceiptsHold(parts, uploadId, receipts)
    ensures Flatten(PartData(parts, uploadId, receipts)) == a
  {
    hide PartBytes, PartStart, Flatten;
    forall k: nat | k < |receipts|
      ensures ReceiptHolds(parts, uploadId, receipts, k)
    {
      assert ReceiptedAt(a, parts, uploadId, receipts, k);
      CoveredPartsAreFull(a, offset, true, |receipts|, [], k);
    }
    CoveredPrefix(a, offset, true, |receipts|, []);
    DataIsParts(a, parts, uploadId, receipts);
    assert a[..|a|] == a;
  }

  lemma DataIsParts(a: bytes, parts: map<(nat, nat), StoredPart>, uploadId: nat, receipts: seq<PackedExportPart>)
    requires Receipted(a, parts, uploadId, receipts) && ReceiptsHold(parts, uploadId, receipts)
    ensures PartData(parts, uploadId, receipts) == FirstParts(a, |receipts|)
  {
    hide PartBytes;
    forall k: nat | k < |receipts|
      ensures PartData(parts, uploadId, receipts)[k] == FirstParts(a, |receipts|)[k]
    {
      assert ReceiptedAt(a, parts, uploadId, receipts, k) && ReceiptHolds(parts, uploadId, receipts, k);
    }
  }

  /** With every byte accepted, the stored parts join to the whole archive. */
  lemma ReceiptedPartsJoin(
      p: Plan, c: Cursor, parts: map<(nat, nat), StoredPart>, uploadId: nat, receipts: seq<PackedExportPart>)
    requires Agrees(p, c, [], |receipts|) && IsZip32Complete(c)
    requires Receipted(Whole(p), parts, uploadId, receipts)
    ensures ReceiptsHold(parts, uploadId, receipts)
    ensures Flatten(PartData(parts, uploadId, receipts)) == Whole(p)
  {
    var a := Whole(p);
    hide Whole, Exact, PartBytes, PartStart;
    CoveredReceiptsJoin(a, c.archiveOffset, parts, uploadId, receipts);
  }

  lemma ExactIsResumable(p: Plan, members: seq<Member>, c: Cursor)
    requires ValidMembers(members) && Describes(p, members) && Exact(p, c)
    ensures Resumable(members, c)
  {
    DescribedSizes(p, members);
  }

  /** The failure reports a read that was not answered with the pinned bytes. */
  ghost predicate BlamesSource(failure: ExportFailure, env: Environment) {
    exists cause :: Blames(cause, BatchReader(env)) && cause != SourceThrew(STORAGE_FAILURE) && ClassifyFailure(cause) == failure
  }

  /** Appends one output chunk to the saved remainder. */
  method AppendBytes(left: bytes, right: bytes) returns (joined: bytes)
    ensures joined == left + right
  {
    var buffer := new byte[|left| + |right|](_ => 0);
    forall i | 0 <= i < |left| {
      buffer[i] := left[i];
    }
    forall i | 0 <= i < |right| {
      buffer[|left| + i] := right[i];
    }
    joined := buffer[..];
  }

  /** Coordinates bounded continuation of one pinned export. */
  class PackedExportService {
    const row: ExportRow
    const store: ArchiveStore
    /** The layout of the archive the pinned snapshot makes. */
    ghost const plan: Plan

    /** Binds a freshly captured row, whose pinned sizes are the sizes of the pinned payloads. */
    constructor (row: ExportRow, store: ArchiveStore, ghost payloads: seq<bytes>)
      requires row.status == Active && row.uploadId == None && row.zipState == None
      requires row.pendingPart == [] && row.completedParts == []
      requires store.Valid() && store.finished == None && store.sent == []
      requires Fits(row.manifestSize, row.files) ==> Matches(MembersOf(row.manifestSize, row.files), payloads)
      ensures this.row == row && this.store == store && Valid()
      ensures InsideLimits() ==> Matches(Members(), payloads) && plan == PlanOf(Members(), payloads)
    {
      hide Exact, Emitted, Whole, Describes;
      this.row, this.store := row, store;
      var members := MembersOf(row.manifestSize, row.files);
      this.plan := if Fits(row.manifestSize, row.files) then PlanOf(members, payloads) else Plan([], [], [], [], [], []);
      new;
      if InsideLimits() {
        PlanDescribes(members, payloads);
        FreshCursorIsExact(members, payloads);
        EmittedIsPrefix(plan, StartCursor(members));
      }
    }

    predicate InsideLimits() {
      Fits(row.manifestSize, row.files)
    }

    function Members(): seq<Member> {
      MembersOf(row.manifestSize, row.files)
    }

    ghost predicate Valid()
      reads row, store
    {
      && store.Valid()
      && WellFormed(plan)
      && (InsideLimits() ==> Describes(plan, Members()))
      && SendsOnlyParts(Whole(plan), store.sent)
      && (row.status.Active? ==> if InsideLimits() then Consistent() else Untouched())
      && (row.status.Complete? ==> store.finished == Some(Whole(plan)) && row.status.size == |Whole(plan)|)
    }

    ghost predicate Untouched()
      reads row, store
    {
      row.uploadId.None? && row.zipState.None? && row.pendingPart == [] && row.completedParts == [] && store.sent == []
    }

    /** The durable state of an export still in progress. */
    ghost predicate Consistent()
      reads row, store
    {
      && Resumed(Members(), row.zipState).Success?
      && var c := Resumed(Members(), row.zipState).value;
      && Agrees(plan, c, row.pendingPart, |row.completedParts|)
      && (row.uploadId.None? ==> row.completedParts == [] && store.finished.None?)
      && (row.uploadId.Some? ==> Receipted(Whole(plan), store.parts, row.uploadId.value, row.completedParts))
      && (row.uploadId.Some? && store.finished.None? ==> row.uploadId.value in store.live)
      && (store.finished.Some? ==> store.finished.value == Whole(plan) && IsZip32Complete(c) && row.pendingPart == [])
    }

    /** The archive prefix that survives any crash: accepted parts, then the saved remainder. */
    ghost function Durable(): bytes
      reads row, store
      requires Valid() && InsideLimits() && row.status.Active?
    {
      Flatten(FirstParts(Whole(plan), |row.completedParts|)) + row.pendingPart
    }

    /** Work left before the export settles. */
    ghost function Left(): (n: nat)
      reads row, store
      requires Valid()
      ensures row.status.Active? <==> n > 0
    {
      if !row.status.Active? then 0
      else if !InsideLimits() then 1
      else
        var c := Resumed(Members(), row.zipState).value;
        1 + 2 * (|Whole(plan)| - c.archiveOffset) + |row.pendingPart|
    }

    /** Aborts the known upload and records a typed failure. */
    method FailWork(uploadId: Option<nat>, failure: ExportFailure)
      requires store.Valid()
      modifies row`status, store
      ensures store.Valid() && store.sent == old(store.sent)
      ensures row.status == Failed(failure)
    {
      if uploadId.Some? {
        store.Abort(uploadId.value);
      }
      row.status := Failed(failure);
    }

    /** Loads the snapshot's members and the cursor to resume from; fails exactly outside the product limits. */
    method Load() returns (r: Result<(seq<Member>, Cursor), ZipFailure>)
      requires Valid() && row.status == Active
      ensures r.Success? <==> InsideLimits()
      ensures r.Failure? ==> ClassifyFailure(r.error) == LimitsExceeded
      ensures r.Success? ==> r.value.0 == Members() && Resumed(Members(), row.zipState) == Success(r.value.1)
    {
      var members := ArchiveMembers(row.manifestSize, row.files);
      if members.Failure? {
        return Failure(members.error);
      }
      var cursor: Result<Cursor, ZipFailure>;
      if row.zipState.Some? {
        cursor := ParseZip32Cursor(row.zipState.value);
      } else {
        cursor := CreateZip32Cursor(members.value, MAX_EXPORT_ARCHIVE_BYTES);
      }
      if cursor.Failure? {
        return Failure(cursor.error);
      }
      return Success((members.value, cursor.value));
    }

    /** Work continues: nothing already accepted or sent is taken back. */
    twostate predicate KeepsProgress()
      reads row, store
    {
      && Valid() && row.status == Active
      && old(row.completedParts) <= row.completedParts
      && old(store.sent) <= store.sent
    }

    /** Gives the row a live upload unless it has one already. */
    method EnsureUpload(env: Environment) returns (uploadId: Option<nat>)
      requires Valid() && row.status == Active && InsideLimits()
      modifies row`uploadId, store
      ensures KeepsProgress() && Left() == old(Left())
      ensures uploadId.Some? ==> row.uploadId == uploadId
      ensures Calm(env) ==> uploadId.Some?
      ensures store.sent == old(store.sent) && store.finished == old(store.finished) && store.parts == old(store.parts)
    {
      hide Fits, Exact, Whole, Describes;
      if row.uploadId.Some? {
        return row.uploadId;
      }
      var created := store.Create(env.create);
      if created.Failure? {
        return None;
      }
      var attached := row.AttachUpload(row.zipState, created.value, env.attach);
      if !attached {
        if env.attach == Missed {
          store.Abort(created.value);
        }
        return None;
      }
      return Some(created.value);
    }

    /** What is known about the row between loading the cursor and saving the next checkpoint. */
    ghost predicate Loaded(c: Cursor, uploadId: nat)
      reads row, store
    {
      && Valid() && row.status == Active && InsideLimits()
      && Resumed(Members(), row.zipState) == Success(c)
      && row.uploadId == Some(uploadId)
    }

    /** Sends the next part. Whatever comes back, its bytes are the archive's bytes for that part. */
    method SendPart(c: Cursor, uploadId: nat, data: bytes, env: Environment) returns (part: Result<PackedExportPart, StoreFailure>)
      requires Loaded(c, uploadId) && store.finished == None
      requires data == PartBytes(Whole(plan), |row.completedParts|)
      modifies store
      ensures Loaded(c, uploadId) && store.finished == None && store.live == old(store.live)
      ensures old(store.sent) <= store.sent
      ensures part.Success? <==> env.put == Accepted
      ensures part.Success? ==> Receipted(Whole(plan), store.parts, uploadId, row.completedParts + [part.value])
      ensures part != Failure(Rejected)
    {
      hide Fits, Exact, Whole, Describes, Covers, PartBytes, Receipted;
      var k := |row.completedParts|;
      ghost var before := store.parts;
      SendsOneMore(Whole(plan), store.sent, uploadId, k, data);
      part := store.PutPart(uploadId, k + 1, data, env.put);
      ReceiptedStays(Whole(plan), before, store.parts, uploadId, row.completedParts);
      if part.Success? {
        ReceiptedOneMore(Whole(plan), store.parts, uploadId, row.completedParts, part.value);
      }
    }

    ghost function LeftAt(c: Cursor, pending: bytes): nat
      requires WellFormed(plan) && c.archiveOffset <= |Whole(plan)|
    {
      1 + 2 * (|Whole(plan)| - c.archiveOffset) + |pending|
    }

    /** Saves a checkpoint that agrees with the archive at cursor `next`. */
    method SaveCheckpoint(
        uploadId: nat, zipState: Option<RawCursor>, ghost next: Cursor,
        pending: bytes, parts: seq<PackedExportPart>, env: Environment)
      requires Valid() && row.status == Active && InsideLimits() && row.uploadId == Some(uploadId) && store.finished == None
      requires Resumed(Members(), zipState) == Success(next)
      requires Agrees(plan, next, pending, |parts|)
      requires row.completedParts <= parts && Receipted(Whole(plan), store.parts, uploadId, parts)
      modifies row
      ensures KeepsProgress()
      ensures Left() == old(Left()) || Left() == LeftAt(next, pending)
      ensures env.checkpoint == Saved ==> Left() == LeftAt(next, pending)
    {
      hide Fits, Exact, Whole, Describes, PartBytes, SendsOnlyParts, Receipted, Covers;
      var saved := row.Checkpoint(row.zipState, zipState, pending, parts, env.checkpoint);
    }

    /** A finished stream whose short remainder is not uploaded yet. */
    method PutRemainder(c: Cursor, uploadId: nat, env: Environment)
      requires Loaded(c, uploadId) && IsZip32Complete(c) && row.pendingPart != []
      modifies row, store
      ensures KeepsProgress() && Left() <= old(Left())
      ensures Calm(env) ==> Left() < old(Left())
    {
      hide Fits, Whole, Describes, PartBytes, Exact, SendsOnlyParts, Receipted;
      var pending, parts := row.pendingPart, row.completedParts;
      assert pending + [] == pending;
      CutLastPart(Whole(plan), c.archiveOffset, |parts|, pending, []);
      var part := SendPart(c, uploadId, pending, env);
      if part.Success? {
        SaveCheckpoint(uploadId, row.zipState, c, [], parts + [part.value], env);
      }
    }

    /** The bytes between two cursors of one stream. */
    ghost predicate Advances(c: Cursor, next: Cursor, output: bytes) {
      && Exact(plan, next)
      && Resumed(Members(), Some(Stored(next))) == Success(next)
      && c.archiveOffset < next.archiveOffset <= |Whole(plan)|
      && output == Whole(plan)[c.archiveOffset..next.archiveOffset]
      && |output| <= EXPORT_STEP_OUTPUT_BYTES
      && (IsZip32Complete(next) ==> next.archiveOffset == |Whole(plan)|)
    }

    /** One bounded step of the stream. */
    method TakeStep(table: seq<bv32>, c: Cursor, env: Environment) returns (r: Result<StepResult, ZipFailure>)
      requires Crc32.IsTable(table)
      requires InsideLimits() && Describes(plan, Members()) && Exact(plan, c) && !IsZip32Complete(c)
      requires Truthful(BatchReader(env), plan.payloads)
      ensures r.Success? ==> Advances(c, r.value.cursor, r.value.output)
      ensures r.Failure? ==> Blames(r.error, BatchReader(env)) && !Faithful(BatchReader(env), plan.payloads)
    {
      var members := Members();
      ExactIsResumable(plan, members, c);
      var limits := Limits(EXPORT_STEP_OUTPUT_BYTES, EXPORT_STEP_SOURCE_READS, EXPORT_STEP_SOURCE_BYTES);
      assert ValidLimits(limits) && Honest(plan, members, c, BatchReader(env));
      hide Whole, Describes, Exact, Emitted, Blames, Truthful, Faithful, BatchReader, IsZip32Complete, Resumable, Honest, MembersOf;
      r := AdvanceZip32(table, members, c, BatchReader(env), limits, plan);
      if r.Success? {
        StepExtends(plan, c, r.value.cursor, r.value.output);
        ExactCursorParses(members, plan, r.value.cursor);
      }
    }

    /** Sends at most one full or final part and saves the checkpoint after a step. */
    method StoreChunk(c: Cursor, next: Cursor, output: bytes, uploadId: nat, env: Environment)
      requires Loaded(c, uploadId) && !IsZip32Complete(c) && Advances(c, next, output)
      modifies row, store
      ensures KeepsProgress() && Left() <= old(Left())
      ensures Calm(env) ==> Left() < old(Left())
    {
      hide Fits, Whole, Describes, PartBytes, Exact, SendsOnlyParts, Receipted, IsZip32Complete, Stored;
      assert store.finished == None;
      var a, done := Whole(plan), IsZip32Complete(next);
      var combined := AppendBytes(row.pendingPart, output);
      var parts, pending := row.completedParts, combined;
      if |combined| >= EXPORT_PART_BYTES || (done && |combined| > 0) {
        var partSize := Min(|combined|, EXPORT_PART_BYTES);
        CutNextPart(a, c.archiveOffset, next.archiveOffset, done, |parts|, row.pendingPart, output);
        var part := SendPart(c, uploadId, combined[..partSize], env);
        if part.Failure? {
          return;
        }
        parts := parts + [part.value];
        pending := combined[partSize..];
      } else {
        KeepPending(a, c.archiveOffset, next.archiveOffset, done, |parts|, row.pendingPart, output);
      }
      SaveCheckpoint(uploadId, Some(Stored(next)), next, pending, parts, env);
    }

    /** Publishes the finished archive, or recovers a completion whose answer was lost. */
    method CompleteArchive(c: Cursor, uploadId: nat, env: Environment)
      requires Loaded(c, uploadId) && IsZip32Complete(c) && row.pendingPart == []
      modifies row, store
      ensures Valid() && store.sent == old(store.sent) && row.completedParts == old(row.completedParts)
      ensures row.status == Active || row.status == Complete(|Whole(plan)|)
      ensures row.status == Active ==> Left() == old(Left())
      ensures Calm(env) ==> row.status == Complete(|Whole(plan)|)
    {
      hide Fits, Describes, PartBytes, SendsOnlyParts, Whole, IsZip32Complete;
      ReceiptedPartsJoin(plan, c, store.parts, uploadId, row.completedParts);
      if env.head != Accepted {
        return;
      }
      if store.finished.Some? {
        assert |store.finished.value| == c.archiveOffset;  // the size conflict is never seen
        row.status := if env.publish == Missed then row.status else Complete(c.archiveOffset);
        return;
      }
      var size := store.CompleteUpload(uploadId, row.completedParts, env.complete);
      if size.Success? {
        assert size.value == c.archiveOffset;  // nor the size difference
        row.status := if env.publish == Missed then row.status else Complete(size.value);
      }
    }

    /** The part of a batch that follows loading the cursor and owning an upload. */
    method Continue(table: seq<bv32>, cursor: Cursor, uploadId: nat, env: Environment)
      requires Crc32.IsTable(table) && Loaded(cursor, uploadId)
      requires Truthful(BatchReader(env), plan.payloads)
      modifies row, store
      ensures Valid() && old(store.sent) <= store.sent
      ensures old(row.completedParts) <= row.completedParts
      ensures Left() <= old(Left())
      ensures row.status.Failed? ==> BlamesSource(row.status.failure, env) && !Faithful(BatchReader(env), plan.payloads)
      ensures Calm(env) && Faithful(BatchReader(env), plan.payloads) ==> Left() < old(Left())
    {
      hide Fits, Describes, PartBytes, SendsOnlyParts, Whole, IsZip32Complete, Truthful, Faithful, BatchReader, Blames, Covers;
      assert Exact(plan, cursor);
      hide Exact;
      if IsZip32Complete(cursor) {
        if |row.pendingPart| > 0 {
          PutRemainder(cursor, uploadId, env);
        } else {
          CompleteArchive(cursor, uploadId, env);
        }
        return;
      }
      var step := TakeStep(table, cursor, env);
      if step.Failure? {
        if step.error != SourceThrew(STORAGE_FAILURE) {
          FailWork(Some(uploadId), ClassifyFailure(step.error));
        }
        return;
      }
      StoreChunk(cursor, step.value.cursor, step.value.output, uploadId, env);
    }

    /** Advances the export by one batch. Whatever the storage answers, accepted parts followed by the
        saved remainder stay a prefix of the one archive, and every attempt at part `k` sends the same bytes. */
    method RunOneBatch(table: seq<bv32>, env: Environment)
      requires Crc32.IsTable(table) && Valid()
      requires Truthful(BatchReader(env), plan.payloads)
      modifies row, store
      ensures Valid() && old(store.sent) <= store.sent
      ensures old(row.status) != Active ==> row.status == old(row.status) && store.finished == old(store.finished)
      ensures !InsideLimits() && old(row.status) == Active ==> row.status == Failed(LimitsExceeded) && store.sent == []
      ensures InsideLimits() && old(row.status) == Active ==>
        && old(row.completedParts) <= row.completedParts
        && Left() <= old(Left())
        && (row.status.Failed? ==> BlamesSource(row.status.failure, env) && !Faithful(BatchReader(env), plan.payloads))
        && (Calm(env) && Faithful(BatchReader(env), plan.payloads) ==> Left() < old(Left()))
    {
      if row.status != Active {
        return;
      }
      hide Fits, Describes, PartBytes, SendsOnlyParts, Whole, IsZip32Complete, Truthful, Faithful, BatchReader, BlamesSource,
           Consistent, Covers, Exact;
      var loaded := Load();
      if loaded.Failure? {
        FailWork(row.uploadId, ClassifyFailure(loaded.error));
        return;
      }
      var cursor := loaded.value.1;
      var uploadId := EnsureUpload(env);
      if uploadId.None? {
        return;
      }
      Continue(table, cursor, uploadId.value, env);
    }

    /** The durable state is the archive prefix at the saved cursor, cut into full parts and a remainder. */
    lemma DurableIsPrefix(c: Cursor)
      requires Valid() && InsideLimits() && row.status == Active
      requires Resumed(Members(), row.zipState) == Success(c)
      ensures c.archiveOffset <= |Whole(plan)| && Durable() == Whole(plan)[..c.archiveOffset]
      ensures |row.pendingPart| < EXPORT_PART_BYTES
      ensures forall k: nat | k < |row.completedParts| && (k + 1 < |row.completedParts| || row.pendingPart != []) ::
        |PartBytes(Whole(plan), k)| == EXPORT_PART_BYTES
    {
      hide Whole, Exact, PartBytes, IsZip32Complete;
      var a, parts := Whole(plan), |row.completedParts|;
      CoveredPrefix(a, c.archiveOffset, IsZip32Complete(c), parts, row.pendingPart);
      forall k: nat | k < parts && (k + 1 < parts || row.pendingPart != [])
        ensures |PartBytes(a, k)| == EXPORT_PART_BYTES
      {
        CoveredPartsAreFull(a, c.archiveOffset, IsZip32Complete(c), parts, row.pendingPart, k);
      }
    }

    /** The alarm keeps running batches under any weather. Faults delay the export; they never change it:
        once enough calm batches have run, the stored object is the reference archive. */
    method RunBatches(table: seq<bv32>, weather: nat -> Environment, n: nat)
      requires Crc32.IsTable(table) && Valid() && InsideLimits()
      requires forall i: nat :: Faithful(BatchReader(weather(i)), plan.payloads)
      modifies row, store
      ensures Valid() && old(store.sent) <= store.sent
      ensures forall i, j | 0 <= i < j < |store.sent| && store.sent[i].partNumber == store.sent[j].partNumber ::
        store.sent[i].data == store.sent[j].data
      ensures old(row.status) == Active ==> !row.status.Failed?
      ensures old(row.status) == Active && CalmCount(weather, n) >= old(Left()) ==>
        row.status == Complete(|Whole(plan)|) && store.finished == Some(Whole(plan))
    {
      hide Fits, Describes, PartBytes, Whole, IsZip32Complete, Truthful, Faithful, BatchReader, BlamesSource, Calm,
           Consistent, Covers, Exact;
      for i := 0 to n
        invariant Valid() && old(store.sent) <= store.sent
        invariant old(row.status) == Active ==> !row.status.Failed?
        invariant row.status == Active ==> old(row.status) == Active && Left() + CalmCount(weather, i) <= old(Left())
      {
        FaithfulIsTruthful(BatchReader(weather(i)), plan.payloads);
        RunOneBatch(table, weather(i));
      }
    }
  }

  function CalmCount(weather: nat -> Environment, n: nat): nat {
    if n == 0 then 0 else CalmCount(weather, n - 1) + if Calm(weather(n - 1)) then 1 else 0
  }

  lemma FaithfulIsTruthful(reader: Reader, payloads: seq<bytes>)
    requires Faithful(reader, payloads)
    ensures Truthful(reader, payloads)
  {
  }
}
