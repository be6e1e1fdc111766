/** Flushing the outgoing queue: what may be discarded before a first send, and what is never overtaken. */
module Publication {
  import opened Bytes
  import opened DeviceState
  import opened OperationQueue
  import opened JournalSteps
  import opened JournalCustody
  import opened JournalOrder
  import opened DeviceJournal

  // ---- Checking a queued put against the local file ----

  /** The local file as the flush sees it. */
  datatype Local =
    | Missing
    | Oversized
    | Unreadable
    | Vanished(blob: bool)
    | Content(data: bytes, size: nat, blob: bool, validText: bool)

  datatype Decision = Ready | Discard | Oversize | Reject(reason: string) | Requeue(reason: string)

  predicate TrustedTombstone(s: State, path: Path) {
    s.epoch.Some? && path in s.base && s.base[path].Tombstone? && path !in s.stale
  }

  predicate BaseIs(s: State, path: Path, hash: Hash) {
    path in s.base && s.base[path].Live? && s.base[path].hash == hash
  }

  /** The base says so, and it belongs to this epoch. */
  predicate TrustedBaseIs(s: State, path: Path, hash: Hash) {
    BaseIs(s, path, hash) && path !in s.stale
  }

  /** What the flush does with a queued put, given the journal, the local file, and whether the queued
      bytes are visible in another vault file. */
  function Decide(s: State, op: Operation, local: Local, visible: bool): Decision {
    match local
    case Oversized => Oversize
    case Unreadable => Reject("Exact local bytes are unavailable for queued publication")
    case Missing => Absent(s, op, false, visible)
    case Vanished(blob) => Absent(s, op, blob, visible)
    case Content(data, size, blob, validText) =>
      if |data| != size then Reject("Local file changed while publication was queued")
      else if !blob && !validText then Reject("Current inline file is not valid UTF-8")
      else if BaseIs(s, op.path, Sha256(data)) then
        if op.payloadHash != Sha256(data) && !visible then Reject("Queued bytes need a visible recovery copy") else Discard
      else if op.payloadHash == Sha256(data) then Ready
      else Requeue("Local file changed after publication was queued")
  }

  function Absent(s: State, op: Operation, blob: bool, visible: bool): Decision {
    if !blob && TrustedTombstone(s, op.path) && visible then Discard
    else Reject("Queued file is absent from the local vault")
  }

  /** Queued bytes are let go only if they are the bytes of the confirmed base, or still visible elsewhere. */
  lemma DiscardIsJustified(s: State, op: Operation, local: Local, visible: bool)
    requires Decide(s, op, local, visible) == Discard
    ensures BaseIs(s, op.path, op.payloadHash) || visible
  {
  }

  /** That base may belong to an old epoch: a present file is compared with it even when the path is stale,
      so bytes the new epoch never confirmed are let go. */
  lemma DiscardTrustsAStaleBase()
    ensures exists s: State, op: Operation, local: Local ::
      op.path in s.stale && Decide(s, op, local, false) == Discard
  {
    var hash := Sha256([]);
    var op := Operation(1, Put, "a", Precondition.Absent, hash, 0, None, Queued);
    var s := FreshState().(epoch := Some(2), base := map["a" := Live(1, hash)], stale := {"a"});
    assert Decide(s, op, Content([], 0, false, true), false) == Discard;
  }

  /** Without a visible copy, the discarded bytes are the base of this epoch exactly when the path is not stale. */
  lemma DiscardIsTrusted(s: State, op: Operation, local: Local)
    requires Decide(s, op, local, false) == Discard
    ensures TrustedBaseIs(s, op.path, op.payloadHash) <==> op.path !in s.stale
    ensures local.Content? && op.payloadHash == Sha256(local.data)
  {
    DiscardIsJustified(s, op, local, false);
  }

  /** Looks for the exact bytes in any listed file but the source. */
  method HasVisiblePayload(files: seq<(Path, Option<bytes>)>, source: Path, data: bytes) returns (visible: bool)
    ensures visible <==> exists i :: 0 <= i < |files| && files[i].0 != source && files[i].1 == Some(data)
  {
    for i := 0 to |files|
      invariant forall j | 0 <= j < i :: !(files[j].0 != source && files[j].1 == Some(data))
    {
      if files[i].0 != source && files[i].1.Some? && Sha256(files[i].1.value) == Sha256(data) {
        return true;
      }
    }
    return false;
  }

  datatype Admission = Go | Skip | Block

  ghost predicate Visible(files: seq<(Path, Option<bytes>)>, source: Path, hash: Hash) {
    exists i :: 0 <= i < |files| && files[i].0 != source && files[i].1 == Some(hash.content)
  }

  /** Checks a queued put before its first send. A skip lets its key go and is justified; anything else
      keeps the operation in custody, and only `Go` leaves it sendable with the bytes now on disk. */
  method RefreshQueuedPut(
      journal: DeviceJournal, op: Operation, local: Local, files: seq<(Path, Option<bytes>)>, key: Key, faults: Faults)
    returns (admission: Admission)
    requires journal.Valid() && op in journal.state.pendingOps && op.state == Queued && op.action.Put?
    requires key !in journal.storage.issued
    modifies journal`state, journal`attention, journal.storage
    ensures journal.Valid() && journal.storage.released == old(journal.storage.released)
    ensures admission == Skip ==> BaseIs(old(journal.state), op.path, op.payloadHash) || Visible(files, op.path, op.payloadHash)
    ensures admission != Skip ==> op.key in Held(journal.state)
    ensures admission != Block ==> key !in journal.storage.issued
    ensures admission == Go ==> journal.state == old(journal.state) && local.Content? && Sha256(local.data) == op.payloadHash
  {
    hide Sound, Next, Admissible, Held;
    HeldWhilePending(journal.id, journal.state, op);
    var visible := HasVisiblePayload(files, op.path, op.payloadHash.content);
    var decision := Decide(journal.state, op, local, visible);
    match decision {
      case Ready =>
        return Go;
      case Discard =>
        DiscardIsJustified(journal.state, op, local, visible);
        PlainIsAdmissible(journal.id, journal.state, CDiscardQueued(op.key), journal.storage.issued);
        var discarded := journal.Transition(CDiscardQueued(op.key), faults);
        return if discarded.Success? then Skip else Block;
      case Oversize =>
        var _ := Note(journal, op, CRecordAttention(op.path, "File exceeds the 25 MB sync limit"), faults);
        return Block;
      case Reject(reason) =>
        var _ := Note(journal, op, CRecordQueuedRejected(op, reason), faults);
        return Block;
      case Requeue(reason) =>
        RequeueCurrent(journal, op, reason, local.data, key, faults);
        return Block;
    }
  }

  /** Keeps the stale queued bytes in attention, then queues what is on disk now. */
  method RequeueCurrent(
      journal: DeviceJournal, op: Operation, reason: string, data: bytes, key: Key, faults: Faults)
    requires journal.Valid() && op in journal.state.pendingOps && op.state == Queued && key !in journal.storage.issued
    modifies journal`state, journal`attention, journal.storage
    ensures journal.Valid() && journal.storage.released == old(journal.storage.released)
    ensures op.key in Held(journal.state)
  {
    hide Sound, Next, Held, AttentionKeys, RecordQueuedRejected, Admissible;
    HeldWhilePending(journal.id, journal.state, op);
    var rejected := Note(journal, op, CRecordQueuedRejected(op, reason), faults);
    if !rejected {
      return;
    }
    RejectedIsRetained(journal.id, old(journal.state), op, reason);
    var s := journal.state;
    if op.path in s.base && s.epoch.None? {
      var _ := Note(journal, op, CRecordAttention(op.path, "Confirmed base has no vault epoch"), faults);
      return;
    }
    var precondition := if op.path in s.base && s.epoch.Some? then Match(s.epoch.value, s.base[op.path].rev) else Precondition.Absent;
    var intent := Intent(Put, op.path, precondition);
    PutIsAdmissible(journal, intent, Sha256(data), key);
    var _ := journal.Enqueue(intent, data, key, Some(data), faults);
    EnqueueKeepsAttention(journal.id, s, intent, Sha256(data), key);
    AttentionIsHeld(journal.state, op.key);
  }

  /** Records a blocker or moves the queued operation to attention; its key stays in custody. */
  method Note(journal: DeviceJournal, op: Operation, command: Command, faults: Faults) returns (ok: bool)
    requires journal.Valid() && op.key in Held(journal.state)
    requires command.CRecordAttention? || command.CRecordQueuedRejected?
    modifies journal`state, journal`attention, journal.storage
    ensures journal.Valid() && journal.storage.released == old(journal.storage.released)
    ensures journal.storage.issued == old(journal.storage.issued)
    ensures op.key in Held(journal.state)
    ensures if ok then Next(journal.id, old(journal.state), command) == Success(journal.state) else journal.state == old(journal.state)
  {
    InvariantOf(journal);
    KeepOne(journal.id, journal.state, op, command);
    PlainIsAdmissible(journal.id, journal.state, command, journal.storage.issued);
    hide Sound, Next, Admissible, Held;
    var r := journal.Transition(command, faults);
    ok := r.Success?;
  }

  lemma InvariantOf(journal: DeviceJournal)
    requires journal.Valid()
    ensures Inv(journal.id, journal.state)
  {
  }

  /** Transitions that issue no key and settle no receipt need nothing from their caller. */
  lemma PlainIsAdmissible(id: Identity, s: State, command: Command, issued: set<Key>)
    requires !command.CEnqueue? && !command.CConfirm? && !command.CResolve?
    ensures Admissible(id, s, command) && UsesFreshKeys(s, command, issued) && IssuedAfter(s, command, issued) == issued
  {
  }

  lemma PutIsAdmissible(journal: DeviceJournal, intent: Intent, hash: Hash, key: Key)
    requires journal.Valid() && key !in journal.storage.issued && intent.action.Put?
    ensures Admissible(journal.id, journal.state, CEnqueue(intent, hash, key))
  {
  }

  lemma RejectedIsRetained(id: Identity, s: State, op: Operation, reason: string)
    requires Next(id, s, CRecordQueuedRejected(op, reason)).Success?
    ensures op.key in AttentionKeys(Next(id, s, CRecordQueuedRejected(op, reason)).value.attention)
  {
    hide AttentionKeys, Select, Edit;
    var t := RecordQueuedRejected(s, op, reason).value;
    AttentionKeyIsHeld(t.attention, |t.attention| - 1);
  }

  lemma EnqueueKeepsAttention(id: Identity, s: State, intent: Intent, hash: Hash, key: Key)
    ensures var next := Next(id, s, CEnqueue(intent, hash, key));
            next.Success? ==> next.value.attention == s.attention
  {
  }

  lemma AttentionIsHeld(s: State, key: Key)
    requires key in AttentionKeys(s.attention)
    ensures key in Held(s)
  {
  }

  lemma HeldWhilePending(id: Identity, s: State, op: Operation)
    requires op in s.pendingOps
    ensures op.key in Held(s)
  {
    var i :| 0 <= i < |s.pendingOps| && s.pendingOps[i] == op;
    KeyIsHeld(s.pendingOps, i);
  }

  /** A transition that discharges nothing keeps every held key. */
  lemma KeepOne(id: Identity, s: State, op: Operation, command: Command)
    requires Inv(id, s) && op.key in Held(s)
    requires command.CRecordAttention? || command.CRecordQueuedRejected?
    ensures Next(id, s, command).Success? ==> op.key in Held(Next(id, s, command).value)
  {
    if Next(id, s, command).Success? {
      Custody(id, s, command);
      hide Next, Held, Inv;
      assert op.key in Held(s) + Issued(s, command);
    }
  }

  // ---- Flushing ----

  /** How one mutation comes back from the server. */
  datatype Reply =
    | Receipt(base: Base)
    | Refusal(reason: string, path: Path)
    | Retry(at: nat)
    | Revoked
    | Silent

  /** What the outside world shows one flush. */
  datatype Weather = Weather(
    blocked: nat -> bool, now: nat, unavailable: Path -> bool, disabled: Operation -> bool,
    local: Key -> Local, files: seq<(Path, Option<bytes>)>,
    payload: Key -> Payload, reply: Key -> Reply, faults: Key -> Faults)

  /** Nothing before this operation in the queue, in whatever state, overlaps it. */
  ghost predicate Unovertaken(id: Identity, ops: seq<Operation>, key: Key) {
    var i := IndexOf(ops, key, 0);
    i < |ops| && forall j | 0 <= j < i :: !Conflict(id, ops[j], ops[i])
  }

  predicate Overlapped(id: Identity, ops: seq<Operation>, i: nat)
    requires i < |ops|
  {
    exists j | 0 <= j < i :: Conflict(id, ops[j], ops[i])
  }

  predicate AnyUnavailable(unavailable: Path -> bool, op: Operation) {
    unavailable(op.path) || (op.action.Rename? && unavailable(op.action.to))
  }

  predicate HasLiveBase(s: State, path: Path) {
    path in s.base && s.base[path].Live?
  }

  predicate ReceiptFits(s: State, path: Path, base: Base) {
    path in s.base && s.base[path].rev == base.rev ==> s.base[path] == base
  }

  predicate Newer(s: State, path: Path, base: Base) {
    path in s.base && s.base[path].rev > base.rev
  }

  /** Settles one answered send; only the answered key leaves the queue, with the deletes that wait for it. */
  method Settle(journal: DeviceJournal, op: Operation, reply: Reply, faults: Faults) returns (goOn: bool)
    requires journal.Valid()
    modifies journal`state, journal`attention, journal.storage
    ensures journal.Valid() && journal.storage.released == old(journal.storage.released)
    ensures journal.storage.issued == old(journal.storage.issued)
    ensures goOn ==> !reply.Silent? && Answered(journal.id, old(journal.state), op, reply) == Success(journal.state)
    ensures !goOn && !reply.Revoked? ==>
      journal.state.pendingOps == old(journal.state).pendingOps && journal.state.attention == old(journal.state).attention
  {
    hide Sound, Next, Admissible, Issued, IssuedAfter;
    if reply.Silent? {
      return false;
    }
    var command := Answer(journal.state, op, reply);
    if command.CResolve? {
      if !Newer(journal.state, ReceiptPath(op), reply.base) {
        var setBase := CSetBase(ReceiptPath(op), reply.base);
        PlainIsAdmissible(journal.id, journal.state, setBase, journal.storage.issued);
        var based := journal.Transition(setBase, faults);
        if based.Failure? {
          return false;
        }
        SetBaseKeepsEpoch(journal.id, old(journal.state), setBase);
        ElsewhereKeeps(journal.id, old(journal.state), setBase);
      }
      ReceiptIsAdmissible(journal.id, journal.state, command, journal.storage.issued);
    } else {
      PlainIsAdmissible(journal.id, journal.state, command, journal.storage.issued);
    }
    var settled := journal.Transition(command, faults);
    return settled.Success? && !reply.Revoked?;
  }

  /** The journal transition one answer leads to. */
  function Answer(s: State, op: Operation, reply: Reply): (command: Command)
    requires !reply.Silent?
    ensures command.CResolve? ==> reply.Receipt? && s.epoch.Some? && command == CResolve(op.key, true, Some(reply.base))
    ensures !command.CEnqueue? && !command.CConfirm? && !command.CMarkSent?
  {
    match reply
    case Receipt(base) =>
      if s.epoch.None? || !ReceiptFits(s, ReceiptPath(op), base) then CDefer(op.key, 0)
      else CResolve(op.key, true, Some(base))
    case Refusal(reason, path) => CRecordRejected(op, reason, path)
    case Retry(at) => CDefer(op.key, at)
    case Revoked => CRecordAttention(op.path, "Device authorization was revoked")
  }

  /** The document after one answer: a fitting receipt first confirms its base, unless a newer one is known. */
  function Answered(id: Identity, s: State, op: Operation, reply: Reply): Outcome
    requires !reply.Silent?
  {
    var command := Answer(s, op, reply);
    if command.CResolve? && !Newer(s, ReceiptPath(op), reply.base) then
      var based := Next(id, s, CSetBase(ReceiptPath(op), reply.base));
      if based.Failure? then based else Next(id, based.value, command)
    else Next(id, s, command)
  }

  /** Conservation through one answer: only a receipt that fits lets a key go, and only its own. Refused
      operations and the deletes that waited for them stay in attention. */
  lemma AnswerCustody(id: Identity, s: State, op: Operation, reply: Reply)
    requires Inv(id, s) && !reply.Silent? && Answered(id, s, op, reply).Success?
    ensures Held(Answered(id, s, op, reply).value)
              + (if Answer(s, op, reply).CResolve? then multiset{op.key} else multiset{}) == Held(s)
  {
    hide Next, Inv, Held, Admissible;
    var command := Answer(s, op, reply);
    if command.CResolve? && !Newer(s, ReceiptPath(op), reply.base) {
      var setBase := CSetBase(ReceiptPath(op), reply.base);
      var based := Next(id, s, setBase).value;
      PlainIsAdmissible(id, s, setBase, {});
      Custody(id, s, setBase);
      KeepsInvariant(id, s, setBase);
      Custody(id, based, command);
    } else {
      Custody(id, s, command);
    }
  }

  lemma SetBaseKeepsEpoch(id: Identity, s: State, command: Command)
    requires command.CSetBase? && Next(id, s, command).Success?
    ensures Next(id, s, command).value.epoch == s.epoch
  {
  }

  lemma ReceiptIsAdmissible(id: Identity, s: State, command: Command, issued: set<Key>)
    requires command.CResolve? && s.epoch.Some?
    ensures Admissible(id, s, command) && UsesFreshKeys(s, command, issued) && IssuedAfter(s, command, issued) == issued
  {
  }

  datatype Turn = PassOver | SendNow | StopHere

  /** Whether an operation may be sent now, is passed over, or ends the flush. */
  method Admit(journal: DeviceJournal, i: nat, sentOnly: bool, weather: Weather, spare: Key) returns (turn: Turn)
    requires journal.Valid() && i < |journal.state.pendingOps| && spare !in journal.storage.issued
    modifies journal`state, journal`attention, journal.storage
    ensures journal.Valid() && journal.storage.released == old(journal.storage.released)
    ensures turn != StopHere ==> spare !in journal.storage.issued
    ensures turn == SendNow ==>
      && journal.state == old(journal.state)
      && !Overlapped(journal.id, journal.state.pendingOps, i)
  {
    hide Sound, Next, Admissible, Held, Conflict, Issued, IssuedAfter;
    var op := journal.state.pendingOps[i];
    var faults := weather.faults(op.key);
    if op.state == Resolved || (sentOnly && op.state != Sent) {
      return PassOver;
    }
    if AnyUnavailable(weather.unavailable, op) {
      return StopHere;
    }
    if op.retryAt.Some? && op.retryAt.value > weather.now {
      return PassOver;
    }
    if op.state == Queued && weather.disabled(op) {
      return PassOver;
    }
    if Overlapped(journal.id, journal.state.pendingOps, i) {
      return PassOver;
    }
    if op.state == Queued && op.action.Put? {
      var admission := RefreshQueuedPut(journal, op, weather.local(op.key), weather.files, spare, faults);
      return if admission == Go then SendNow else if admission == Skip then PassOver else StopHere;
    }
    if op.state == Queued && op.action == Delete(None) && !HasLiveBase(journal.state, op.path) {
      HeldWhilePending(journal.id, journal.state, op);
      var _ := Note(journal, op, CRecordQueuedRejected(op, "Delete has no confirmed live source revision"), faults);
      return StopHere;
    }
    return SendNow;
  }

  /** What holds of the releases made by one flush: nothing earlier in the queue each one was taken from, in
      whatever state, overlaps it; and they were made in the order of the queue at the start. */
  ghost predicate Fair(id: Identity, start: seq<Operation>, released: seq<Release>, positions: seq<nat>, upTo: nat) {
    && |positions| == |released|
    && (forall n | 0 <= n < |released| :: Unovertaken(id, released[n].queue, released[n].op.key))
    && (forall n | 0 <= n < |released| ::
          positions[n] < upTo <= |start| && start[positions[n]].key == released[n].op.key)
    && (forall m, n | 0 <= m < n < |positions| :: positions[m] < positions[n])
  }

  lemma OneMoreIsFair(
      id: Identity, start: seq<Operation>, released: seq<Release>, positions: seq<nat>, at: nat, release: Release)
    requires Fair(id, start, released, positions, at) && at < |start|
    requires release.op.key == start[at].key && Unovertaken(id, release.queue, start[at].key)
    ensures Fair(id, start, released + [release], positions + [at], at + 1)
  {
    hide Unovertaken;
  }

  /** Sends every operation that nothing earlier in the queue overlaps, in queue order. A deferred, held or
      refused operation is never overtaken by a later one on the same path. */
  method Flush(journal: DeviceJournal, sentOnly: bool, weather: Weather, spare: Key)
    returns (ghost made: seq<Release>, ghost positions: seq<nat>)
    requires journal.Valid() && spare !in journal.storage.issued
    modifies journal`state, journal`attention, journal.storage
    ensures journal.Valid()
    ensures journal.storage.released == old(journal.storage.released) + made
    ensures Fair(journal.id, old(journal.state).pendingOps, made, positions, |old(journal.state).pendingOps|)
  {
    hide Sound, Next, Admissible, Held, Unovertaken, Conflict, Fair;
    made, positions := [], [];
    var start := journal.state.pendingOps;
    NothingIsFair(journal.id, start);
    for at := 0 to |start|
      invariant journal.Valid() && spare !in journal.storage.issued
      invariant journal.storage.released == old(journal.storage.released) + made
      invariant Fair(journal.id, start, made, positions, at)
    {
      FairLater(journal.id, start, made, positions, at);
      if weather.blocked(at) {
        return;
      }
      var i := IndexOf(journal.state.pendingOps, start[at].key, 0);
      if i == |journal.state.pendingOps| {
        continue;
      }
      var turn := Admit(journal, i, sentOnly, weather, spare);
      if turn == StopHere {
        return;
      }
      if turn == SendNow {
        ghost var queue := journal.state.pendingOps;
        var released, goOn := Send(journal, i, weather);
        if released.None? {
          return;
        }
        NothingWasOvertaken(journal.id, queue, start[at].key, i);
        OneMoreIsFair(journal.id, start, made, positions, at, released.value);
        made, positions := made + [released.value], positions + [at];
        FairLater(journal.id, start, made, positions, at + 1);
        if !goOn {
          return;
        }
      }
    }
  }

  /** Releases one admitted operation and settles its answer. */
  method Send(journal: DeviceJournal, i: nat, weather: Weather) returns (released: Option<Release>, goOn: bool)
    requires journal.Valid() && i < |journal.state.pendingOps|
    requires i == IndexOf(journal.state.pendingOps, journal.state.pendingOps[i].key, 0)
    modifies journal`state, journal`attention, journal.storage
    ensures journal.Valid() && journal.storage.issued == old(journal.storage.issued)
    ensures journal.storage.released == old(journal.storage.released) + if released.Some? then [released.value] else []
    ensures released.Some? ==>
      && released.value.op.key == old(journal.state).pendingOps[i].key
      && released.value.queue == old(journal.state).pendingOps
    ensures released.None? ==> journal.state == old(journal.state)
    ensures goOn ==>
      var op := old(journal.state).pendingOps[i];
      var sent := MarkSent(journal.id, old(journal.state), op.key, op.precondition);
      && released.Some? && sent.Success? && !weather.reply(op.key).Silent?
      && Answered(journal.id, sent.value, released.value.op, weather.reply(op.key)) == Success(journal.state)
  {
    hide Sound, Next, Admissible, Held, MarkSent;
    var op := journal.state.pendingOps[i];
    var sent := journal.PrepareSend(op.key, op.precondition, weather.payload(op.key), weather.faults(op.key));
    if sent.Failure? {
      return None, false;
    }
    goOn := Settle(journal, sent.value.op, weather.reply(op.key), weather.faults(op.key));
    released := Some(sent.value);
  }

  lemma NothingIsFair(id: Identity, start: seq<Operation>)
    ensures Fair(id, start, [], [], 0)
  {
  }

  lemma FairLater(id: Identity, start: seq<Operation>, released: seq<Release>, positions: seq<nat>, at: nat)
    requires Fair(id, start, released, positions, at) && at <= |start|
    ensures forall later | at <= later <= |start| :: Fair(id, start, released, positions, later)
  {
    hide Unovertaken;
  }

  lemma NothingWasOvertaken(id: Identity, queue: seq<Operation>, key: Key, i: nat)
    requires i < |queue| && i == IndexOf(queue, key, 0) && !Overlapped(id, queue, i)
    ensures Unovertaken(id, queue, key)
  {
  }
}
