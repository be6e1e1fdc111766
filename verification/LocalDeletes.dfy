/** Admitting one observed local delete: what it queues, what it lets go, and what it leaves alone. */
module LocalDeletes {
  import opened Bytes
  import opened DeviceState
  import opened OperationQueue
  import opened JournalSteps
  import opened JournalCustody
  import opened JournalOrder
  import opened DeviceJournal
  import opened Publication

  const SUPERSEDED := "Live delete was superseded by newer local or remote state"

  predicate IsPutAt(op: Operation, path: Path) {
    op.action.Put? && op.path == path
  }

  predicate IsSentCreateAt(op: Operation, path: Path) {
    IsPutAt(op, path) && op.state == Sent && op.precondition.Absent?
  }

  /** The first sent create of this path whose answer is still awaited. */
  function SentCreateAt(ops: seq<Operation>, path: Path): (key: Option<Key>)
    ensures key.Some? <==> exists op | op in ops :: IsSentCreateAt(op, path)
    ensures key.Some? ==> exists op | op in ops :: IsSentCreateAt(op, path) && op.key == key.value
  {
    if ops == [] then None
    else if IsSentCreateAt(ops[0], path) then Some(ops[0].key)
    else
      assert ops == [ops[0]] + ops[1..];
      SentCreateAt(ops[1..], path)
  }

  /** The delete a current observation asks for: of the confirmed revision, or behind the create still on its way. */
  function DeleteIntent(s: State, path: Path): Option<Intent> {
    if s.epoch.None? then None
    else if HasLiveBase(s, path) then Some(Intent(Delete(None), path, Match(s.epoch.value, s.base[path].rev)))
    else
      var create := SentCreateAt(s.pendingOps, path);
      if create.None? then None else Some(Intent(Delete(create), path, Precondition.Absent))
  }

  /** Operations an observed delete may let go: queued puts of the path itself when it has no live base, and the
      queued delete it replaces. Nothing sent is among them. */
  predicate MayGo(id: Identity, s: State, path: Path, op: Operation) {
    op.state == Queued && ((IsPutAt(op, path) && !HasLiveBase(s, path)) || (op.action.Delete? && id(op.path) == id(path)))
  }

  function QueuedPutsAt(ops: seq<Operation>, path: Path): (keys: seq<Key>)
    ensures forall key | key in keys :: exists op | op in ops :: op.key == key && op.state == Queued && IsPutAt(op, path)
  {
    if ops == [] then []
    else
      assert ops == [ops[0]] + ops[1..];
      (if ops[0].state == Queued && IsPutAt(ops[0], path) then [ops[0].key] else []) + QueuedPutsAt(ops[1..], path)
  }

  /** Discarding one key leaves every other operation, and everything else, as it was. */
  lemma DiscardsOne(id: Identity, s: State, key: Key)
    requires Next(id, s, CDiscardQueued(key)).Success?
    ensures var t := Next(id, s, CDiscardQueued(key)).value;
            && t == s.(pendingOps := t.pendingOps)
            && forall op | op in s.pendingOps && op.key != key :: op in t.pendingOps
  {
    forall op | op in s.pendingOps && op.key != key
      ensures op in DiscardQueued(s, key).value.pendingOps
    {
      var i :| 0 <= i < |s.pendingOps| && s.pendingOps[i] == op;
      EditKeeps(DropKey(key), s.pendingOps, i);
    }
  }

  lemma KeyNamesOne(s: State, op: Operation, other: Operation)
    requires Exclusive(s) && op in s.pendingOps && other in s.pendingOps && op.key == other.key
    ensures op == other
  {
    var i :| 0 <= i < |s.pendingOps| && s.pendingOps[i] == op;
    var j :| 0 <= j < |s.pendingOps| && s.pendingOps[j] == other;
    QueueKeysAreUnique(s, i, j);
  }

  /** Drops the queued puts of one path. */
  method DiscardQueuedPuts(journal: DeviceJournal, path: Path, faults: nat -> Faults) returns (ok: bool)
    requires journal.Valid()
    modifies journal`state, journal`attention, journal.storage
    ensures journal.Valid() && journal.storage.released == old(journal.storage.released)
    ensures journal.storage.issued == old(journal.storage.issued)
    ensures journal.state == old(journal.state).(pendingOps := journal.state.pendingOps)
    ensures forall op | op in old(journal.state).pendingOps && !(op.state == Queued && IsPutAt(op, path)) ::
      op in journal.state.pendingOps
  {
    InvariantOf(journal);
    hide Sound, Next, Admissible, Held;
    ghost var start := journal.state;
    var keys := QueuedPutsAt(journal.state.pendingOps, path);
    for at := 0 to |keys|
      invariant journal.Valid() && journal.storage.released == old(journal.storage.released)
      invariant journal.storage.issued == old(journal.storage.issued)
      invariant journal.state == start.(pendingOps := journal.state.pendingOps)
      invariant forall op | op in start.pendingOps && !(op.state == Queued && IsPutAt(op, path)) :: op in journal.state.pendingOps
    {
      var command := CDiscardQueued(keys[at]);
      PlainIsAdmissible(journal.id, journal.state, command, journal.storage.issued);
      ghost var before := journal.state;
      var discarded := journal.Transition(command, faults(at));
      if discarded.Failure? {
        return false;
      }
      DiscardsOne(journal.id, before, keys[at]);
      OthersStay(start, path, keys[at]);
    }
    return true;
  }

  /** A discarded key belongs to a queued put of the path, so it is no other operation's key. */
  lemma OthersStay(start: State, path: Path, key: Key)
    requires Exclusive(start) && key in QueuedPutsAt(start.pendingOps, path)
    ensures forall op | op in start.pendingOps && !(op.state == Queued && IsPutAt(op, path)) :: op.key != key
  {
    var put :| put in start.pendingOps && put.key == key && put.state == Queued && IsPutAt(put, path);
    forall op | op in start.pendingOps && !(op.state == Queued && IsPutAt(op, path))
      ensures op.key != key
    {
      if op.key == key {
        KeyNamesOne(start, op, put);
      }
    }
  }

  /** Queueing an intent adds its operation and drops at most one queued operation of the same kind and identity. */
  lemma EnqueueKeepsOthers(id: Identity, s: State, intent: Intent, hash: Hash, key: Key)
    requires Next(id, s, CEnqueue(intent, hash, key)).Success?
    ensures var t := Next(id, s, CEnqueue(intent, hash, key)).value;
            && t == s.(pendingOps := t.pendingOps)
            && NewOperation(intent, hash, key) in t.pendingOps
            && forall op | op in s.pendingOps && op !in t.pendingOps ::
                 op.state == Queued && SameKind(op.action, intent.action) && id(op.path) == id(intent.path)
  {
    var at := ReplaceIndex(id, s.pendingOps, intent.action, intent.path, 0);
    var t := Enqueue(id, s, intent, hash, key).value;
    assert t.pendingOps[|t.pendingOps| - 1] == NewOperation(intent, hash, key);
    forall op | op in s.pendingOps && op !in t.pendingOps
      ensures op.state == Queued && SameKind(op.action, intent.action) && id(op.path) == id(intent.path)
    {
      var i :| 0 <= i < |s.pendingOps| && s.pendingOps[i] == op;
      if i != at {
        EditKeeps(DropAt(at), s.pendingOps, i);
      }
    }
  }

  /** The intent meets what the journal asks of its callers: a dependent delete stands behind a create still pending. */
  lemma IntentIsAdmissible(id: Identity, s: State, path: Path, t: State, hash: Hash, key: Key)
    requires DeleteIntent(s, path).Some? && key !in Held(t)
    requires forall op | op in s.pendingOps && op.state == Sent :: op in t.pendingOps
    ensures Admissible(id, t, CEnqueue(DeleteIntent(s, path).value, hash, key))
  {
    hide Held;
    var intent := DeleteIntent(s, path).value;
    if intent.action.dependsOn.Some? {
      var parent :| parent in s.pendingOps && IsSentCreateAt(parent, path) && parent.key == intent.action.dependsOn.value;
      assert IsParent(id, parent, NewOperation(intent, hash, key), parent.key);
    }
  }

  /** Admits one local delete, with the base and epoch seen when it was observed. It is queued only if both still
      hold and the file is gone; it never touches a sent operation, and only drops what `MayGo` allows. */
  method ObserveDelete(
      journal: DeviceJournal, path: Path, observed: Option<Base>, observedEpoch: Option<Epoch>,
      source: Option<bytes>, blocked: bool, key: Key, stored: Payload, faults: nat -> Faults)
    returns (queued: bool)
    requires journal.Valid() && key !in journal.storage.issued
    modifies journal`state, journal`attention, journal.storage
    ensures journal.Valid() && journal.storage.released == old(journal.storage.released)
    ensures queued ==>
      && BaseAt(old(journal.state), path) == observed && old(journal.state).epoch == observedEpoch && source.None?
      && DeleteIntent(old(journal.state), path).Some?
      && NewOperation(DeleteIntent(old(journal.state), path).value, Sha256([]), key) in journal.state.pendingOps
    ensures forall op | op in old(journal.state).pendingOps && !MayGo(journal.id, old(journal.state), path, op) ::
      op in journal.state.pendingOps
    ensures !(BaseAt(old(journal.state), path) == observed && old(journal.state).epoch == observedEpoch && source.None?) ==>
      journal.state.pendingOps == old(journal.state).pendingOps
    ensures journal.state.base == old(journal.state).base && AttentionKeys(journal.state.attention) == AttentionKeys(old(journal.state).attention)
  {
    hide Sound, Next, Admissible, Held, AttentionKeys, SentCreateAt;
    var s := journal.state;
    if BaseAt(s, path) != observed || s.epoch != observedEpoch || source.Some? {
      var command := CRecordAttention(path, SUPERSEDED);
      PlainIsAdmissible(journal.id, s, command, journal.storage.issued);
      AttentionOnly(journal.id, s, path, SUPERSEDED);
      var _ := journal.Transition(command, faults(0));
      return false;
    }
    if !HasLiveBase(s, path) {
      var ok := DiscardQueuedPuts(journal, path, faults);
      if !ok {
        return false;
      }
    }
    var intent := DeleteIntent(s, path);
    if intent.None? || blocked {
      return false;
    }
    FreshIsNotHeld(journal, key);
    IntentIsAdmissible(journal.id, s, path, journal.state, Sha256([]), key);
    ghost var before := journal.state;
    var r := journal.Enqueue(intent.value, [], key, stored, faults(|s.pendingOps|));
    if r.Success? {
      EnqueueKeepsOthers(journal.id, before, intent.value, Sha256([]), key);
    }
    return r.Success?;
  }

  lemma AttentionOnly(id: Identity, s: State, path: Path, reason: string)
    ensures var t := Next(id, s, CRecordAttention(path, reason));
            && t.Success? && t.value.pendingOps == s.pendingOps && t.value.base == s.base
            && AttentionKeys(t.value.attention) == AttentionKeys(s.attention)
  {
    ReplaceAttentionCustody(s, path, reason);
  }

  lemma FreshIsNotHeld(journal: DeviceJournal, key: Key)
    requires journal.Valid() && key !in journal.storage.issued
    ensures key !in Held(journal.state)
  {
  }
}
