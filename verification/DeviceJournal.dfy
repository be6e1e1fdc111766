/** The durable journal: every transition is written, read back, and only then believed. */
module DeviceJournal {
  import opened Bytes
  import opened DeviceState
  import opened OperationQueue
  import opened JournalSteps
  import opened JournalCustody
  import opened JournalOrder

  /** How one whole-document write ends. A failed or lost write may still have replaced the document. */
  datatype Write = Written | Failed | FailedAfterWriting | SilentlyLost

  /** What storage does during one transition. */
  datatype Faults = Faults(write: Write, readable: bool)

  /** Payload bytes as storage returns them; None when the read throws. */
  type Payload = Option<bytes>

  datatype JournalFailure = Closed | Refused(refusal: Refusal) | NeedsAttention | StorageFailed | PayloadFailed

  /** One release of an operation's bytes to the network, with the pending queue it was taken from. */
  datatype Release = Release(op: Operation, data: bytes, queue: seq<Operation>)

  // ---- What released bytes promise ----

  /** Every release of one key is the same request with the same bytes. */
  ghost predicate OneRequestPerKey(released: seq<Release>) {
    forall i, j | 0 <= i < j < |released| && released[i].op.key == released[j].op.key ::
      SameRequest(released[i].op, released[j].op) && released[i].data == released[j].data
  }

  ghost predicate Authentic(released: seq<Release>) {
    forall i | 0 <= i < |released| ::
      released[i].op.state == Sent && Sha256(released[i].data) == released[i].op.payloadHash
  }

  /** A document in which a released key, while pending, is exactly the released request. */
  ghost predicate Honors(s: State, released: seq<Release>) {
    forall i, op | 0 <= i < |released| && op in s.pendingOps && op.key == released[i].op.key ::
      SameRequest(released[i].op, op)
  }

  ghost predicate HoldsOnly(s: State, issued: set<Key>) {
    forall key | key in Held(s) :: key in issued
  }

  ghost predicate Sound(id: Identity, s: State, issued: set<Key>, released: seq<Release>) {
    Inv(id, s) && HoldsOnly(s, issued) && Honors(s, released)
  }

  ghost predicate KnownKeys(issued: set<Key>, released: seq<Release>) {
    forall i | 0 <= i < |released| :: released[i].op.key in issued
  }

  lemma FreshIsSound(id: Identity)
    ensures Sound(id, FreshState(), {}, [])
  {
    assert Held(FreshState()) == multiset{};
  }

  /** Keys a transition may bring in must never have been used on this device. */
  ghost predicate UsesFreshKeys(s: State, command: Command, issued: set<Key>) {
    forall key | key in Issued(s, command) :: key !in issued
  }

  ghost function IssuedAfter(s: State, command: Command, issued: set<Key>): set<Key> {
    issued + set key | key in Issued(s, command)
  }

  lemma HeldStaysIssued(id: Identity, s: State, command: Command, issued: set<Key>)
    requires Inv(id, s) && HoldsOnly(s, issued) && Next(id, s, command).Success?
    ensures HoldsOnly(Next(id, s, command).value, IssuedAfter(s, command, issued))
  {
    Custody(id, s, command);
    hide Next, Held, Issued, Discharged, Inv;
    var t := Next(id, s, command).value;
    forall key | key in Held(t)
      ensures key in IssuedAfter(s, command, issued)
    {
      assert key in Held(s) + Issued(s, command);
    }
  }

  /** A transition of a sound document is sound: it honors every release made so far. */
  lemma StepStaysSound(id: Identity, s: State, command: Command, issued: set<Key>, released: seq<Release>)
    requires Sound(id, s, issued, released) && KnownKeys(issued, released) && Authentic(released)
    requires Admissible(id, s, command) && UsesFreshKeys(s, command, issued) && Next(id, s, command).Success?
    ensures Sound(id, Next(id, s, command).value, IssuedAfter(s, command, issued), released)
  {
    KeepsInvariant(id, s, command);
    HeldStaysIssued(id, s, command, issued);
    hide Next, Held, Issued, Inv, Admissible;
    var t := Next(id, s, command).value;
    forall i, op | 0 <= i < |released| && op in t.pendingOps && op.key == released[i].op.key
      ensures SameRequest(released[i].op, op)
    {
      var j := WasPending(id, s, command, op);
      assert s.pendingOps[j] in s.pendingOps;
      SentIsImmutable(id, s, command, j, op);
    }
  }

  /** Device-local persistence, with the history a crash cannot erase. */
  class JournalStorage {
    var document: Option<State>
    ghost var issued: set<Key>
    ghost var released: seq<Release>

    /** What every crash leaves behind. */
    ghost predicate Trusted(id: Identity)
      reads this
    {
      && (document.Some? ==> Sound(id, document.value, issued, released))
      && KnownKeys(issued, released) && Authentic(released) && OneRequestPerKey(released)
      && (document.None? ==> issued == {} && released == [])
    }

    constructor (ghost id: Identity)
      ensures document == None && issued == {} && released == [] && Trusted(id)
    {
      document, issued, released := None, {}, [];
    }

    /** Writes the whole document and verifies it by reading it back. */
    method PersistVerified(candidate: State, faults: Faults) returns (verified: bool)
      modifies this`document
      ensures faults == Faults(Written, true) ==> verified
      ensures verified ==> document == Some(candidate)
      ensures document == old(document) || document == Some(candidate)
    {
      if faults.write == Written || faults.write == FailedAfterWriting {
        document := Some(candidate);
      }
      if faults.write == Failed || faults.write == FailedAfterWriting || !faults.readable {
        return false;
      }
      return document == Some(candidate);
    }
  }

  /** Serializes verified transitions and releases only hash-matched bytes of sent operations. */
  class DeviceJournal {
    const storage: JournalStorage
    const id: Identity
    var state: State
    var attention: bool
    var closed: bool

    ghost predicate Valid()
      reads this, storage
    {
      && storage.Trusted(id)
      && Sound(id, state, storage.issued, storage.released)
      && (!attention ==> storage.document == Some(state))
      && storage.document.Some?
    }

    /** Opens after a crash or for the first time: the stored document, verified again, or a fresh one. */
    constructor (storage: JournalStorage, id: Identity, verified: State)
      requires storage.Trusted(id) && storage.document == Some(verified)
      ensures this.storage == storage && this.id == id && state == verified && !attention && !closed && Valid()
    {
      this.storage, this.id := storage, id;
      state, attention, closed := verified, false, false;
    }

    static method Open(storage: JournalStorage, id: Identity, faults: Faults) returns (journal: DeviceJournal?)
      requires storage.Trusted(id)
      modifies storage`document
      ensures storage.Trusted(id)
      ensures journal != null ==> fresh(journal) && journal.Valid() && journal.storage == storage && journal.id == id
      ensures journal != null ==> journal.state == if old(storage.document).Some? then old(storage.document).value else FreshState()
    {
      FreshIsSound(id);
      var candidate := if storage.document.Some? then storage.document.value else FreshState();
      var verified := storage.PersistVerified(candidate, faults);
      if !verified {
        return null;
      }
      journal := new DeviceJournal(storage, id, candidate);
    }

    /** Moves memory to a candidate once storage has shown the same document again; raises attention otherwise. */
    method Commit(candidate: State, faults: Faults) returns (ok: bool)
      requires Valid() && Sound(id, candidate, storage.issued, storage.released)
      modifies this`state, this`attention, storage`document
      ensures Valid()
      ensures ok ==> state == candidate && !attention
      ensures !ok ==> state == old(state) && attention
      ensures faults == Faults(Written, true) ==> ok
    {
      ok := storage.PersistVerified(candidate, faults);
      if ok {
        state, attention := candidate, false;
      } else {
        attention := true;
      }
    }

    /** Transitions that skip the write when nothing changes. */
    predicate SkipsWrite(command: Command) {
      || command.CResetEpoch? || command.CBeginApply? || command.CDismissAttention? || command.CDismissInformational?
      || command.CClearExpected? || command.CConfirm?
    }

    /** Any transition but a send: refused without effect, or committed with read-back. */
    method Transition(command: Command, faults: Faults) returns (r: Result<(), JournalFailure>)
      requires Valid() && !command.CMarkSent?
      requires Admissible(id, state, command) && UsesFreshKeys(state, command, storage.issued)
      modifies this`state, this`attention, storage
      ensures Valid() && storage.released == old(storage.released)
      ensures storage.issued == old(storage.issued) || storage.issued == IssuedAfter(old(state), command, old(storage.issued))
      ensures r.Success? ==> Next(id, old(state), command) == Success(state)
      ensures r.Failure? ==> state == old(state)
      ensures r.Success? && !SkipsWrite(command) ==> storage.document == Some(state)
      ensures r.Success? <== !closed && Next(id, old(state), command).Success? && faults == Faults(Written, true)
    {
      hide Sound, Next, Issued, Admissible;
      if closed {
        return Failure(Closed);
      }
      var next := Next(id, state, command);
      if next.Failure? {
        return Failure(Refused(next.error));
      }
      if SkipsWrite(command) && next.value == state {
        return Success(());
      }
      StepStaysSound(id, state, command, storage.issued, storage.released);
      Widen(id, command, next.value);
      storage.issued := IssuedAfter(state, command, storage.issued);
      var ok := Commit(next.value, faults);
      return if ok then Success(()) else Failure(StorageFailed);
    }

    /** Queues a local mutation whose payload bytes have been written and read back intact. */
    method Enqueue(intent: Intent, data: bytes, key: Key, stored: Payload, faults: Faults) returns (r: Result<(), JournalFailure>)
      requires Valid() && key !in storage.issued
      requires Admissible(id, state, CEnqueue(intent, Sha256(data), key))
      modifies this`state, this`attention, storage
      ensures Valid() && storage.released == old(storage.released)
      ensures r.Success? ==> stored == Some(data) && storage.document == Some(state)
      ensures r.Success? ==> Next(id, old(state), CEnqueue(intent, Sha256(data), key)) == Success(state)
      ensures r.Failure? ==> state == old(state)
    {
      hide Sound, Next, Admissible;
      if closed {
        return Failure(Closed);
      }
      if stored.None? || Sha256(stored.value) != Sha256(data) {
        attention := true;
        return Failure(PayloadFailed);
      }
      var command := CEnqueue(intent, Sha256(data), key);
      r := Transition(command, faults);
    }

    /** Issuing more keys keeps everything sound. */
    lemma Widen(id: Identity, command: Command, candidate: State)
      requires Valid()
      ensures var issued := IssuedAfter(state, command, storage.issued);
              && KnownKeys(issued, storage.released)
              && Sound(this.id, state, issued, storage.released)
              && (storage.document.Some? ==> Sound(this.id, storage.document.value, issued, storage.released))
    {
      hide Inv, Honors, Issued;
    }

    /** Releases the bytes of one operation. Nothing is released before a document with that operation sent
        has passed read-back, and every release of one key is the same request with the same bytes. */
    method PrepareSend(key: Key, precondition: Precondition, payload: Payload, faults: Faults)
      returns (r: Result<Release, JournalFailure>)
      requires Valid()
      modifies this`state, this`attention, storage
      ensures Valid() && storage.issued == old(storage.issued)
      ensures storage.released == if r.Success? then old(storage.released) + [r.value] else old(storage.released)
      ensures r.Success? ==>
        && storage.document == Some(state) && MarkSent(id, old(state), key, precondition) == Success(state)
        && r.value.op in state.pendingOps
        && r.value.op.key == key && r.value.op.state == Sent && r.value.op.precondition == precondition
        && Sha256(r.value.data) == r.value.op.payloadHash
        && r.value.queue == old(state).pendingOps
      ensures r.Failure? ==> state == old(state)
      ensures r.Success? ==> !old(attention)
    {
      hide Sound, MarkSent, AsSent, IndexOf, SameRequest, Inv, Honors, KnownKeys, Authentic, OneRequestPerKey;
      if closed {
        return Failure(Closed);
      }
      var next := MarkSent(id, state, key, precondition);
      if next.Failure? {
        return Failure(Refused(next.error));
      }
      if attention {
        return Failure(NeedsAttention);
      }
      var op := Candidate(id, state, key, precondition);
      var queue := state.pendingOps;
      if payload.None? || Sha256(payload.value) != op.payloadHash {
        attention := true;
        return Failure(PayloadFailed);
      }
      if next.value != state {
        var ok := SaveSent(key, precondition, faults);
        if !ok {
          return Failure(StorageFailed);
        }
      }
      r := Success(Release(op, payload.value, queue));
      Record(r.value);
    }

    /** Commits the sent state before any byte is released. */
    method SaveSent(key: Key, precondition: Precondition, faults: Faults) returns (ok: bool)
      requires Valid() && MarkSent(id, state, key, precondition).Success?
      modifies this`state, this`attention, storage`document
      ensures Valid()
      ensures ok ==> MarkSent(id, old(state), key, precondition) == Success(state) && !attention
      ensures !ok ==> state == old(state)
    {
      hide Sound, MarkSent;
      var command := CMarkSent(key, precondition);
      var next := MarkSent(id, state, key, precondition).value;
      StepStaysSound(id, state, command, storage.issued, storage.released);
      assert IssuedAfter(state, command, storage.issued) == storage.issued;
      ok := Commit(next, faults);
    }

    ghost method Record(release: Release)
      requires Valid() && !attention
      requires release.op in state.pendingOps && release.op.state == Sent && Sha256(release.data) == release.op.payloadHash
      modifies storage`released
      ensures Valid() && storage.released == old(storage.released) + [release] && storage.document == Some(state)
    {
      hide Sound, KnownKeys, Authentic, OneRequestPerKey;
      ReleaseStaysHonored(id, state, storage.issued, storage.released, release);
      storage.released := storage.released + [release];
    }

    /** Blocks later transitions without touching state or payloads. */
    method Close()
      modifies this`closed
      ensures closed
    {
      closed := true;
    }
  }

  /** The operation a send would release: sent, with the given precondition, and pending once saved. */
  function Candidate(id: Identity, s: State, key: Key, precondition: Precondition): (op: Operation)
    requires MarkSent(id, s, key, precondition).Success?
    ensures op in MarkSent(id, s, key, precondition).value.pendingOps
    ensures op.key == key && op.state == Sent && op.precondition == precondition
  {
    var i := IndexOf(s.pendingOps, key, 0);
    var op := AsSent(s.pendingOps[i], precondition);
    EditKeeps(Rewrite(key, op), s.pendingOps, i);
    op
  }

  /** Releasing a pending sent operation keeps every promise made about earlier releases. */
  lemma ReleaseStaysHonored(id: Identity, s: State, issued: set<Key>, released: seq<Release>, release: Release)
    requires Sound(id, s, issued, released) && KnownKeys(issued, released) && Authentic(released) && OneRequestPerKey(released)
    requires release.op in s.pendingOps && release.op.state == Sent && Sha256(release.data) == release.op.payloadHash
    ensures var all := released + [release];
            Sound(id, s, issued, all) && KnownKeys(issued, all) && Authentic(all) && OneRequestPerKey(all)
  {
    var all := released + [release];
    var j :| 0 <= j < |s.pendingOps| && s.pendingOps[j] == release.op;
    KeyIsHeld(s.pendingOps, j);
    assert release.op.key in Held(s);
    forall i, op | 0 <= i < |all| && op in s.pendingOps && op.key == all[i].op.key
      ensures SameRequest(all[i].op, op)
    {
      if i == |released| {
        var k :| 0 <= k < |s.pendingOps| && s.pendingOps[k] == op;
        QueueKeysAreUnique(s, j, k);
      }
    }
  }
}
