/** The guarded apply of one remote text change, with durable conflict copies. */
module TextApply {
  import opened Bytes
  import opened DeviceState
  import opened JournalSteps
  import opened TextDevice
  import opened ApplyOutcome

  /** How one entry's apply comes back: ended (completed, attended, or thrown), or to be run again on a newer row. */
  datatype Exit = Ended | Rebased(change: Change)

  datatype Saving = AllSaved | NotSaved | NewerRow(change: Change)

  datatype Fetched = Text(text: bytes) | Thrown | Newer(change: Change)

  const COLLISION := "Remote path collides with a local case-folded or Unicode-equivalent path"
  const COPY_CHANGED := "Conflict copy changed during remote apply"
  const LOCAL_CHANGED := "Local text changed after its conflict copy was saved"
  const COPY_EDITED := "Conflict copy was edited before the apply finished"
  const COPY_DIFFERS := "Conflict copy path contains different bytes"
  const SOURCE_CHANGED_EARLY := "Local text changed before its conflict copy was saved"
  const TRASH_REFUSED := "Obsidian trash did not confirm the remote delete"
  const RENAME_TRASH_REFUSED := "Obsidian trash did not confirm the rename source"
  const RENAME_SOURCE_CHANGED := "Rename source changed after its recovery copy was saved"
  const CREATE_UNCONFIRMED := "Remote text create was not confirmed; local bytes need review"
  const WRITE_UNCONFIRMED := "Remote text was not confirmed after conflict copy"

  /** A transition that neither confirms a base nor touches the pending apply. */
  predicate IsNote(command: Command) {
    command.CExpectWrite? || command.CClearExpected? || command.CRecordAttention?
  }

  lemma NotesKeepDurable(id: Identity, s: State, command: Command)
    requires IsNote(command)
    ensures Next(id, s, command).Success? && Keeps(id, s, command)
    ensures var t := Next(id, s, command).value;
            t.base == s.base && t.stale == s.stale && t.pendingApply == s.pendingApply
  {
    var t := Next(id, s, command).value;
    assert t.base == s.base && t.stale == s.stale && t.pendingApply == s.pendingApply;
    hide Next;
  }

  lemma CompletionIs(id: Identity, files: Files, s: State, change: Change)
    requires IsPathChange(change) && s.pendingApply.Some? && s.pendingApply.value.change == change
    ensures var next := Next(id, s, CCompleteApply(change.path, NewBase(change)));
            var d := DurableOf(files, s);
            (if next.Success? then DurableOf(files, next.value) else d) == Completed(d, change)
    ensures Keeps(id, s, CCompleteApply(change.path, NewBase(change)))
  {
  }

  lemma NamingIs(id: Identity, s: State, next: PendingApply)
    requires s.pendingApply.Some? && s.pendingApply.value.change == next.change
    requires s.pendingApply.value.step == Prepared && s.pendingApply.value.copies == [] && next.step == Named && next.copies != []
    requires IsPathChange(next.change) ==> Apart(next.change, next.copies)
    ensures Next(id, s, CUpdateApply(next)) == Success(s.(pendingApply := Some(next)))
    ensures Keeps(id, s, CUpdateApply(next))
  {
  }

  lemma CopyingIs(id: Identity, s: State)
    requires s.pendingApply.Some? && s.pendingApply.value.step == Named && s.pendingApply.value.copies != []
    ensures var next := s.pendingApply.value.(step := Copied);
            Next(id, s, CUpdateApply(next)) == Success(s.(pendingApply := Some(next))) && Keeps(id, s, CUpdateApply(next))
  {
  }

  class TextApplyEngine {
    const device: TextDevice
    const name: CopyNamer

    constructor (device: TextDevice, name: CopyNamer)
      ensures this.device == device && this.name == name
    {
      this.device, this.name := device, name;
    }

    ghost function D(): Durable
      reads device
    {
      DurableOf(device.files, device.state)
    }

    /** Where a crash at this moment, followed by an undisturbed resume, ends. */
    ghost function Destination(): Durable
      reads device
    {
      Final(device.id, name, D())
    }

    /** The undisturbed part of every contract: the destination has not moved, and a run that was not
        interrupted has arrived there. */
    twostate predicate Converges()
      reads device
    {
      Quiet(device.host) ==>
        && Destination() == old(Destination())
        && (device.alive ==> D() == Destination())
        && Recoverable(D())
    }

    // ---- Journal notes ----

    /** Commits an echo expectation, its removal, or attention. */
    method Note(command: Command) returns (ok: bool)
      requires device.alive && device.Safe() && IsNote(command)
      modifies device`clock, device`files, device`alive, device`state
      ensures device.Safe()
      ensures ok ==> device.alive
      ensures device.state.base == old(device.state.base) && device.state.stale == old(device.state.stale)
      ensures device.state.pendingApply == old(device.state.pendingApply)
      ensures Quiet(device.host) ==> D() == old(D()) && (device.alive ==> ok)
    {
      NotesKeepDurable(device.id, device.state, command);
      hide Next;
      ok := device.Commit(command);
    }

    /** Records attention and leaves every file and base as it is. */
    method Attend(path: Path, reason: string)
      requires device.alive && device.Safe()
      modifies device`clock, device`files, device`alive, device`state
      ensures device.Safe()
      ensures device.state.base == old(device.state.base) && device.state.stale == old(device.state.stale)
      ensures device.state.pendingApply == old(device.state.pendingApply)
      ensures Quiet(device.host) ==> D() == old(D())
    {
      var _ := Note(CRecordAttention(path, reason));
    }

    /** Confirms the change in the journal. */
    method Complete(change: Change)
      requires device.alive && device.Safe() && IsPathChange(change)
      requires device.state.pendingApply.Some? && device.state.pendingApply.value.change == change
      modifies device`clock, device`files, device`alive, device`state
      ensures device.Safe()
      ensures Quiet(device.host) ==> D() == old(D()) || D() == Completed(old(D()), change)
      ensures Quiet(device.host) && device.alive ==> D() == Completed(old(D()), change)
    {
      CompletionIs(device.id, device.files, device.state, change);
      hide Next, Completed;
      var _ := device.Commit(CCompleteApply(change.path, NewBase(change)));
    }

    /** Admits one effect through the fence, clearing the unissued echo when it is refused. */
    method Admit(path: Path, hash: Option<Hash>) returns (admitted: bool)
      requires device.alive && device.Safe()
      modifies device`clock, device`files, device`alive, device`state
      ensures device.Safe()
      ensures admitted ==> device.alive
      ensures device.state.base == old(device.state.base) && device.state.stale == old(device.state.stale)
      ensures device.state.pendingApply == old(device.state.pendingApply)
      ensures Quiet(device.host) ==> D() == old(D()) && (device.alive ==> admitted)
    {
      admitted := device.Admit();
      if !admitted && device.alive && hash.Some? && path in device.state.expectedWrites
         && device.state.expectedWrites[path] == hash.value {
        var _ := Note(CClearExpected(path));
      }
    }

    // ---- Pinned reads ----

    /** Fetches the pinned revision and checks its digest; a pruned revision rebases the pending apply. */
    method FetchText(change: Change, expected: Hash) returns (r: Fetched)
      requires device.alive && device.Safe() && device.state.pendingApply.Some? && device.state.pendingApply.value.change == change
      modifies device`clock, device`files, device`alive, device`state
      ensures device.Safe()
      ensures device.state.pendingApply.Some?
      ensures r.Text? ==> device.alive && device.state == old(device.state) && Sha256(r.text) == expected
      ensures device.state.base == old(device.state.base) && device.state.stale == old(device.state.stale)
      ensures r.Newer? ==> device.alive && device.state.pendingApply.Some? && device.state.pendingApply.value.change == r.change
      ensures Quiet(device.host) && r.Text? ==> device.files == old(device.files)
      ensures Quiet(device.host) && change.PutChange? ==>
        D() == old(D()) && (device.alive ==> r == if change.hash == expected then Text(change.hash.content) else Thrown)
    {
      hide Next, Permitted, RowHeld, Resumable, Confined;
      device.Await();
      if !device.alive {
        return Thrown;
      }
      var fetch := device.host.fetch(device.clock, change);
      if fetch.Exact? {
        return if Sha256(fetch.text) == expected then Text(fetch.text) else Thrown;
      }
      if fetch.Invalid? || (fetch.PrunedToTombstone? && !change.PutChange?) {
        return Thrown;
      }
      r := MoveOn(change, fetch);
    }

    /** Moves the pending row to the revision that replaced its pruned one, with the copies that still matter. */
    method MoveOn(change: Change, fetch: Fetch) returns (r: Fetched)
      requires device.alive && device.Safe() && device.state.pendingApply.Some? && device.state.pendingApply.value.change == change
      requires fetch.PrunedTo? || (fetch.PrunedToTombstone? && change.PutChange?)
      modifies device`clock, device`files, device`alive, device`state
      ensures device.Safe() && device.state.pendingApply.Some?
      ensures device.state.base == old(device.state.base) && device.state.stale == old(device.state.stale)
      ensures !r.Text? && (r.Newer? ==> Continues(r.change))
    {
      var pending := device.state.pendingApply.value;
      var newer := NewerChange(change, fetch);
      var copies: Option<seq<ConflictCopy>> := None;
      if pending.step != Prepared {
        var live := if fetch.PrunedTo? then Some(Sha256(fetch.text)) else None;
        var ok, kept := RebaseConflictCopies(pending, live, newer.rev);
        if !ok {
          return Thrown;
        }
        copies := Some(kept);
      }
      RebaseIs(device.id, device.state, newer, copies);
      hide Next;
      var ok := device.Commit(CRebaseApply(newer, copies));
      return if ok then Newer(newer) else Thrown;
    }

    /** Keeps local copies and visible remote ones, drops unsaved remote plans, and plans the new remote text. */
    method RebaseConflictCopies(pending: PendingApply, live: Option<Hash>, rev: nat) returns (ok: bool, kept: seq<ConflictCopy>)
      requires device.alive && device.Safe() && device.state.pendingApply == Some(pending)
      modifies device`clock, device`files, device`alive
      ensures device.Safe()
      ensures ok ==> device.alive
      ensures ok ==> forall copy | copy in pending.copies && !copy.remote :: copy in kept
      ensures ok && (live.None? || pending.change.DeleteChange?) ==> forall copy | copy in kept :: !copy.remote
      ensures IsPathChange(pending.change) ==>
        forall copy | copy in kept :: copy.path != pending.change.path && copy.source == pending.change.path
    {
      kept := [];
      var planned, current := false, false;
      for i := 0 to |pending.copies|
        invariant device.alive
        invariant forall j | 0 <= j < i && !pending.copies[j].remote :: pending.copies[j] in kept
        invariant live.None? || pending.change.DeleteChange? ==> forall copy | copy in kept :: !copy.remote
        invariant pending.change.DeleteChange? ==> !planned
        invariant IsPathChange(pending.change) ==>
          forall copy | copy in kept :: copy.path != pending.change.path && copy.source == pending.change.path
      {
        var copy := pending.copies[i];
        assert copy in pending.copies;
        if !copy.remote {
          kept := kept + [copy];
        } else {
          planned := true;
          var saved := device.Read(copy.path);
          if !device.alive || (saved.Some? && Sha256(saved.value) != copy.hash) {
            return false, kept;
          }
          if saved.Some? {
            kept := kept + [if live.Some? then copy else copy.(remote := false)];
            current := current || live == Some(copy.hash);
          }
        }
      }
      if planned && live.Some? && !current {
        kept := kept + [ConflictCopy(name(pending.change.path, rev), pending.change.path, true, live.value)];
      }
      return true, kept;
    }

    // ---- Replacing and removing ----

    /** Writes the pinned text over exactly what was observed, and confirms the stored bytes. */
    method ApplyRemoteText(path: Path, observed: Option<bytes>, remote: bytes) returns (confirmed: bool)
      requires device.alive && device.Safe()
      requires observed.Some? && observed.value != remote ==> device.Protected(path, observed.value)
      modifies device`clock, device`files, device`alive, device`state, device`removed
      ensures device.Safe()
      ensures confirmed ==> device.alive
      ensures device.state.base == old(device.state.base) && device.state.stale == old(device.state.stale)
      ensures device.state.pendingApply == old(device.state.pendingApply)
      ensures Quiet(device.host) && observed == Lookup(old(device.files), path) ==>
        var possible := observed.Some? || !Collides(device.id, old(device.files), path);
        var written := old(D()).(files := old(device.files)[path := remote]);
        && (D() == old(D()) || (possible && D() == written))
        && (device.alive ==> confirmed == possible && D() == if possible then written else old(D()))
    {
      hide Next, Permitted, RowHeld, Resumable, Confined;
      var hash := Sha256(remote);
      var expected := Note(CExpectWrite(path, hash));
      if !expected {
        return false;
      }
      var admitted := Admit(path, Some(hash));
      if !admitted {
        return false;
      }
      var applied: bool;
      if observed.None? {
        applied := device.Create(path, remote);
      } else {
        applied := device.Process(path, observed.value, remote);
      }
      var now := device.Read(path);
      if !device.alive {
        return false;
      }
      if now == Some(remote) {
        return true;
      }
      if !applied {
        var _ := Note(CClearExpected(path));
      }
      return false;
    }

    /** Trashes exactly what was observed and confirms that the path is empty. */
    method ConfirmLocalTrash(path: Path, observed: bytes) returns (confirmed: bool)
      requires device.alive && device.Safe() && device.Protected(path, observed)
      modifies device`clock, device`files, device`alive, device`state, device`removed
      ensures device.Safe()
      ensures confirmed ==> device.alive
      ensures device.state.base == old(device.state.base) && device.state.stale == old(device.state.stale)
      ensures device.state.pendingApply == old(device.state.pendingApply)
      ensures Quiet(device.host) && Some(observed) == Lookup(old(device.files), path) ==>
        var gone := old(D()).(files := old(device.files) - {path});
        && (D() == old(D()) || D() == gone)
        && (device.alive ==> confirmed && D() == gone)
    {
      var admitted := Admit(path, None);
      if !admitted {
        return false;
      }
      var _ := device.Trash(path, observed);
      var now := device.Read(path);
      return device.alive && now.None?;
    }

    // ---- Saving the named copies ----

    /** The text a missing copy is created from: the pinned remote text, or the local version it was named for. */
    method CopySource(pending: PendingApply, copy: ConflictCopy) returns (text: Fetched)
      requires device.alive && device.Safe() && device.state.pendingApply == Some(pending)
      modifies device`clock, device`files, device`alive, device`state
      ensures device.Safe()
      ensures device.state.pendingApply.Some?
      ensures device.state.base == old(device.state.base) && device.state.stale == old(device.state.stale)
      ensures text.Text? ==> device.alive && device.state == old(device.state) && Sha256(text.text) == copy.hash
      ensures text.Newer? ==> Continues(text.change)
      ensures Quiet(device.host) && (copy.remote ==> pending.change.PutChange?) ==>
        var source := CopyText(old(device.files), pending.change, copy);
        && D() == old(D())
        && (device.alive ==> text == if source.Some? then Text(source.value) else Thrown)
    {
      if copy.remote {
        text := FetchText(pending.change, copy.hash);
        return;
      }
      var local := device.Read(copy.source);
      if !device.alive {
        return Thrown;
      }
      if local.None? || Sha256(local.value) != copy.hash {
        Attend(copy.source, SOURCE_CHANGED_EARLY);
        return Thrown;
      }
      return Text(local.value);
    }

    /** Creates a copy file and reads it back. */
    method PutCopy(copy: ConflictCopy, text: bytes) returns (stands: bool)
      requires device.alive && device.Safe() && Sha256(text) == copy.hash
      modifies device`clock, device`files, device`alive, device`state
      ensures device.Safe() && (stands ==> device.alive)
      ensures device.state.base == old(device.state.base) && device.state.stale == old(device.state.stale)
      ensures device.state.pendingApply == old(device.state.pendingApply)
      ensures Quiet(device.host) && copy.path !in old(device.files) ==>
        var free := !Collides(device.id, old(device.files), copy.path);
        var written := old(D()).(files := old(device.files)[copy.path := text]);
        && (D() == old(D()) || (free && D() == written))
        && (device.alive ==> stands == free && D() == if free then written else old(D()))
    {
      var admitted := Admit(copy.path, None);
      if !admitted {
        return false;
      }
      var _ := device.Create(copy.path, text);
      var saved := device.Read(copy.path);
      if !device.alive {
        return false;
      }
      if saved.None? || Sha256(saved.value) != copy.hash {
        Attend(copy.path, COPY_DIFFERS);
        return false;
      }
      return true;
    }

    /** Saves one named copy, or finds it already standing. */
    method SaveCopy(pending: PendingApply, i: nat) returns (r: Saving)
      requires device.alive && device.Safe() && device.state.pendingApply == Some(pending) && i < |pending.copies|
      modifies device`clock, device`files, device`alive, device`state
      ensures device.Safe()
      ensures device.state.pendingApply.Some?
      ensures device.state.base == old(device.state.base) && device.state.stale == old(device.state.stale)
      ensures r.AllSaved? ==> device.alive && device.state.pendingApply == Some(pending)
      ensures r.NewerRow? ==> device.alive && device.state.pendingApply.Some? && device.state.pendingApply.value.change == r.change
      ensures Quiet(device.host) && WellNamed(pending) && pending.step == Named && Standing(pending, old(device.files), i) ==>
        && Destination() == old(Destination())
        && (r.AllSaved? ==> Standing(pending, device.files, i + 1))
        && (device.alive && !r.AllSaved? ==> r.NotSaved? && D() == Destination())
        && D() == old(D()).(files := device.files)
    {
      var copy := pending.copies[i];
      if Quiet(device.host) && WellNamed(pending) && pending.step == Named && Standing(pending, device.files, i) {
        NextCopy(device.id, name, D(), pending, i);
      }
      hide Saved, Next, Final, Permitted, RowHeld, Resumable, Confined;
      var existing := device.Read(copy.path);
      if !device.alive {
        return NotSaved;
      }
      if existing.Some? {
        if Sha256(existing.value) != copy.hash {
          Attend(copy.source, COPY_EDITED);
          return NotSaved;
        }
        return AllSaved;
      }
      var text := CopySource(pending, copy);
      if !text.Text? {
        return if text.Newer? then NewerRow(text.change) else NotSaved;
      }
      var stands := PutCopy(copy, text.text);
      return if stands then AllSaved else NotSaved;
    }

    /** Saves every named copy in order before anything is replaced. */
    method SaveCopies(pending: PendingApply) returns (r: Saving)
      requires device.alive && device.Safe() && device.state.pendingApply == Some(pending)
      modifies device`clock, device`files, device`alive, device`state
      ensures device.Safe()
      ensures device.state.pendingApply.Some?
      ensures device.state.base == old(device.state.base) && device.state.stale == old(device.state.stale)
      ensures r.AllSaved? ==> device.alive && device.state.pendingApply == Some(pending)
      ensures r.NewerRow? ==> device.alive && device.state.pendingApply.Some? && device.state.pendingApply.value.change == r.change
      ensures Quiet(device.host) && WellNamed(pending) && pending.step == Named ==>
        && Destination() == old(Destination())
        && D() == old(D()).(files := device.files)
        && (r.AllSaved? ==> Standing(pending, device.files, |pending.copies|))
        && (device.alive && !r.AllSaved? ==> r.NotSaved? && D() == Destination())
    {
      hide Final;
      ghost var quiet := Quiet(device.host) && WellNamed(pending) && pending.step == Named;
      for i := 0 to |pending.copies|
        invariant device.alive && device.state.pendingApply == Some(pending)
        invariant device.state.base == old(device.state.base) && device.state.stale == old(device.state.stale)
        invariant device.Safe()
        invariant quiet ==> Standing(pending, device.files, i) && Destination() == old(Destination())
        invariant quiet ==> D() == old(D()).(files := device.files)
      {
        r := SaveCopy(pending, i);
        if !r.AllSaved? {
          return;
        }
      }
      return AllSaved;
    }

    // ---- Finishing once copies stand ----

    /** Reads every named copy back; nothing is destroyed on the word of the journal alone. */
    method VerifyCopies(pending: PendingApply) returns (ok: bool)
      requires device.alive && device.Safe() && device.state.pendingApply == Some(pending)
      modifies device`clock, device`files, device`alive, device`state, device`verified
      ensures device.Safe()
      ensures device.state.base == old(device.state.base) && device.state.stale == old(device.state.stale)
      ensures device.state.pendingApply == old(device.state.pendingApply) && old(device.verified) <= device.verified
      ensures ok ==> device.alive && device.state == old(device.state)
      ensures Quiet(device.host) ==> D() == old(D())
      ensures Quiet(device.host) && device.alive ==> (ok <==> forall copy | copy in pending.copies :: CopyStands(device.files, copy))
    {
      for i := 0 to |pending.copies|
        invariant device.alive && device.Safe() && device.state == old(device.state) && old(device.verified) <= device.verified
        invariant Quiet(device.host) ==> D() == old(D()) && Standing(pending, device.files, i)
      {
        var verified := device.VerifyCopy(pending.copies[i]);
        if !device.alive {
          return false;
        }
        if !verified {
          assert pending.copies[i] in pending.copies;
          Attend(pending.copies[i].path, COPY_CHANGED);
          return false;
        }
      }
      return true;
    }

    /** Whether this version of a path is a named local copy, read back once more. */
    method HoldsCopy(pending: PendingApply, path: Path, version: bytes) returns (holds: bool)
      requires device.alive && device.Safe() && device.state.pendingApply == Some(pending)
      modifies device`clock, device`files, device`alive, device`verified
      ensures device.Safe() && old(device.verified) <= device.verified
      ensures holds ==> device.alive && device.Protected(path, version)
      ensures Quiet(device.host) ==> device.files == old(device.files)
      ensures Quiet(device.host) && device.alive && (forall copy | copy in pending.copies :: CopyStands(device.files, copy)) ==>
        (holds <==> HeldByCopy(pending, path, version))
    {
      var i := FirstLocal(pending.copies, path, 0);
      if i == |pending.copies| || pending.copies[i].hash != Sha256(version) {
        return false;
      }
      var copy := pending.copies[i];
      assert copy in pending.copies;
      holds := device.VerifyCopy(copy);
      if holds {
        assert CopyHolds(copy, path, version, device.verified);
      }
    }

    /** Finishes a delete whose local version is preserved. */
    method FinishDelete(pending: PendingApply)
      requires device.alive && device.Safe() && device.state.pendingApply == Some(pending) && pending.change.DeleteChange?
      modifies device`clock, device`files, device`alive, device`state, device`removed, device`verified
      ensures device.Safe()
      ensures Quiet(device.host) && Finishing(old(D()), pending) ==> Converges()
    {
      hide Final, Completed;
      var change := pending.change;
      ghost var quiet := Quiet(device.host) && Finishing(D(), pending);
      if quiet {
        DeleteEnds(device.id, name, D(), pending);
      }
      var current := device.Read(change.path);
      if !device.alive {
        return;
      }
      if current.Some? {
        var holds := HoldsCopy(pending, change.path, current.value);
        if !device.alive {
          return;
        }
        if !holds {
          Attend(change.path, LOCAL_CHANGED);
          return;
        }
        var gone := ConfirmLocalTrash(change.path, current.value);
        if !device.alive {
          return;
        }
        if !gone {
          Attend(change.path, TRASH_REFUSED);
          return;
        }
      }
      Complete(change);
    }

    /** Finishes a put whose colliding remote text was saved beside the local file. */
    method FinishCollision(pending: PendingApply) returns (exit: Exit)
      requires device.alive && device.Safe() && device.state.pendingApply == Some(pending) && pending.change.PutChange?
      modifies device`clock, device`files, device`alive, device`state
      ensures device.Safe() && (exit.Rebased? ==> Continues(exit.change))
      ensures Quiet(device.host) && Finishing(old(D()), pending) && (exists copy | copy in pending.copies :: copy.remote) ==>
        exit.Ended? && Converges()
    {
      hide Final, Completed;
      if Quiet(device.host) && Finishing(D(), pending) && exists copy | copy in pending.copies :: copy.remote {
        CollisionEnds(device.id, name, D(), pending);
      }
      var change := pending.change;
      var fetched := FetchText(change, change.hash);
      if !fetched.Text? {
        return if fetched.Newer? then Rebased(fetched.change) else Ended;
      }
      var noted := Note(CRecordAttention(change.path, COLLISION));
      if !noted {
        return Ended;
      }
      Complete(change);
      return Ended;
    }

    /** Finishes a put: the observed destination is unchanged base, a verified copy, or already remote. */
    method FinishPut(pending: PendingApply) returns (exit: Exit)
      requires device.alive && device.Safe() && device.state.pendingApply == Some(pending) && pending.change.PutChange?
      modifies device`clock, device`files, device`alive, device`state, device`removed, device`verified
      ensures device.Safe() && (exit.Rebased? ==> Continues(exit.change))
      ensures Quiet(device.host) && Finishing(old(D()), pending) && !(exists copy | copy in pending.copies :: copy.remote) ==>
        exit.Ended? && Converges()
    {
      hide Final, Completed;
      var change := pending.change;
      if Quiet(device.host) && Finishing(D(), pending) && !(exists copy | copy in pending.copies :: copy.remote) {
        PutEnds(device.id, name, D(), pending);
      }
      var fetched := FetchText(change, change.hash);
      if !fetched.Text? {
        return if fetched.Newer? then Rebased(fetched.change) else Ended;
      }
      var replaced := ReplaceDestination(pending, change.path, fetched.text);
      if replaced {
        Complete(change);
      }
      return Ended;
    }

    /** Replaces the destination of a copied apply by the pinned text, if its version may be taken away. */
    method ReplaceDestination(pending: PendingApply, path: Path, remote: bytes) returns (replaced: bool)
      requires device.alive && device.Safe() && device.state.pendingApply == Some(pending)
      modifies device`clock, device`files, device`alive, device`state, device`removed, device`verified
      ensures device.Safe() && old(device.verified) <= device.verified
      ensures replaced ==> device.alive
      ensures device.state.base == old(device.state.base) && device.state.stale == old(device.state.stale)
      ensures device.state.pendingApply == old(device.state.pendingApply)
      ensures Quiet(device.host) && (forall copy | copy in pending.copies :: CopyStands(old(device.files), copy)) ==>
        var possible := MayReplace(device.id, old(D()), pending, path, remote);
        var written := old(D()).(files := old(device.files)[path := remote]);
        && (D() == old(D()) || (possible && D() == written))
        && (device.alive ==> replaced == possible && D() == if possible then written else old(D()))
    {
      hide Next, Permitted, RowHeld, Resumable, Confined;
      var destination := device.Read(path);
      if !device.alive {
        return false;
      }
      if destination.Some? && destination.value != remote && !IsBase(BaseAt(device.state, path), destination.value) {
        var holds := HoldsCopy(pending, path, destination.value);
        if !device.alive {
          return false;
        }
        if !holds {
          Attend(path, LOCAL_CHANGED);
          return false;
        }
      }
      if destination.Some? && IsBase(BaseAt(device.state, path), destination.value) {
        device.BaseIsProtected(path, destination.value);
      }
      replaced := ApplyRemoteText(path, destination, remote);
      if device.alive && !replaced {
        Attend(path, WRITE_UNCONFIRMED);
      }
    }

    /** The apply goes on with a newer row already in the journal. */
    ghost predicate Continues(change: Change)
      reads device
    {
      device.alive && device.state.pendingApply.Some? && device.state.pendingApply.value.change == change
    }

    /** Trashes the rename source if it is its base or a verified copy; a source edited again stays. */
    method TrashSource(pending: PendingApply, from: Path) returns (gone: bool)
      requires device.alive && device.Safe() && device.state.pendingApply == Some(pending)
      modifies device`clock, device`files, device`alive, device`state, device`removed, device`verified
      ensures device.Safe() && (gone ==> device.alive)
      ensures device.state.pendingApply == old(device.state.pendingApply)
      ensures device.state.base == old(device.state.base) && device.state.stale == old(device.state.stale)
      ensures Quiet(device.host) && gone ==> device.files == old(device.files) - {from}
    {
      var source := device.Read(from);
      if !device.alive || source.None? {
        return device.alive;
      }
      if !IsBase(BaseAt(device.state, from), source.value) {
        var holds := HoldsCopy(pending, from, source.value);
        if !device.alive {
          return false;
        }
        if !holds {
          Attend(from, RENAME_SOURCE_CHANGED);
          return false;
        }
      }
      gone := ConfirmLocalTrash(from, source.value);
      if device.alive && !gone {
        Attend(from, RENAME_TRASH_REFUSED);
      }
    }

    /** A rename that has left the journal: both sides are confirmed and, if nothing interfered, both are in place. */
    ghost predicate RenameSettled(before: State, change: Change)
      requires change.RenameChange?
      reads device
    {
      device.state.pendingApply.None? && change.fromPath != change.path ==>
        && SidesTrusted(before, device.state, change)
        && (Quiet(device.host) && DestinationPending(before, change) ==>
              Lookup(device.files, change.path) == Some(change.hash.content))
        && (Quiet(device.host) && SourcePending(before, change) ==> change.fromPath !in device.files)
    }

    /** Confirms both rename sides; a side that is not pending is left as it is. */
    method CompleteRename(change: Change, sourcePending: bool, destinationPending: bool)
      requires device.alive && device.Safe() && change.RenameChange?
      requires device.state.pendingApply.Some? && device.state.pendingApply.value.change == change
      requires sourcePending == SourcePending(device.state, change)
      requires destinationPending == DestinationPending(device.state, change)
      modifies device`clock, device`files, device`alive, device`state
      ensures device.Safe()
      ensures device.state.pendingApply.None? && change.fromPath != change.path ==>
        SidesTrusted(old(device.state), device.state, change)
      ensures Quiet(device.host) ==> device.files == old(device.files)
    {
      var source := if sourcePending then Some(Tombstone(change.fromRev)) else None;
      var destination := if destinationPending then Some(Live(change.rev, change.hash)) else None;
      RenameCompletionIs(device.id, device.state, change, source, destination);
      if change.fromPath != change.path {
        RenameTrustsBothSides(device.id, device.state, change);
      }
      hide Next;
      var _ := device.Commit(CCompleteRename(change.fromPath, source, change.path, destination));
    }

    /** Finishes a rename whose edited sides are preserved. */
    method FinishRename(pending: PendingApply) returns (exit: Exit)
      requires device.alive && device.Safe() && device.state.pendingApply == Some(pending) && pending.change.RenameChange?
      modifies device`clock, device`files, device`alive, device`state, device`removed, device`verified
      ensures device.Safe() && (exit.Rebased? ==> Continues(exit.change))
      ensures (Quiet(device.host) ==> Standing(pending, old(device.files), |pending.copies|)) ==>
        RenameSettled(old(device.state), pending.change)
    {
      hide Next;
      var change := pending.change;
      var sourcePending := SourcePending(device.state, change);
      var destinationPending := DestinationPending(device.state, change);
      if destinationPending {
        var fetched := FetchText(change, change.hash);
        if !fetched.Text? {
          return if fetched.Newer? then Rebased(fetched.change) else Ended;
        }
        var replaced := ReplaceDestination(pending, change.path, fetched.text);
        if !replaced {
          return Ended;
        }
      }
      if sourcePending {
        var gone := TrashSource(pending, change.fromPath);
        if !gone {
          return Ended;
        }
      }
      CompleteRename(change, sourcePending, destinationPending);
      return Ended;
    }

    /** Finishes a copied apply: copies are verified first, and only a protected version is replaced. */
    method FinishCopiedApply(pending: PendingApply) returns (exit: Exit)
      requires device.alive && device.Safe() && device.state.pendingApply == Some(pending)
      modifies device`clock, device`files, device`alive, device`state, device`removed, device`verified
      ensures device.Safe() && (exit.Rebased? ==> Continues(exit.change))
      ensures Quiet(device.host) && WellNamed(pending) && pending.step == Copied ==> exit.Ended? && Converges()
      ensures pending.change.RenameChange? ==> RenameSettled(old(device.state), pending.change)
    {
      hide Final, Completed, Next;
      if Quiet(device.host) && WellNamed(pending) && pending.step == Copied {
        UnverifiedRests(device.id, name, D(), pending);
      }
      var verified := VerifyCopies(pending);
      if !verified {
        return Ended;
      }
      if pending.change.RenameChange? {
        exit := FinishRename(pending);
      } else if pending.change.DeleteChange? {
        FinishDelete(pending);
        exit := Ended;
      } else if exists copy | copy in pending.copies :: copy.remote {
        exit := FinishCollision(pending);
      } else {
        exit := FinishPut(pending);
      }
    }

    /** Resumes a named apply: saves every copy, marks the apply copied, and finishes it. */
    method ResumeNamed(pending: PendingApply) returns (exit: Exit)
      requires device.alive && device.Safe() && device.state.pendingApply == Some(pending)
      requires pending.step == Named && pending.copies != []
      modifies device`clock, device`files, device`alive, device`state, device`removed, device`verified
      ensures device.Safe() && (exit.Rebased? ==> Continues(exit.change))
      ensures Quiet(device.host) && WellNamed(pending) ==> exit.Ended? && Converges()
      ensures pending.change.RenameChange? ==> RenameSettled(old(device.state), pending.change)
    {
      hide Final, Next;
      var saved := SaveCopies(pending);
      if !saved.AllSaved? {
        return if saved.NewerRow? then Rebased(saved.change) else Ended;
      }
      if Quiet(device.host) && WellNamed(pending) {
        CopyingMovesNothing(device.id, name, D(), pending);
      }
      var copied := pending.(step := Copied);
      CopyingIs(device.id, device.state);
      var ok := device.Commit(CUpdateApply(copied));
      if !ok {
        return Ended;
      }
      exit := FinishCopiedApply(copied);
    }

    /** Persists the identity of every copy before any of them is created, then goes on. */
    method StartConflictCopies(change: Change, copies: seq<ConflictCopy>) returns (exit: Exit)
      requires device.alive && device.Safe() && copies != [] && (IsPathChange(change) ==> Apart(change, copies))
      requires device.state.pendingApply == Some(PendingApply(change, Prepared, []))
      modifies device`clock, device`files, device`alive, device`state, device`removed, device`verified
      ensures device.Safe() && (exit.Rebased? ==> Continues(exit.change))
      ensures Quiet(device.host) && NamesWhatIsNeeded(device.id, name, old(D()), change, copies) ==> exit.Ended? && Converges()
      ensures change.RenameChange? ==> RenameSettled(old(device.state), change)
    {
      assert Preparing(D(), change) ==> Recoverable(D());
      hide Final, Next, WellNamed;
      var named := PendingApply(change, Named, copies);
      if NamesWhatIsNeeded(device.id, name, D(), change, copies) {
        NamingMovesNothing(device.id, name, D(), change);
      }
      NamingIs(device.id, device.state, named);
      var ok := device.Commit(CUpdateApply(named));
      if !ok {
        return Ended;
      }
      exit := ResumeNamed(named);
    }

    // ---- Applying a prepared row ----

    /** Preserves one local version under its conflict name and goes on from there. */
    method StartConflict(change: Change, source: Path, version: Hash) returns (exit: Exit)
      requires device.alive && device.Safe() && (IsPathChange(change) ==> source == change.path)
      requires device.state.pendingApply == Some(PendingApply(change, Prepared, []))
      modifies device`clock, device`files, device`alive, device`state, device`removed, device`verified
      ensures device.Safe() && (exit.Rebased? ==> Continues(exit.change))
      ensures Quiet(device.host) && source == change.path
              && NamesWhatIsNeeded(device.id, name, old(D()), change, [ConflictCopy(name(source, change.rev), source, false, version)]) ==>
        exit.Ended? && Converges()
      ensures change.RenameChange? ==> RenameSettled(old(device.state), change)
    {
      exit := StartConflictCopies(change, [ConflictCopy(name(source, change.rev), source, false, version)]);
    }

    /** Applies a put whose path is absent locally. */
    method CreateRemote(change: Change, remote: bytes) returns (exit: Exit)
      requires device.alive && device.Safe() && change.PutChange? && Sha256(remote) == change.hash
      requires Preparing(D(), change)
      modifies device`clock, device`files, device`alive, device`state, device`removed, device`verified
      ensures device.Safe() && (exit.Rebased? ==> Continues(exit.change))
      ensures Quiet(device.host) && change.path !in old(device.files) ==> exit.Ended? && Converges()
    {
      assert Recoverable(D());
      hide Final, Completed, WellNamed, NeedsCopy, Obsolete, Next, Permitted, RowHeld, Resumable, Confined;
      var path := change.path;
      if Quiet(device.host) && path !in device.files {
        AbsentEnds(device.id, name, D(), change);
      }
      var collides := device.HasCollision(path);
      if !device.alive {
        return Ended;
      }
      if collides {
        exit := StartConflictCopies(change, [ConflictCopy(name(path, change.rev), path, true, change.hash)]);
        return;
      }
      var expected := Note(CExpectWrite(path, change.hash));
      if !expected {
        return Ended;
      }
      var admitted := Admit(path, Some(change.hash));
      if !admitted {
        return Ended;
      }
      var _ := device.Create(path, remote);
      var now := device.Read(path);
      if !device.alive {
        return Ended;
      }
      if now == Some(remote) {
        Complete(change);
        return Ended;
      }
      exit := Unconfirmed(change, now);
    }

    /** The created text is not what was written: what stands there is somebody's text and is preserved. */
    method Unconfirmed(change: Change, now: Option<bytes>) returns (exit: Exit)
      requires device.alive && device.Safe()
      requires device.state.pendingApply == Some(PendingApply(change, Prepared, []))
      modifies device`clock, device`files, device`alive, device`state, device`removed, device`verified
      ensures device.Safe() && (exit.Rebased? ==> Continues(exit.change))
    {
      var cleared := Note(CClearExpected(change.path));
      if !cleared || now.None? {
        return Ended;
      }
      var noted := Note(CRecordAttention(change.path, CREATE_UNCONFIRMED));
      if !noted {
        return Ended;
      }
      exit := StartConflict(change, change.path, Sha256(now.value));
    }

    /** Applies a put over a local text that differs from it: clean text is replaced, edited text is preserved first. */
    method ReplaceLocal(change: Change, local: bytes, remote: bytes) returns (exit: Exit)
      requires device.alive && device.Safe() && change.PutChange? && Sha256(remote) == change.hash
      requires Preparing(D(), change) && local != remote
      modifies device`clock, device`files, device`alive, device`state, device`removed, device`verified
      ensures device.Safe() && (exit.Rebased? ==> Continues(exit.change))
      ensures Quiet(device.host) && Lookup(old(device.files), change.path) == Some(local) ==> exit.Ended? && Converges()
    {
      assert Recoverable(D());
      hide Final, Completed, WellNamed, NeedsCopy, Obsolete, Next, Permitted, RowHeld, Resumable, Confined;
      var path := change.path;
      if Quiet(device.host) && Lookup(device.files, path) == Some(local) {
        PresentEnds(device.id, name, D(), change);
      }
      if IsBase(BaseAt(device.state, path), local) {
        var done := ReplaceClean(change, local, remote);
        if done {
          return Ended;
        }
      }
      var current := device.Read(path);
      if !device.alive || current.None? {
        return Ended;
      }
      exit := StartConflict(change, path, Sha256(current.value));
    }

    /** Replaces a text that is its base; `done` unless the host no longer found it there. */
    method ReplaceClean(change: Change, local: bytes, remote: bytes) returns (done: bool)
      requires device.alive && device.Safe() && change.PutChange? && Sha256(remote) == change.hash && local != remote
      requires device.state.pendingApply == Some(PendingApply(change, Prepared, []))
      requires IsBase(BaseAt(device.state, change.path), local)
      modifies device`clock, device`files, device`alive, device`state, device`removed
      ensures device.Safe()
      ensures !done ==> device.alive && device.state.pendingApply == old(device.state.pendingApply)
      ensures Quiet(device.host) && Lookup(old(device.files), change.path) == Some(local) ==>
        var written := old(D()).(files := old(device.files)[change.path := remote]);
        && done && (D() == old(D()) || D() == written || D() == Completed(written, change))
        && (device.alive ==> D() == Completed(written, change))
    {
      hide Final, Completed, Next, Permitted, RowHeld, Resumable, Confined;
      var path := change.path;
      var expected := Note(CExpectWrite(path, change.hash));
      if !expected {
        return true;
      }
      var admitted := Admit(path, Some(change.hash));
      if !admitted {
        return true;
      }
      device.BaseIsProtected(path, local);
      var applied := device.Process(path, local, remote);
      if applied {
        Complete(change);
        return true;
      }
      var cleared := Note(CClearExpected(path));
      return !cleared;
    }

    method ApplyPut(change: Change) returns (exit: Exit)
      requires device.alive && device.Safe() && change.PutChange?
      requires Preparing(D(), change)
      modifies device`clock, device`files, device`alive, device`state, device`removed, device`verified
      ensures device.Safe() && (exit.Rebased? ==> Continues(exit.change))
      ensures Quiet(device.host) ==> exit.Ended? && Converges()
    {
      assert Recoverable(D());
      hide Final, Completed, WellNamed, Obsolete, Quiet, Next;
      if Quiet(device.host) && Lookup(device.files, change.path) == Some(change.hash.content) {
        PresentEnds(device.id, name, D(), change);
      }
      var fetched := FetchText(change, change.hash);
      if !fetched.Text? {
        return if fetched.Newer? then Rebased(fetched.change) else Ended;
      }
      var local := device.Read(change.path);
      if !device.alive {
        return Ended;
      }
      if local == Some(fetched.text) {
        Complete(change);
        return Ended;
      }
      PreparingIgnoresFiles(old(D()), D(), change);
      if local.None? {
        exit := CreateRemote(change, fetched.text);
      } else {
        exit := ReplaceLocal(change, local.value, fetched.text);
      }
    }

    method ApplyDelete(change: Change) returns (exit: Exit)
      requires device.alive && device.Safe() && change.DeleteChange?
      requires Preparing(D(), change)
      modifies device`clock, device`files, device`alive, device`state, device`removed, device`verified
      ensures device.Safe() && (exit.Rebased? ==> Continues(exit.change))
      ensures Quiet(device.host) ==> exit.Ended? && Converges()
    {
      assert Recoverable(D());
      hide Final, Completed, WellNamed, NeedsCopy, Next, Obsolete;
      if Quiet(device.host) {
        PreparedDeleteEnds(device.id, name, D(), change);
      }
      var local := device.Read(change.path);
      if !device.alive {
        return Ended;
      }
      if local.Some? {
        if !IsBase(BaseAt(device.state, change.path), local.value) {
          exit := StartConflict(change, change.path, Sha256(local.value));
          return;
        }
        var admitted := Admit(change.path, None);
        if !admitted {
          return Ended;
        }
        var trashed := device.Trash(change.path, local.value);
        if !trashed {
          var remaining := device.Read(change.path);
          if !device.alive || remaining.Some? {
            return Ended;
          }
        }
      }
      Complete(change);
      return Ended;
    }

    /** Applies a rename: a clean source moves, edited sides are preserved, and the source goes last. */
    method ApplyRename(change: Change) returns (exit: Exit)
      requires device.alive && device.Safe() && change.RenameChange?
      requires device.state.pendingApply == Some(PendingApply(change, Prepared, []))
      modifies device`clock, device`files, device`alive, device`state, device`removed, device`verified
      ensures device.Safe() && (exit.Rebased? ==> Continues(exit.change))
      ensures RenameSettled(old(device.state), change)
    {
      hide Next;
      var from, to := change.fromPath, change.path;
      var sourcePending := SourcePending(device.state, change);
      var destinationPending := DestinationPending(device.state, change);
      if !sourcePending && !destinationPending {
        CompleteRename(change, false, false);
        return Ended;
      }
      var source, destination: Option<bytes> := None, None;
      if sourcePending {
        source := device.Read(from);
        if !device.alive {
          return Ended;
        }
      }
      if destinationPending {
        destination := device.Read(to);
        if !device.alive {
          return Ended;
        }
      }
      var sourceClean := source.Some? && IsBase(BaseAt(device.state, from), source.value);
      if sourceClean && destinationPending && destination.None? {
        var moved, settled := MoveClean(change, source.value);
        if settled {
          return moved;
        }
        if !device.alive {
          return Ended;
        }
      }
      if source.Some? && !sourceClean {
        var copies := [ConflictCopy(name(from, change.rev), from, false, Sha256(source.value))];
        if destination.Some? && !IsBase(BaseAt(device.state, to), destination.value) && Sha256(destination.value) != change.hash {
          copies := copies + [ConflictCopy(name(to, change.rev), to, false, Sha256(destination.value))];
        }
        exit := StartConflictCopies(change, copies);
        return;
      }
      exit := SettleRename(change, source, sourcePending, destinationPending);
    }

    /** Puts the destination in place, removes the clean source last, and confirms both sides. */
    method SettleRename(change: Change, source: Option<bytes>, sourcePending: bool, destinationPending: bool) returns (exit: Exit)
      requires device.alive && device.Safe() && change.RenameChange?
      requires device.state.pendingApply == Some(PendingApply(change, Prepared, []))
      requires sourcePending == SourcePending(device.state, change)
      requires destinationPending == DestinationPending(device.state, change)
      requires source.Some? ==> sourcePending && IsBase(BaseAt(device.state, change.fromPath), source.value)
      modifies device`clock, device`files, device`alive, device`state, device`removed, device`verified
      ensures device.Safe() && (exit.Rebased? ==> Continues(exit.change))
      ensures (Quiet(device.host) && sourcePending ==> source == Lookup(old(device.files), change.fromPath)) ==>
        RenameSettled(old(device.state), change)
    {
      hide Next;
      if destinationPending {
        var placed;
        placed, exit := PlaceDestination(change);
        if !placed {
          return;
        }
      }
      if source.Some? {
        var gone := ConfirmLocalTrash(change.fromPath, source.value);
        if !device.alive {
          return Ended;
        }
        if !gone {
          Attend(change.fromPath, RENAME_TRASH_REFUSED);
          return Ended;
        }
      }
      CompleteRename(change, sourcePending, destinationPending);
      return Ended;
    }

    /** Moves an unedited source to a free destination; `settled` says whether the row needs nothing more. */
    method MoveClean(change: Change, source: bytes) returns (exit: Exit, settled: bool)
      requires device.alive && device.Safe() && change.RenameChange?
      requires device.state.pendingApply == Some(PendingApply(change, Prepared, []))
      requires IsBase(BaseAt(device.state, change.fromPath), source)
      requires SourcePending(device.state, change) && DestinationPending(device.state, change)
      modifies device`clock, device`files, device`alive, device`state, device`removed, device`verified
      ensures device.Safe() && (exit.Rebased? ==> Continues(exit.change))
      ensures settled ==> RenameSettled(old(device.state), change)
      ensures !settled ==> exit.Ended? && device.state.pendingApply == old(device.state.pendingApply)
      ensures Quiet(device.host) && !settled ==> device.files == old(device.files)
      ensures !settled ==> device.state.base == old(device.state.base) && device.state.stale == old(device.state.stale)
    {
      hide Next, Permitted, RowHeld, Resumable, Confined;
      exit, settled := Ended, true;
      var expected := Note(CExpectWrite(change.path, change.hash));
      if !expected {
        return;
      }
      var admitted := Admit(change.path, Some(change.hash));
      if !admitted {
        return;
      }
      device.BaseIsProtected(change.fromPath, source);
      var renamed := device.Rename(change.fromPath, change.path, source);
      if renamed {
        exit, settled := CheckMoved(change);
        if settled {
          return;
        }
      }
      var cleared := Note(CClearExpected(change.path));
      settled := !cleared;
    }

    /** Looks at what the host moved: the renamed text is confirmed, anything else that stands there is preserved. */
    method CheckMoved(change: Change) returns (exit: Exit, settled: bool)
      requires device.alive && device.Safe() && change.RenameChange?
      requires device.state.pendingApply == Some(PendingApply(change, Prepared, []))
      requires SourcePending(device.state, change) && DestinationPending(device.state, change)
      modifies device`clock, device`files, device`alive, device`state, device`removed, device`verified
      ensures device.Safe() && (exit.Rebased? ==> Continues(exit.change))
      ensures settled && (Quiet(device.host) ==> change.fromPath !in old(device.files)) ==> RenameSettled(old(device.state), change)
      ensures !settled ==> device.alive && exit.Ended? && device.state == old(device.state)
      ensures Quiet(device.host) && change.path in old(device.files) ==> settled
    {
      hide Next, Permitted, RowHeld, Resumable, Confined;
      exit, settled := Ended, true;
      var now := device.Read(change.path);
      if !device.alive {
        return;
      }
      if now.None? {
        settled := false;
      } else if Sha256(now.value) == change.hash {
        CompleteRename(change, true, true);
      } else {
        exit := StartConflict(change, change.path, Sha256(now.value));
      }
    }

    /** Puts the renamed text in place, preserving a local version that is neither base nor remote. */
    method PlaceDestination(change: Change) returns (placed: bool, exit: Exit)
      requires device.alive && device.Safe() && change.RenameChange?
      requires device.state.pendingApply == Some(PendingApply(change, Prepared, []))
      modifies device`clock, device`files, device`alive, device`state, device`removed, device`verified
      ensures device.Safe() && (exit.Rebased? ==> Continues(exit.change))
      ensures placed ==> device.alive && exit.Ended? && device.state.pendingApply == old(device.state.pendingApply)
      ensures placed ==> device.state.base == old(device.state.base) && device.state.stale == old(device.state.stale)
      ensures !placed ==> RenameSettled(old(device.state), change)
      ensures Quiet(device.host) && placed ==> device.files == old(device.files)[change.path := change.hash.content]
    {
      placed, exit := false, Ended;
      var fetched := FetchText(change, change.hash);
      if !fetched.Text? {
        exit := if fetched.Newer? then Rebased(fetched.change) else Ended;
        return;
      }
      var current := device.Read(change.path);
      if !device.alive {
        return;
      }
      if current == Some(fetched.text) {
        assert Quiet(device.host) ==> device.files == device.files[change.path := fetched.text];
        placed := true;
        return;
      }
      if current.Some? && !IsBase(BaseAt(device.state, change.path), current.value) {
        exit := StartConflict(change, change.path, Sha256(current.value));
        return;
      }
      placed := ApplyRemoteText(change.path, current, fetched.text);
      if !device.alive || placed {
        return;
      }
      var latest := device.Read(change.path);
      if device.alive && latest.Some? {
        exit := StartConflict(change, change.path, Sha256(latest.value));
      }
    }

    // ---- Entry points ----

    /** Runs a prepared row: an obsolete one is dropped, any other is applied. */
    method ApplyPrepared(change: Change) returns (exit: Exit)
      requires device.alive && device.Safe() && change.rev > 0
      requires device.state.pendingApply == Some(PendingApply(change, Prepared, []))
      modifies device`clock, device`files, device`alive, device`state, device`removed, device`verified
      ensures device.Safe() && (exit.Rebased? ==> Continues(exit.change))
      ensures Quiet(device.host) && IsPathChange(change) ==> exit.Ended? && Converges()
      ensures change.RenameChange? ==> RenameSettled(old(device.state), change)
    {
      hide Final, Completed, Next;
      if change.RenameChange? {
        exit := ApplyRename(change);
        return;
      }
      assert Recoverable(D());
      if Obsolete(DurableOf(device.files, device.state), change) {
        ObsoleteEnds(device.id, name, device.files, device.state, change);
        var _ := device.Commit(CIgnoreApply(change.path, change.rev));
        return Ended;
      }
      if change.PutChange? {
        exit := ApplyPut(change);
      } else {
        exit := ApplyDelete(change);
      }
    }

    /** Resumes whatever step the journal holds. */
    method ResumePending(pending: PendingApply) returns (exit: Exit)
      requires device.alive && device.Safe()
      requires device.state.pendingApply == Some(pending)
      modifies device`clock, device`files, device`alive, device`state, device`removed, device`verified
      ensures device.Safe() && (exit.Rebased? ==> Continues(exit.change))
      ensures Quiet(device.host) && WellNamed(pending) ==> exit.Ended? && Converges()
      ensures pending.change.RenameChange? ==> RenameSettled(old(device.state), pending.change)
    {
      match pending.step {
        case Prepared => exit := ApplyPrepared(pending.change);
        case Named => exit := ResumeNamed(pending);
        case Copied => exit := FinishCopiedApply(pending);
      }
    }

    /** Begins a row when nothing is pending, or resumes what is pending under its sequence number. */
    method ApplyEntry(change: Change) returns (exit: Exit, begun: bool)
      requires device.alive && device.Safe() && change.rev > 0
      requires device.focus.Some? ==> device.state.pendingApply.Some?
      modifies device`clock, device`files, device`alive, device`state, device`removed, device`verified, device`rows
      ensures device.Safe() && (exit.Rebased? ==> Continues(exit.change))
      ensures device.rows == old(device.rows) +
        if begun && old(device.state).pendingApply.None? then RowsTaken(old(device.state), change) else {}
      ensures begun && old(device.state).pendingApply.Some? ==> old(device.state).pendingApply.value.change.sequence == change.sequence
      ensures IsWithheld(change) ==> !begun && device.state == old(device.state) && device.removed == old(device.removed)
      ensures Quiet(device.host) && OnItsWay(old(device.state), change) ==> exit.Ended? && Converges()
      ensures Quiet(device.host) && old(device.state).pendingApply.None? && IsPathChange(change) ==>
        exit.Ended? && (D() == old(D()) || Arrives(Beginning(old(D()), change)))
    {
      hide Final, Completed, Next, Permitted;
      begun := false;
      var available := Available(change);
      if !available {
        return Ended, false;
      }
      var pending := device.state.pendingApply;
      if pending.Some? {
        if pending.value.change.sequence != change.sequence {
          return Ended, false;
        }
        exit := ResumePending(pending.value);
        return exit, true;
      }
      BeginningIs(device.id, device.state, change);
      BeginningKeeps(device.id, device.state, change);
      begun := device.Commit(CBeginApply(change));
      if !begun {
        return Ended, false;
      }
      device.rows := device.rows + RowsTaken(old(device.state), change);
      exit := ApplyPrepared(change);
    }

    /** The host withholds a path of the change throughout. */
    ghost predicate IsWithheld(change: Change)
      reads device
    {
      Withheld(device.host, change.path) || (change.RenameChange? && Withheld(device.host, change.fromPath))
    }

    /** No path of the change is withheld by the host. */
    method Available(change: Change) returns (available: bool)
      requires device.alive && device.Safe()
      modifies device`clock, device`files, device`alive
      ensures device.Safe() && (available ==> device.alive)
      ensures IsWithheld(change) ==> !available
      ensures Quiet(device.host) ==> device.files == old(device.files) && (device.alive ==> available)
    {
      if change.RenameChange? {
        available := device.IsAvailable(change.fromPath);
        if !available {
          return;
        }
      }
      available := device.IsAvailable(change.path);
    }

    /** The run stands on the way to the destination of `from`, and at it unless it was interrupted. */
    ghost predicate Arrives(from: Durable)
      reads device
    {
      && Destination() == Final(device.id, name, from) && (device.alive ==> D() == Final(device.id, name, from))
      && Recoverable(D())
    }

    /** Continues the one pending apply after a restart; a row rebased on the way is run once more. */
    method Resume()
      requires device.alive && device.Safe()
      modifies device`clock, device`files, device`alive, device`state, device`removed, device`verified, device`rows
      ensures device.Safe()
      ensures old(device.rows) <= device.rows
      ensures forall row | row in device.rows && row !in old(device.rows) ::
        old(device.state).pendingApply.Some? && row in RowsTaken(old(device.state), old(device.state).pendingApply.value.change)
      ensures Quiet(device.host) && Recoverable(old(D())) ==> Converges()
    {
      hide Final;
      if device.state.pendingApply.Some? {
        var _ := RunWithFallback(device.state.pendingApply.value.change);
      } else {
        assert Destination() == D() by {
          NothingPendingRests(device.id, name, D());
        }
      }
    }

    /** Applies one entry, and once more when its pinned revision was replaced by a newer one. From the moment
        it has begun, the row taken on (the pending one, if there is one) is confirmed or pending. */
    method RunWithFallback(change: Change) returns (begun: bool)
      requires device.alive && device.Safe() && change.rev > 0
      requires device.focus.Some? ==> device.state.pendingApply.Some?
      modifies device`clock, device`files, device`alive, device`state, device`removed, device`verified, device`rows
      ensures device.Safe()
      ensures old(device.rows) <= device.rows <= old(device.rows) + RowsTaken(old(device.state), Target(old(device.state), change))
      ensures begun ==> RowsTaken(old(device.state), Target(old(device.state), change)) <= device.rows
      ensures begun && old(device.state).pendingApply.Some? ==> old(device.state).pendingApply.value.change.sequence == change.sequence
      ensures Quiet(device.host) && OnItsWay(old(device.state), change) ==> Converges()
      ensures Quiet(device.host) && old(device.state).pendingApply.None? && IsPathChange(change) ==>
        D() == old(D()) || Arrives(Beginning(old(D()), change))
    {
      hide Final, Permitted;
      if device.state.pendingApply.Some? {
        device.rows := device.rows + RowsTaken(device.state, device.state.pendingApply.value.change);
      }
      var exit;
      exit, begun := ApplyEntry(change);
      if exit.Rebased? {
        var _, _ := ApplyEntry(exit.change);
      }
    }

    /** Applies current authority under the sequence number after the cursor, behind any pending apply; on
        success the path is confirmed at that revision or a newer one and nothing is left pending. */
    method ApplyCurrent(path: Path, text: Option<bytes>, epoch: Epoch, rev: nat) returns (ok: bool)
      requires device.alive && device.Safe() && device.focus.None? && rev > 0
      modifies device`clock, device`files, device`alive, device`state, device`removed, device`verified, device`rows
      ensures device.Safe() && old(device.rows) <= device.rows
      ensures ok ==> device.alive && device.state.pendingApply.None? && TrustedAt(device.state, path, rev)
    {
      if device.state.pendingApply.Some? {
        var _ := RunWithFallback(device.state.pendingApply.value.change);
        if !device.alive || device.state.pendingApply.Some? {
          return false;
        }
      }
      if device.state.epoch != Some(epoch) {
        return false;
      }
      var sequence := (if device.state.cursor.Some? then device.state.cursor.value else 0) + 1;
      var change := if text.Some? then PutChange(sequence, path, epoch, rev, Sha256(text.value)) else DeleteChange(sequence, path, epoch, rev);
      var begun := RunWithFallback(change);
      return begun && device.alive && device.state.pendingApply.None?;
    }
  }

  /** The pending row, moved to the revision the server still has. */
  function NewerChange(change: Change, fetch: Fetch): (newer: Change)
    requires fetch.PrunedTo? || (fetch.PrunedToTombstone? && change.PutChange?)
    ensures Follows(change, newer)
    ensures newer.DeleteChange? ==> change.DeleteChange? || fetch.PrunedToTombstone?
  {
    var rev := change.rev + 1 + fetch.ahead;
    match change
    case PutChange(n, path, epoch, _, _) =>
      if fetch.PrunedTo? then PutChange(n, path, epoch, rev, Sha256(fetch.text)) else DeleteChange(n, path, epoch, rev)
    case DeleteChange(n, path, epoch, _) => DeleteChange(n, path, epoch, rev)
    case RenameChange(n, from, fromRev, path, epoch, _, _) => RenameChange(n, from, fromRev, path, epoch, rev, Sha256(fetch.text))
  }

  /** The same row of the feed at a newer revision of its path. */
  predicate Follows(change: Change, newer: Change) {
    && newer.sequence == change.sequence && newer.path == change.path && newer.epoch == change.epoch && newer.rev > change.rev
    && (change.RenameChange? <==> newer.RenameChange?)
    && (change.RenameChange? ==> newer.fromPath == change.fromPath && newer.fromRev == change.fromRev)
  }

  lemma RebaseIs(id: Identity, s: State, newer: Change, copies: Option<seq<ConflictCopy>>)
    requires s.pendingApply.Some? && Follows(s.pendingApply.value.change, newer)
    requires copies.None? ==> s.pendingApply.value.copies == []
    requires copies.Some? && IsPathChange(newer) ==> Apart(newer, copies.value)
    ensures Keeps(id, s, CRebaseApply(newer, copies))
    ensures var next := Next(id, s, CRebaseApply(newer, copies));
            next.Success? ==>
              && next.value.base == s.base && next.value.stale == s.stale
              && next.value.pendingApply.Some? && next.value.pendingApply.value.change == newer
  {
  }

  ghost predicate Standing(pending: PendingApply, files: Files, n: nat) {
    n <= |pending.copies| && forall j | 0 <= j < n :: CopyStands(files, pending.copies[j])
  }

  /** What the next copy comes to: it stands, it can be created, or the apply rests here. */
  lemma NextCopy(id: Identity, name: CopyNamer, d: Durable, pending: PendingApply, i: nat)
    requires d.pending == Some(pending) && pending.step == Named && WellNamed(pending)
    requires i < |pending.copies| && Standing(pending, d.files, i)
    ensures var copy := pending.copies[i];
            if copy.path in d.files then
              (if CopyStands(d.files, copy) then Standing(pending, d.files, i + 1) else Final(id, name, d) == d)
            else if CopyText(d.files, pending.change, copy).None? || Collides(id, d.files, copy.path) then Final(id, name, d) == d
            else
              var next := d.files[copy.path := CopyText(d.files, pending.change, copy).value];
              && Standing(pending, next, i + 1)
              && Final(id, name, d.(files := next)) == Final(id, name, d)
  {
    hide Finished;
    var copy := pending.copies[i];
    if copy.path in d.files {
      if !CopyStands(d.files, copy) {
        BlockedIsFinal(id, name, d, pending, i);
      }
    } else if CopyText(d.files, pending.change, copy).None? || Collides(id, d.files, copy.path) {
      BlockedIsFinal(id, name, d, pending, i);
    } else {
      SavingMovesNothing(id, d.files, pending.change, pending.copies, i);
      var next := d.files[copy.path := CopyText(d.files, pending.change, copy).value];
      PreservedAgrees(id, d, d.(files := next), pending);
    }
  }

  lemma PreservedAgrees(id: Identity, d: Durable, e: Durable, pending: PendingApply)
    requires IsPathChange(pending.change) && d.base == e.base && d.stale == e.stale && d.pending == e.pending
    requires Saved(id, d.files, pending.change, pending.copies) == Saved(id, e.files, pending.change, pending.copies)
    ensures Preserved(id, d, pending) == Preserved(id, e, pending)
  {
    var (files, ok) := Saved(id, d.files, pending.change, pending.copies);
    FinishedForgets(id, d.(files := files), e.(files := files), pending.(step := Copied));
  }

  /** How a delete with standing copies ends. */
  lemma DeleteEnds(id: Identity, name: CopyNamer, d: Durable, pending: PendingApply)
    requires Finishing(d, pending) && pending.change.DeleteChange?
    ensures var path := pending.change.path;
            var next := d.(files := d.files - {path});
            if path in d.files && !HeldByCopy(pending, path, d.files[path]) then Final(id, name, d) == d
            else
              && Final(id, name, next) == Final(id, name, d) == Completed(next, pending.change)
              && Final(id, name, Completed(next, pending.change)) == Completed(next, pending.change)
              && Recoverable(Completed(next, pending.change))
              && (path !in d.files ==> next == d)
  {
    var path := pending.change.path;
    var next := d.(files := d.files - {path});
    if path !in d.files {
      assert next.files == d.files;
    }
    if path in d.files && !HeldByCopy(pending, path, d.files[path]) {
      CompletedIgnoresPending(d, d, pending);
    } else {
      RemovingMovesNothing(id, name, d, pending);
      CompletedRests(id, name, next, pending.change);
    }
  }

  /** A confirmed change rests; an overtaken one is where it was. */
  lemma CompletedRests(id: Identity, name: CopyNamer, d: Durable, change: Change)
    requires IsPathChange(change) && Final(id, name, d) == Completed(d, change)
    ensures Final(id, name, Completed(d, change)) == Completed(d, change)
    ensures Recoverable(d) ==> Recoverable(Completed(d, change))
  {
  }

  predicate MayReplace(id: Identity, d: Durable, pending: PendingApply, path: Path, remote: bytes) {
    if path in d.files then
      d.files[path] == remote || Clean(d, path) || HeldByCopy(pending, path, d.files[path])
    else !Collides(id, d.files, path)
  }

  /** How a put with standing local copies ends. */
  lemma PutEnds(id: Identity, name: CopyNamer, d: Durable, pending: PendingApply)
    requires Finishing(d, pending) && pending.change.PutChange? && !(exists copy | copy in pending.copies :: copy.remote)
    ensures var change := pending.change;
            var next := d.(files := d.files[change.path := change.hash.content]);
            if !MayReplace(id, d, pending, change.path, change.hash.content) then Final(id, name, d) == d
            else
              && Final(id, name, next) == Final(id, name, d) == Completed(next, change)
              && Final(id, name, Completed(next, change)) == Completed(next, change)
              && Recoverable(Completed(next, change))
  {
    var change := pending.change;
    var next := d.(files := d.files[change.path := change.hash.content]);
    if MayReplace(id, d, pending, change.path, change.hash.content) {
      ReplacingMovesNothing(id, name, d, pending);
      CompletedRests(id, name, next, change);
    } else {
      CompletedIgnoresPending(d, d, pending);
    }
  }

  /** How a put with a standing remote copy ends. */
  lemma CollisionEnds(id: Identity, name: CopyNamer, d: Durable, pending: PendingApply)
    requires Finishing(d, pending) && pending.change.PutChange? && exists copy | copy in pending.copies :: copy.remote
    ensures Final(id, name, d) == Completed(d, pending.change)
    ensures Final(id, name, Completed(d, pending.change)) == Completed(d, pending.change)
    ensures Recoverable(Completed(d, pending.change))
  {
    CompletedIgnoresPending(d, d, pending);
    CompletedRests(id, name, d, pending.change);
  }

  predicate SourcePending(s: State, change: Change)
    requires change.RenameChange?
  {
    change.fromPath in s.base && (s.base[change.fromPath].rev < change.fromRev || change.fromPath in s.stale)
  }

  predicate DestinationPending(s: State, change: Change)
    requires change.RenameChange?
  {
    change.path !in s.base || s.base[change.path].rev < change.rev || change.path in s.stale
  }

  /** These copies are exactly what an undisturbed run names here. */
  ghost predicate NamesWhatIsNeeded(id: Identity, name: CopyNamer, d: Durable, change: Change, copies: seq<ConflictCopy>) {
    && Preparing(d, change) && NeedsCopy(id, d, change)
    && PendingApply(change, Named, copies) == NamedCopy(name, d, change, change.path !in d.files, CopyHash(d, change))
  }

  lemma UnverifiedRests(id: Identity, name: CopyNamer, d: Durable, pending: PendingApply)
    requires d.pending == Some(pending) && pending.step == Copied && WellNamed(pending)
    ensures Finishing(d, pending) || Final(id, name, d) == d
  {
    CompletedIgnoresPending(d, d, pending);
  }

  lemma CompletedArrives(id: Identity, name: CopyNamer, d: Durable, change: Change)
    requires Preparing(d, change)
    ensures Final(id, name, Completed(d, change)) == Completed(d, change)
    ensures Recoverable(d) && Recoverable(Completed(d, change))
  {
    PreparedCompletes(d, change);
  }

  /** How a prepared put over an absent path ends. */
  lemma AbsentEnds(id: Identity, name: CopyNamer, d: Durable, change: Change)
    requires Preparing(d, change) && change.PutChange? && change.path !in d.files
    ensures var next := d.(files := d.files[change.path := change.hash.content]);
            if Collides(id, d.files, change.path) then
              NamesWhatIsNeeded(id, name, d, change, [ConflictCopy(name(change.path, change.rev), change.path, true, change.hash)])
            else
              && Final(id, name, next) == Final(id, name, d) == Completed(next, change)
              && Final(id, name, Completed(next, change)) == Completed(next, change)
              && Recoverable(Completed(next, change))
  {
    hide Final;
    if !Collides(id, d.files, change.path) {
      WriteMovesNothing(id, name, d, change);
      CompletedArrives(id, name, d.(files := d.files[change.path := change.hash.content]), change);
    }
  }

  /** How a prepared put over a present path ends. */
  lemma PresentEnds(id: Identity, name: CopyNamer, d: Durable, change: Change)
    requires Preparing(d, change) && change.PutChange? && change.path in d.files
    ensures var local := d.files[change.path];
            var next := d.(files := d.files[change.path := change.hash.content]);
            if local == change.hash.content || Clean(d, change.path) then
              && Final(id, name, next) == Final(id, name, d) == Completed(next, change)
              && Final(id, name, Completed(next, change)) == Completed(next, change)
              && Recoverable(Completed(next, change))
              && (local == change.hash.content ==> next == d)
            else
              NamesWhatIsNeeded(id, name, d, change, [ConflictCopy(name(change.path, change.rev), change.path, false, Sha256(local))])
  {
    hide Final;
    var next := d.(files := d.files[change.path := change.hash.content]);
    if d.files[change.path] == change.hash.content || Clean(d, change.path) {
      WriteMovesNothing(id, name, d, change);
      CompletedArrives(id, name, next, change);
      if d.files[change.path] == change.hash.content {
        assert next.files == d.files;
      }
    }
  }

  /** How a prepared delete ends. */
  lemma PreparedDeleteEnds(id: Identity, name: CopyNamer, d: Durable, change: Change)
    requires Preparing(d, change) && change.DeleteChange?
    ensures var next := d.(files := d.files - {change.path});
            if change.path in d.files && !Clean(d, change.path) then
              NamesWhatIsNeeded(id, name, d, change,
                                [ConflictCopy(name(change.path, change.rev), change.path, false, Sha256(d.files[change.path]))])
            else
              && Final(id, name, next) == Final(id, name, d) == Completed(next, change)
              && Final(id, name, Completed(next, change)) == Completed(next, change)
              && Recoverable(Completed(next, change))
              && (change.path !in d.files ==> next == d)
  {
    hide Final;
    var next := d.(files := d.files - {change.path});
    if change.path !in d.files || Clean(d, change.path) {
      TrashMovesNothing(id, name, d, change);
      CompletedArrives(id, name, next, change);
      if change.path !in d.files {
        assert next.files == d.files;
      }
    }
  }

  lemma PreparingIgnoresFiles(d: Durable, e: Durable, change: Change)
    requires Preparing(d, change) && e.base == d.base && e.stale == d.stale && e.pending == d.pending
    ensures Preparing(e, change)
  {
  }

  lemma NothingPendingRests(id: Identity, name: CopyNamer, d: Durable)
    requires d.pending.None?
    ensures Final(id, name, d) == d
  {
  }

  lemma ObsoleteEnds(id: Identity, name: CopyNamer, files: Files, s: State, change: Change)
    requires IsPathChange(change) && s.pendingApply == Some(PendingApply(change, Prepared, []))
    requires Obsolete(DurableOf(files, s), change)
    ensures var d, next := DurableOf(files, s), Next(id, s, CIgnoreApply(change.path, change.rev));
            && next.Success? && DurableOf(files, next.value) == Final(id, name, d)
            && Final(id, name, Final(id, name, d)) == Final(id, name, d)
            && Final(id, name, d).pending.None?
    ensures Keeps(id, s, CIgnoreApply(change.path, change.rev))
  {
  }

  /** Whatever is pending is a put or delete, which a safe device stores with copies apart from its path. */
  ghost predicate Recoverable(d: Durable) {
    d.pending.Some? ==> WellNamed(d.pending.value)
  }

  lemma PathChangesAreRecoverable(files: Files, s: State)
    requires Resumable(s)
    ensures Recoverable(DurableOf(files, s)) <==> s.pendingApply.None? || IsPathChange(s.pendingApply.value.change)
  {
  }

  /** Crash convergence. A put or delete interrupted any number of times, at any journal write or vault
      effect, and resumed without interference, never loses its destination; the first life that is not
      interrupted ends exactly where the uninterrupted run ends. */
  method CrashAndResume(engine: TextApplyEngine, lives: seq<Host>)
    requires engine.device.Safe() && engine.device.focus.None? && Recoverable(engine.D())
    requires forall life | life in lives :: Quiet(life)
    modifies engine.device
    ensures engine.device.Safe() && engine.device.focus.None? && Recoverable(engine.D())
    ensures engine.Destination() == old(engine.Destination())
    ensures lives != [] && engine.device.alive ==> engine.D() == old(engine.Destination())
  {
    hide Final, WellNamed;
    for i := 0 to |lives|
      invariant engine.device.Safe() && engine.device.focus.None? && Recoverable(engine.D())
      invariant engine.Destination() == old(engine.Destination())
      invariant i > 0 && engine.device.alive ==> engine.D() == old(engine.Destination())
    {
      engine.device.host, engine.device.alive := lives[i], true;
      assert lives[i] in lives;
      engine.Resume();
    }
  }

  /** The whole of it: a put or delete is begun, crashes anywhere, and is resumed. Either it was never begun, or
      the first life that is not interrupted ends exactly where the uninterrupted run ends. */
  method BeginCrashAndResume(engine: TextApplyEngine, change: Change, lives: seq<Host>)
    requires engine.device.alive && engine.device.Safe() && engine.device.focus.None? && engine.device.state.pendingApply.None?
    requires IsPathChange(change) && change.rev > 0
    requires Quiet(engine.device.host) && forall life | life in lives :: Quiet(life)
    modifies engine.device
    ensures engine.device.Safe()
    ensures engine.Destination() == old(engine.D()) || engine.Destination() == Final(engine.device.id, engine.name, Beginning(old(engine.D()), change))
    ensures lives != [] && engine.device.alive ==>
      engine.D() == old(engine.D()) || engine.D() == Final(engine.device.id, engine.name, Beginning(old(engine.D()), change))
  {
    hide Final, WellNamed;
    NothingPendingRests(engine.device.id, engine.name, engine.D());
    var _ := engine.RunWithFallback(change);
    CrashAndResume(engine, lives);
  }

  /** Lives with any interference, then undisturbed ones: whatever the former leave pending, if it is a put or
      delete, the latter bring to its one outcome. */
  method AnyLivesThenQuiet(engine: TextApplyEngine, disturbed: seq<Host>, quiet: seq<Host>)
    returns (ghost left: Durable)
    requires engine.device.Safe() && engine.device.focus.None?
    requires forall life | life in quiet :: Quiet(life)
    modifies engine.device
    ensures engine.device.Safe()
    ensures Recoverable(left) ==> engine.Destination() == Final(engine.device.id, engine.name, left)
    ensures Recoverable(left) && quiet != [] && engine.device.alive ==> engine.D() == Final(engine.device.id, engine.name, left)
    ensures disturbed == [] ==> left == old(engine.D())
  {
    hide Final, WellNamed;
    for i := 0 to |disturbed|
      invariant engine.device.Safe() && engine.device.focus.None?
      invariant i == 0 ==> engine.D() == old(engine.D())
    {
      engine.device.host, engine.device.alive := disturbed[i], true;
      engine.Resume();
    }
    left := engine.D();
    PathChangesAreRecoverable(engine.device.files, engine.device.state);
    if engine.device.state.pendingApply.None? || IsPathChange(engine.device.state.pendingApply.value.change) {
      CrashAndResume(engine, quiet);
    }
  }

  lemma RenameCompletionIs(id: Identity, s: State, change: Change, source: Option<Base>, destination: Option<Base>)
    requires change.RenameChange? && s.pendingApply.Some? && s.pendingApply.value.change == change
    requires source == if SourcePending(s, change) then Some(Tombstone(change.fromRev)) else None
    requires destination == if DestinationPending(s, change) then Some(Live(change.rev, change.hash)) else None
    ensures Keeps(id, s, CCompleteRename(change.fromPath, source, change.path, destination))
  {
    if HasSource(change) {
      RenameTrustsBothSides(id, s, change);
    }
  }

  /** Both sides are confirmed at the rename's revisions or newer; a source never known here needs nothing. */
  ghost predicate SidesTrusted(before: State, s: State, change: Change)
    requires change.RenameChange?
  {
    && TrustedAt(s, change.path, change.rev)
    && (change.fromPath in before.base ==> TrustedAt(s, change.fromPath, change.fromRev))
  }

  /** Confirming exactly the pending sides leaves both trusted. */
  lemma RenameTrustsBothSides(id: Identity, s: State, change: Change)
    requires change.RenameChange? && change.fromPath != change.path
    ensures var source := if SourcePending(s, change) then Some(Tombstone(change.fromRev)) else None;
            var destination := if DestinationPending(s, change) then Some(Live(change.rev, change.hash)) else None;
            var next := Next(id, s, CCompleteRename(change.fromPath, source, change.path, destination));
            next.Success? ==> SidesTrusted(s, next.value, change)
  {
  }

  lemma BeginningKeeps(id: Identity, s: State, change: Change)
    requires s.pendingApply.None? && change.rev > 0
    ensures Keeps(id, s, CBeginApply(change))
  {
  }

  /** The pending put or delete is the one this change resumes. */
  ghost predicate OnItsWay(s: State, change: Change) {
    && s.pendingApply.Some? && s.pendingApply.value.change.sequence == change.sequence
    && IsPathChange(s.pendingApply.value.change)
  }

  /** The durable state as soon as the change has begun. */
  function Beginning(d: Durable, change: Change): Durable {
    d.(pending := Some(PendingApply(change, Prepared, [])))
  }

  /** The row a run works on: the pending one, if there is one, whatever was asked for. */
  function Target(s: State, change: Change): Change {
    if s.pendingApply.Some? then s.pendingApply.value.change else change
  }
}
