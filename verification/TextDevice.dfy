/** The vault and the journal as one apply run sees them, with everything the outside may do between two steps. */
module TextDevice {
  import opened Bytes
  import opened DeviceState
  import opened JournalProgress
  import opened JournalSteps

  type Files = map<Path, bytes>

  /** A pinned remote read: the exact revision, a later one after pruning (so many revisions past the next),
      or no valid answer. */
  datatype Fetch = Exact(text: bytes) | PrunedTo(ahead: nat, text: bytes) | PrunedToTombstone(ahead: nat) | Invalid

  /** What the outside decides at each await: user edits, a crash, the fence, the host, storage, the server. */
  datatype Host = Host(
    user: (nat, Files) -> Files,
    dies: nat -> bool,
    admits: nat -> bool,
    available: (nat, Path) -> bool,
    obeys: nat -> bool,
    saves: nat -> bool,
    fetch: (nat, Change) -> Fetch)

  /** No interference: nobody edits, every admitted effect happens, and the pinned text is served. */
  ghost predicate Quiet(host: Host) {
    && (forall n: nat, files: Files :: host.user(n, files) == files)
    && (forall n: nat :: host.admits(n) && host.obeys(n) && host.saves(n))
    && (forall n: nat, path: Path :: host.available(n, path))
    && (forall n: nat, change: Change | change.PutChange? :: host.fetch(n, change) == Exact(change.hash.content))
  }

  /** A placeholder stands for the file all the while. */
  ghost predicate Withheld(host: Host, path: Path) {
    forall n: nat :: !host.available(n, path)
  }

  function Lookup(files: Files, path: Path): Option<bytes> {
    if path in files then Some(files[path]) else None
  }

  /** Another path of the same identity is taken. */
  predicate Collides(id: Identity, files: Files, path: Path) {
    exists other | other in files :: other != path && id(other) == id(path)
  }

  // ---- Taking a version away ----

  /** A text version taken away from a path, with the evidence held at that moment. */
  datatype Removal = Removal(
    path: Path, version: bytes, base: Option<Base>, stale: bool, copies: seq<ConflictCopy>, verified: set<(Path, Hash)>)

  predicate IsBase(base: Option<Base>, version: bytes) {
    base.Some? && base.value.Live? && base.value.hash == Sha256(version)
  }

  /** A durably named local copy of this version, whose own bytes were read back and matched. */
  predicate CopyHolds(copy: ConflictCopy, path: Path, version: bytes, verified: set<(Path, Hash)>) {
    !copy.remote && copy.source == path && copy.hash == Sha256(version) && (copy.path, copy.hash) in verified
  }

  ghost predicate InACopy(r: Removal) {
    exists copy | copy in r.copies :: CopyHolds(copy, r.path, r.version, r.verified)
  }

  /** The version is the base confirmed in this epoch, or stands in a named copy that was read back. */
  ghost predicate Justified(r: Removal) {
    (IsBase(r.base, r.version) && !r.stale) || InACopy(r)
  }

  /** What the code asks before it takes a version away: it does not ask which epoch the base is of. */
  ghost predicate Permitted(r: Removal) {
    IsBase(r.base, r.version) || InACopy(r)
  }

  /** The exact gap: a permitted removal is justified if and only if the path was not stale or a copy held the version. */
  lemma PermittedIsJustified(r: Removal)
    requires Permitted(r)
    ensures Justified(r) <==> !r.stale || InACopy(r)
  {
  }

  function CopiesOf(s: State): seq<ConflictCopy> {
    if s.pendingApply.Some? then s.pendingApply.value.copies else []
  }

  // ---- What a pending apply stores ----

  ghost predicate Distinct(name: (Path, nat) -> Path) {
    forall path, rev: nat :: name(path, rev) != path
  }

  function Beside(path: Path, rev: nat): (r: Path)
    ensures r != path
  {
    path + "~"
  }

  /** Names the conflict copy of a path at a revision; the same on every retry, and never the path itself. */
  type CopyNamer = name: (Path, nat) -> Path | Distinct(name) witness Beside

  predicate IsPathChange(change: Change) {
    change.PutChange? || change.DeleteChange?
  }

  /** Copies stand apart from the path the apply replaces, and a delete has none of a remote text. */
  predicate Apart(change: Change, copies: seq<ConflictCopy>) {
    && (forall copy | copy in copies :: copy.path != change.path && copy.source == change.path)
    && (change.DeleteChange? ==> forall copy | copy in copies :: !copy.remote)
  }

  predicate WellNamed(pending: PendingApply) {
    IsPathChange(pending.change) && pending.change.rev > 0 && ValidApply(pending) && Apart(pending.change, pending.copies)
  }

  /** A pending apply a restart can continue. */
  predicate Resumable(s: State) {
    s.pendingApply.Some? ==>
      var pending := s.pendingApply.value;
      pending.change.rev > 0 && ValidApply(pending) && (IsPathChange(pending.change) ==> WellNamed(pending))
  }

  // ---- Rows the device has taken on ----

  /** The path is confirmed at this revision or a newer one, in the current epoch. */
  predicate TrustedAt(s: State, path: Path, rev: nat) {
    path in s.base && path !in s.stale && s.base[path].rev >= rev
  }

  /** A remote row by its path, revision, and place in the feed. */
  datatype Row = Row(path: Path, rev: nat, sequence: nat)

  function RowOf(change: Change): Row {
    Row(change.path, change.rev, change.sequence)
  }

  /** A rename also empties the path it leaves. */
  predicate HasSource(change: Change) {
    change.RenameChange? && change.fromPath != change.path
  }

  function SourceRow(change: Change): Row
    requires HasSource(change)
  {
    Row(change.fromPath, change.fromRev, change.sequence)
  }

  function RowsOf(change: Change): set<Row> {
    {RowOf(change)} + if HasSource(change) then {SourceRow(change)} else {}
  }

  /** The rows an apply of this change confirms here: a source this device has no base for needs no confirmation. */
  function RowsTaken(s: State, change: Change): set<Row> {
    {RowOf(change)} + if HasSource(change) && change.fromPath in s.base then {SourceRow(change)} else {}
  }

  /** The pending apply is this row, possibly moved on to a newer revision of its path. */
  predicate PendingIs(s: State, row: Row) {
    && s.pendingApply.Some?
    && var change := s.pendingApply.value.change;
       && change.sequence == row.sequence
       && ((change.path == row.path && change.rev >= row.rev)
           || (HasSource(change) && change.fromPath == row.path && change.fromRev >= row.rev && row.path in s.base))
  }

  /** A row the device has taken on: confirmed, or carried by the one pending apply. */
  predicate RowHeld(s: State, row: Row) {
    TrustedAt(s, row.path, row.rev) || PendingIs(s, row)
  }

  predicate MovesCursor(command: Command) {
    command.CSetCursor? || command.CResetEpoch?
  }

  /** A transition that clears the pending apply only once its rows are confirmed, and stores only what a
      restart can continue. */
  ghost predicate Keeps(id: Identity, s: State, command: Command) {
    Next(id, s, command).Success? ==>
      var t := Next(id, s, command).value;
      && (Resumable(s) ==> Resumable(t))
      && (s.pendingApply.Some? ==> forall row | row in RowsTaken(s, s.pendingApply.value.change) :: RowHeld(t, row))
  }

  /** Such a transition keeps every row the device has taken on. */
  lemma RowStaysHeld(id: Identity, s: State, command: Command, row: Row)
    requires Next(id, s, command).Success? && Next(id, s, command).value.epoch == s.epoch
    requires Keeps(id, s, command) && RowHeld(s, row)
    ensures RowHeld(Next(id, s, command).value, row)
  {
    NothingMovesBack(id, s, command);
    hide Next, Resumable;
    if !TrustedAt(s, row.path, row.rev) {
      var change := s.pendingApply.value.change;
      var carried := if change.path == row.path && change.rev >= row.rev then RowOf(change) else SourceRow(change);
      assert carried in RowsTaken(s, change);
      LaterHoldsEarlier(Next(id, s, command).value, carried, row);
    }
  }

  /** Holding a later revision of a path at the same place in the feed holds the earlier one. */
  lemma LaterHoldsEarlier(s: State, later: Row, row: Row)
    requires RowHeld(s, later) && later.path == row.path && later.sequence == row.sequence && later.rev >= row.rev
    ensures RowHeld(s, row)
  {
  }

  lemma RowsStayHeld(id: Identity, s: State, command: Command, rows: set<Row>)
    requires Next(id, s, command).Success? && Next(id, s, command).value.epoch == s.epoch
    requires Keeps(id, s, command)
    requires forall row | row in rows :: RowHeld(s, row)
    ensures forall row | row in rows :: RowHeld(Next(id, s, command).value, row)
  {
    hide Next, RowHeld, Keeps;
    forall row | row in rows
      ensures RowHeld(Next(id, s, command).value, row)
    {
      RowStaysHeld(id, s, command, row);
    }
  }

  lemma OnlyCursorCommandsMoveIt(id: Identity, s: State, command: Command)
    requires !MovesCursor(command) && Next(id, s, command).Success?
    ensures Next(id, s, command).value.epoch == s.epoch && Next(id, s, command).value.cursor == s.cursor
  {
  }

  // ---- The reach of one pending apply ----

  /** Base and staleness of every other path are as they were. */
  ghost predicate SameElsewhere(before: State, s: State, path: Path) {
    forall other | other != path ::
      (other in before.base <==> other in s.base) && (other in before.base ==> before.base[other] == s.base[other])
      && (other in before.stale <==> other in s.stale)
  }

  /** Since `before`, only its pending put or delete has moved: no other path, and nothing else pending. */
  ghost predicate Confined(before: State, s: State) {
    && before.pendingApply.Some? && IsPathChange(before.pendingApply.value.change)
    && var change := before.pendingApply.value.change;
       && SameElsewhere(before, s, change.path)
       && (s.pendingApply.Some? ==>
             && IsPathChange(s.pendingApply.value.change)
             && s.pendingApply.value.change.path == change.path
             && s.pendingApply.value.change.sequence == change.sequence)
  }

  /** The transitions of one running apply. */
  predicate OfTheApply(command: Command) {
    || command.CExpectWrite? || command.CClearExpected? || command.CRecordAttention? || command.CCompleteApply?
    || command.CCompleteRename? || command.CUpdateApply? || command.CRebaseApply? || command.CIgnoreApply?
  }

  lemma NotesStayConfined(id: Identity, before: State, s: State, command: Command)
    requires Confined(before, s) && Next(id, s, command).Success?
    requires command.CExpectWrite? || command.CClearExpected? || command.CRecordAttention?
    ensures Confined(before, Next(id, s, command).value)
  {
    var t := Next(id, s, command).value;
    assert t.base == s.base && t.stale == s.stale && t.pendingApply == s.pendingApply;
    hide Next;
  }

  lemma CompletionStaysConfined(before: State, s: State, path: Path, base: Base)
    requires Confined(before, s) && CompleteApply(s, path, base).Success?
    ensures Confined(before, CompleteApply(s, path, base).value)
  {
  }

  lemma RebasingStaysConfined(before: State, s: State, change: Change, copies: Option<seq<ConflictCopy>>)
    requires Confined(before, s) && RebaseApply(s, change, copies).Success?
    ensures Confined(before, RebaseApply(s, change, copies).value)
  {
  }

  lemma StaysConfined(id: Identity, before: State, s: State, command: Command)
    requires Confined(before, s) && OfTheApply(command) && Next(id, s, command).Success?
    ensures Confined(before, Next(id, s, command).value)
  {
    hide Confined, CompleteApply, RebaseApply;
    match command
    case CCompleteApply(path, base) =>
      CompletionStaysConfined(before, s, path, base);
    case CRebaseApply(change, copies) =>
      RebasingStaysConfined(before, s, change, copies);
    case CUpdateApply(next) =>
      StoringStaysConfined(before, s, UpdateApply(s, next).value);
    case CIgnoreApply(path, rev) =>
      StoringStaysConfined(before, s, IgnoreApply(s, path, rev).value);
    case CCompleteRename(_, _, _, _) =>  // never succeeds: what is pending is no rename
      PendingIsThePathChange(before, s);
    case _ =>
      NotesStayConfined(id, before, s, command);
  }

  lemma PendingIsThePathChange(before: State, s: State)
    requires Confined(before, s) && s.pendingApply.Some?
    ensures IsPathChange(s.pendingApply.value.change)
  {
  }

  lemma StoringStaysConfined(before: State, s: State, t: State)
    requires Confined(before, s) && t.base == s.base && t.stale == s.stale && s.pendingApply.Some?
    requires t.pendingApply.Some? ==> t.pendingApply.value.change == s.pendingApply.value.change
    ensures Confined(before, t)
  {
  }

  /** Everything a device promises survives one transition that keeps it. */
  lemma StepStaysSafe(id: Identity, s: State, command: Command, rows: set<Row>, focus: Option<State>)
    requires Next(id, s, command).Success? && !MovesCursor(command) && Keeps(id, s, command) && Resumable(s)
    requires forall row | row in rows :: RowHeld(s, row)
    requires focus.Some? ==> Confined(focus.value, s) && OfTheApply(command)
    ensures var t := Next(id, s, command).value;
            && t.epoch == s.epoch && t.cursor == s.cursor && Resumable(t)
            && (forall row | row in rows :: RowHeld(t, row))
            && (focus.Some? ==> Confined(focus.value, t))
  {
    OnlyCursorCommandsMoveIt(id, s, command);
    hide Next, RowHeld, Resumable, Confined, RowsTaken;
    RowsStayHeld(id, s, command, rows);
    if focus.Some? {
      StaysConfined(id, focus.value, s, command);
    }
  }

  class TextDevice {
    const id: Identity
    var host: Host
    var clock: nat
    var alive: bool
    var files: Files
    var state: State
    ghost var position: (Option<Epoch>, Option<nat>)
    ghost var rows: set<Row>
    ghost var removed: seq<Removal>
    ghost var verified: set<(Path, Hash)>
    /** The document an observed run of a pending put or delete started from. */
    ghost var focus: Option<State>

    constructor (id: Identity, host: Host, files: Files, state: State)
      requires Resumable(state)
      ensures this.id == id && this.host == host && this.files == files && this.state == state
      ensures alive && removed == [] && verified == {} && rows == {} && focus == None && Safe()
    {
      this.id, this.host, this.files, this.state := id, host, files, state;
      clock, alive, rows, removed, verified, focus := 0, true, {}, [], {}, None;
      position := (state.epoch, state.cursor);
    }

    /** No text was ever taken from a path unless it was its base or a verified named copy held it, every row
        taken on is still held, whatever is pending can be continued, and the feed position is unmoved. */
    ghost predicate Safe()
      reads this
    {
      && position == (state.epoch, state.cursor) && Resumable(state)
      && (forall r | r in removed :: Permitted(r))
      && (forall row | row in rows :: RowHeld(state, row))
      && (focus.Some? ==> Confined(focus.value, state))
    }

    /** The evidence for taking this version from this path now. */
    ghost function Taking(path: Path, version: bytes): Removal
      reads this
    {
      Removal(path, version, BaseAt(state, path), path in state.stale, CopiesOf(state), verified)
    }

    /** This version may be taken from this path, as far as the code asks. */
    ghost predicate Protected(path: Path, version: bytes)
      reads this
    {
      Permitted(Taking(path, version))
    }

    lemma BaseIsProtected(path: Path, version: bytes)
      requires IsBase(BaseAt(state, path), version)
      ensures Protected(path, version)
    {
    }

    /** Every version ever taken away was the base of its epoch or stands in a verified copy, exactly unless its
        path was stale and no copy held it. */
    lemma OnlyStaleTextIsExposed(r: Removal)
      requires Safe() && r in removed
      ensures Justified(r) <==> !r.stale || InACopy(r)
    {
      PermittedIsJustified(r);
    }

    /** An await: user edits, and possibly the end of this run. */
    method Await()
      requires alive
      modifies this`clock, this`files, this`alive
      ensures Quiet(host) ==> files == old(files)
    {
      clock := clock + 1;
      files := host.user(clock, files);
      alive := !host.dies(clock);
    }

    method Read(path: Path) returns (text: Option<bytes>)
      requires alive
      modifies this`clock, this`files, this`alive
      ensures Quiet(host) ==> files == old(files) && (alive ==> text == Lookup(files, path))
    {
      Await();
      text := Lookup(files, path);
    }

    /** Reads a conflict copy back and remembers that its bytes matched. */
    method VerifyCopy(copy: ConflictCopy) returns (verifiedNow: bool)
      requires alive
      modifies this`clock, this`files, this`alive, this`verified
      ensures old(verified) <= verified
      ensures verifiedNow ==> alive && (copy.path, copy.hash) in verified
      ensures Quiet(host) ==> files == old(files)
      ensures Quiet(host) && alive ==> (verifiedNow <==> copy.path in files && Sha256(files[copy.path]) == copy.hash)
    {
      var text := Read(copy.path);
      verifiedNow := alive && text.Some? && Sha256(text.value) == copy.hash;
      if verifiedNow {
        verified := verified + {(copy.path, copy.hash)};
      }
    }

    method HasCollision(path: Path) returns (collides: bool)
      requires alive
      modifies this`clock, this`files, this`alive
      ensures Quiet(host) ==> files == old(files) && (alive ==> (collides <==> Collides(id, files, path)))
    {
      Await();
      collides := Collides(id, files, path);
    }

    /** One journal transition within the feed position: durable, or refused or failed without effect. */
    method Commit(command: Command) returns (ok: bool)
      requires alive && Safe() && !MovesCursor(command) && Keeps(id, state, command)
      requires focus.Some? ==> OfTheApply(command)
      modifies this`clock, this`files, this`alive, this`state
      ensures Safe()
      ensures ok ==> alive && Next(id, old(state), command) == Success(state)
      ensures !ok ==> state == old(state)
      ensures Quiet(host) ==> files == old(files)
      ensures Quiet(host) && alive ==> (ok <==> Next(id, old(state), command).Success?)
    {
      hide Next, Keeps, Permitted, RowHeld, Resumable, Confined;
      Await();
      if !alive {
        return false;
      }
      var next := Next(id, state, command);
      if next.Failure? || !host.saves(clock) {
        return false;
      }
      StepStaysSafe(id, state, command, rows, focus);
      state := next.value;
      return true;
    }

    /** Checks the fence and path availability before a local mutation. */
    method Admit() returns (admitted: bool)
      requires alive
      modifies this`clock, this`files, this`alive
      ensures Quiet(host) ==> files == old(files)
      ensures admitted ==> alive
      ensures Quiet(host) && alive ==> admitted
    {
      Await();
      admitted := alive && host.admits(clock);
    }

    /** The file is on this device: no cloud placeholder stands for it. */
    method IsAvailable(path: Path) returns (available: bool)
      requires alive
      modifies this`clock, this`files, this`alive
      ensures Quiet(host) ==> files == old(files) && (alive ==> available)
      ensures available ==> alive
      ensures Withheld(host, path) ==> !available
    {
      Await();
      available := alive && host.available(clock, path);
    }

    /** Writes a new file where neither the path nor its identity is taken. */
    method Create(path: Path, text: bytes) returns (created: bool)
      requires alive
      modifies this`files
      ensures created ==> old(path !in files && !Collides(id, files, path))
      ensures files == if created then old(files)[path := text] else old(files)
      ensures Quiet(host) ==> (created <==> old(path !in files && !Collides(id, files, path)))
    {
      created := path !in files && !Collides(id, files, path) && host.obeys(clock);
      if created {
        files := files[path := text];
      }
    }

    /** Replaces text only while it is exactly what was observed. */
    method Process(path: Path, expected: bytes, next: bytes) returns (applied: bool)
      requires alive && Safe()
      requires expected == next || Protected(path, expected)
      modifies this`files, this`removed
      ensures Safe()
      ensures applied ==> Lookup(old(files), path) == Some(expected)
      ensures files == if applied then old(files)[path := next] else old(files)
      ensures Quiet(host) ==> (applied <==> Lookup(old(files), path) == Some(expected))
    {
      applied := Lookup(files, path) == Some(expected) && host.obeys(clock);
      if applied {
        if expected != next {
          removed := removed + [Taking(path, expected)];
        }
        files := files[path := next];
      }
    }

    /** Moves a file to trash only while it is exactly what was observed. */
    method Trash(path: Path, expected: bytes) returns (trashed: bool)
      requires alive && Safe() && Protected(path, expected)
      modifies this`files, this`removed
      ensures Safe()
      ensures trashed ==> Lookup(old(files), path) == Some(expected)
      ensures files == if trashed then old(files) - {path} else old(files)
      ensures Quiet(host) ==> (trashed <==> Lookup(old(files), path) == Some(expected))
    {
      trashed := Lookup(files, path) == Some(expected) && host.obeys(clock);
      if trashed {
        removed := removed + [Taking(path, expected)];
        files := files - {path};
      }
    }

    /** Renames only while the source is what was observed and the destination is free. */
    method Rename(from: Path, to: Path, expected: bytes) returns (renamed: bool)
      requires alive && Safe() && Protected(from, expected)
      modifies this`files, this`removed
      ensures Safe()
      ensures renamed ==> Lookup(old(files), from) == Some(expected) && to !in old(files) && !Collides(id, old(files), to)
      ensures files == if renamed then (old(files) - {from})[to := expected] else old(files)
    {
      renamed := Lookup(files, from) == Some(expected) && to !in files && !Collides(id, files, to) && host.obeys(clock);
      if renamed {
        removed := removed + [Taking(from, expected)];
        files := (files - {from})[to := expected];
      }
    }

    /** Persists a traversal checkpoint, which no transition of the apply reads. */
    method Persist() returns (ok: bool)
      requires alive && Safe()
      modifies this`clock, this`files, this`alive
      ensures Safe() && (ok ==> alive)
    {
      Await();
      ok := alive && host.saves(clock);
    }

    /** Advances the feed cursor within the epoch. */
    method MoveCursor(cursor: nat) returns (ok: bool)
      requires alive && Safe() && focus.None? && state.epoch.Some?
      modifies this`clock, this`files, this`alive, this`state, this`position
      ensures Safe() && rows == old(rows)
      ensures ok ==> alive && state == old(state).(cursor := Some(cursor))
      ensures !ok ==> state == old(state)
    {
      Await();
      if !alive || !host.saves(clock) || (state.cursor.Some? && cursor < state.cursor.value) {
        return false;
      }
      CursorMovesAlone(id, state, cursor);
      state := Next(id, state, CSetCursor(state.epoch.value, cursor)).value;
      position := (state.epoch, state.cursor);
      return true;
    }

    /** Drops every row taken on in the old epoch together with the old cursor and pending apply. */
    method ChangeEpoch(epoch: Epoch) returns (ok: bool)
      requires alive && Safe() && focus.None? && state.epoch != Some(epoch)
      modifies this`clock, this`files, this`alive, this`state, this`position, this`rows
      ensures Safe()
      ensures ok ==> alive && Next(id, old(state), CResetEpoch(epoch)) == Success(state) && rows == {} && state.cursor == None
      ensures ok ==> state.epoch == Some(epoch) && state.pendingApply == None
      ensures !ok ==> state == old(state) && rows == old(rows)
    {
      Await();
      if !alive || !host.saves(clock) {
        return false;
      }
      state := Next(id, state, CResetEpoch(epoch)).value;
      position, rows := (state.epoch, state.cursor), {};
      return true;
    }

    /** Clears the pending apply of an unsupported row with attention; the rows only it held are let go. */
    method SkipApply(path: Path, sequence: nat, reason: string) returns (ok: bool, ghost dropped: set<Row>)
      requires alive && Safe() && focus.None?
      modifies this`clock, this`files, this`alive, this`state, this`rows
      ensures Safe() && dropped == old(rows) - rows && rows <= old(rows)
      ensures ok ==> alive && state.pendingApply == None
      ensures !ok ==> state == old(state) && rows == old(rows)
      ensures state.base == old(state.base) && state.stale == old(state.stale)
      ensures forall row | row in dropped :: PendingIs(old(state), row)
    {
      dropped := {};
      Await();
      var next := Next(id, state, CSkipApply(path, sequence, reason));
      if !alive || !host.saves(clock) || next.Failure? {
        return false, {};
      }
      SkippingIs(id, state, path, sequence, reason);
      state := next.value;
      ghost var kept := set row | row in rows && RowHeld(state, row);
      dropped := rows - kept;
      rows := kept;
      return true, dropped;
    }
  }

  lemma CursorMovesAlone(id: Identity, s: State, cursor: nat)
    requires s.epoch.Some? && (s.cursor.Some? ==> s.cursor.value <= cursor)
    ensures Next(id, s, CSetCursor(s.epoch.value, cursor)) == Success(s.(cursor := Some(cursor)))
  {
  }

  lemma SkippingIs(id: Identity, s: State, path: Path, sequence: nat, reason: string)
    requires Next(id, s, CSkipApply(path, sequence, reason)).Success?
    ensures var t := Next(id, s, CSkipApply(path, sequence, reason)).value;
            && t.base == s.base && t.stale == s.stale && t.pendingApply == None
            && t.epoch == s.epoch && t.cursor == s.cursor
            && (s.pendingApply.Some? ==> s.pendingApply.value.change.path == path && s.pendingApply.value.change.sequence == sequence)
  {
  }
}