/** Feed replay and manifest traversal: what a stored cursor promises about every row behind it. */
module Reconciliation {
  import opened Bytes
  import opened DeviceState
  import opened JournalSteps
  import opened TextDevice
  import opened ApplyOutcome
  import opened TextApply

  /** One manifest row: the current state of a path at the captured head. */
  datatype ManifestRow = ManifestRow(path: Path, sequence: nat, epoch: Epoch, rev: nat, deleted: bool, hash: Hash)

  function RowIn(entry: ManifestRow): Row {
    Row(entry.path, entry.rev, entry.sequence)
  }

  function ChangeOf(entry: ManifestRow): Change {
    if entry.deleted then DeleteChange(entry.sequence, entry.path, entry.epoch, entry.rev)
    else PutChange(entry.sequence, entry.path, entry.epoch, entry.rev, entry.hash)
  }

  /** One page of the feed; an entry without content is a row this client cannot apply. */
  datatype Entry = Entry(change: Change, empty: bool)
  datatype ChangesPage = ChangesPage(epoch: Epoch, head: nat, entries: seq<Entry>)

  datatype Replay = Replayed | Deferred | Threw | NeedsReconciliation

  datatype DeleteClass = ExactTombstone | Superseded | Unconfirmed

  datatype Admission = Supported | Unsupported

  /** What the outside shows one replay: local admission, thrown applies, and fence decisions. */
  datatype Weather = Weather(admission: Path -> Admission, throws: nat -> bool, unsupported: nat -> bool)

  /** The manifest at one epoch and head, page by page. */
  datatype Snapshot = Snapshot(epoch: Epoch, head: nat, pages: seq<seq<ManifestRow>>)

  /** Saved progress: the page being walked and its paths not handled yet (none saved means all of them). */
  datatype Checkpoint = Checkpoint(epoch: Epoch, head: nat, page: nat, pendingPaths: seq<Path>)

  function PathsOf(entries: seq<ManifestRow>): (r: seq<Path>)
    ensures |r| == |entries|
  {
    seq(|entries|, i requires 0 <= i < |entries| => entries[i].path)
  }

  function Minus(paths: seq<Path>, path: Path): (r: seq<Path>)
    ensures forall p :: p in r <==> p in paths && p != path
  {
    if paths == [] then []
    else if paths[0] == path then Minus(paths[1..], path) else [paths[0]] + Minus(paths[1..], path)
  }

  predicate OnePerPath(entries: seq<ManifestRow>) {
    forall i, j | 0 <= i < j < |entries| :: entries[i].path != entries[j].path
  }

  /** Every published row up to the head is the manifest row of its path, or superseded by it. */
  ghost predicate SnapshotOf(snapshot: Snapshot, log: set<Row>) {
    && (forall p, i | 0 <= p < |snapshot.pages| && 0 <= i < |snapshot.pages[p]| ::
          snapshot.pages[p][i].rev > 0 && snapshot.pages[p][i].epoch == snapshot.epoch)
    && (forall p | 0 <= p < |snapshot.pages| :: OnePerPath(snapshot.pages[p]))
    && (forall row | row in log && row.sequence <= snapshot.head :: RepresentedBy(snapshot, row))
  }

  ghost predicate RepresentedBy(snapshot: Snapshot, row: Row) {
    exists p, i :: 0 <= p < |snapshot.pages| && 0 <= i < |snapshot.pages[p]|
      && (RowIn(snapshot.pages[p][i]) == row || Supersedes(RowIn(snapshot.pages[p][i]), row))
  }

  /** A row passed without being taken on, with the journal at that moment and the change that carried it. */
  datatype Swallow = Swallow(row: Row, at: State, change: Change)

  /** The pending put or delete of another path happens to carry the sequence number of this row. */
  predicate SharesSequence(s: State, row: Row) {
    && s.pendingApply.Some? && IsPathChange(s.pendingApply.value.change)
    && s.pendingApply.value.change.sequence == row.sequence && s.pendingApply.value.change.path != row.path
  }

  /** Nothing is pending, or what is pending carries these very rows. */
  predicate Resumes(s: State, change: Change) {
    s.pendingApply.None? || forall row | row in RowsTaken(s, change) :: PendingIs(s, row)
  }

  /** The three unguarded branches: a delete measured against a base of an old epoch; an apply that resumes
      another pending row because only the sequence numbers agree; and a rename whose destination is out of
      scope, passed without a look at its source. */
  predicate Unguarded(excluded: Path -> bool, w: Swallow) {
    || (w.change.DeleteChange? && w.row == RowOf(w.change) && w.row.path in w.at.stale && w.row.path in w.at.base
        && w.row.rev <= w.at.base[w.row.path].rev)
    || (w.at.pendingApply.Some? && w.at.pendingApply.value.change.sequence == w.row.sequence && !PendingIs(w.at, w.row))
    || (HasSource(w.change) && w.row == SourceRow(w.change) && excluded(w.change.path) && !excluded(w.row.path)
        && SourcePending(w.at, w.change))
  }

  /** A newer authority row for the same path. */
  predicate Supersedes(later: Row, row: Row) {
    later.path == row.path && later.rev > row.rev && later.sequence > row.sequence
  }

  predicate OverlapsPaths(id: Identity, op: Operation, paths: set<Path>) {
    Touches(id, op) * (set path | path in paths :: id(path)) != {}
  }

  /** Some sent operation but the rejected one may still change these paths on the server. */
  predicate HasUnresolvedSentOperation(id: Identity, s: State, paths: set<Path>, rejected: Option<Key>) {
    exists op | op in s.pendingOps :: op.state == Sent && Some(op.key) != rejected && OverlapsPaths(id, op, paths)
  }

  /** How far the manifest of a full walk backs a delete row of the feed. */
  function ClassifyDelete(change: Change, rows: map<Path, Option<ManifestRow>>): DeleteClass {
    if change.path !in rows || rows[change.path].None? then Unconfirmed
    else
      var row := rows[change.path].value;
      if row.epoch == change.epoch && row.rev > change.rev && row.sequence > change.sequence then Superseded
      else if row.epoch == change.epoch && row.rev == change.rev && row.sequence == change.sequence && row.deleted then ExactTombstone
      else Unconfirmed
  }

  class ReconciliationController {
    const engine: TextApplyEngine
    const excluded: Path -> bool
    /** Feed rows the server has published in the current epoch. */
    ghost var log: set<Row>
    /** Manifest rows read in the current epoch. */
    ghost var seen: set<Row>
    /** Rows recorded in attention instead of being applied. */
    ghost var noted: set<Row>
    /** Sources of renames whose path had no base on this device when they were passed. */
    ghost var unknown: set<Row>
    /** Rows passed by an unguarded branch. */
    ghost var swallowed: set<Swallow>
    /** Where the durable manifest traversal stands. */
    var checkpoint: Option<Checkpoint>
    /** The manifest the traversal walks. */
    ghost var snapshot: Snapshot

    constructor (engine: TextApplyEngine, excluded: Path -> bool)
      ensures this.engine == engine && this.excluded == excluded
      ensures log == {} && seen == {} && noted == {} && unknown == {} && swallowed == {} && checkpoint == None
    {
      this.engine, this.excluded := engine, excluded;
      log, seen, noted, unknown, swallowed, checkpoint := {}, {}, {}, {}, {}, None;
    }

    ghost predicate WasSwallowed(row: Row)
      reads this
    {
      exists w | w in swallowed :: w.row == row
    }

    /** The row is confirmed or pending, out of scope, in attention, superseded by a manifest row, or empties a
        path this device knew nothing of. */
    ghost predicate Accounted(row: Row)
      reads this, engine.device
    {
      || excluded(row.path)
      || row in engine.device.rows
      || row in noted
      || row in unknown
      || exists later | later in seen :: Supersedes(later, row)
    }

    ghost predicate Passed(row: Row)
      reads this, engine.device
    {
      Accounted(row) || WasSwallowed(row)
    }

    /** Cursor completeness: every published row at or below the cursor is accounted for, except those an
        unguarded branch swallowed. */
    ghost predicate Covered(cursor: nat)
      reads this, engine.device
    {
      forall row | row in log && row.sequence <= cursor :: Passed(row)
    }

    ghost predicate Valid()
      reads this, engine, engine.device
    {
      && engine.device.Safe() && engine.device.focus.None?
      && (forall w | w in swallowed :: Unguarded(excluded, w))
      && (engine.device.state.cursor.Some? ==> engine.device.state.epoch.Some? && Covered(engine.device.state.cursor.value))
    }

    /** Nothing accounted for is forgotten within the epoch. */
    twostate predicate Remembers()
      reads this, engine.device
    {
      && log == old(log)
      && engine.device.state.epoch == old(engine.device.state.epoch)
      && old(seen) <= seen && old(noted) <= noted && old(unknown) <= unknown && old(swallowed) <= swallowed
      && (forall row | row in old(engine.device.rows) :: row in engine.device.rows || row in noted)
    }

    twostate lemma CoverageStays(cursor: nat)
      requires Remembers() && old(Covered(cursor))
      ensures Covered(cursor)
    {
      forall row | row in log && row.sequence <= cursor
        ensures Passed(row)
      {
        assert old(Passed(row));
      }
    }

    /** Applies one admitted row, or records why it cannot be. A normal return means its rows are accounted for,
        or that another pending row with its sequence number was run in its place. In that case, a row of another
        path is held afterwards if and only if it was confirmed before. */
    method ApplyChange(change: Change, weather: Weather, turn: nat) returns (ok: bool)
      requires engine.device.alive && Valid() && change.rev > 0
      modifies this`noted, this`unknown, this`swallowed, engine.device`clock, engine.device`files, engine.device`alive,
               engine.device`state, engine.device`removed, engine.device`verified, engine.device`focus, engine.device`rows
      ensures Valid() && Remembers() && engine.device.state.cursor == old(engine.device.state.cursor)
      ensures Resumes(old(engine.device.state), change) ==> swallowed == old(swallowed)
      ensures ok ==> engine.device.alive && forall row | row in RowsOf(change) :: Passed(row)
      ensures ok ==> forall row | row in RowsOf(change) && SharesSequence(old(engine.device.state), row) ::
        RowHeld(engine.device.state, row) <==> TrustedAt(old(engine.device.state), row.path, row.rev)
    {
      hide Unguarded, RowHeld, TrustedAt, RowsTaken, RowsOf, Resumes, SharesSequence, Confined;
      var device := engine.device;
      ghost var before := device.state;
      if weather.admission(change.path) == Unsupported {
        ok := SkipForAttention(change);
        SkippingHoldsNothing(before, device.state);
        return;
      }
      var begun := RunFramed(change);
      ConfinedHoldsWhatWasTrusted(before, device.state);
      if !begun || !device.alive || weather.throws(turn) {
        CoverageAfter();
        return false;
      }
      CoverageAfter();
      if weather.unsupported(turn) {
        ghost var ran := device.state;
        ok := SkipForAttention(change);
        SkippingHoldsLess(before, ran, device.state);
        return;
      }
      PassRows(before, change);
      return true;
    }

    /** Accounts for every row of a change that was run. */
    ghost method PassRows(before: State, change: Change)
      requires Valid()
      requires RowsTaken(before, Target(before, change)) <= engine.device.rows
      requires before.pendingApply.Some? ==> before.pendingApply.value.change.sequence == change.sequence
      modifies this`unknown, this`swallowed, engine.device`rows
      ensures Valid() && Remembers() && forall row | row in RowsOf(change) :: Passed(row)
      ensures Resumes(before, change) ==> swallowed == old(swallowed)
    {
      hide Unguarded, RowHeld, TrustedAt, RowsTaken, Resumes;
      PassRow(RowOf(change), before, change);
      if HasSource(change) {
        label First:
        PassRow(SourceRow(change), before, change);
        PassedStays@First(RowOf(change));
      }
    }

    /** Runs one row, knowing that a pending put or delete it resumes moves no other path. */
    method RunFramed(change: Change) returns (begun: bool)
      requires engine.device.alive && engine.device.Safe() && engine.device.focus.None? && change.rev > 0
      modifies engine.device`clock, engine.device`files, engine.device`alive, engine.device`state, engine.device`removed,
               engine.device`verified, engine.device`focus, engine.device`rows
      ensures engine.device.Safe() && engine.device.focus.None?
      ensures old(engine.device.rows) <= engine.device.rows
      ensures begun ==> RowsTaken(old(engine.device.state), Target(old(engine.device.state), change)) <= engine.device.rows
      ensures begun && old(engine.device.state).pendingApply.Some? ==>
        old(engine.device.state).pendingApply.value.change.sequence == change.sequence
      ensures old(engine.device.state).pendingApply.Some? && IsPathChange(old(engine.device.state).pendingApply.value.change) ==>
        Confined(old(engine.device.state), engine.device.state)
    {
      hide Permitted, RowHeld;
      if engine.device.state.pendingApply.Some? && IsPathChange(engine.device.state.pendingApply.value.change) {
        engine.device.focus := Some(engine.device.state);
      }
      begun := engine.RunWithFallback(change);
      engine.device.focus := None;
    }

    /** Accounts for one row of a change that was run. */
    ghost method PassRow(row: Row, before: State, change: Change)
      requires Valid() && row in RowsOf(change)
      requires RowsTaken(before, Target(before, change)) <= engine.device.rows
      requires before.pendingApply.Some? ==> before.pendingApply.value.change.sequence == change.sequence
      modifies this`unknown, this`swallowed, engine.device`rows
      ensures Valid() && Remembers() && Passed(row)
      ensures old(engine.device.rows) <= engine.device.rows
      ensures Resumes(before, change) ==> swallowed == old(swallowed)
    {
      hide Next;
      if RowHeld(engine.device.state, row) {
        engine.device.rows := engine.device.rows + {row};
      } else if HasSource(change) && row == SourceRow(change) && row.path !in before.base {
        unknown := unknown + {row};
      } else {
        UnheldIsUnguarded(row, before, change);
        swallowed := swallowed + {Swallow(row, before, change)};
      }
      CoverageAfter();
    }

    /** A row that was run and is not held met another pending row. */
    lemma UnheldIsUnguarded(row: Row, before: State, change: Change)
      requires Valid() && row in RowsTaken(before, change) && !RowHeld(engine.device.state, row)
      requires RowsTaken(before, Target(before, change)) <= engine.device.rows
      requires before.pendingApply.Some? ==> before.pendingApply.value.change.sequence == change.sequence
      ensures Unguarded(excluded, Swallow(row, before, change)) && !Resumes(before, change)
    {
      if PendingIs(before, row) {
        var pending := before.pendingApply.value.change;
        var carried := if pending.path == row.path && pending.rev >= row.rev then RowOf(pending) else SourceRow(pending);
        assert carried in engine.device.rows;
        LaterHoldsEarlier(engine.device.state, carried, row);
      }
    }

    /** Coverage carries over to the present state. */
    twostate lemma CoverageAfter()
      requires Remembers() && old(Valid()) && engine.device.state.cursor == old(engine.device.state.cursor)
      ensures engine.device.state.cursor.Some? ==> engine.device.state.epoch.Some? && Covered(engine.device.state.cursor.value)
    {
      if engine.device.state.cursor.Some? {
        CoverageStays(engine.device.state.cursor.value);
      }
    }

    /** Clears an unsupported row with attention; whatever the pending apply held is in attention too. */
    method SkipForAttention(change: Change) returns (ok: bool)
      requires engine.device.alive && Valid()
      modifies this`noted, engine.device`clock, engine.device`files, engine.device`alive, engine.device`state, engine.device`rows
      ensures Valid() && Remembers() && engine.device.state.cursor == old(engine.device.state.cursor)
      ensures ok ==> engine.device.alive && RowsOf(change) <= noted && engine.device.state.pendingApply.None?
      ensures engine.device.state.base == old(engine.device.state).base && engine.device.state.stale == old(engine.device.state).stale
    {
      hide Unguarded;
      ghost var dropped;
      ok, dropped := engine.device.SkipApply(change.path, change.sequence, "File exceeds the supported synchronization size");
      noted := noted + dropped;
      if ok {
        noted := noted + RowsOf(change);
      }
      CoverageAfter();
    }

    /** Records attention for a row that has no applicable content. */
    method NoteRow(change: Change, reason: string) returns (ok: bool)
      requires engine.device.alive && Valid()
      modifies this`noted, engine.device`clock, engine.device`files, engine.device`alive, engine.device`state
      ensures Valid() && Remembers() && engine.device.state.cursor == old(engine.device.state.cursor)
      ensures ok ==> engine.device.alive && RowsOf(change) <= noted
    {
      hide Unguarded, Next;
      NotesKeepDurable(engine.device.id, engine.device.state, CRecordAttention(change.path, reason));
      ok := engine.device.Commit(CRecordAttention(change.path, reason));
      if ok {
        noted := noted + RowsOf(change);
      }
      CoverageAfter();
    }

    /** Persists an accepted cursor. */
    method SetCursor(cursor: nat) returns (ok: bool)
      requires engine.device.alive && Valid() && engine.device.state.epoch.Some? && Covered(cursor)
      modifies engine.device`clock, engine.device`files, engine.device`alive, engine.device`state, engine.device`position
      ensures Valid() && Remembers()
      ensures ok ==> engine.device.alive && engine.device.state.cursor == Some(cursor)
      ensures !ok ==> engine.device.state == old(engine.device.state)
    {
      hide Unguarded;
      ok := engine.device.MoveCursor(cursor);
      if engine.device.state.cursor.Some? {
        CoverageStays(engine.device.state.cursor.value);
      }
    }

    /** Passes a delete the base is already at or beyond. A base of an old epoch satisfies the test as well. */
    ghost method PassObsoleteDelete(change: Change)
      requires Valid() && change.DeleteChange?
      requires change.path in engine.device.state.base && change.rev <= engine.device.state.base[change.path].rev
      modifies this`swallowed, engine.device`rows
      ensures Valid() && Remembers() && Passed(RowOf(change))
      ensures change.path !in engine.device.state.stale ==> swallowed == old(swallowed)
    {
      if change.path in engine.device.state.stale {
        swallowed := swallowed + {Swallow(RowOf(change), engine.device.state, change)};
      } else {
        engine.device.rows := engine.device.rows + {RowOf(change)};
      }
      CoverageAfter();
    }

    /** Passes a row whose path is out of scope; the path a rename leaves is not looked at. */
    ghost method PassExcluded(change: Change)
      requires Valid() && excluded(change.path)
      modifies this`unknown, this`swallowed, engine.device`rows
      ensures Valid() && Remembers() && forall row | row in RowsOf(change) :: Passed(row)
      ensures engine.device.state.pendingApply.None? ==>
        swallowed == old(swallowed) +
          if HasSource(change) && !excluded(change.fromPath) && SourcePending(engine.device.state, change)
          then {Swallow(SourceRow(change), engine.device.state, change)} else {}
    {
      if HasSource(change) && !excluded(change.fromPath) {
        if RowHeld(engine.device.state, SourceRow(change)) {
          engine.device.rows := engine.device.rows + {SourceRow(change)};
        } else if SourcePending(engine.device.state, change) {
          swallowed := swallowed + {Swallow(SourceRow(change), engine.device.state, change)};
        } else {
          unknown := unknown + {SourceRow(change)};
        }
      }
      CoverageAfter();
    }

    /** Handles one feed row that is not behind the cursor. With nothing pending, the path a rename leaves is passed
        unconfirmed if and only if the destination is out of scope, the path is in scope, and its base is stale or
        behind the rename. */
    method Accept(entry: Entry, rows: map<Path, Option<ManifestRow>>, weather: Weather, turn: nat, rejected: Option<Key>)
      returns (r: Replay)
      requires engine.device.alive && Valid() && entry.change.rev > 0
      requires forall path | path in rows && rows[path].Some? :: rows[path].value.path == path && RowIn(rows[path].value) in seen
      modifies this`noted, this`unknown, this`swallowed, engine.device`clock, engine.device`files, engine.device`alive,
               engine.device`state, engine.device`removed, engine.device`verified, engine.device`focus, engine.device`rows
      ensures Valid() && Remembers() && engine.device.state.cursor == old(engine.device.state.cursor)
      ensures Resumes(old(engine.device.state), entry.change) && entry.change.path !in old(engine.device.state).stale
              && !excluded(entry.change.path) ==>
        swallowed == old(swallowed)
      ensures r == Replayed && HasSource(entry.change) && old(engine.device.state).pendingApply.None? ==>
        swallowed == old(swallowed) +
          if excluded(entry.change.path) && !excluded(entry.change.fromPath) && SourcePending(old(engine.device.state), entry.change)
          then {Swallow(SourceRow(entry.change), old(engine.device.state), entry.change)} else {}
      ensures r != NeedsReconciliation
      ensures r == Replayed ==> engine.device.alive && forall row | row in RowsOf(entry.change) :: Passed(row)
    {
      hide Unguarded, Next;
      var change := entry.change;
      var paths := {change.path} + if change.RenameChange? then {change.fromPath} else {};
      if excluded(change.path) {
        PassExcluded(change);
        return Replayed;
      }
      if HasUnresolvedSentOperation(engine.device.id, engine.device.state, paths, rejected) {
        return Deferred;
      }
      var ok: bool;
      if change.DeleteChange? {
        if change.path in engine.device.state.base && change.rev <= engine.device.state.base[change.path].rev {
          PassObsoleteDelete(change);
          return Replayed;
        }
        var authority := ClassifyDelete(change, rows);
        if authority == Superseded {
          assert Supersedes(RowIn(rows[change.path].value), RowOf(change));
          return Replayed;
        }
        if authority == Unconfirmed {
          ok := NoteRow(change, "Delete row is not a confirmed manifest revision");
        } else {
          ok := ApplyChange(change, weather, turn);
        }
      } else if entry.empty {
        ok := NoteRow(change, "Remote entry has no text content");
      } else {
        ok := ApplyChange(change, weather, turn);
      }
      return if ok then Replayed else Threw;
    }

    /** Continues the one saved apply before anything else; an unsupported one is cleared with attention. */
    method ResumeApply(weather: Weather) returns (ok: bool)
      requires engine.device.alive && Valid()
      modifies this`noted, engine.device`clock, engine.device`files, engine.device`alive, engine.device`state,
               engine.device`removed, engine.device`verified, engine.device`focus, engine.device`rows
      ensures Valid() && Remembers() && engine.device.state.cursor == old(engine.device.state.cursor)
      ensures ok ==> engine.device.alive
    {
      hide Unguarded, Next;
      engine.Resume();
      CoverageAfter();
      if !engine.device.alive || weather.throws(0) {
        return false;
      }
      if weather.unsupported(0) && engine.device.state.pendingApply.Some? {
        ok := SkipForAttention(engine.device.state.pendingApply.value.change);
        return;
      }
      return true;
    }

    /** Everything published up to entry `i` is passed once everything before it is and entry `i` is. */
    lemma NextEntryCovers(page: ChangesPage, start: nat, cursor: nat, i: nat)
      requires Faithful(page, log, start) && i < |page.entries| && start <= cursor
      requires i > 0 ==> page.entries[i - 1].change.sequence <= cursor
      requires Covered(cursor) && forall row | row in RowsOf(page.entries[i].change) :: Passed(row)
      ensures Covered(page.entries[i].change.sequence)
    {
      hide Passed, Faithful;
      forall row | row in log && row.sequence <= page.entries[i].change.sequence
        ensures Passed(row)
      {
        NothingBetween(page, log, start, cursor, i, row);
      }
    }

    /** Replays one feed page in order. The stored cursor never passes a row that is not accounted for, except
        where an unguarded branch swallows it; it stops before any row a sent operation may still change. */
    method RunReplay(page: ChangesPage, rows: map<Path, Option<ManifestRow>>, weather: Weather, rejected: Option<Key>)
      returns (r: Replay)
      requires engine.device.alive && Valid()
      requires engine.device.state.cursor.Some? && engine.device.state.epoch == Some(page.epoch) ==>
        Faithful(page, log, engine.device.state.cursor.value)
      requires forall path | path in rows && rows[path].Some? :: rows[path].value.path == path
      modifies this`seen, this`noted, this`unknown, this`swallowed, engine.device`clock, engine.device`files, engine.device`alive,
               engine.device`state, engine.device`removed, engine.device`verified, engine.device`focus, engine.device`rows, engine.device`position
      ensures Valid() && Remembers()
      ensures engine.device.state.cursor == old(engine.device.state.cursor)
           || (engine.device.state.cursor.Some? && engine.device.state.cursor.value <= page.head && engine.device.state.epoch == Some(page.epoch))
      ensures r == NeedsReconciliation ==> engine.device.alive && engine.device.state.cursor == old(engine.device.state.cursor)
      ensures r == Replayed && page.entries != [] ==>
        engine.device.state.cursor.Some? && engine.device.state.cursor.value >= page.entries[|page.entries| - 1].change.sequence
    {
      hide Unguarded, Next, Faithful;
      var device := engine.device;
      if device.state.epoch.None? || device.state.cursor.None? {
        return NeedsReconciliation;
      }
      ghost var start := device.state.cursor.value;
      var resumed := ResumeApply(weather);
      if !resumed {
        return Threw;
      }
      if Some(page.epoch) != device.state.epoch {
        return NeedsReconciliation;
      }
      Observe(rows);
      for i := 0 to |page.entries|
        invariant device.alive && Valid() && Remembers()
        invariant device.state.cursor.Some? && start <= device.state.cursor.value
        invariant device.state.cursor == old(device.state.cursor) || device.state.cursor.value <= page.head
        invariant i > 0 ==> page.entries[i - 1].change.sequence <= device.state.cursor.value
        invariant forall path | path in rows && rows[path].Some? :: rows[path].value.path == path && RowIn(rows[path].value) in seen
      {
        var entry := page.entries[i];
        if entry.change.sequence > device.state.cursor.value {
          EntriesHaveRevisions(page, start, i);
          r := Accept(entry, rows, weather, i + 1, rejected);
          if r != Replayed {
            return;
          }
          NextEntryCovers(page, start, device.state.cursor.value, i);
          var ok := SetCursor(entry.change.sequence);
          if !ok {
            return Threw;
          }
        }
      }
      if page.entries == [] && page.head > device.state.cursor.value {
        EmptyPageCovers(page, start, device.state.cursor.value);
        var ok := SetCursor(page.head);
        if !ok {
          return Threw;
        }
      }
      return Replayed;
    }

    lemma EntriesHaveRevisions(page: ChangesPage, cursor: nat, i: nat)
      requires Faithful(page, log, cursor) && i < |page.entries|
      ensures page.entries[i].change.rev > 0 && page.entries[i].change.sequence <= page.head
    {
    }

    lemma EmptyPageCovers(page: ChangesPage, start: nat, cursor: nat)
      requires Faithful(page, log, start) && page.entries == [] && start <= cursor && Covered(cursor)
      ensures Covered(page.head)
    {
    }

    /** Remembers the manifest rows a replay was shown. */
    ghost method Observe(rows: map<Path, Option<ManifestRow>>)
      requires Valid()
      modifies this`seen
      ensures Valid() && Remembers()
      ensures forall path | path in rows && rows[path].Some? :: RowIn(rows[path].value) in seen
    {
      seen := seen + set path | path in rows && rows[path].Some? :: RowIn(rows[path].value);
      CoverageAfter();
    }

    // ---- Manifest traversal ----

    /** Every row of the pages already walked is passed, and so is every handled row of the current page. */
    ghost predicate Walked(snapshot: Snapshot, page: nat, pending: seq<Path>)
      reads this, engine.device
    {
      && (forall p, i | 0 <= p < page && p < |snapshot.pages| && 0 <= i < |snapshot.pages[p]| :: Passed(RowIn(snapshot.pages[p][i])))
      && (pending != [] && page < |snapshot.pages| ==> Left(snapshot, page, pending))
    }

    /** A saved traversal belongs to the current epoch and to the manifest it walks. */
    ghost predicate Traversing()
      reads this, engine, engine.device
    {
      checkpoint.Some? ==>
        && engine.device.state.epoch == Some(checkpoint.value.epoch)
        && snapshot.epoch == checkpoint.value.epoch && snapshot.head == checkpoint.value.head
        && SnapshotOf(snapshot, log)
        && Walked(snapshot, checkpoint.value.page, checkpoint.value.pendingPaths)
    }

    /** Every row of the page whose path is not left to handle is passed. */
    ghost predicate Left(snapshot: Snapshot, page: nat, left: seq<Path>)
      requires page < |snapshot.pages|
      reads this, engine.device
    {
      forall i | 0 <= i < |snapshot.pages[page]| && snapshot.pages[page][i].path !in left :: Passed(RowIn(snapshot.pages[page][i]))
    }

    twostate lemma WalksStay()
      requires Remembers()
      ensures forall row :: old(Passed(row)) ==> Passed(row)
      ensures forall s: Snapshot, page: nat, pending: seq<Path> :: old(Walked(s, page, pending)) ==> Walked(s, page, pending)
      ensures forall s: Snapshot, page: nat, left: seq<Path> | page < |s.pages| :: old(Left(s, page, left)) ==> Left(s, page, left)
    {
      forall row | old(Passed(row))
        ensures Passed(row)
      {
        PassedStays(row);
      }
    }

    twostate lemma PassedStays(row: Row)
      requires Remembers() && old(Passed(row))
      ensures Passed(row)
    {
    }

    /** Confirms the manifest row as the base of its path. */
    method ConfirmBase(entry: ManifestRow) returns (ok: bool)
      requires engine.device.alive && Valid() && !entry.deleted
      modifies engine.device`clock, engine.device`files, engine.device`alive, engine.device`state, engine.device`rows
      ensures Valid() && Remembers() && engine.device.state.cursor == old(engine.device.state.cursor)
      ensures ok ==> engine.device.alive && RowIn(entry) in engine.device.rows
    {
      hide Unguarded, Next;
      var command := CSetBase(entry.path, Live(entry.rev, entry.hash));
      QueueCommandsKeepPending(engine.device.id, engine.device.state, command);
      BaseIsTrusted(engine.device.id, engine.device.state, entry);
      ok := engine.device.Commit(command);
      if ok {
        engine.device.rows := engine.device.rows + {RowIn(entry)};
      }
      CoverageAfter();
    }

    /** Settles sent creates the manifest confirms; touches only the queue. */
    method Acknowledge(keys: seq<Key>, successor: Option<Base>) returns (ok: bool)
      requires engine.device.alive && Valid()
      modifies engine.device`clock, engine.device`files, engine.device`alive, engine.device`state
      ensures Valid() && Remembers() && engine.device.state.cursor == old(engine.device.state.cursor)
      ensures ok ==> engine.device.alive
    {
      hide Unguarded, Next;
      for i := 0 to |keys|
        invariant engine.device.alive && Valid() && Remembers()
        invariant engine.device.state.cursor == old(engine.device.state.cursor)
      {
        var command := CResolve(keys[i], true, successor);
        QueueCommandsKeepPending(engine.device.id, engine.device.state, command);
        ok := engine.device.Commit(command);
        CoverageAfter();
        if !ok {
          return;
        }
      }
      return true;
    }

    /** Handles one manifest row: settled by a sent create, noted, confirmed in place, or applied. */
    method HandleManifestRow(entry: ManifestRow, local: Option<bytes>, weather: Weather, turn: nat, rejected: Option<Key>)
      returns (r: Replay)
      requires engine.device.alive && Valid() && entry.rev > 0
      modifies this`noted, this`unknown, this`swallowed, engine.device`clock, engine.device`files, engine.device`alive, engine.device`state,
               engine.device`removed, engine.device`verified, engine.device`focus, engine.device`rows
      ensures Valid() && Remembers() && engine.device.state.cursor == old(engine.device.state.cursor)
      ensures r == Replayed ==> engine.device.alive && Passed(RowIn(entry))
    {
      hide Unguarded, Next;
      var device := engine.device;
      var ok: bool;
      var sent := SentCreate(device.id, device.state.pendingOps, entry, rejected, 0);
      if !entry.deleted && sent < |device.state.pendingOps| && device.state.epoch == Some(entry.epoch) {
        var key := device.state.pendingOps[sent].key;
        ok := ConfirmBase(entry);
        if ok {
          r := AcknowledgePassed(entry, [key], Some(Live(entry.rev, entry.hash)));
          return;
        }
        return Threw;
      }
      if HasUnresolvedSentOperation(device.id, device.state, {entry.path}, rejected) {
        return Deferred;
      }
      if excluded(entry.path) {
        return Replayed;
      }
      if weather.admission(entry.path) == Unsupported {
        ok := NoteRow(ChangeOf(entry), "File exceeds the supported synchronization size");
        return if ok then Replayed else Threw;
      }
      if !entry.deleted && local.Some? && Sha256(local.value) == entry.hash {
        ok := ConfirmBase(entry);
      } else {
        ok := ApplyChange(ChangeOf(entry), weather, turn);
        if ok && device.state.epoch != Some(entry.epoch) {
          return Threw;
        }
      }
      if !ok {
        return Threw;
      }
      r := AcknowledgePassed(entry, ObservedCreates(device.state.pendingOps, entry), None);
    }

    /** Settles the creates that a row already accounted for confirms. */
    method AcknowledgePassed(entry: ManifestRow, keys: seq<Key>, successor: Option<Base>) returns (r: Replay)
      requires engine.device.alive && Valid() && Passed(RowIn(entry))
      modifies engine.device`clock, engine.device`files, engine.device`alive, engine.device`state
      ensures Valid() && Remembers() && engine.device.state.cursor == old(engine.device.state.cursor)
      ensures r == Replayed || r == Threw
      ensures r == Replayed ==> engine.device.alive && Passed(RowIn(entry))
    {
      hide Unguarded;
      var ok := Acknowledge(keys, successor);
      PassedStays(RowIn(entry));
      return if ok then Replayed else Threw;
    }

    /** Saves or clears the traversal checkpoint. */
    method SaveCheckpoint(next: Option<Checkpoint>, ghost walked: Snapshot) returns (ok: bool)
      requires engine.device.alive && Valid() && Traversing()
      requires next.Some? ==>
        && engine.device.state.epoch == Some(next.value.epoch)
        && walked.epoch == next.value.epoch && walked.head == next.value.head
        && SnapshotOf(walked, log) && Walked(walked, next.value.page, next.value.pendingPaths)
      modifies this`checkpoint, this`snapshot, engine.device`clock, engine.device`files, engine.device`alive
      ensures Valid() && Remembers() && Traversing()
      ensures engine.device.state == old(engine.device.state) && engine.device.rows == old(engine.device.rows)
      ensures ok ==> engine.device.alive && checkpoint == next && snapshot == walked
      ensures !ok ==> checkpoint == old(checkpoint) && snapshot == old(snapshot)
      ensures forall s: Snapshot, page: nat, left: seq<Path> | page < |s.pages| :: old(Left(s, page, left)) ==> Left(s, page, left)
    {
      hide Unguarded, SnapshotOf;
      ok := engine.device.Persist();
      CoverageAfter();
      WalksStay();
      if ok {
        checkpoint, snapshot := next, walked;
      }
    }

    /** Epoch, cursor, published rows and traversal are as they were. */
    twostate predicate Unmoved()
      reads this, engine, engine.device
    {
      && engine.device.state.epoch == old(engine.device.state.epoch) && engine.device.state.cursor == old(engine.device.state.cursor)
      && log == old(log) && checkpoint == old(checkpoint) && snapshot == old(snapshot)
    }

    /** The device is in the epoch served, and any traversal is of this manifest. */
    ghost predicate OnManifest(served: Snapshot, published: set<Row>)
      reads this, engine, engine.device
    {
      engine.device.state.epoch == Some(served.epoch) && log == published && (checkpoint.Some? ==> snapshot == served)
    }

    /** The same, with the cursor where it was in this epoch, if it was in this epoch. */
    twostate predicate Entered(served: Snapshot, published: set<Row>)
      reads this, engine, engine.device
    {
      && OnManifest(served, published)
      && engine.device.state.cursor
         == if old(engine.device.state.epoch) == Some(served.epoch) then old(engine.device.state.cursor) else None
    }

    /** Starts over in the epoch the server now serves; a new epoch forgets every row of the old one. */
    method EnterEpoch(epoch: Epoch, ghost published: set<Row>) returns (ok: bool)
      requires engine.device.alive && Valid() && Traversing()
      requires engine.device.state.epoch == Some(epoch) ==> Grows(published)
      modifies this`log, this`seen, this`noted, this`unknown, this`swallowed, this`checkpoint, this`snapshot, engine.device`clock, engine.device`files,
               engine.device`alive, engine.device`state, engine.device`position, engine.device`rows
      ensures Valid() && Traversing()
      ensures ok ==> engine.device.alive && engine.device.state.epoch == Some(epoch) && log == published && checkpoint == None
      ensures ok ==> engine.device.state.cursor
                     == if old(engine.device.state.epoch) == Some(epoch) then old(engine.device.state.cursor) else None
      ensures !ok ==> Remembers() && Unmoved()
    {
      hide Unguarded, Next, SnapshotOf, Walked;
      if engine.device.state.epoch != Some(epoch) {
        ok := engine.device.ChangeEpoch(epoch);
        if ok {
          checkpoint, log, seen, noted, unknown, swallowed := None, published, {}, {}, {}, {};
        } else {
          CoverageAfter();
          WalksStay();
        }
        return;
      }
      if checkpoint.Some? {
        ok := SaveCheckpoint(None, snapshot);
        if !ok {
          return;
        }
      }
      ok := true;
      Publish(published);
    }

    /** The server publishes further rows, all of them beyond the cursor. */
    ghost method Publish(published: set<Row>)
      requires Valid() && Traversing() && Grows(published)
      requires checkpoint.Some? ==> SnapshotOf(snapshot, published)
      modifies this`log
      ensures Valid() && Traversing() && log == published
    {
      hide Unguarded, SnapshotOf;
      log := published;
    }

    /** The server only adds rows beyond the cursor. */
    ghost predicate Grows(published: set<Row>)
      reads this, engine, engine.device
    {
      engine.device.state.cursor.Some? ==>
        forall row | row in published && row.sequence <= engine.device.state.cursor.value :: row in log
    }

    /** Walks one manifest page, saving what is left after every row; stops before an unresolved sent path. */
    method WalkPage(served: Snapshot, local: Path -> Option<bytes>, weather: Weather, rejected: Option<Key>) returns (r: Replay)
      requires engine.device.alive && Valid() && Traversing()
      requires checkpoint.Some? && snapshot == served && checkpoint.value.page < |served.pages|
      modifies this`noted, this`unknown, this`swallowed, this`checkpoint, this`snapshot, engine.device`clock, engine.device`files, engine.device`alive,
               engine.device`state, engine.device`removed, engine.device`verified, engine.device`focus, engine.device`rows
      ensures Valid() && Traversing() && Remembers()
      ensures snapshot == served && engine.device.state.cursor == old(engine.device.state.cursor)
      ensures r == Replayed ==>
        && engine.device.alive && snapshot == served
        && checkpoint == Some(old(checkpoint).value.(page := old(checkpoint).value.page + 1, pendingPaths := []))
    {
      hide Unguarded, Next, SnapshotOf, Passed, Walked, Left;
      var page, entries := checkpoint.value.page, served.pages[checkpoint.value.page];
      var left := checkpoint.value.pendingPaths;
      PagesHaveOnePerPath(served, log, page);
      WalkedUpToThere(served, page, left);
      if left == [] && entries != [] {
        left := PathsOf(entries);
        AllAreLeft(served, page);
        WalkedWithLeft(served, page, left);
        var saved := SaveCheckpoint(Some(checkpoint.value.(pendingPaths := left)), served);
        if !saved {
          return Threw;
        }
        AllAreLeft(served, page);
      }
      for i := 0 to |entries|
        invariant engine.device.alive && Valid() && Traversing() && Remembers()
        invariant checkpoint == Some(old(checkpoint).value.(pendingPaths := left)) && snapshot == served
        invariant engine.device.state.cursor == old(engine.device.state.cursor)
        invariant Left(served, page, left) && forall j | 0 <= j < i :: entries[j].path !in left
      {
        if entries[i].path in left {
          r := WalkRow(served, i, left, local, weather, rejected);
          if r != Replayed {
            return;
          }
          left := Minus(left, entries[i].path);
        }
      }
      PageIsWalked(served, page, left);
      var saved := SaveCheckpoint(Some(checkpoint.value.(page := page + 1, pendingPaths := [])), served);
      return if saved then Replayed else Threw;
    }

    /** What a saved traversal knows of its current page. */
    lemma WalkedUpToThere(served: Snapshot, page: nat, left: seq<Path>)
      requires page < |served.pages| && Walked(served, page, left)
      ensures left != [] || served.pages[page] == [] ==> Left(served, page, left)
      ensures Walked(served, page, [])
    {
      hide Passed;
    }

    lemma WalkedWithLeft(served: Snapshot, page: nat, left: seq<Path>)
      requires page < |served.pages| && Walked(served, page, []) && Left(served, page, left)
      ensures Walked(served, page, left)
    {
      hide Passed;
    }

    lemma PageIsWalked(served: Snapshot, page: nat, left: seq<Path>)
      requires page < |served.pages| && Walked(served, page, left) && Left(served, page, left)
      requires forall j | 0 <= j < |served.pages[page]| :: served.pages[page][j].path !in left
      ensures Walked(served, page + 1, [])
    {
      hide Passed;
    }

    lemma AllAreLeft(served: Snapshot, page: nat)
      requires page < |served.pages|
      ensures Left(served, page, PathsOf(served.pages[page]))
    {
      hide Passed;
      forall i | 0 <= i < |served.pages[page]|
        ensures served.pages[page][i].path in PathsOf(served.pages[page])
      {
        assert PathsOf(served.pages[page])[i] == served.pages[page][i].path;
      }
    }

    /** Handles one row of the current page and saves that it is no longer left. */
    method WalkRow(served: Snapshot, i: nat, left: seq<Path>, local: Path -> Option<bytes>, weather: Weather, rejected: Option<Key>)
      returns (r: Replay)
      requires engine.device.alive && Valid() && Traversing()
      requires checkpoint.Some? && snapshot == served && checkpoint.value.page < |served.pages|
      requires i < |served.pages[checkpoint.value.page]| && Left(served, checkpoint.value.page, left)
      requires OnePerPath(served.pages[checkpoint.value.page]) && served.pages[checkpoint.value.page][i].rev > 0
      modifies this`noted, this`unknown, this`swallowed, this`checkpoint, this`snapshot, engine.device`clock, engine.device`files, engine.device`alive,
               engine.device`state, engine.device`removed, engine.device`verified, engine.device`focus, engine.device`rows
      ensures Valid() && Traversing() && Remembers()
      ensures snapshot == served && engine.device.state.cursor == old(engine.device.state.cursor)
      ensures r == Replayed ==>
        var next := Minus(left, served.pages[old(checkpoint).value.page][i].path);
        && engine.device.alive && snapshot == served
        && checkpoint == Some(old(checkpoint).value.(pendingPaths := next))
        && Left(served, checkpoint.value.page, next)
    {
      hide Unguarded, Next, Passed;
      var page, entry := checkpoint.value.page, served.pages[checkpoint.value.page][i];
      r := HandleManifestRow(entry, local(entry.path), weather, i + 1, rejected);
      WalksStay();
      if r != Replayed {
        return;
      }
      var next := Minus(left, entry.path);
      OneFewerIsLeft(served, page, left, i);
      var saved := SaveCheckpoint(Some(checkpoint.value.(pendingPaths := next)), served);
      return if saved then Replayed else Threw;
    }

    lemma OneFewerIsLeft(served: Snapshot, page: nat, left: seq<Path>, i: nat)
      requires page < |served.pages| && i < |served.pages[page]| && OnePerPath(served.pages[page])
      requires Left(served, page, left) && Passed(RowIn(served.pages[page][i]))
      ensures Left(served, page, Minus(left, served.pages[page][i].path))
    {
      hide Passed;
    }

    /** Resumes the saved traversal of this manifest, or starts one over at its epoch and head. */
    method Begin(served: Snapshot, ghost published: set<Row>) returns (ok: bool)
      requires engine.device.alive && Valid() && Traversing()
      requires SnapshotOf(served, published) && served.pages != []
      requires engine.device.state.epoch == Some(served.epoch) ==> Grows(published)
      requires checkpoint.Some? && checkpoint.value.epoch == served.epoch && checkpoint.value.head == served.head ==> snapshot == served
      modifies this`log, this`seen, this`noted, this`unknown, this`swallowed, this`checkpoint, this`snapshot, engine.device`clock, engine.device`files,
               engine.device`alive, engine.device`state, engine.device`position, engine.device`rows
      ensures Valid() && Traversing()
      ensures Unmoved() || Entered(served, published)
      ensures ok ==> Entered(served, published)
      ensures ok ==>
        && engine.device.alive && engine.device.state.epoch == Some(served.epoch) && log == published
        && snapshot == served && checkpoint.Some? && checkpoint.value.head == served.head
        && forall p, i | 0 <= p < |served.pages| && 0 <= i < |served.pages[p]| :: RowIn(served.pages[p][i]) in seen
    {
      hide Unguarded, Next, SnapshotOf, Passed;
      if checkpoint.Some? && checkpoint.value.epoch == served.epoch && checkpoint.value.head == served.head {
        Publish(published);
        ok := true;
      } else {
        ok := EnterEpoch(served.epoch, published);
        if !ok {
          return;
        }
        AllAreLeft(served, 0);
        ok := SaveCheckpoint(Some(Checkpoint(served.epoch, served.head, 0, PathsOf(served.pages[0]))), served);
      }
      ObserveManifest(served);
    }

    /** Remembers the manifest rows a traversal was shown. */
    ghost method ObserveManifest(served: Snapshot)
      requires Valid() && Traversing()
      modifies this`seen
      ensures Valid() && Traversing() && Remembers()
      ensures forall p, i | 0 <= p < |served.pages| && 0 <= i < |served.pages[p]| :: RowIn(served.pages[p][i]) in seen
    {
      seen := seen + set p, i | 0 <= p < |served.pages| && 0 <= i < |served.pages[p]| :: RowIn(served.pages[p][i]);
      CoverageAfter();
      WalksStay();
    }

    lemma WalkedManifestCovers(served: Snapshot)
      requires SnapshotOf(served, log) && Walked(served, |served.pages|, [])
      requires forall p, i | 0 <= p < |served.pages| && 0 <= i < |served.pages[p]| :: RowIn(served.pages[p][i]) in seen
      ensures Covered(served.head)
    {
      forall row | row in log && row.sequence <= served.head
        ensures Passed(row)
      {
        assert RepresentedBy(served, row);
        var p, i :| 0 <= p < |served.pages| && 0 <= i < |served.pages[p]|
                    && (RowIn(served.pages[p][i]) == row || Supersedes(RowIn(served.pages[p][i]), row));
      }
    }

    /** Walks the whole manifest and moves the cursor to its head. Across restarts, page boundaries and
        deferral behind sent operations, the cursor is stored only when everything published up to the head
        is accounted for or was swallowed by an unguarded branch. */
    method RunReconciliation(
        served: Snapshot, ghost published: set<Row>, local: Path -> Option<bytes>, weather: Weather, rejected: Option<Key>)
      returns (r: Replay)
      requires engine.device.alive && Valid() && Traversing()
      requires SnapshotOf(served, published) && served.pages != []
      requires engine.device.state.epoch == Some(served.epoch) ==> Grows(published)
      requires checkpoint.Some? && checkpoint.value.epoch == served.epoch && checkpoint.value.head == served.head ==> snapshot == served
      modifies this`log, this`seen, this`noted, this`unknown, this`swallowed, this`checkpoint, this`snapshot, engine.device`clock, engine.device`files,
               engine.device`alive, engine.device`state, engine.device`removed, engine.device`verified, engine.device`focus, engine.device`rows,
               engine.device`position
      ensures Valid() && Traversing()
      ensures r == Replayed ==>
        engine.device.state.cursor == Some(served.head) && log == published && checkpoint == None
      ensures Unmoved() || Entered(served, published) || (OnManifest(served, published) && engine.device.state.cursor == Some(served.head))
    {
      hide Unguarded, Next, SnapshotOf, Passed, Supersedes;
      var begun := Begin(served, published);
      if !begun {
        return Threw;
      }
      r := WalkManifest(served, local, weather, rejected);
      if r != Replayed {
        return;
      }
      WalkedManifestCovers(served);
      label Walked:
      var moved := SetCursor(served.head);
      WalksStay@Walked();
      if !moved {
        return Threw;
      }
      var cleared := SaveCheckpoint(None, snapshot);
      return if cleared then Replayed else Threw;
    }

    /** Resumes saved work, then walks every page that is left. */
    method WalkManifest(served: Snapshot, local: Path -> Option<bytes>, weather: Weather, rejected: Option<Key>) returns (r: Replay)
      requires engine.device.alive && Valid() && Traversing() && checkpoint.Some? && snapshot == served
      modifies this`noted, this`unknown, this`swallowed, this`checkpoint, this`snapshot, engine.device`clock, engine.device`files,
               engine.device`alive, engine.device`state, engine.device`removed, engine.device`verified, engine.device`focus, engine.device`rows
      ensures Valid() && Traversing() && Remembers()
      ensures snapshot == served && engine.device.state.cursor == old(engine.device.state.cursor)
      ensures r == Replayed ==>
        && engine.device.alive && snapshot == served && checkpoint.Some? && checkpoint.value.head == old(checkpoint).value.head
        && Walked(served, |served.pages|, [])
    {
      hide Unguarded, Next, SnapshotOf, Passed;
      var resumed := ResumeApply(weather);
      WalksStay();
      if !resumed {
        return Threw;
      }
      while checkpoint.value.page < |served.pages|
        invariant engine.device.alive && Valid() && Traversing() && Remembers()
        invariant checkpoint.Some? && snapshot == served && checkpoint.value.head == old(checkpoint).value.head
        invariant engine.device.state.cursor == old(engine.device.state.cursor)
        decreases |served.pages| - checkpoint.value.page
      {
        r := WalkPage(served, local, weather, rejected);
        if r != Replayed {
          return;
        }
      }
      return Replayed;
    }
  }

  /** A resumed put or delete confirms no other path, so another path's row is held only if it was confirmed. */
  lemma ConfinedHoldsWhatWasTrusted(before: State, s: State)
    requires before.pendingApply.Some? && IsPathChange(before.pendingApply.value.change) ==> Confined(before, s)
    ensures forall row: Row | SharesSequence(before, row) :: RowHeld(s, row) <==> TrustedAt(before, row.path, row.rev)
  {
  }

  lemma SkippingHoldsNothing(before: State, s: State)
    requires s.base == before.base && s.stale == before.stale
    ensures s.pendingApply.None? ==>
      forall row: Row | SharesSequence(before, row) :: RowHeld(s, row) <==> TrustedAt(before, row.path, row.rev)
  {
  }

  lemma SkippingHoldsLess(before: State, ran: State, s: State)
    requires forall row: Row | SharesSequence(before, row) :: RowHeld(ran, row) <==> TrustedAt(before, row.path, row.rev)
    requires before.pendingApply.Some? && IsPathChange(before.pendingApply.value.change) ==> Confined(before, ran)
    requires s.base == ran.base && s.stale == ran.stale
    ensures s.pendingApply.None? ==>
      forall row: Row | SharesSequence(before, row) :: RowHeld(s, row) <==> TrustedAt(before, row.path, row.rev)
  {
  }

  /** One manifest page with the epoch it was served in. */
  datatype ManifestPage = ManifestPage(epoch: Epoch, entries: seq<ManifestRow>)

  /** Gathers one full manifest, keyed by path; a path listed twice has no authority. */
  method ReadDeleteManifest(epoch: Epoch, pages: seq<ManifestPage>) returns (rows: map<Path, Option<ManifestRow>>)
    ensures forall path | path in rows && rows[path].Some? ::
      rows[path].value.path == path && exists p, i :: 0 <= p < |pages| && 0 <= i < |pages[p].entries| && pages[p].entries[i] == rows[path].value
    ensures (exists page | page in pages :: page.epoch != epoch) ==> rows == map[]
    ensures (forall page | page in pages :: page.epoch == epoch) ==>
      forall p, i | 0 <= p < |pages| && 0 <= i < |pages[p].entries| :: pages[p].entries[i].path in rows
  {
    rows := map[];
    for p := 0 to |pages|
      invariant forall q | 0 <= q < p :: pages[q].epoch == epoch
      invariant forall path | path in rows && rows[path].Some? ::
        rows[path].value.path == path && exists q, i :: 0 <= q < p && 0 <= i < |pages[q].entries| && pages[q].entries[i] == rows[path].value
      invariant forall q, i | 0 <= q < p && 0 <= i < |pages[q].entries| :: pages[q].entries[i].path in rows
    {
      if pages[p].epoch != epoch {
        assert pages[p] in pages;
        return map[];
      }
      var entries := pages[p].entries;
      for i := 0 to |entries|
        invariant forall path | path in rows && rows[path].Some? ::
          rows[path].value.path == path && exists q, j :: 0 <= q <= p && 0 <= j < |pages[q].entries| && pages[q].entries[j] == rows[path].value
        invariant forall q, j | 0 <= q < p && 0 <= j < |pages[q].entries| :: pages[q].entries[j].path in rows
        invariant forall j | 0 <= j < i :: entries[j].path in rows
      {
        assert pages[p].entries[i] == entries[i];
        rows := rows[entries[i].path := if entries[i].path in rows then None else Some(entries[i])];
      }
    }
  }

  predicate Ascending(entries: seq<Entry>) {
    forall i, j | 0 <= i < j < |entries| :: entries[i].change.sequence < entries[j].change.sequence
  }

  predicate ListedBy(entries: seq<Entry>, i: nat, row: Row)
    requires i < |entries|
  {
    exists j | 0 <= j <= i :: row in RowsOf(entries[j].change)
  }

  /** A page that lists, in order, every published row after the cursor up to its last one. */
  ghost predicate Faithful(page: ChangesPage, log: set<Row>, cursor: nat) {
    && (forall i | 0 <= i < |page.entries| :: page.entries[i].change.rev > 0)
    && Ascending(page.entries)
    && (forall i | 0 <= i < |page.entries| :: page.entries[i].change.sequence <= page.head)
    && (forall row, i | row in log && 0 <= i < |page.entries| && cursor < row.sequence <= page.entries[i].change.sequence ::
          ListedBy(page.entries, i, row))
    && (page.entries == [] ==> forall row | row in log && row.sequence <= page.head :: row.sequence <= cursor)
  }

  /** Between one entry and the next, nothing was published. */
  lemma NothingBetween(page: ChangesPage, log: set<Row>, start: nat, cursor: nat, i: nat, row: Row)
    requires Faithful(page, log, start) && i < |page.entries| && start <= cursor
    requires i > 0 ==> page.entries[i - 1].change.sequence <= cursor
    requires row in log && row.sequence <= page.entries[i].change.sequence
    ensures row.sequence <= cursor || row in RowsOf(page.entries[i].change)
  {
    if row.sequence > cursor {
      assert ListedBy(page.entries, i, row) && Ascending(page.entries);
      hide Faithful;
      var j :| 0 <= j <= i && row in RowsOf(page.entries[j].change);
      assert j == i;
    }
  }

  predicate IsSentCreate(id: Identity, op: Operation, entry: ManifestRow, rejected: Option<Key>) {
    op.state == Sent && Some(op.key) != rejected && op.action.Put? && op.precondition.Absent?
    && id(op.path) == id(entry.path) && op.payloadHash == entry.hash
  }

  /** The first sent create the manifest row answers, or the queue length. */
  function SentCreate(id: Identity, ops: seq<Operation>, entry: ManifestRow, rejected: Option<Key>, from: nat): (i: nat)
    requires from <= |ops|
    ensures from <= i <= |ops|
    decreases |ops| - from
  {
    if from == |ops| || IsSentCreate(id, ops[from], entry, rejected) then from
    else SentCreate(id, ops, entry, rejected, from + 1)
  }

  /** Keys of sent creates at exactly this path with exactly these bytes. */
  function ObservedCreates(ops: seq<Operation>, entry: ManifestRow): seq<Key> {
    if ops == [] then []
    else
      var op := ops[0];
      var rest := ObservedCreates(ops[1..], entry);
      if !entry.deleted && op.state == Sent && op.action.Put? && op.path == entry.path && op.precondition.Absent?
         && op.payloadHash == entry.hash
      then [op.key] + rest else rest
  }

  lemma QueueCommandsKeepPending(id: Identity, s: State, command: Command)
    requires command.CSetBase? || command.CResolve?
    ensures Keeps(id, s, command)
  {
  }

  lemma BaseIsTrusted(id: Identity, s: State, entry: ManifestRow)
    ensures var next := Next(id, s, CSetBase(entry.path, Live(entry.rev, entry.hash)));
            next.Success? ==> TrustedAt(next.value, entry.path, entry.rev)
  {
  }

  lemma PagesHaveOnePerPath(snapshot: Snapshot, log: set<Row>, page: nat)
    requires SnapshotOf(snapshot, log) && page < |snapshot.pages|
    ensures OnePerPath(snapshot.pages[page])
    ensures forall i | 0 <= i < |snapshot.pages[page]| :: snapshot.pages[page][i].rev > 0
  {
  }

  // ---- Where completeness fails, and exactly when it holds ----

  /** The obsolete-delete branch passes a row; the row is confirmed exactly when its base is of this epoch. */
  lemma ObsoleteDeleteIsConfirmed(s: State, change: Change)
    requires change.DeleteChange? && change.path in s.base && change.rev <= s.base[change.path].rev
    requires !PendingIs(s, RowOf(change))
    ensures RowHeld(s, RowOf(change)) <==> change.path !in s.stale
  {
  }

  /** A counterexample: confirmed at revision 9 before the epoch changed, a path swallows the new epoch's
      delete at revision 2, and the cursor moves past it. */
  lemma StaleBaseSwallowsADelete(id: Identity) returns (commands: seq<Command>, s: State, change: Change)
    ensures RunAll(id, FreshState(), commands) == Success(s)
    ensures change.DeleteChange? && s.epoch == Some(change.epoch) && s.cursor.Some? && s.cursor.value < change.sequence
    ensures change.path in s.base && change.rev <= s.base[change.path].rev
    ensures s.pendingApply.None? && s.attention == [] && !RowHeld(s, RowOf(change))
  {
    var hash := Sha256([]);
    var c1, c2, c3, c4 := CResetEpoch(1), CSetBase("a", Live(9, hash)), CResetEpoch(2), CSetCursor(2, 3);
    var s1 := FreshState().(epoch := Some(1));
    var s2 := s1.(base := map["a" := Live(9, hash)]);
    var s3 := s2.(epoch := Some(2), stale := {"a"});
    s := s3.(cursor := Some(3));
    change := DeleteChange(4, "a", 2, 2);
    commands := [c1, c2, c3, c4];
    OldEpochIsStale(id, hash, s1, s2, s3);
    CursorMovesAlone(id, s3, 3);
    RunStep(id, s3, [c4], s);
    RunStep(id, s2, [c3, c4], s3);
    RunStep(id, s1, [c2, c3, c4], s2);
    RunStep(id, FreshState(), commands, s1);
  }

  /** A counterexample: an apply of current authority took sequence number cursor + 1 and rests on an edited
      conflict copy; the feed row with that number resumes it instead, the cursor moves, and nothing holds the row. */
  lemma SharedSequenceSwallowsARow(id: Identity, name: CopyNamer)
      returns (commands: seq<Command>, s: State, files: Files, change: Change, t: State)
    ensures RunAll(id, FreshState(), commands) == Success(s)
    ensures s.cursor.Some? && s.pendingApply.Some? && s.pendingApply.value.change.sequence == s.cursor.value + 1
    ensures Resumable(s) && Final(id, name, DurableOf(files, s)) == DurableOf(files, s)
    ensures change.sequence == s.cursor.value + 1 && SharesSequence(s, RowOf(change))
    ensures forall excluded :: Unguarded(excluded, Swallow(RowOf(change), s, change))
    ensures Next(id, s, CSetCursor(1, change.sequence)) == Success(t)
    ensures t.cursor == Some(change.sequence) && t.attention == [] && !RowHeld(t, RowOf(change))
  {
    var copyPath := name("a", 2);
    var current := PutChange(1, "a", 1, 2, Sha256([1]));
    var pending := PendingApply(current, Named, [ConflictCopy(copyPath, "a", false, Sha256([2]))]);
    var c1, c2, c3, c4 := CResetEpoch(1), CSetCursor(1, 0), CBeginApply(current), CUpdateApply(pending);
    var s1 := FreshState().(epoch := Some(1));
    var s2 := s1.(cursor := Some(0));
    var s3 := s2.(pendingApply := Some(PendingApply(current, Prepared, [])));
    s := s3.(pendingApply := Some(pending));
    t := s.(cursor := Some(1));
    commands, change := [c1, c2, c3, c4], PutChange(1, "b", 1, 1, Sha256([4]));
    files := map["a" := [2], copyPath := [3]];
    assert "a"[0] != "b"[0];
    FreshEpoch(id, s1);
    CursorMovesAlone(id, s1, 0);
    BeginningIs(id, s2, current);
    NamingIs(id, s3, pending);
    CursorMovesAlone(id, s, 1);
    RunStep(id, s3, [c4], s);
    RunStep(id, s2, [c3, c4], s3);
    RunStep(id, s1, [c2, c3, c4], s2);
    RunStep(id, FreshState(), commands, s1);
    assert files[copyPath] == [3] && Sha256([3]) != Sha256([2]);
    BlockedIsFinal(id, name, DurableOf(files, s), pending, 0);
  }

  lemma FreshEpoch(id: Identity, s: State)
    requires s == FreshState().(epoch := Some(1))
    ensures Next(id, FreshState(), CResetEpoch(1)) == Success(s)
  {
    var nothing: seq<Operation> := [];
    assert Retained(OLD_EPOCH, nothing) == [];
    assert s.stale == FreshState().stale + FreshState().base.Keys;
    assert s.attention == FreshState().attention + Retained(OLD_EPOCH, nothing);
  }

  /** A counterexample: a rename moves a file out of scope; the cursor passes it, and the path it left keeps its
      old live base with nothing recorded. */
  lemma ExcludedDestinationSwallowsItsSource(id: Identity) returns (commands: seq<Command>, s: State, change: Change, t: State)
    ensures RunAll(id, FreshState(), commands) == Success(s)
    ensures HasSource(change) && s.cursor.Some? && s.cursor.value < change.sequence && s.pendingApply.None?
    ensures forall excluded: Path -> bool | excluded(change.path) && !excluded(change.fromPath) ::
      Unguarded(excluded, Swallow(SourceRow(change), s, change))
    ensures Next(id, s, CSetCursor(1, change.sequence)) == Success(t)
    ensures t.base == s.base && change.fromPath in t.base && t.base[change.fromPath].Live? && t.attention == [] && !RowHeld(t, SourceRow(change))
  {
    var hash := Sha256([]);
    var c1, c2, c3 := CResetEpoch(1), CSetBase("a", Live(1, hash)), CSetCursor(1, 0);
    var s1 := FreshState().(epoch := Some(1));
    var s2 := s1.(base := map["a" := Live(1, hash)]);
    s := s2.(cursor := Some(0));
    t := s.(cursor := Some(1));
    commands, change := [c1, c2, c3], RenameChange(1, "a", 2, "outside", 1, 1, hash);
    assert |"a"| != |"outside"|;
    FreshEpoch(id, s1);
    assert Next(id, s1, c2) == Success(s2) by {
      assert s2.base == s1.base["a" := Live(1, hash)] && s2.stale == s1.stale - {"a"};
    }
    CursorMovesAlone(id, s2, 0);
    CursorMovesAlone(id, s, 1);
    RunStep(id, s2, [c3], s);
    RunStep(id, s1, [c2, c3], s2);
    RunStep(id, FreshState(), commands, s1);
  }
}
