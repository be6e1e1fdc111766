/** Where a pending text put or delete ends when nothing interferes, from any durable point of its apply. */
module ApplyOutcome {
  import opened Bytes
  import opened DeviceState
  import opened JournalSteps
  import opened TextDevice

  /** What a crash leaves: vault contents (conflict copies among them), confirmed bases, and the pending apply. */
  datatype Durable = Durable(files: Files, base: map<Path, Base>, stale: set<Path>, pending: Option<PendingApply>)

  function DurableOf(files: Files, s: State): Durable {
    Durable(files, s.base, s.stale, s.pendingApply)
  }

  function NewBase(change: Change): Base
    requires IsPathChange(change)
  {
    if change.PutChange? then Live(change.rev, change.hash) else Tombstone(change.rev)
  }

  predicate Obsolete(d: Durable, change: Change) {
    change.path in d.base && change.rev <= d.base[change.path].rev && change.path !in d.stale
  }

  /** Confirms the change, unless the confirmed base has overtaken it. */
  function Completed(d: Durable, change: Change): Durable
    requires IsPathChange(change)
  {
    if change.rev > 0 && (change.rev > RevOf(d.base, change.path) || change.path in d.stale) then
      d.(base := d.base[change.path := NewBase(change)], stale := d.stale - {change.path}, pending := None)
    else d
  }

  predicate Clean(d: Durable, path: Path) {
    path in d.files && path in d.base && IsBase(Some(d.base[path]), d.files[path])
  }

  /** The text a missing copy would be created from. */
  function CopyText(files: Files, change: Change, copy: ConflictCopy): Option<bytes> {
    if copy.remote then
      if change.PutChange? && change.hash == copy.hash then Some(change.hash.content) else None
    else if copy.source in files && Sha256(files[copy.source]) == copy.hash then Some(files[copy.source])
    else None
  }

  predicate CopyStands(files: Files, copy: ConflictCopy) {
    copy.path in files && Sha256(files[copy.path]) == copy.hash
  }

  /** Creates the named copies in order; stops at one that cannot be saved. */
  function Saved(id: Identity, files: Files, change: Change, copies: seq<ConflictCopy>): (Files, bool)
    decreases |copies|
  {
    if copies == [] then (files, true)
    else if copies[0].path in files then
      if CopyStands(files, copies[0]) then Saved(id, files, change, copies[1..]) else (files, false)
    else
      var text := CopyText(files, change, copies[0]);
      if text.None? || Collides(id, files, copies[0].path) then (files, false)
      else Saved(id, files[copies[0].path := text.value], change, copies[1..])
  }

  /** The pending apply as it is once every copy is saved. */
  function Finished(id: Identity, d: Durable, pending: PendingApply): Durable
    requires IsPathChange(pending.change)
  {
    var change := pending.change;
    var path := change.path;
    var stays := d.(pending := Some(pending));
    if exists copy | copy in pending.copies :: !CopyStands(d.files, copy) then stays
    else if exists copy | copy in pending.copies :: copy.remote then Completed(stays, change)
    else if change.DeleteChange? then
      if path !in d.files then Completed(stays, change)
      else if HeldByCopy(pending, path, d.files[path]) then Completed(stays.(files := d.files - {path}), change)
      else stays
    else if path !in d.files then
      if Collides(id, d.files, path) then stays else Completed(stays.(files := d.files[path := change.hash.content]), change)
    else if d.files[path] == change.hash.content || Clean(d, path) || HeldByCopy(pending, path, d.files[path]) then
      Completed(stays.(files := d.files[path := change.hash.content]), change)
    else stays
  }

  /** The first local copy of a path holds this version. */
  predicate HeldByCopy(pending: PendingApply, path: Path, version: bytes) {
    var i := FirstLocal(pending.copies, path, 0);
    i < |pending.copies| && pending.copies[i].hash == Sha256(version)
  }

  function FirstLocal(copies: seq<ConflictCopy>, path: Path, from: nat): (i: nat)
    requires from <= |copies|
    ensures from <= i <= |copies|
    ensures i < |copies| ==> !copies[i].remote && copies[i].source == path
    decreases |copies| - from
  {
    if from == |copies| || (!copies[from].remote && copies[from].source == path) then from
    else FirstLocal(copies, path, from + 1)
  }

  function Preserved(id: Identity, d: Durable, pending: PendingApply): Durable
    requires IsPathChange(pending.change)
  {
    var (files, ok) := Saved(id, d.files, pending.change, pending.copies);
    if ok then Finished(id, d.(files := files), pending.(step := Copied)) else Durable(files, d.base, d.stale, Some(pending))
  }

  function NamedCopy(name: CopyNamer, d: Durable, change: Change, remote: bool, hash: Hash): PendingApply {
    PendingApply(change, Named, [ConflictCopy(name(change.path, change.rev), change.path, remote, hash)])
  }

  /** The outcome of a prepared put or delete. */
  function Applied(id: Identity, name: CopyNamer, d: Durable, change: Change): Durable
    requires IsPathChange(change)
  {
    var path := change.path;
    if change.PutChange? then
      var remote := change.hash.content;
      if Lookup(d.files, path) == Some(remote) then Completed(d, change)
      else if path !in d.files then
        if Collides(id, d.files, path) then Preserved(id, d, NamedCopy(name, d, change, true, change.hash))
        else Completed(d.(files := d.files[path := remote]), change)
      else if Clean(d, path) then Completed(d.(files := d.files[path := remote]), change)
      else Preserved(id, d, NamedCopy(name, d, change, false, Sha256(d.files[path])))
    else if path !in d.files then Completed(d, change)
    else if Clean(d, path) then Completed(d.(files := d.files - {path}), change)
    else Preserved(id, d, NamedCopy(name, d, change, false, Sha256(d.files[path])))
  }

  /** Where the pending apply ends, from any durable point. */
  function Final(id: Identity, name: CopyNamer, d: Durable): Durable {
    if d.pending.None? || !IsPathChange(d.pending.value.change) then d
    else match d.pending.value.step
      case Prepared =>
        if Obsolete(d, d.pending.value.change) then d.(pending := None) else Applied(id, name, d, d.pending.value.change)
      case Named => Preserved(id, d, d.pending.value)
      case Copied => Finished(id, d, d.pending.value)
  }

  // ---- One lemma for each durable step ----

  ghost predicate Preparing(d: Durable, change: Change) {
    && IsPathChange(change) && change.rev > 0
    && d.pending == Some(PendingApply(change, Prepared, []))
    && !Obsolete(d, change)
  }

  /** A prepared apply that is not obsolete can always be confirmed. */
  lemma PreparedCompletes(d: Durable, change: Change)
    requires Preparing(d, change)
    ensures Completed(d, change).pending.None?
  {
  }

  /** Writing the remote text over an absent or unedited path moves nothing: the rest still ends there. */
  lemma WriteMovesNothing(id: Identity, name: CopyNamer, d: Durable, change: Change)
    requires Preparing(d, change) && change.PutChange?
    requires (change.path !in d.files && !Collides(id, d.files, change.path)) || Clean(d, change.path)
          || Lookup(d.files, change.path) == Some(change.hash.content)
    ensures var next := d.(files := d.files[change.path := change.hash.content]);
            && Final(id, name, next) == Final(id, name, d) == Completed(next, change)
            && Preparing(next, change)
  {
    var next := d.(files := d.files[change.path := change.hash.content]);
    if Lookup(d.files, change.path) == Some(change.hash.content) {
      assert next.files == d.files;
    }
  }

  lemma TrashMovesNothing(id: Identity, name: CopyNamer, d: Durable, change: Change)
    requires Preparing(d, change) && change.DeleteChange?
    requires change.path in d.files ==> Clean(d, change.path)
    ensures var next := d.(files := d.files - {change.path});
            && Final(id, name, next) == Final(id, name, d) == Completed(next, change)
            && Preparing(next, change)
  {
    var next := d.(files := d.files - {change.path});
    if change.path !in d.files {
      assert next.files == d.files;
    }
  }

  /** The hash a conflict copy is named with: the remote text for a collision, the local text for an edit. */
  function CopyHash(d: Durable, change: Change): Hash
    requires change.PutChange? || change.path in d.files
  {
    if change.path in d.files then Sha256(d.files[change.path]) else change.hash
  }

  ghost predicate NeedsCopy(id: Identity, d: Durable, change: Change) {
    && (change.path in d.files ==> !Clean(d, change.path))
    && (change.path !in d.files ==> change.PutChange? && Collides(id, d.files, change.path))
    && (change.PutChange? ==> Lookup(d.files, change.path) != Some(change.hash.content))
  }

  /** Naming a copy moves nothing. */
  lemma NamingMovesNothing(id: Identity, name: CopyNamer, d: Durable, change: Change)
    requires Preparing(d, change) && NeedsCopy(id, d, change)
    ensures var pending := NamedCopy(name, d, change, change.path !in d.files, CopyHash(d, change));
            && Final(id, name, d.(pending := Some(pending))) == Final(id, name, d)
            && WellNamed(pending)
  {
    hide Preserved;
    var pending := NamedCopy(name, d, change, change.path !in d.files, CopyHash(d, change));
    PreservedForgets(id, d, d.(pending := Some(pending)), pending);
  }

  /** The outcome of preservation does not depend on the pending record it started from. */
  lemma PreservedForgets(id: Identity, d: Durable, e: Durable, pending: PendingApply)
    requires IsPathChange(pending.change)
    requires d.files == e.files && d.base == e.base && d.stale == e.stale
    ensures Preserved(id, d, pending) == Preserved(id, e, pending)
  {
    var (files, ok) := Saved(id, d.files, pending.change, pending.copies);
    var copied := pending.(step := Copied);
    FinishedForgets(id, d.(files := files), e.(files := files), copied);
  }

  lemma FinishedForgets(id: Identity, d: Durable, e: Durable, pending: PendingApply)
    requires IsPathChange(pending.change)
    requires d.files == e.files && d.base == e.base && d.stale == e.stale
    ensures Finished(id, d, pending) == Finished(id, e, pending)
  {
  }

  /** Copies that already stand are passed over. */
  lemma {:induction false} StandingArePassed(id: Identity, files: Files, change: Change, copies: seq<ConflictCopy>, i: nat)
    requires i <= |copies| && forall j | 0 <= j < i :: CopyStands(files, copies[j])
    ensures Saved(id, files, change, copies) == Saved(id, files, change, copies[i..])
    decreases i
  {
    if i > 0 {
      StandingArePassed(id, files, change, copies, i - 1);
      assert copies[i - 1..][1..] == copies[i..];
      assert CopyStands(files, copies[i - 1]);
    } else {
      assert copies[0..] == copies;
    }
  }

  /** Creating the next copy leaves the rest of the preservation where it was. */
  lemma SavingMovesNothing(id: Identity, files: Files, change: Change, copies: seq<ConflictCopy>, i: nat)
    requires i < |copies| && forall j | 0 <= j < i :: CopyStands(files, copies[j])
    requires copies[i].path !in files && !Collides(id, files, copies[i].path) && CopyText(files, change, copies[i]).Some?
    ensures var next := files[copies[i].path := CopyText(files, change, copies[i]).value];
            && (forall j | 0 <= j <= i :: CopyStands(next, copies[j]))
            && Saved(id, next, change, copies) == Saved(id, files, change, copies)
  {
    var next := files[copies[i].path := CopyText(files, change, copies[i]).value];
    StandingArePassed(id, files, change, copies, i);
    assert copies[i..][0] == copies[i] && copies[i..][1..] == copies[i + 1..];
    forall j | 0 <= j <= i
      ensures CopyStands(next, copies[j])
    {
      assert j < i ==> CopyStands(files, copies[j]);
    }
    StandingArePassed(id, next, change, copies, i + 1);
  }

  /** A copy that cannot be saved stops the apply where it is. */
  lemma BlockedIsFinal(id: Identity, name: CopyNamer, d: Durable, pending: PendingApply, i: nat)
    requires d.pending == Some(pending) && pending.step == Named && IsPathChange(pending.change)
    requires i < |pending.copies| && forall j | 0 <= j < i :: CopyStands(d.files, pending.copies[j])
    requires var copy := pending.copies[i];
             if copy.path in d.files then !CopyStands(d.files, copy)
             else CopyText(d.files, pending.change, copy).None? || Collides(id, d.files, copy.path)
    ensures Final(id, name, d) == d
  {
    StandingArePassed(id, d.files, pending.change, pending.copies, i);
    assert pending.copies[i..][0] == pending.copies[i];
  }

  /** Once every copy stands, marking the apply copied moves nothing. */
  lemma CopyingMovesNothing(id: Identity, name: CopyNamer, d: Durable, pending: PendingApply)
    requires d.pending == Some(pending) && pending.step == Named && IsPathChange(pending.change)
    requires forall j | 0 <= j < |pending.copies| :: CopyStands(d.files, pending.copies[j])
    ensures Final(id, name, d.(pending := Some(pending.(step := Copied)))) == Final(id, name, d)
  {
    hide Finished;
    StandingArePassed(id, d.files, pending.change, pending.copies, |pending.copies|);
    assert pending.copies[|pending.copies|..] == [];
    FinishedForgets(id, d, d.(pending := Some(pending.(step := Copied))), pending.(step := Copied));
  }

  ghost predicate Finishing(d: Durable, pending: PendingApply) {
    && d.pending == Some(pending) && pending.step == Copied && WellNamed(pending)
    && forall copy | copy in pending.copies :: CopyStands(d.files, copy)
  }

  /** The final replacement or removal moves nothing: copies stand elsewhere and survive it. */
  lemma ReplacingMovesNothing(id: Identity, name: CopyNamer, d: Durable, pending: PendingApply)
    requires Finishing(d, pending) && pending.change.PutChange? && !(exists copy | copy in pending.copies :: copy.remote)
    requires var path := pending.change.path;
             if path in d.files
             then d.files[path] == pending.change.hash.content || Clean(d, path) || HeldByCopy(pending, path, d.files[path])
             else !Collides(id, d.files, path)
    ensures var next := d.(files := d.files[pending.change.path := pending.change.hash.content]);
            && Final(id, name, next) == Final(id, name, d) == Completed(next, pending.change)
            && Finishing(next, pending)
  {
    var next := d.(files := d.files[pending.change.path := pending.change.hash.content]);
    forall copy | copy in pending.copies
      ensures CopyStands(next.files, copy)
    {
    }
    assert next.files == next.files[pending.change.path := pending.change.hash.content];
    CompletedIgnoresPending(d, next, pending);
  }

  lemma CompletedIgnoresPending(d: Durable, next: Durable, pending: PendingApply)
    requires d.pending == next.pending == Some(pending)
    ensures d.(pending := Some(pending)) == d && next.(pending := Some(pending)) == next
  {
  }

  lemma RemovingMovesNothing(id: Identity, name: CopyNamer, d: Durable, pending: PendingApply)
    requires Finishing(d, pending) && pending.change.DeleteChange?
    requires pending.change.path in d.files ==> HeldByCopy(pending, pending.change.path, d.files[pending.change.path])
    ensures var next := d.(files := d.files - {pending.change.path});
            && Final(id, name, next) == Final(id, name, d) == Completed(next, pending.change)
            && Finishing(next, pending)
  {
    var next := d.(files := d.files - {pending.change.path});
    forall copy | copy in pending.copies
      ensures CopyStands(next.files, copy)
    {
    }
    if pending.change.path !in d.files {
      assert next.files == d.files;
    }
    CompletedIgnoresPending(d, next, pending);
  }

  // ---- What the outcome means ----

  ghost predicate Extends(files: Files, later: Files) {
    forall path | path in files :: path in later && later[path] == files[path]
  }

  /** Saving copies only adds files; when it succeeds every copy stands. */
  lemma {:induction false} SavingOnlyAdds(id: Identity, files: Files, change: Change, copies: seq<ConflictCopy>)
    ensures var (later, ok) := Saved(id, files, change, copies);
            Extends(files, later) && (ok ==> forall copy | copy in copies :: CopyStands(later, copy))
    decreases |copies|
  {
    if copies != [] {
      var text := CopyText(files, change, copies[0]);
      if copies[0].path in files {
        SavingOnlyAdds(id, files, change, copies[1..]);
      } else if text.Some? {
        SavingOnlyAdds(id, files[copies[0].path := text.value], change, copies[1..]);
      }
    }
  }

  /** Saving copies adds only files that hold what some copy was named for. */
  lemma {:induction false} SavingAddsOnlyCopies(id: Identity, files: Files, change: Change, copies: seq<ConflictCopy>, path: Path)
    ensures var later := Saved(id, files, change, copies).0;
            path in later && path !in files ==> exists copy | copy in copies :: copy.hash == Sha256(later[path])
    decreases |copies|
  {
    if copies != [] {
      var text := CopyText(files, change, copies[0]);
      if copies[0].path in files {
        SavingAddsOnlyCopies(id, files, change, copies[1..], path);
      } else if text.Some? {
        var next := files[copies[0].path := text.value];
        SavingAddsOnlyCopies(id, next, change, copies[1..], path);
        SavingOnlyAdds(id, next, change, copies[1..]);
      }
    }
  }

  ghost predicate Elsewhere(files: Files, path: Path, version: bytes) {
    exists other | other in files :: other != path && files[other] == version
  }

  /** A version survives at its path, as the base confirmed in this epoch, or in another file. */
  ghost predicate Survives(d: Durable, e: Durable, path: Path)
    requires path in d.files
  {
    || Lookup(e.files, path) == Some(d.files[path])
    || (Clean(d, path) && path !in d.stale)
    || Elsewhere(e.files, path, d.files[path])
  }

  /** The pending apply replaces whatever stands at its path as long as that is the base on record. */
  ghost predicate TakesTheBase(id: Identity, d: Durable, pending: PendingApply, version: bytes)
    requires IsPathChange(pending.change)
  {
    match pending.step
    case Prepared => pending.change.DeleteChange? || pending.change.hash.content != version
    case Named =>
      && pending.change.PutChange? && pending.change.hash.content != version
      && Saved(id, d.files, pending.change, pending.copies).1
      && forall copy | copy in pending.copies :: !copy.remote && copy.hash != Sha256(version)
    case Copied =>
      && pending.change.PutChange? && pending.change.hash.content != version
      && forall copy | copy in pending.copies :: CopyStands(d.files, copy) && !copy.remote && copy.hash != Sha256(version)
  }

  /** Text that an old epoch confirmed, that stands nowhere else, and that the pending apply takes for its base. */
  ghost predicate Exposed(id: Identity, d: Durable, path: Path) {
    && d.pending.Some? && IsPathChange(d.pending.value.change) && d.pending.value.change.path == path
    && path in d.stale && Clean(d, path) && !Elsewhere(d.files, path, d.files[path])
    && TakesTheBase(id, d, d.pending.value, d.files[path])
  }

  /** What finishing an apply exposes. */
  ghost predicate FinishingExposes(d: Durable, pending: PendingApply, path: Path)
    requires path in d.files
  {
    && path == pending.change.path && path in d.stale && Clean(d, path) && !Elsewhere(d.files, path, d.files[path])
    && pending.change.PutChange? && pending.change.hash.content != d.files[path]
    && forall copy | copy in pending.copies :: CopyStands(d.files, copy) && !copy.remote && copy.hash != Sha256(d.files[path])
  }

  lemma FinishingLosesOnlyExposed(id: Identity, d: Durable, pending: PendingApply, path: Path)
    requires WellNamed(pending) && path in d.files
    ensures Survives(d, Finished(id, d, pending), path) <==> !FinishingExposes(d, pending, path)
    ensures path != pending.change.path ==> Lookup(Finished(id, d, pending).files, path) == Some(d.files[path])
  {
    var e := Finished(id, d, pending);
    if path == pending.change.path && Lookup(e.files, path) != Some(d.files[path]) {
      if HeldByCopy(pending, path, d.files[path]) {
        var copy := pending.copies[FirstLocal(pending.copies, path, 0)];
        assert copy in pending.copies && CopyStands(d.files, copy);
        assert e.files[copy.path] == d.files[path];
      } else if exists copy | copy in pending.copies :: copy.hash == Sha256(d.files[path]) {
        var copy :| copy in pending.copies && copy.hash == Sha256(d.files[path]);
        assert CopyStands(d.files, copy) && e.files[copy.path] == d.files[path];
      } else {
        SameElsewhereFiles(d.files, e.files, path, d.files[path]);
      }
    }
  }

  /** Changing one path leaves what stands elsewhere. */
  lemma SameElsewhereFiles(files: Files, later: Files, path: Path, version: bytes)
    requires forall other | other != path :: Lookup(files, other) == Lookup(later, other)
    ensures Elsewhere(files, path, version) <==> Elsewhere(later, path, version)
  {
    forall other | other != path
      ensures other in files <==> other in later
      ensures other in files ==> files[other] == later[other]
    {
      assert Lookup(files, other) == Lookup(later, other);
    }
  }

  lemma PreservingLosesOnlyExposed(id: Identity, d: Durable, pending: PendingApply, path: Path)
    requires WellNamed(pending) && pending.step == Named && path in d.files
    ensures Survives(d, Preserved(id, d, pending), path) <==>
      !(path == pending.change.path && path in d.stale && Clean(d, path) && !Elsewhere(d.files, path, d.files[path])
        && TakesTheBase(id, d, pending, d.files[path]))
    ensures path != pending.change.path ==> Lookup(Preserved(id, d, pending).files, path) == Some(d.files[path])
  {
    hide Finished;
    SavingOnlyAdds(id, d.files, pending.change, pending.copies);
    var (files, ok) := Saved(id, d.files, pending.change, pending.copies);
    if ok {
      var saved, copied := d.(files := files), pending.(step := Copied);
      FinishingLosesOnlyExposed(id, saved, copied, path);
      if path == pending.change.path {
        SavedElsewhere(id, d, pending, path);
      }
    }
  }

  /** After saving, a version stands elsewhere exactly when it did before or a copy was named for it. */
  lemma SavedElsewhere(id: Identity, d: Durable, pending: PendingApply, path: Path)
    requires WellNamed(pending) && path in d.files && path == pending.change.path
    requires Saved(id, d.files, pending.change, pending.copies).1
    ensures var files := Saved(id, d.files, pending.change, pending.copies).0;
            Elsewhere(files, path, d.files[path]) <==>
              Elsewhere(d.files, path, d.files[path]) || exists copy | copy in pending.copies :: copy.hash == Sha256(d.files[path])
  {
    var files := Saved(id, d.files, pending.change, pending.copies).0;
    SavingOnlyAdds(id, d.files, pending.change, pending.copies);
    if exists copy | copy in pending.copies :: copy.hash == Sha256(d.files[path]) {
      var copy :| copy in pending.copies && copy.hash == Sha256(d.files[path]);
      assert CopyStands(files, copy) && copy.path != path;
    }
    if Elsewhere(files, path, d.files[path]) {
      var other :| other in files && other != path && files[other] == d.files[path];
      SavingAddsOnlyCopies(id, d.files, pending.change, pending.copies, other);
    }
  }

  lemma PreparedLosesOnlyExposed(id: Identity, name: CopyNamer, d: Durable, path: Path)
    requires d.pending.Some? && WellNamed(d.pending.value) && d.pending.value.step == Prepared && path in d.files
    ensures Survives(d, Final(id, name, d), path) <==> !Exposed(id, d, path)
    ensures path != d.pending.value.change.path ==> Lookup(Final(id, name, d).files, path) == Some(d.files[path])
  {
    hide Preserved;
    var change := d.pending.value.change;
    if !Obsolete(d, change) {
      if NeedsCopy(id, d, change) {
        var named := NamedCopy(name, d, change, change.path !in d.files, CopyHash(d, change));
        PreservingLosesOnlyExposed(id, d, named, path);
      } else if path == change.path {
        SameElsewhereFiles(d.files, Final(id, name, d).files, path, d.files[path]);
      }
    }
  }

  /** No text loss, exactly. Where an undisturbed put or delete ends, every text survives in place, as the base of
      this epoch, or in another file, if and only if it is not exposed: the code measures a text against its base
      without asking for the epoch. Only the row's own path changes at all. */
  lemma OnlyExposedTextIsLost(id: Identity, name: CopyNamer, d: Durable, path: Path)
    requires d.pending.Some? ==> WellNamed(d.pending.value)
    requires path in d.files
    ensures Survives(d, Final(id, name, d), path) <==> !Exposed(id, d, path)
    ensures d.pending.None? || path != d.pending.value.change.path ==>
      Lookup(Final(id, name, d).files, path) == Some(d.files[path])
  {
    hide Preserved, Finished;
    if d.pending.Some? {
      var pending := d.pending.value;
      match pending.step {
        case Named => PreservingLosesOnlyExposed(id, d, pending, path);
        case Copied => FinishingLosesOnlyExposed(id, d, pending, path);
        case Prepared => PreparedLosesOnlyExposed(id, name, d, path);
      }
    }
  }

  /** A path the current epoch has confirmed loses nothing, whatever is pending. */
  lemma NothingIsLost(id: Identity, name: CopyNamer, d: Durable, path: Path)
    requires d.pending.Some? ==> WellNamed(d.pending.value)
    requires path in d.files && path !in d.stale
    ensures Survives(d, Final(id, name, d), path)
  {
    OnlyExposedTextIsLost(id, name, d, path);
    hide Final, Survives;
  }

  /** A counterexample: text confirmed before the epoch changed is overwritten by the new epoch's first put, and
      stands nowhere afterwards. */
  lemma NewEpochLosesOldText(id: Identity, name: CopyNamer) returns (commands: seq<Command>, s: State, d: Durable)
    ensures RunAll(id, FreshState(), commands) == Success(s) && d == DurableOf(map["a" := [2]], s)
    ensures Exposed(id, d, "a") && d.pending.Some? && WellNamed(d.pending.value)
    ensures var e := Final(id, name, d);
            e.pending.None? && "a" !in e.stale && forall path | path in e.files :: e.files[path] != [2]
  {
    var hash, change := Sha256([2]), PutChange(4, "a", 2, 1, Sha256([1]));
    var c1, c2, c3, c4 := CResetEpoch(1), CSetBase("a", Live(9, hash)), CResetEpoch(2), CBeginApply(change);
    var s1 := FreshState().(epoch := Some(1));
    var s2 := s1.(base := map["a" := Live(9, hash)]);
    var s3 := s2.(epoch := Some(2), stale := {"a"});
    s := s3.(pendingApply := Some(PendingApply(change, Prepared, [])));
    commands := [c1, c2, c3, c4];
    d := DurableOf(map["a" := [2]], s);
    OldEpochIsStale(id, hash, s1, s2, s3);
    BeginningIs(id, s3, change);
    RunStep(id, s3, [c4], s);
    RunStep(id, s2, [c3, c4], s3);
    RunStep(id, s1, [c2, c3, c4], s2);
    RunStep(id, FreshState(), commands, s1);
    assert s.base["a"] == Live(9, hash) && d.files["a"] == [2];
    assert Final(id, name, d).files == map["a" := [1]];
  }

  lemma BeginningIs(id: Identity, s: State, change: Change)
    requires s.pendingApply.None?
    ensures Next(id, s, CBeginApply(change)) == Success(s.(pendingApply := Some(PendingApply(change, Prepared, []))))
  {
  }

  /** Three steps to a base that only the old epoch confirmed. */
  lemma OldEpochIsStale(id: Identity, hash: Hash, s1: State, s2: State, s3: State)
    requires s1 == FreshState().(epoch := Some(1)) && s2 == s1.(base := map["a" := Live(9, hash)])
    requires s3 == s2.(epoch := Some(2), stale := {"a"})
    ensures Next(id, FreshState(), CResetEpoch(1)) == Success(s1)
    ensures Next(id, s1, CSetBase("a", Live(9, hash))) == Success(s2)
    ensures Next(id, s2, CResetEpoch(2)) == Success(s3)
  {
    var nothing: seq<Operation> := [];
    assert Retained(OLD_EPOCH, nothing) == [];
    assert s1.stale == FreshState().stale + FreshState().base.Keys;
    assert s1.attention == FreshState().attention + Retained(OLD_EPOCH, nothing);
    assert s2.base == s1.base["a" := Live(9, hash)] && s2.stale == s1.stale - {"a"};
    assert s3.stale == s2.stale + s2.base.Keys;
    assert s3.attention == s2.attention + Retained(OLD_EPOCH, nothing);
  }

  /** What confirmation means: the base is the row, a deleted path is gone, and a put stands at its path
      unless it was kept beside a colliding local file. */
  ghost predicate Confirmed(d: Durable, e: Durable, change: Change, beside: bool)
    requires IsPathChange(change)
  {
    && e.base == d.base[change.path := NewBase(change)] && change.path !in e.stale
    && (change.DeleteChange? ==> change.path !in e.files)
    && (change.PutChange? && !beside ==> Lookup(e.files, change.path) == Some(change.hash.content))
  }

  lemma FinishedMeansConfirmed(id: Identity, d: Durable, pending: PendingApply)
    requires WellNamed(pending)
    ensures var e := Finished(id, d, pending);
            e.pending.None? ==> Confirmed(d, e, pending.change, exists copy | copy in pending.copies :: copy.remote)
  {
  }

  lemma PreservedMeansConfirmed(id: Identity, d: Durable, pending: PendingApply)
    requires WellNamed(pending) && pending.step == Named
    ensures var e := Preserved(id, d, pending);
            e.pending.None? ==> Confirmed(d, e, pending.change, exists copy | copy in pending.copies :: copy.remote)
  {
    hide Finished;
    var (files, ok) := Saved(id, d.files, pending.change, pending.copies);
    if ok {
      FinishedMeansConfirmed(id, d.(files := files), pending.(step := Copied));
    }
  }

  /** An apply that is let go is confirmed, or was obsolete and left everything as it was. */
  lemma SettledMeansConfirmed(id: Identity, name: CopyNamer, d: Durable)
    requires d.pending.Some? && WellNamed(d.pending.value)
    ensures var e, pending := Final(id, name, d), d.pending.value;
            var beside := (exists copy | copy in pending.copies :: copy.remote)
                          || (pending.step == Prepared && pending.change.path !in d.files && Collides(id, d.files, pending.change.path));
            e.pending.None? ==>
              || (pending.step == Prepared && Obsolete(d, pending.change) && e == d.(pending := None))
              || Confirmed(d, e, pending.change, beside)
  {
    hide Preserved, Finished;
    var pending := d.pending.value;
    var change := pending.change;
    match pending.step {
      case Named => PreservedMeansConfirmed(id, d, pending);
      case Copied => FinishedMeansConfirmed(id, d, pending);
      case Prepared =>
        if !Obsolete(d, change) && NeedsCopy(id, d, change) {
          PreservedMeansConfirmed(id, d, NamedCopy(name, d, change, change.path !in d.files, CopyHash(d, change)));
        }
    }
  }
}
