/** The journal's transitions, each a next document or a refusal that changes nothing. */
module JournalSteps {
  import opened Bytes
  import opened DeviceState
  import opened OperationQueue

  datatype Refusal =
    | InvalidOperation
    | UnknownOperation
    | NotSent
    | NotQueued
    | PredecessorUnresolved
    | SentPreconditionImmutable
    | IdentityChanged
    | EpochChanged
    | CursorRegress
    | BaseRegress
    | BaseMismatch
    | AnotherApplyPending
    | StepOrder
    | NotObsolete

  type Outcome = Result<State, Refusal>

  /** Local mutation intent; the journal adds identity and payload. */
  datatype Intent = Intent(action: Action, path: Path, precondition: Precondition)

  predicate ValidPrecondition(p: Precondition) {
    p.Match? ==> p.rev > 0
  }

  predicate ValidOperation(op: Operation) {
    ValidPrecondition(op.precondition) && (op.action.Rename? ==> op.path != op.action.to)
  }

  // ---- Enqueue ----

  predicate SameKind(left: Action, right: Action) {
    (left.Put? && right.Put?) || (left.Delete? && right.Delete?) || (left.Rename? && right.Rename?)
  }

  /** Position `i` holds a queued operation the intent may replace: nothing unresolved after it touches its paths. */
  predicate Replaceable(id: Identity, ops: seq<Operation>, i: nat, action: Action, path: Path)
    requires i < |ops|
  {
    && ops[i].state == Queued
    && SameKind(ops[i].action, action)
    && id(ops[i].path) == id(path)
    && forall j | i < j < |ops| :: ops[j].state == Resolved || !Conflict(id, ops[i], ops[j])
  }

  /** The first replaceable position, or the queue length. */
  function ReplaceIndex(id: Identity, ops: seq<Operation>, action: Action, path: Path, from: nat): (r: nat)
    requires from <= |ops|
    ensures from <= r <= |ops|
    ensures r < |ops| ==> Replaceable(id, ops, r, action, path)
    ensures forall j | from <= j < r :: !Replaceable(id, ops, j, action, path)
    decreases |ops| - from
  {
    if from == |ops| || Replaceable(id, ops, from, action, path) then from
    else ReplaceIndex(id, ops, action, path, from + 1)
  }

  function DropAt(at: nat): (nat, Operation) -> Option<Operation> {
    (i: nat, op: Operation) => if i == at then None else Some(op)
  }

  function NewOperation(intent: Intent, hash: Hash, key: Key): Operation {
    Operation(key, intent.action, intent.path, intent.precondition, hash, 0, None, Queued)
  }

  function Enqueue(id: Identity, s: State, intent: Intent, hash: Hash, key: Key): Outcome {
    var op := NewOperation(intent, hash, key);
    if !ValidOperation(op) then Failure(InvalidOperation)
    else
      var at := ReplaceIndex(id, s.pendingOps, intent.action, intent.path, 0);
      Success(s.(pendingOps := Edit(DropAt(at), s.pendingOps) + [op]))
  }

  // ---- Sending ----

  function IndexOf(ops: seq<Operation>, key: Key, from: nat): (r: nat)
    requires from <= |ops|
    ensures from <= r <= |ops|
    ensures r < |ops| ==> ops[r].key == key
    ensures forall j | from <= j < r :: ops[j].key != key
    decreases |ops| - from
  {
    if from == |ops| || ops[from].key == key then from else IndexOf(ops, key, from + 1)
  }

  /** An earlier unresolved operation overlaps the one at `i`. */
  predicate HasPredecessor(id: Identity, ops: seq<Operation>, i: nat)
    requires i < |ops|
  {
    exists j | 0 <= j < i :: ops[j].state != Resolved && Conflict(id, ops[j], ops[i])
  }

  function Rewrite(key: Key, next: Operation): (nat, Operation) -> Option<Operation> {
    (i: nat, op: Operation) => Some(if op.key == key then next else op)
  }

  function AsSent(op: Operation, precondition: Precondition): Operation {
    if op.state == Sent then op else op.(state := Sent, precondition := precondition)
  }

  /** The durable half of a send: the operation becomes immutable before its bytes are released. */
  function MarkSent(id: Identity, s: State, key: Key, precondition: Precondition): Outcome {
    var i := IndexOf(s.pendingOps, key, 0);
    if i == |s.pendingOps| then Failure(UnknownOperation)
    else
      var op := s.pendingOps[i];
      if op.state == Resolved then Failure(NotSent)
      else if HasPredecessor(id, s.pendingOps, i) then Failure(PredecessorUnresolved)
      else if op.state == Sent && op.precondition != precondition then Failure(SentPreconditionImmutable)
      else if !ValidOperation(AsSent(op, precondition)) then Failure(InvalidOperation)
      else if op.state == Sent then Success(s)
      else Success(s.(pendingOps := Edit(Rewrite(key, AsSent(op, precondition)), s.pendingOps)))
  }

  // ---- Settlement ----

  predicate DependsOn(op: Operation, key: Key) {
    op.action == Delete(Some(key))
  }

  function ReceiptPath(op: Operation): Path {
    if op.action.Rename? then op.action.to else op.path
  }

  /** A dependent delete whose create receipt is not the base it now sees. */
  predicate StaleDependent(s: State, op: Operation, receiptPath: Path, successor: Option<Base>) {
    op.path != receiptPath || successor.None? || op.path !in s.base || s.base[op.path] != successor.value
  }

  /** A dependent delete that settlement moves to attention. */
  predicate Blocked(s: State, op: Operation, parent: Operation, receipt: bool, successor: Option<Base>) {
    DependsOn(op, parent.key) && (!receipt || StaleDependent(s, op, ReceiptPath(parent), successor))
  }

  predicate CanRebase(s: State, op: Operation, successor: Base)
    requires s.epoch.Some?
  {
    op.precondition.Absent? || (op.precondition.epoch == s.epoch.value && op.precondition.rev < successor.rev)
  }

  /** The queued successor of a receipt, with its precondition moved to the receipt's revision. */
  function Rebased(s: State, op: Operation, parent: Operation, successor: Base): Operation
    requires s.epoch.Some?
  {
    var moved := if CanRebase(s, op, successor) then op.(precondition := Match(s.epoch.value, successor.rev)) else op;
    if DependsOn(op, parent.key) then moved.(action := Delete(None)) else moved
  }

  /** What settlement makes of the operation at one position. */
  function SettledOne(id: Identity, s: State, index: nat, receipt: bool, successor: Option<Base>, i: nat, op: Operation): Option<Operation>
    requires index < |s.pendingOps|
  {
    var parent := s.pendingOps[index];
    if op.key == parent.key || Blocked(s, op, parent, receipt, successor) then None
    else if !receipt || op.state != Queued || i <= index || !Conflict(id, parent, op) then Some(op)
    else if op.path != ReceiptPath(parent) || successor.None? || s.epoch.None? then Some(op)
    else Some(Rebased(s, op, parent, successor.value))
  }

  function Settled(id: Identity, s: State, index: nat, receipt: bool, successor: Option<Base>)
    : (nat, Operation) -> Option<Operation>
    requires index < |s.pendingOps|
  {
    (i: nat, op: Operation) => SettledOne(id, s, index, receipt, successor, i, op)
  }

  function OnlyBlocked(s: State, parent: Operation, receipt: bool, successor: Option<Base>)
    : (nat, Operation) -> Option<Operation>
  {
    (i: nat, op: Operation) => if Blocked(s, op, parent, receipt, successor) then Some(op) else None
  }

  function Retained(reason: string, ops: seq<Operation>): seq<Attention> {
    seq(|ops|, i requires 0 <= i < |ops| => Attention(ops[i].path, reason, Some(ops[i])))
  }

  /** Attention about none of these operations. */
  function About(key: Key, blocked: seq<Operation>): Attention -> bool {
    (item: Attention) =>
      item.operation.Some? ==>
        item.operation.value.key != key && forall op | op in blocked :: item.operation.value.key != op.key
  }

  const REJECTED := "Rejected operation retained for recovery"
  const BLOCKED_BY_REJECTION := "Delete intent was blocked by its rejected create"
  const RECEIPT_MISMATCH := "Delete intent no longer matches its create receipt"
  const OLD_EPOCH := "Operation belongs to an old vault epoch"

  function SentIndex(ops: seq<Operation>, key: Key, from: nat): (r: nat)
    requires from <= |ops|
    ensures from <= r <= |ops|
    ensures r < |ops| ==> ops[r].key == key && ops[r].state == Sent
    ensures forall j | from <= j < r :: !(ops[j].key == key && ops[j].state == Sent)
    decreases |ops| - from
  {
    if from == |ops| || (ops[from].key == key && ops[from].state == Sent) then from else SentIndex(ops, key, from + 1)
  }

  function Resolve(id: Identity, s: State, key: Key, receipt: bool, successor: Option<Base>): Outcome {
    var i := SentIndex(s.pendingOps, key, 0);
    if i == |s.pendingOps| then Failure(NotSent)
    else
      var parent := s.pendingOps[i];
      Success(s.(
        pendingOps := Edit(Settled(id, s, i, receipt, successor), s.pendingOps),
        attention := SettledAttention(s, parent, receipt, successor)))
  }

  /** Attention after a settlement: the rejected operation and every blocked dependent delete join it. */
  function SettledAttention(s: State, parent: Operation, receipt: bool, successor: Option<Base>): seq<Attention> {
    var blocked := Edit(OnlyBlocked(s, parent, receipt, successor), s.pendingOps);
    Select(About(parent.key, blocked), s.attention)
      + (if receipt then [] else [Attention(parent.path, REJECTED, Some(parent))])
      + Retained(if receipt then RECEIPT_MISMATCH else BLOCKED_BY_REJECTION, blocked)
  }

  function RecordRejected(s: State, op: Operation, reason: string, path: Path): Outcome {
    var i := SentIndex(s.pendingOps, op.key, 0);
    if i == |s.pendingOps| || s.pendingOps[i] != op then Failure(IdentityChanged)
    else
      var blocked := Edit(OnlyBlocked(s, op, false, None), s.pendingOps);
      Success(s.(
        pendingOps := Edit(Unblocked(s, op), s.pendingOps),
        attention := Select(About(op.key, blocked), s.attention)
          + [Attention(path, reason, Some(op))]
          + Retained(BLOCKED_BY_REJECTION, blocked)))
  }

  function Unblocked(s: State, parent: Operation): (nat, Operation) -> Option<Operation> {
    (i: nat, op: Operation) => if op.key == parent.key || Blocked(s, op, parent, false, None) then None else Some(op)
  }

  function DropKey(key: Key): (nat, Operation) -> Option<Operation> {
    (i: nat, op: Operation) => if op.key == key then None else Some(op)
  }

  predicate IsQueued(ops: seq<Operation>, key: Key) {
    exists op | op in ops :: op.key == key && op.state == Queued
  }

  function DiscardQueued(s: State, key: Key): Outcome {
    if !IsQueued(s.pendingOps, key) then Failure(NotQueued)
    else Success(s.(pendingOps := Edit(DropKey(key), s.pendingOps)))
  }

  function RecordQueuedRejected(s: State, op: Operation, reason: string): Outcome {
    if op !in s.pendingOps || op.state != Queued then Failure(IdentityChanged)
    else Success(s.(
      pendingOps := Edit(DropKey(op.key), s.pendingOps),
      attention := Select(About(op.key, []), s.attention) + [Attention(op.path, reason, Some(op))]))
  }

  function Deferred(key: Key, retryAt: nat): (nat, Operation) -> Option<Operation> {
    (i: nat, op: Operation) =>
      Some(if op.key == key then op.(attempts := op.attempts + 1, retryAt := Some(retryAt)) else op)
  }

  function Defer(s: State, key: Key, retryAt: nat): Outcome {
    if SentIndex(s.pendingOps, key, 0) == |s.pendingOps| then Failure(NotSent)
    else Success(s.(pendingOps := Edit(Deferred(key, retryAt), s.pendingOps)))
  }

  // ---- Epoch, base, and cursor ----

  /** Changes epoch and moves every old conditional operation to attention. */
  function ResetEpoch(s: State, epoch: Epoch): Outcome {
    if s.epoch == Some(epoch) then Success(s)
    else Success(s.(
      epoch := Some(epoch), cursor := None, pendingApply := None, expectedWrites := map[],
      pendingOps := [],
      stale := s.stale + s.base.Keys,
      attention := s.attention + Retained(OLD_EPOCH, s.pendingOps)))
  }

  predicate ValidBase(base: Base) {
    base.rev > 0
  }

  function SetBase(s: State, path: Path, base: Base): Outcome {
    if !ValidBase(base) then Failure(BaseMismatch)
    else if path in s.base && base.rev < s.base[path].rev && path !in s.stale then Failure(BaseRegress)
    else Success(s.(base := s.base[path := base], stale := s.stale - {path}))
  }

  function SetCursor(s: State, epoch: Epoch, cursor: nat): Outcome {
    if s.epoch != Some(epoch) then Failure(EpochChanged)
    else if s.cursor.Some? && cursor < s.cursor.value then Failure(CursorRegress)
    else Success(s.(cursor := Some(cursor)))
  }

  // ---- One pending remote apply ----

  function BeginApply(s: State, change: Change): Outcome {
    if s.pendingApply.Some? && s.pendingApply.value.change.sequence != change.sequence then Failure(AnotherApplyPending)
    else if s.pendingApply.Some? then
      if s.pendingApply.value.change != change then Failure(IdentityChanged) else Success(s)
    else Success(s.(pendingApply := Some(PendingApply(change, Prepared, []))))
  }

  predicate ValidApply(pending: PendingApply) {
    (pending.step != Prepared) == (pending.copies != [])
  }

  predicate SamePathAndKind(before: Change, next: Change) {
    && before.path == next.path
    && (before.PutChange? ==> next.PutChange? || next.DeleteChange?)
    && (before.DeleteChange? ==> next.DeleteChange?)
    && (before.RenameChange? ==> next.RenameChange?)
  }

  function RebaseApply(s: State, change: Change, copies: Option<seq<ConflictCopy>>): Outcome {
    if s.pendingApply.None? || s.pendingApply.value.change.sequence != change.sequence then Failure(IdentityChanged)
    else
      var current := s.pendingApply.value;
      if !SamePathAndKind(current.change, change) then Failure(IdentityChanged)
      else if current.change.epoch != change.epoch then Failure(EpochChanged)
      else
        var next := if copies.None? then current.(change := change)
                    else if copies.value == [] then PendingApply(change, Prepared, [])
                    else PendingApply(change, Named, copies.value);
        Success(s.(pendingApply := Some(next)))
  }

  /** Steps move forward one at a time, and named copies never change identity. */
  function UpdateApply(s: State, next: PendingApply): Outcome {
    if !ValidApply(next) || s.pendingApply.None? || s.pendingApply.value.change != next.change then Failure(IdentityChanged)
    else
      var current := s.pendingApply.value;
      var allowed := match current.step
        case Prepared => next.step == Prepared || next.step == Named
        case Named => next.step == Named || next.step == Copied
        case Copied => next.step == Copied;
      if !allowed then Failure(StepOrder)
      else if current.copies != [] && next.copies != current.copies then Failure(IdentityChanged)
      else Success(s.(pendingApply := Some(next)))
  }

  predicate MatchesChange(change: Change, base: Base) {
    match change
    case PutChange(_, _, _, rev, hash) => base == Live(rev, hash)
    case DeleteChange(_, _, _, rev) => base == Tombstone(rev)
    case RenameChange(_, _, _, _, _, _, _) => false
  }

  predicate Advances(s: State, path: Path, rev: nat) {
    rev > RevOf(s.base, path) || path in s.stale
  }

  /** Confirms a strictly newer revision and clears the pending apply. */
  function CompleteApply(s: State, path: Path, base: Base): Outcome {
    if s.pendingApply.None? || s.pendingApply.value.change.RenameChange? || s.pendingApply.value.change.path != path
    then Failure(IdentityChanged)
    else if !MatchesChange(s.pendingApply.value.change, base) || !ValidBase(base) then Failure(BaseMismatch)
    else if !Advances(s, path, base.rev) then Failure(BaseRegress)
    else Success(s.(
      base := s.base[path := base], stale := s.stale - {path},
      pendingApply := None, expectedWrites := s.expectedWrites - {path}))
  }

  /** Confirms both rename sides at once; a side already newer is passed as None. */
  function CompleteRename(s: State, from: Path, fromBase: Option<Base>, to: Path, toBase: Option<Base>): Outcome {
    if s.pendingApply.None? || !s.pendingApply.value.change.RenameChange? then Failure(IdentityChanged)
    else
      var change := s.pendingApply.value.change;
      if change.fromPath != from || change.path != to then Failure(IdentityChanged)
      else if fromBase.Some? && (fromBase.value != Tombstone(change.fromRev) || !Advances(s, from, change.fromRev))
      then Failure(BaseMismatch)
      else if toBase.Some? && (toBase.value != Live(change.rev, change.hash) || !Advances(s, to, change.rev))
      then Failure(BaseMismatch)
      else
        var base := if fromBase.Some? then s.base[from := fromBase.value] else s.base;
        Success(s.(
          base := if toBase.Some? then base[to := toBase.value] else base,
          stale := s.stale - {from, to}, pendingApply := None, expectedWrites := s.expectedWrites - {from, to}))
  }

  function IgnoreApply(s: State, path: Path, rev: nat): Outcome {
    if s.pendingApply.None? || s.pendingApply.value.change.path != path then Failure(IdentityChanged)
    else if RevOf(s.base, path) < rev then Failure(NotObsolete)
    else Success(s.(pendingApply := None, expectedWrites := s.expectedWrites - {path}))
  }

  /** Attention of this path that carries no operation is replaced. */
  function Replaces(path: Path): Attention -> bool {
    (item: Attention) => item.path != path || item.operation.Some?
  }

  function SkipApply(s: State, path: Path, sequence: nat, reason: string): Outcome {
    if s.pendingApply.Some? && (s.pendingApply.value.change.path != path || s.pendingApply.value.change.sequence != sequence)
    then Failure(IdentityChanged)
    else Success(s.(
      pendingApply := None, expectedWrites := s.expectedWrites - {path},
      attention := Select(Replaces(path), s.attention) + [Attention(path, reason, None)]))
  }

  // ---- Attention ----

  function RecordAttention(s: State, path: Path, reason: string): Outcome {
    Success(s.(attention := Select(Replaces(path), s.attention) + [Attention(path, reason, None)]))
  }

  function KeyOf(item: Attention): (Path, string, Option<Key>) {
    (item.path, item.reason, if item.operation.Some? then Some(item.operation.value.key) else None)
  }

  function AttentionIndex(items: seq<Attention>, key: (Path, string, Option<Key>), from: nat): (r: nat)
    requires from <= |items|
    ensures from <= r <= |items|
    ensures r < |items| ==> KeyOf(items[r]) == key
    decreases |items| - from
  {
    if from == |items| || KeyOf(items[from]) == key then from else AttentionIndex(items, key, from + 1)
  }

  /** Removes the first item with exactly this identity. */
  function DismissAttention(s: State, key: (Path, string, Option<Key>)): Outcome {
    var i := AttentionIndex(s.attention, key, 0);
    if i == |s.attention| then Success(s)
    else Success(s.(attention := s.attention[..i] + s.attention[i + 1..]))
  }

  predicate IsInformational(item: Attention) {
    || item.reason == "Local binary bytes were preserved as a conflict copy"
    || item.reason == "Local file changed after publication was queued"
    || item.reason == "Local text met newer remote content"
  }

  function Kept(): Attention -> bool {
    (item: Attention) => !IsInformational(item)
  }

  function DismissInformational(s: State): Outcome {
    Success(s.(attention := Select(Kept(), s.attention)))
  }

  // ---- Expected local echoes ----

  function ExpectWrite(s: State, path: Path, hash: Hash): Outcome {
    Success(s.(expectedWrites := s.expectedWrites[path := hash]))
  }

  function ClearExpected(s: State, path: Path): Outcome {
    Success(s.(expectedWrites := s.expectedWrites - {path}))
  }

  // ---- Coexistence decisions ----

  const STALE_SOURCE := "The source base is stale after a vault epoch change."
  const NO_LIVE_SOURCE := "No live source revision was observed."
  const SOURCE_CHANGED := "The observed source revision changed."

  function BaseAt(s: State, path: Path): Option<Base> {
    if path in s.base then Some(s.base[path]) else None
  }

  /** Captures current authority for one observed local delete or rename. */
  function Capture(s: State, key: Key, path: Path, to: Option<Path>): Outcome {
    if to == Some(path) then Failure(InvalidOperation)
    else
      var stale := path in s.stale;
      Success(s.(confirmations := s.confirmations + [Confirmation(
        key, path, to,
        if stale then None else s.epoch,
        if stale then None else BaseAt(s, path),
        if stale then Some(STALE_SOURCE) else None)]))
  }

  /** Saves one decision frozen at event time; a decision already saved is left alone. */
  function SaveConfirmation(s: State, item: Confirmation): Outcome {
    if item.to == Some(item.path) then Failure(InvalidOperation)
    else if exists saved | saved in s.confirmations :: saved.id == item.id then Success(s)
    else Success(s.(confirmations := s.confirmations + [item]))
  }

  function Without(items: seq<Confirmation>, key: Key): (r: seq<Confirmation>) {
    if items == [] then []
    else
      var n := |items| - 1;
      Without(items[..n], key) + if items[n].id == key then [] else [items[n]]
  }

  function Marked(items: seq<Confirmation>, key: Key, reason: string): (r: seq<Confirmation>)
    ensures |r| == |items|
  {
    seq(|items|, i requires 0 <= i < |items| =>
      if items[i].id == key then items[i].(staleReason := Some(reason)) else items[i])
  }

  function ClearConfirmation(s: State, key: Key): Outcome {
    Success(s.(confirmations := Without(s.confirmations, key)))
  }

  function MarkStale(s: State, key: Key, reason: string): Outcome {
    Success(s.(confirmations := Marked(s.confirmations, key, reason)))
  }

  function ConfirmationIndex(items: seq<Confirmation>, key: Key, from: nat): (r: nat)
    requires from <= |items|
    ensures from <= r <= |items|
    ensures r < |items| ==> items[r].id == key
    ensures forall j | from <= j < r :: items[j].id != key
    decreases |items| - from
  {
    if from == |items| || items[from].id == key then from else ConfirmationIndex(items, key, from + 1)
  }

  /** Why a confirmation no longer carries authority, if it does not. */
  function Doubt(s: State, item: Confirmation): Option<string> {
    if item.path in s.stale && item.epoch == s.epoch then Some(STALE_SOURCE)
    else if item.base.None? || item.base.value.Tombstone? || item.epoch.None? then Some(NO_LIVE_SOURCE)
    else if s.epoch != item.epoch || BaseAt(s, item.path) != item.base then Some(SOURCE_CHANGED)
    else None
  }

  function ConfirmedOperation(item: Confirmation, key: Key): Operation
    requires item.base.Some? && item.base.value.Live? && item.epoch.Some?
  {
    Operation(key,
      if item.to.Some? then Rename(item.to.value, Some(item.base.value.hash)) else Delete(None),
      item.path, Match(item.epoch.value, item.base.value.rev), Sha256([]), 0, None, Queued)
  }

  /** Moves a confirmation whose authority is still current into the outgoing queue, or marks it stale. */
  function Confirm(s: State, confirmation: Key, key: Key): Outcome {
    var i := ConfirmationIndex(s.confirmations, confirmation, 0);
    if i == |s.confirmations| || s.confirmations[i].staleReason.Some? then Success(s)
    else
      var item := s.confirmations[i];
      var doubt := Doubt(s, item);
      if doubt.Some? then MarkStale(s, confirmation, doubt.value)
      else if !ValidOperation(ConfirmedOperation(item, key)) then Failure(InvalidOperation)
      else Success(s.(
        pendingOps := s.pendingOps + [ConfirmedOperation(item, key)],
        confirmations := Without(s.confirmations, confirmation)))
  }

  // ---- Every transition ----

  datatype Command =
    | CEnqueue(intent: Intent, hash: Hash, key: Key)
    | CMarkSent(key: Key, precondition: Precondition)
    | CResolve(key: Key, receipt: bool, successor: Option<Base>)
    | CDiscardQueued(key: Key)
    | CRecordQueuedRejected(op: Operation, reason: string)
    | CDefer(key: Key, retryAt: nat)
    | CRecordRejected(op: Operation, reason: string, path: Path)
    | CResetEpoch(epoch: Epoch)
    | CSetBase(path: Path, base: Base)
    | CSetCursor(epoch: Epoch, cursor: nat)
    | CBeginApply(change: Change)
    | CRebaseApply(change: Change, copies: Option<seq<ConflictCopy>>)
    | CUpdateApply(next: PendingApply)
    | CCompleteApply(path: Path, base: Base)
    | CCompleteRename(path: Path, fromBase: Option<Base>, to: Path, toBase: Option<Base>)
    | CIgnoreApply(path: Path, rev: nat)
    | CSkipApply(path: Path, sequence: nat, reason: string)
    | CRecordAttention(path: Path, reason: string)
    | CDismissAttention(item: (Path, string, Option<Key>))
    | CDismissInformational
    | CExpectWrite(path: Path, hash: Hash)
    | CClearExpected(path: Path)
    | CCapture(key: Key, path: Path, target: Option<Path>)
    | CSaveConfirmation(decision: Confirmation)
    | CClearConfirmation(key: Key)
    | CMarkStale(key: Key, reason: string)
    | CConfirm(confirmation: Key, key: Key)

  function Next(id: Identity, s: State, command: Command): Outcome {
    match command
    case CEnqueue(intent, hash, key) => Enqueue(id, s, intent, hash, key)
    case CMarkSent(key, precondition) => MarkSent(id, s, key, precondition)
    case CResolve(key, receipt, successor) => Resolve(id, s, key, receipt, successor)
    case CDiscardQueued(key) => DiscardQueued(s, key)
    case CRecordQueuedRejected(op, reason) => RecordQueuedRejected(s, op, reason)
    case CDefer(key, retryAt) => Defer(s, key, retryAt)
    case CRecordRejected(op, reason, path) => RecordRejected(s, op, reason, path)
    case CResetEpoch(epoch) => ResetEpoch(s, epoch)
    case CSetBase(path, base) => SetBase(s, path, base)
    case CSetCursor(epoch, cursor) => SetCursor(s, epoch, cursor)
    case CBeginApply(change) => BeginApply(s, change)
    case CRebaseApply(change, copies) => RebaseApply(s, change, copies)
    case CUpdateApply(next) => UpdateApply(s, next)
    case CCompleteApply(path, base) => CompleteApply(s, path, base)
    case CCompleteRename(path, fromBase, to, toBase) => CompleteRename(s, path, fromBase, to, toBase)
    case CIgnoreApply(path, rev) => IgnoreApply(s, path, rev)
    case CSkipApply(path, sequence, reason) => SkipApply(s, path, sequence, reason)
    case CRecordAttention(path, reason) => RecordAttention(s, path, reason)
    case CDismissAttention(item) => DismissAttention(s, item)
    case CDismissInformational => DismissInformational(s)
    case CExpectWrite(path, hash) => ExpectWrite(s, path, hash)
    case CClearExpected(path) => ClearExpected(s, path)
    case CCapture(key, path, target) => Capture(s, key, path, target)
    case CSaveConfirmation(item) => SaveConfirmation(s, item)
    case CClearConfirmation(key) => ClearConfirmation(s, key)
    case CMarkStale(key, reason) => MarkStale(s, key, reason)
    case CConfirm(confirmation, key) => Confirm(s, confirmation, key)
  }

  /** Journal transitions applied one after the other. */
  function RunAll(id: Identity, s: State, commands: seq<Command>): Outcome
    decreases |commands|
  {
    if commands == [] then Success(s)
    else
      var next := Next(id, s, commands[0]);
      if next.Failure? then next else RunAll(id, next.value, commands[1..])
  }

  lemma RunStep(id: Identity, s: State, commands: seq<Command>, next: State)
    requires commands != [] && Next(id, s, commands[0]) == Success(next)
    ensures RunAll(id, s, commands) == RunAll(id, next, commands[1..])
    ensures commands[1..] == [] ==> RunAll(id, s, commands) == Success(next)
  {
    hide Next;
  }
}
