/** What every transition keeps about the queue: per-path order, immutable sent requests, forward rebasing. */
module JournalOrder {
  import opened Bytes
  import opened DeviceState
  import opened OperationQueue
  import opened JournalSteps
  import opened JournalCustody

  // ---- Dependents stay behind their parents ----

  /** An edit that keeps each surviving dependent's parent in place. */
  ghost predicate KeepsParents(id: Identity, f: (nat, Operation) -> Option<Operation>, ops: seq<Operation>) {
    forall j | 0 <= j < |ops| && f(j, ops[j]).Some? && IsDependent(f(j, ops[j]).value) ::
      KeepsParentAt(id, f, ops, j)
  }

  ghost predicate KeepsParentAt(id: Identity, f: (nat, Operation) -> Option<Operation>, ops: seq<Operation>, j: nat)
    requires j < |ops| && f(j, ops[j]).Some? && IsDependent(f(j, ops[j]).value)
  {
    var key := f(j, ops[j]).value.action.dependsOn.value;
    && ops[j].action == f(j, ops[j]).value.action
    && forall i | 0 <= i < j && IsParent(id, ops[i], ops[j], key) ::
         f(i, ops[i]).Some? && IsParent(id, f(i, ops[i]).value, f(j, ops[j]).value, key)
  }

  lemma AnchoredFront(id: Identity, ops: seq<Operation>)
    requires ops != [] && Anchored(id, ops)
    ensures Anchored(id, ops[..|ops| - 1])
  {
    var front := ops[..|ops| - 1];
    forall j | 0 <= j < |front| && IsDependent(front[j])
      ensures HasParent(id, front, j)
    {
      assert HasParent(id, ops, j);
      var i :| 0 <= i < j && IsParent(id, ops[i], ops[j], ops[j].action.dependsOn.value);
      assert IsParent(id, front[i], front[j], front[j].action.dependsOn.value);
    }
  }

  lemma KeepsParentsFront(id: Identity, f: (nat, Operation) -> Option<Operation>, ops: seq<Operation>)
    requires ops != [] && KeepsParents(id, f, ops)
    ensures KeepsParents(id, f, ops[..|ops| - 1])
  {
    var front := ops[..|ops| - 1];
    forall j | 0 <= j < |front| && f(j, front[j]).Some? && IsDependent(f(j, front[j]).value)
      ensures KeepsParentAt(id, f, front, j)
    {
      assert KeepsParentAt(id, f, ops, j);
    }
  }

  lemma {:induction false} EditKeepsAnchors(id: Identity, f: (nat, Operation) -> Option<Operation>, ops: seq<Operation>)
    requires Anchored(id, ops) && KeepsParents(id, f, ops)
    ensures Anchored(id, Edit(f, ops))
  {
    if ops != [] {
      var n := |ops| - 1;
      AnchoredFront(id, ops);
      KeepsParentsFront(id, f, ops);
      EditKeepsAnchors(id, f, ops[..n]);
      var front, last := Edit(f, ops[..n]), Listed(f(n, ops[n]));
      if last != [] && IsDependent(last[0]) {
        assert KeepsParentAt(id, f, ops, n) && HasParent(id, ops, n);
        var i :| 0 <= i < n && IsParent(id, ops[i], ops[n], ops[n].action.dependsOn.value);
        assert ops[..n][i] == ops[i];
        EditKeeps(f, ops[..n], i);
      }
      AnchoredAppend(id, front, last);
    }
  }

  lemma AnchoredAppend(id: Identity, front: seq<Operation>, last: seq<Operation>)
    requires Anchored(id, front) && |last| <= 1
    requires last != [] && IsDependent(last[0]) ==>
               exists p | p in front :: IsParent(id, p, last[0], last[0].action.dependsOn.value)
    ensures Anchored(id, front + last)
  {
    var all := front + last;
    forall j | 0 <= j < |all| && IsDependent(all[j])
      ensures HasParent(id, all, j)
    {
      if j < |front| {
        assert HasParent(id, front, j);
        var i :| 0 <= i < j && IsParent(id, front[i], front[j], front[j].action.dependsOn.value);
        assert IsParent(id, all[i], all[j], all[j].action.dependsOn.value);
      } else {
        var p :| p in front && IsParent(id, p, last[0], last[0].action.dependsOn.value);
        var i :| 0 <= i < |front| && front[i] == p;
        assert IsParent(id, all[i], all[j], all[j].action.dependsOn.value);
      }
    }
  }

  // ---- The queue invariant, transition by transition ----

  ghost predicate QueueInv(id: Identity, ops: seq<Operation>) {
    Ordered(id, ops) && Anchored(id, ops)
  }

  lemma EditKeepsQueue(id: Identity, f: (nat, Operation) -> Option<Operation>, ops: seq<Operation>)
    requires QueueInv(id, ops) && Tame(id, f, ops) && KeepsParents(id, f, ops)
    ensures QueueInv(id, Edit(f, ops))
  {
    EditKeepsOrder(id, f, ops);
    EditKeepsAnchors(id, f, ops);
  }

  lemma EnqueueKeepsQueue(id: Identity, s: State, intent: Intent, hash: Hash, key: Key)
    requires Inv(id, s) && Admissible(id, s, CEnqueue(intent, hash, key)) && Enqueue(id, s, intent, hash, key).Success?
    ensures QueueInv(id, Enqueue(id, s, intent, hash, key).value.pendingOps)
  {
    var ops, op := s.pendingOps, NewOperation(intent, hash, key);
    var at := ReplaceIndex(id, ops, intent.action, intent.path, 0);
    var f := DropAt(at);
    assert Tame(id, f, ops);
    forall j | 0 <= j < |ops| && f(j, ops[j]).Some? && IsDependent(f(j, ops[j]).value)
      ensures KeepsParentAt(id, f, ops, j)
    {
    }
    EditKeepsQueue(id, f, ops);
    AppendKeepsOrder(id, Edit(f, ops), op);
    if IsDependent(op) {
      var p :| p in ops && IsParent(id, p, op, intent.action.dependsOn.value);
      var i :| 0 <= i < |ops| && ops[i] == p;
      assert f(i, ops[i]) == Some(p);
      EditKeeps(f, ops, i);
    }
    AnchoredAppend(id, Edit(f, ops), [op]);
  }

  lemma MarkSentKeepsQueue(id: Identity, s: State, key: Key, precondition: Precondition)
    requires Inv(id, s) && MarkSent(id, s, key, precondition).Success?
    ensures QueueInv(id, MarkSent(id, s, key, precondition).value.pendingOps)
  {
    var ops := s.pendingOps;
    var i := IndexOf(ops, key, 0);
    if ops[i].state == Queued {
      var f := Rewrite(key, AsSent(ops[i], precondition));
      forall j | 0 <= j < |ops|
        ensures f(j, ops[j]) == Some(if j == i then AsSent(ops[i], precondition) else ops[j])
      {
        if ops[j].key == key {
          QueueKeysAreUnique(s, i, j);
        }
      }
      forall j | 0 <= j < |ops| && f(j, ops[j]).Some?
        ensures TameAt(id, f(j, ops[j]).value, ops, j)
      {
      }
      forall j | 0 <= j < |ops| && f(j, ops[j]).Some? && IsDependent(f(j, ops[j]).value)
        ensures KeepsParentAt(id, f, ops, j)
      {
      }
      EditKeepsQueue(id, f, ops);
    }
  }

  lemma DeferKeepsQueue(id: Identity, s: State, key: Key, retryAt: nat)
    requires Inv(id, s)
    ensures QueueInv(id, Edit(Deferred(key, retryAt), s.pendingOps))
  {
    var f, ops := Deferred(key, retryAt), s.pendingOps;
    forall j | 0 <= j < |ops|
      ensures TameAt(id, f(j, ops[j]).value, ops, j)
    {
    }
    forall j | 0 <= j < |ops| && f(j, ops[j]).Some? && IsDependent(f(j, ops[j]).value)
      ensures KeepsParentAt(id, f, ops, j)
    {
    }
    EditKeepsQueue(id, f, ops);
  }

  lemma DropQueuedKeepsQueue(id: Identity, s: State, key: Key)
    requires Inv(id, s) && IsQueued(s.pendingOps, key)
    ensures QueueInv(id, Edit(DropKey(key), s.pendingOps))
  {
    var f, ops := DropKey(key), s.pendingOps;
    var op :| op in ops && op.key == key && op.state == Queued;
    var i :| 0 <= i < |ops| && ops[i] == op;
    assert Tame(id, f, ops);
    forall j | 0 <= j < |ops| && f(j, ops[j]).Some? && IsDependent(f(j, ops[j]).value)
      ensures KeepsParentAt(id, f, ops, j)
    {
      forall k | 0 <= k < j && IsParent(id, ops[k], ops[j], ops[j].action.dependsOn.value)
        ensures f(k, ops[k]) == Some(ops[k])
      {
        if ops[k].key == key {
          QueueKeysAreUnique(s, i, k);
        }
      }
    }
    EditKeepsQueue(id, f, ops);
  }

  /** What settlement makes of each position: gone, untouched, or rebased in the queue. */
  lemma SettledShape(id: Identity, s: State, index: nat, receipt: bool, successor: Option<Base>, j: nat)
    requires index < |s.pendingOps| && j < |s.pendingOps|
    ensures var kept, op := Settled(id, s, index, receipt, successor)(j, s.pendingOps[j]), s.pendingOps[j];
            kept.Some? ==>
              && kept.value.key == op.key && kept.value.path == op.path && kept.value.state == op.state
              && kept.value.payloadHash == op.payloadHash
              && (kept.value.action == op.action || (DependsOn(op, s.pendingOps[index].key) && kept.value.action == Delete(None)))
              && Touches(id, kept.value) == Touches(id, op)
              && op.key != s.pendingOps[index].key
  {
    var parent, op := s.pendingOps[index], s.pendingOps[j];
    if s.epoch.Some? && successor.Some? {
      RebasedShape(id, s, op, parent, successor.value);
    }
  }

  /** With an epoch set, settlement leaves nothing that depends on the settled key. */
  lemma NoDependentSurvives(id: Identity, s: State, index: nat, receipt: bool, successor: Option<Base>, j: nat)
    requires Inv(id, s) && index < |s.pendingOps| && j < |s.pendingOps| && (receipt ==> s.epoch.Some?)
    ensures var kept := Settled(id, s, index, receipt, successor)(j, s.pendingOps[j]);
            kept.Some? ==> !DependsOn(kept.value, s.pendingOps[index].key)
  {
    var parent, op := s.pendingOps[index], s.pendingOps[j];
    SettledShape(id, s, index, receipt, successor, j);
    if DependsOn(op, parent.key) {
      NotItsOwnParent(id, s, index, j);
      if op.key != parent.key && !Blocked(s, op, parent, receipt, successor) {
        assert receipt && op.path == ReceiptPath(parent) && successor.Some?;
        RebasedShape(id, s, op, parent, successor.value);
        assert SettledOne(id, s, index, receipt, successor, j, op) == Some(Rebased(s, op, parent, successor.value));
      }
    }
  }

  lemma SettledKeepsQueue(id: Identity, s: State, index: nat, receipt: bool, successor: Option<Base>)
    requires Inv(id, s) && index < |s.pendingOps| && (receipt ==> s.epoch.Some?)
    ensures QueueInv(id, Edit(Settled(id, s, index, receipt, successor), s.pendingOps))
  {
    var f, ops := Settled(id, s, index, receipt, successor), s.pendingOps;
    forall j | 0 <= j < |ops| && f(j, ops[j]).Some?
      ensures TameAt(id, f(j, ops[j]).value, ops, j)
    {
      SettledShape(id, s, index, receipt, successor, j);
    }
    forall j | 0 <= j < |ops| && f(j, ops[j]).Some? && IsDependent(f(j, ops[j]).value)
      ensures KeepsParentAt(id, f, ops, j)
    {
      SettledParents(id, s, index, receipt, successor, j);
    }
    EditKeepsQueue(id, f, ops);
  }

  lemma SettledParents(id: Identity, s: State, index: nat, receipt: bool, successor: Option<Base>, j: nat)
    requires Inv(id, s) && index < |s.pendingOps| && j < |s.pendingOps| && (receipt ==> s.epoch.Some?)
    requires var f := Settled(id, s, index, receipt, successor);
             f(j, s.pendingOps[j]).Some? && IsDependent(f(j, s.pendingOps[j]).value)
    ensures KeepsParentAt(id, Settled(id, s, index, receipt, successor), s.pendingOps, j)
  {
    var f, ops := Settled(id, s, index, receipt, successor), s.pendingOps;
    var key := f(j, ops[j]).value.action.dependsOn.value;
    SettledShape(id, s, index, receipt, successor, j);
    NoDependentSurvives(id, s, index, receipt, successor, j);
    assert key != ops[index].key;
    forall i | 0 <= i < j && IsParent(id, ops[i], ops[j], key)
      ensures f(i, ops[i]) == Some(ops[i])
    {
      assert ops[i].key != ops[index].key && ops[i].state == Sent && !DependsOn(ops[i], ops[index].key);
      assert SettledOne(id, s, index, receipt, successor, i, ops[i]) == Some(ops[i]);
    }
  }

  lemma RejectedKeepsQueue(id: Identity, s: State, index: nat)
    requires Inv(id, s) && index < |s.pendingOps|
    ensures QueueInv(id, Edit(Unblocked(s, s.pendingOps[index]), s.pendingOps))
  {
    SettledKeepsQueue(id, s, index, false, None);
    SameEdits(Unblocked(s, s.pendingOps[index]), Settled(id, s, index, false, None), s.pendingOps);
  }

  lemma ConfirmKeepsQueue(id: Identity, s: State, confirmation: Key, key: Key)
    requires Inv(id, s) && Confirm(s, confirmation, key).Success?
    ensures QueueInv(id, Confirm(s, confirmation, key).value.pendingOps)
  {
    var next := Confirm(s, confirmation, key).value;
    if next.pendingOps != s.pendingOps {
      var op := next.pendingOps[|next.pendingOps| - 1];
      assert next.pendingOps == s.pendingOps + [op];
      AppendKeepsOrder(id, s.pendingOps, op);
      AnchoredAppend(id, s.pendingOps, [op]);
    }
  }

  lemma TransitionKeepsQueue(id: Identity, s: State, command: Command)
    requires Inv(id, s) && Admissible(id, s, command) && Next(id, s, command).Success?
    ensures QueueInv(id, Next(id, s, command).value.pendingOps)
  {
    hide Enqueue, MarkSent, Confirm, Settled, Unblocked, Edit, Inv, QueueInv, Touches;
    match command {
      case CEnqueue(intent, hash, key) => EnqueueKeepsQueue(id, s, intent, hash, key);
      case CMarkSent(key, precondition) => MarkSentKeepsQueue(id, s, key, precondition);
      case CResolve(key, receipt, successor) =>
        SettledKeepsQueue(id, s, SentIndex(s.pendingOps, key, 0), receipt, successor);
      case CConfirm(confirmation, key) => ConfirmKeepsQueue(id, s, confirmation, key);
      case CResetEpoch(epoch) => ResetKeepsQueue(id, s, epoch);
      case _ =>
        if Shortens(command) {
          ShorteningKeepsQueue(id, s, command);
        } else {
          OtherKeepsQueue(id, s, command);
        }
    }
  }

  /** Transitions that only drop operations, or only touch retry bookkeeping. */
  predicate Shortens(command: Command) {
    command.CDiscardQueued? || command.CRecordQueuedRejected? || command.CRecordRejected? || command.CDefer?
  }

  lemma ShorteningKeepsQueue(id: Identity, s: State, command: Command)
    requires Shortens(command) && Inv(id, s) && Next(id, s, command).Success?
    ensures QueueInv(id, Next(id, s, command).value.pendingOps)
  {
    hide Unblocked, Edit, Inv, QueueInv, Touches;
    match command {
      case CDefer(key, retryAt) => DeferKeepsQueue(id, s, key, retryAt);
      case CDiscardQueued(key) => DropQueuedKeepsQueue(id, s, key);
      case CRecordQueuedRejected(op, _) => DropQueuedKeepsQueue(id, s, op.key);
      case CRecordRejected(op, _, _) => RejectedKeepsQueue(id, s, SentIndex(s.pendingOps, op.key, 0));
    }
  }

  lemma ResetKeepsQueue(id: Identity, s: State, epoch: Epoch)
    requires Inv(id, s)
    ensures QueueInv(id, ResetEpoch(s, epoch).value.pendingOps)
  {
  }

  /** Transitions that never touch the queue. */
  predicate LeavesQueue(command: Command) {
    Elsewhere(command) || command.CSkipApply? || command.CRecordAttention? || command.CDismissAttention? || command.CDismissInformational?
  }

  lemma OtherKeepsQueue(id: Identity, s: State, command: Command)
    requires LeavesQueue(command) && Inv(id, s) && Next(id, s, command).Success?
    ensures Next(id, s, command).value.pendingOps == s.pendingOps
    ensures QueueInv(id, s.pendingOps)
  {
  }

  /** The invariant holds after every transition: custody is exclusive and the queue stays ordered per path. */
  lemma KeepsInvariant(id: Identity, s: State, command: Command)
    requires Inv(id, s) && Admissible(id, s, command) && Next(id, s, command).Success?
    ensures Inv(id, Next(id, s, command).value)
  {
    TransitionKeepsQueue(id, s, command);
    Custody(id, s, command);
    IssuedAreFresh(id, s, command);
    hide Next, Held, Issued, Discharged, Admissible, Ordered, Anchored;
    AtMostOnce(Held(Next(id, s, command).value), Discharged(id, s, command), Held(s), Issued(s, command));
  }

  lemma AtMostOnce<T(!new)>(a: multiset<T>, b: multiset<T>, c: multiset<T>, d: multiset<T>)
    requires a + b == c + d
    requires forall key :: c[key] <= 1
    requires forall key :: d[key] <= 1 && (d[key] == 1 ==> c[key] == 0)
    ensures forall key :: a[key] <= 1
  {
    forall key
      ensures a[key] <= 1
    {
      assert (a + b)[key] == (c + d)[key];
    }
  }

  lemma IssuedAreFresh(id: Identity, s: State, command: Command)
    requires Admissible(id, s, command)
    ensures forall key: Key :: Issued(s, command)[key] <= 1 && (Issued(s, command)[key] == 1 ==> Held(s)[key] == 0)
  {
  }

  // ---- Sent requests ----

  /** The same request: everything a retry sends again. */
  predicate SameRequest(op: Operation, next: Operation) {
    && next.key == op.key && next.action == op.action && next.path == op.path
    && next.precondition == op.precondition && next.payloadHash == op.payloadHash && next.state == op.state
  }

  ghost predicate KeepsSent(f: (nat, Operation) -> Option<Operation>, ops: seq<Operation>) {
    forall i | 0 <= i < |ops| && f(i, ops[i]).Some? ::
      f(i, ops[i]).value.key == ops[i].key && (ops[i].state == Sent ==> SameRequest(ops[i], f(i, ops[i]).value))
  }

  lemma EditKeepsSent(s: State, f: (nat, Operation) -> Option<Operation>, i: nat, next: Operation)
    requires Exclusive(s) && KeepsSent(f, s.pendingOps)
    requires i < |s.pendingOps| && s.pendingOps[i].state == Sent
    requires next in Edit(f, s.pendingOps) && next.key == s.pendingOps[i].key
    ensures SameRequest(s.pendingOps[i], next)
  {
    hide Exclusive;
    var ops := s.pendingOps;
    var j :| 0 <= j < |Edit(f, ops)| && Edit(f, ops)[j] == next;
    EditOrigin(f, ops, j);
    var k :| 0 <= k < |ops| && f(k, ops[k]) == Some(next);
    QueueKeysAreUnique(s, i, k);
  }

  lemma SettledKeepsSent(id: Identity, s: State, index: nat, receipt: bool, successor: Option<Base>)
    requires index < |s.pendingOps|
    ensures KeepsSent(Settled(id, s, index, receipt, successor), s.pendingOps)
  {
    forall i | 0 <= i < |s.pendingOps| && Settled(id, s, index, receipt, successor)(i, s.pendingOps[i]).Some?
      ensures var kept := Settled(id, s, index, receipt, successor)(i, s.pendingOps[i]).value;
              kept.key == s.pendingOps[i].key && (s.pendingOps[i].state == Sent ==> SameRequest(s.pendingOps[i], kept))
    {
      SettledShape(id, s, index, receipt, successor, i);
    }
  }

  lemma FreshKeyIsNotPending(s: State, i: nat, key: Key)
    requires i < |s.pendingOps| && key !in Held(s)
    ensures s.pendingOps[i].key != key
  {
    KeyIsHeld(s.pendingOps, i);
  }

  lemma EnqueueKeepsSent(id: Identity, s: State, intent: Intent, hash: Hash, key: Key, i: nat, next: Operation)
    requires Exclusive(s) && key !in Held(s) && Enqueue(id, s, intent, hash, key).Success?
    requires i < |s.pendingOps| && s.pendingOps[i].state == Sent
    requires next in Enqueue(id, s, intent, hash, key).value.pendingOps && next.key == s.pendingOps[i].key
    ensures SameRequest(s.pendingOps[i], next)
  {
    hide Edit, Held, Exclusive;
    FreshKeyIsNotPending(s, i, key);
    EditKeepsSent(s, DropAt(ReplaceIndex(id, s.pendingOps, intent.action, intent.path, 0)), i, next);
  }

  lemma MarkSentKeepsSent(id: Identity, s: State, key: Key, precondition: Precondition, i: nat, next: Operation)
    requires Exclusive(s) && MarkSent(id, s, key, precondition).Success?
    requires i < |s.pendingOps| && s.pendingOps[i].state == Sent
    requires next in MarkSent(id, s, key, precondition).value.pendingOps && next.key == s.pendingOps[i].key
    ensures SameRequest(s.pendingOps[i], next)
  {
    hide Edit, Held, Exclusive;
    var at := IndexOf(s.pendingOps, key, 0);
    if s.pendingOps[at].state == Queued {
      var f := Rewrite(key, AsSent(s.pendingOps[at], precondition));
      forall j | 0 <= j < |s.pendingOps| && f(j, s.pendingOps[j]).Some?
        ensures f(j, s.pendingOps[j]).value.key == s.pendingOps[j].key
        ensures s.pendingOps[j].state == Sent ==> SameRequest(s.pendingOps[j], f(j, s.pendingOps[j]).value)
      {
        if s.pendingOps[j].key == key {
          QueueKeysAreUnique(s, at, j);
        }
      }
      EditKeepsSent(s, f, i, next);
    } else {
      var j :| 0 <= j < |s.pendingOps| && s.pendingOps[j] == next;
      QueueKeysAreUnique(s, i, j);
    }
  }

  lemma ResolveKeepsSent(id: Identity, s: State, key: Key, receipt: bool, successor: Option<Base>, i: nat, next: Operation)
    requires Exclusive(s) && Resolve(id, s, key, receipt, successor).Success?
    requires i < |s.pendingOps| && s.pendingOps[i].state == Sent
    requires next in Resolve(id, s, key, receipt, successor).value.pendingOps && next.key == s.pendingOps[i].key
    ensures SameRequest(s.pendingOps[i], next)
  {
    hide Edit, Held, Exclusive, Settled, SettledAttention, KeepsSent;
    var at := SentIndex(s.pendingOps, key, 0);
    SettledKeepsSent(id, s, at, receipt, successor);
    EditKeepsSent(s, Settled(id, s, at, receipt, successor), i, next);
  }

  /** No transition changes a sent request: while it stays in the queue it keeps its operation, paths,
      precondition and payload. */
  lemma SentIsImmutable(id: Identity, s: State, command: Command, i: nat, next: Operation)
    requires Inv(id, s) && Admissible(id, s, command) && Next(id, s, command).Success?
    requires i < |s.pendingOps| && s.pendingOps[i].state == Sent
    requires next in Next(id, s, command).value.pendingOps && next.key == s.pendingOps[i].key
    ensures SameRequest(s.pendingOps[i], next)
  {
    hide Edit, Held, Exclusive, Ordered, Anchored, Enqueue, MarkSent, Resolve, Settled, Touches;
    match command {
      case CEnqueue(intent, hash, key) => EnqueueKeepsSent(id, s, intent, hash, key, i, next);
      case CMarkSent(key, precondition) => MarkSentKeepsSent(id, s, key, precondition, i, next);
      case CResolve(key, receipt, successor) => ResolveKeepsSent(id, s, key, receipt, successor, i, next);
      case _ =>
        hide Next;
        if Shortens(command) {
          ShorteningKeepsSent(id, s, command, i, next);
        } else {
          ShortKeepsSent(id, s, command, i, next);
        }
    }
  }

  lemma ShorteningKeepsSent(id: Identity, s: State, command: Command, i: nat, next: Operation)
    requires Shortens(command) && Exclusive(s) && Next(id, s, command).Success?
    requires i < |s.pendingOps| && s.pendingOps[i].state == Sent
    requires next in Next(id, s, command).value.pendingOps && next.key == s.pendingOps[i].key
    ensures SameRequest(s.pendingOps[i], next)
  {
    hide Edit, Exclusive;
    match command {
      case CDefer(key, retryAt) => EditKeepsSent(s, Deferred(key, retryAt), i, next);
      case CDiscardQueued(key) => EditKeepsSent(s, DropKey(key), i, next);
      case CRecordQueuedRejected(op, _) => EditKeepsSent(s, DropKey(op.key), i, next);
      case CRecordRejected(op, _, _) => EditKeepsSent(s, Unblocked(s, op), i, next);
    }
  }

  /** The transitions that never edit an operation: the queue stays, is emptied, or gains one fresh key. */
  lemma ShortQueue(id: Identity, s: State, command: Command)
    requires LeavesQueue(command) || command.CConfirm? || command.CResetEpoch?
    requires Next(id, s, command).Success?
    ensures var after := Next(id, s, command).value.pendingOps;
            || after == s.pendingOps
            || after == []
            || (command.CConfirm? && |after| == |s.pendingOps| + 1 && after[..|s.pendingOps|] == s.pendingOps
                && after[|s.pendingOps|].key == command.key && command.key in Issued(s, command))
  {
    if LeavesQueue(command) {
      LeftAlone(id, s, command);
    }
  }

  lemma LeftAlone(id: Identity, s: State, command: Command)
    requires LeavesQueue(command) && Next(id, s, command).Success?
    ensures Next(id, s, command).value.pendingOps == s.pendingOps
  {
  }

  lemma ShortKeepsSent(id: Identity, s: State, command: Command, i: nat, next: Operation)
    requires Exclusive(s) && Admissible(id, s, command) && Next(id, s, command).Success?
    requires LeavesQueue(command) || command.CConfirm? || command.CResetEpoch?
    requires i < |s.pendingOps| && next in Next(id, s, command).value.pendingOps && next.key == s.pendingOps[i].key
    ensures next == s.pendingOps[i]
  {
    ShortQueue(id, s, command);
    hide Held, Exclusive, Next, Issued;
    if command.CConfirm? {
      FreshKeyIsNotPending(s, i, command.key);
    }
    var j :| 0 <= j < |Next(id, s, command).value.pendingOps| && Next(id, s, command).value.pendingOps[j] == next;
    assert j < |s.pendingOps| && s.pendingOps[j] == next;
    QueueKeysAreUnique(s, i, j);
  }

  /** Per-path order: of two unresolved operations that overlap, only the earlier one can have been sent. */
  lemma OnlyTheEarlierIsSent(id: Identity, s: State, i: nat, j: nat)
    requires Inv(id, s) && i < j < |s.pendingOps|
    requires s.pendingOps[i].state != Resolved && Conflict(id, s.pendingOps[i], s.pendingOps[j])
    ensures s.pendingOps[j].state == Queued
    ensures forall key, precondition | MarkSent(id, s, key, precondition).Success? :: key != s.pendingOps[j].key
  {
    forall key, precondition | MarkSent(id, s, key, precondition).Success?
      ensures key != s.pendingOps[j].key
    {
      var at := IndexOf(s.pendingOps, key, 0);
      if key == s.pendingOps[j].key {
        QueueKeysAreUnique(s, at, j);
        assert HasPredecessor(id, s.pendingOps, j);
      }
    }
  }

  // ---- Forward rebasing ----

  /** A precondition that stays, or moves forward to a revision of the same epoch. */
  predicate Forward(epoch: Option<Epoch>, before: Precondition, after: Precondition) {
    || after == before
    || (after.Match? && epoch == Some(after.epoch)
        && (before.Absent? || (before.epoch == after.epoch && before.rev < after.rev)))
  }

  /** Forward rebasing. After a receipt or a rejection nothing depends on the settled key; every survivor is
      unchanged, or is a later queued operation on the receipt's path whose precondition moved forward. */
  lemma ForwardRebasing(id: Identity, s: State, key: Key, receipt: bool, successor: Option<Base>, next: Operation)
      returns (i: nat)
    requires Inv(id, s) && Admissible(id, s, CResolve(key, receipt, successor))
    requires Resolve(id, s, key, receipt, successor).Success?
    requires next in Resolve(id, s, key, receipt, successor).value.pendingOps
    ensures next.key != key && !DependsOn(next, key)
    ensures i < |s.pendingOps| && s.pendingOps[i].key == next.key
    ensures Forward(s.epoch, s.pendingOps[i].precondition, next.precondition)
    ensures var index := SentIndex(s.pendingOps, key, 0);
            next == s.pendingOps[i]
            || (receipt && index < i && s.pendingOps[i].state == Queued && next.state == Queued
                && next.path == s.pendingOps[i].path == ReceiptPath(s.pendingOps[index])
                && next.payloadHash == s.pendingOps[i].payloadHash)
  {
    hide Edit, Inv, Settled;
    var index, ops := SentIndex(s.pendingOps, key, 0), s.pendingOps;
    var f := Settled(id, s, index, receipt, successor);
    var j :| 0 <= j < |Edit(f, ops)| && Edit(f, ops)[j] == next;
    EditOrigin(f, ops, j);
    i :| 0 <= i < |ops| && f(i, ops[i]) == Some(next);
    hide Resolve;
    SettledShape(id, s, index, receipt, successor, i);
    SettledForward(id, s, index, receipt, successor, i);
    NoDependentSurvives(id, s, index, receipt, successor, i);
  }

  lemma SettledForward(id: Identity, s: State, index: nat, receipt: bool, successor: Option<Base>, i: nat)
    requires index < |s.pendingOps| && i < |s.pendingOps|
    ensures var kept, op := Settled(id, s, index, receipt, successor)(i, s.pendingOps[i]), s.pendingOps[i];
            kept.Some? ==>
              && Forward(s.epoch, op.precondition, kept.value.precondition)
              && (kept.value == op
                  || (receipt && index < i && op.state == Queued && op.path == ReceiptPath(s.pendingOps[index])))
  {
    if s.epoch.Some? && successor.Some? {
      RebasedForward(s, s.pendingOps[i], s.pendingOps[index], successor.value);
    }
  }

  lemma RebasedForward(s: State, op: Operation, parent: Operation, successor: Base)
    requires s.epoch.Some?
    ensures Forward(s.epoch, op.precondition, Rebased(s, op, parent, successor).precondition)
  {
  }

  /** A rejection moves no precondition and leaves nothing that depends on the rejected key. */
  lemma RejectionRebasesNothing(id: Identity, s: State, op: Operation, reason: string, path: Path, next: Operation)
    requires Inv(id, s) && RecordRejected(s, op, reason, path).Success?
    requires next in RecordRejected(s, op, reason, path).value.pendingOps
    ensures next in s.pendingOps && next.key != op.key && !DependsOn(next, op.key)
  {
    hide Edit, Ordered, Anchored, Exclusive, Held;
    var f := Unblocked(s, op);
    var j :| 0 <= j < |Edit(f, s.pendingOps)| && Edit(f, s.pendingOps)[j] == next;
    EditOrigin(f, s.pendingOps, j);
  }

  // ---- Runs ----

  /** A run of transitions; a refused transition leaves the document as it was. */
  ghost predicate IsRun(id: Identity, states: seq<State>, commands: seq<Command>) {
    && |states| == |commands| + 1
    && forall i | 0 <= i < |commands| :: Follows(id, states[i], commands[i], states[i + 1])
  }

  ghost predicate Follows(id: Identity, s: State, command: Command, next: State) {
    Admissible(id, s, command)
    && next == if Next(id, s, command).Success? then Next(id, s, command).value else s
  }

  lemma {:induction false} RunsKeepInvariant(id: Identity, states: seq<State>, commands: seq<Command>, k: nat)
    requires IsRun(id, states, commands) && states[0] == FreshState() && k < |states|
    ensures Inv(id, states[k])
    decreases k
  {
    if k > 0 {
      hide Next, Inv, Admissible, Follows;
      RunsKeepInvariant(id, states, commands, k - 1);
      assert Follows(id, states[k - 1], commands[k - 1], states[k - 1 + 1]);
      FollowingKeepsInvariant(id, states[k - 1], commands[k - 1], states[k]);
    } else {
      NothingIsHeld(id);
    }
  }

  lemma NothingIsHeld(id: Identity)
    ensures Inv(id, FreshState())
  {
    assert Held(FreshState()) == multiset{};
  }

  lemma FollowingKeepsInvariant(id: Identity, s: State, command: Command, next: State)
    requires Inv(id, s) && Follows(id, s, command, next)
    ensures Inv(id, next)
  {
    hide Next, Inv, Admissible;
    if Next(id, s, command).Success? {
      KeepsInvariant(id, s, command);
    }
  }

  /** Between any two documents of a run, an operation sent in the first and still pending in the second is
      the same request, provided its key was never issued again. */
  lemma {:induction false} RunsKeepSent(id: Identity, states: seq<State>, commands: seq<Command>, m: nat, k: nat, i: nat, next: Operation)
    requires IsRun(id, states, commands) && states[0] == FreshState() && m <= k < |states|
    requires i < |states[m].pendingOps| && states[m].pendingOps[i].state == Sent
    requires forall n | m <= n < k :: states[m].pendingOps[i].key !in Issued(states[n], commands[n])
    requires next in states[k].pendingOps && next.key == states[m].pendingOps[i].key
    ensures SameRequest(states[m].pendingOps[i], next)
    decreases k
  {
    hide Next, Inv, Admissible, Issued, Follows;
    RunsKeepInvariant(id, states, commands, k);
    if m < k {
      RunsKeepInvariant(id, states, commands, k - 1);
      assert Follows(id, states[k - 1], commands[k - 1], states[k - 1 + 1]);
      var before := CameFrom(id, states[k - 1], commands[k - 1], states[k], next);
      RunsKeepSent(id, states, commands, m, k - 1, i, before);
    } else {
      var j :| 0 <= j < |states[k].pendingOps| && states[k].pendingOps[j] == next;
      InvIsExclusive(id, states[k]);
      QueueKeysAreUnique(states[k], i, j);
    }
  }

  /** One step back: the operation pending before it, which is the same request if it was sent. */
  lemma CameFrom(id: Identity, s: State, command: Command, t: State, next: Operation) returns (before: Operation)
    requires Inv(id, s) && Follows(id, s, command, t) && next in t.pendingOps && next.key !in Issued(s, command)
    ensures before in s.pendingOps && before.key == next.key
    ensures before.state == Sent ==> SameRequest(before, next)
  {
    hide Next, Inv, Admissible, Issued;
    if Next(id, s, command).Success? {
      var j := WasPending(id, s, command, next);
      before := s.pendingOps[j];
      if before.state == Sent {
        SentIsImmutable(id, s, command, j, next);
      }
    } else {
      before := next;
    }
  }

  lemma InvIsExclusive(id: Identity, s: State)
    requires Inv(id, s)
    ensures Exclusive(s)
  {
  }

  /** A pending operation not just issued was pending before. */
  lemma WasPending(id: Identity, s: State, command: Command, next: Operation) returns (j: nat)
    requires Inv(id, s) && Admissible(id, s, command) && Next(id, s, command).Success?
    requires next in Next(id, s, command).value.pendingOps && next.key !in Issued(s, command)
    ensures j < |s.pendingOps| && s.pendingOps[j].key == next.key
  {
    hide Edit, Held, Exclusive, Ordered, Anchored, Touches, Settled, Enqueue, MarkSent, Resolve;
    match command {
      case CEnqueue(intent, hash, key) => j := WasBeforeEnqueue(id, s, intent, hash, key, next);
      case CMarkSent(key, precondition) => j := WasBeforeSend(id, s, key, precondition, next);
      case CResolve(key, receipt, successor) => j := WasBeforeResolve(id, s, key, receipt, successor, next);
      case _ =>
        hide Next;
        if Shortens(command) {
          j := WasKept(id, s, command, next);
        } else {
          j := WasThere(id, s, command, next);
        }
    }
  }

  lemma WasBeforeEnqueue(id: Identity, s: State, intent: Intent, hash: Hash, key: Key, next: Operation) returns (j: nat)
    requires Enqueue(id, s, intent, hash, key).Success? && next in Enqueue(id, s, intent, hash, key).value.pendingOps
    requires next.key != key
    ensures j < |s.pendingOps| && s.pendingOps[j].key == next.key
  {
    hide Edit;
    j := Came(DropAt(ReplaceIndex(id, s.pendingOps, intent.action, intent.path, 0)), s.pendingOps, next);
  }

  lemma WasBeforeSend(id: Identity, s: State, key: Key, precondition: Precondition, next: Operation) returns (j: nat)
    requires MarkSent(id, s, key, precondition).Success? && next in MarkSent(id, s, key, precondition).value.pendingOps
    ensures j < |s.pendingOps| && s.pendingOps[j].key == next.key
  {
    hide Edit;
    var at := IndexOf(s.pendingOps, key, 0);
    if s.pendingOps[at].state == Queued {
      j := Came(Rewrite(key, AsSent(s.pendingOps[at], precondition)), s.pendingOps, next);
    } else {
      j :| 0 <= j < |s.pendingOps| && s.pendingOps[j] == next;
    }
  }

  lemma WasBeforeResolve(id: Identity, s: State, key: Key, receipt: bool, successor: Option<Base>, next: Operation) returns (j: nat)
    requires Resolve(id, s, key, receipt, successor).Success? && next in Resolve(id, s, key, receipt, successor).value.pendingOps
    ensures j < |s.pendingOps| && s.pendingOps[j].key == next.key
  {
    hide Edit, Settled, SettledAttention;
    var at := SentIndex(s.pendingOps, key, 0);
    SettledKeepsSent(id, s, at, receipt, successor);
    j := Came(Settled(id, s, at, receipt, successor), s.pendingOps, next);
  }

  lemma WasKept(id: Identity, s: State, command: Command, next: Operation) returns (j: nat)
    requires Shortens(command) && Next(id, s, command).Success? && next in Next(id, s, command).value.pendingOps
    ensures j < |s.pendingOps| && s.pendingOps[j].key == next.key
  {
    hide Edit;
    var ops := s.pendingOps;
    match command {
      case CDefer(key, retryAt) => j := Came(Deferred(key, retryAt), ops, next);
      case CDiscardQueued(key) => j := Came(DropKey(key), ops, next);
      case CRecordQueuedRejected(op, _) => j := Came(DropKey(op.key), ops, next);
      case CRecordRejected(op, _, _) => j := Came(Unblocked(s, op), ops, next);
    }
  }

  lemma WasThere(id: Identity, s: State, command: Command, next: Operation) returns (j: nat)
    requires LeavesQueue(command) || command.CConfirm? || command.CResetEpoch?
    requires Next(id, s, command).Success? && next in Next(id, s, command).value.pendingOps && next.key !in Issued(s, command)
    ensures j < |s.pendingOps| && s.pendingOps[j] == next
  {
    ShortQueue(id, s, command);
    hide Next, Issued;
    j :| 0 <= j < |Next(id, s, command).value.pendingOps| && Next(id, s, command).value.pendingOps[j] == next;
  }

  lemma Came(f: (nat, Operation) -> Option<Operation>, ops: seq<Operation>, next: Operation) returns (i: nat)
    requires next in Edit(f, ops)
    requires forall i | 0 <= i < |ops| && f(i, ops[i]).Some? :: f(i, ops[i]).value.key == ops[i].key
    ensures i < |ops| && ops[i].key == next.key
  {
    var j :| 0 <= j < |Edit(f, ops)| && Edit(f, ops)[j] == next;
    EditOrigin(f, ops, j);
    i :| 0 <= i < |ops| && f(i, ops[i]) == Some(next);
  }
}
