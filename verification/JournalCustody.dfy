/** Conservation of operations, and the order every reachable queue keeps. */
module JournalCustody {
  import opened Bytes
  import opened DeviceState
  import opened OperationQueue
  import opened JournalSteps

  // ---- The invariant ----

  /** `p` is the sent create that the dependent delete `d` waits for. */
  predicate IsParent(id: Identity, p: Operation, d: Operation, key: Key) {
    p.key == key && p.action.Put? && p.state == Sent && id(p.path) == id(d.path)
  }

  predicate IsDependent(op: Operation) {
    op.action.Delete? && op.action.dependsOn.Some?
  }

  /** Every dependent delete stands behind the sent create it names. */
  ghost predicate Anchored(id: Identity, ops: seq<Operation>) {
    forall j | 0 <= j < |ops| && IsDependent(ops[j]) :: HasParent(id, ops, j)
  }

  ghost predicate HasParent(id: Identity, ops: seq<Operation>, j: nat)
    requires j < |ops| && IsDependent(ops[j])
  {
    exists i | 0 <= i < j :: IsParent(id, ops[i], ops[j], ops[j].action.dependsOn.value)
  }

  /** A key is held once: in the queue or in attention, never in both and never twice. */
  ghost predicate Exclusive(s: State) {
    forall key: Key :: Held(s)[key] <= 1
  }

  ghost predicate Inv(id: Identity, s: State) {
    Ordered(id, s.pendingOps) && Anchored(id, s.pendingOps) && Exclusive(s)
  }

  /** What callers owe: fresh keys, dependents only on sent creates still pending, receipts only with an epoch. */
  ghost predicate Admissible(id: Identity, s: State, command: Command) {
    match command
    case CEnqueue(intent, hash, key) =>
      && key !in Held(s)
      && (intent.action.Delete? && intent.action.dependsOn.Some? ==>
            exists p | p in s.pendingOps :: IsParent(id, p, NewOperation(intent, hash, key), intent.action.dependsOn.value))
    case CConfirm(confirmation, key) => key !in Held(s)
    case CResolve(key, receipt, successor) => receipt ==> s.epoch.Some?
    case _ => true
  }

  /** The key a transition brings into custody. */
  function Issued(s: State, command: Command): multiset<Key> {
    match command
    case CEnqueue(intent, hash, key) => multiset{key}
    case CConfirm(confirmation, key) =>
      var i := ConfirmationIndex(s.confirmations, confirmation, 0);
      if i < |s.confirmations| && s.confirmations[i].staleReason.None? && Doubt(s, s.confirmations[i]).None?
      then multiset{key} else multiset{}
    case _ => multiset{}
  }

  /** The keys a transition lets go: receipted, coalesced, explicitly discarded, or dismissed. */
  function Discharged(id: Identity, s: State, command: Command): multiset<Key> {
    match command
    case CEnqueue(intent, hash, key) =>
      var at := ReplaceIndex(id, s.pendingOps, intent.action, intent.path, 0);
      if at < |s.pendingOps| then multiset{s.pendingOps[at].key} else multiset{}
    case CResolve(key, receipt, successor) => if receipt then multiset{key} else multiset{}
    case CDiscardQueued(key) => multiset{key}
    case CDismissAttention(item) =>
      var i := AttentionIndex(s.attention, item, 0);
      if i < |s.attention| then HeldKey(s.attention[i]) else multiset{}
    case CDismissInformational => AttentionKeys(Select(IsInformational, s.attention))
    case _ => multiset{}
  }

  // ---- Unique keys in the queue ----

  lemma QueueKeysAreUnique(s: State, i: nat, j: nat)
    requires Exclusive(s) && i < |s.pendingOps| && j < |s.pendingOps|
    requires s.pendingOps[i].key == s.pendingOps[j].key
    ensures i == j
  {
    var key := s.pendingOps[i].key;
    assert Held(s)[key] == KeysOf(s.pendingOps)[key] + AttentionKeys(s.attention)[key];
    if i < j {
      KeysAreUnique(s.pendingOps, i, j);
    } else if j < i {
      KeysAreUnique(s.pendingOps, j, i);
    }
  }

  /** A pending key is in no attention item. */
  lemma PendingIsNotInAttention(s: State, i: nat, j: nat)
    requires Exclusive(s) && i < |s.pendingOps| && j < |s.attention| && s.attention[j].operation.Some?
    ensures s.attention[j].operation.value.key != s.pendingOps[i].key
  {
    var key := s.pendingOps[i].key;
    assert Held(s)[key] == KeysOf(s.pendingOps)[key] + AttentionKeys(s.attention)[key];
    KeyIsHeld(s.pendingOps, i);
    AttentionKeyIsHeld(s.attention, j);
  }

  /** Filtering attention by pending keys removes nothing. */
  lemma AboutKeepsAll(s: State, key: Key, blocked: seq<Operation>)
    requires Exclusive(s) && (exists i | 0 <= i < |s.pendingOps| :: s.pendingOps[i].key == key)
    requires forall op | op in blocked :: op in s.pendingOps
    ensures Select(About(key, blocked), s.attention) == s.attention
  {
    forall item | item in s.attention
      ensures About(key, blocked)(item)
    {
      var j :| 0 <= j < |s.attention| && s.attention[j] == item;
      if item.operation.Some? {
        var i :| 0 <= i < |s.pendingOps| && s.pendingOps[i].key == key;
        PendingIsNotInAttention(s, i, j);
        forall op | op in blocked
          ensures item.operation.value.key != op.key
        {
          var k :| 0 <= k < |s.pendingOps| && s.pendingOps[k] == op;
          PendingIsNotInAttention(s, k, j);
        }
      }
    }
    SelectAll(About(key, blocked), s.attention);
  }

  lemma {:induction false} RetainedKeys(reason: string, ops: seq<Operation>)
    ensures AttentionKeys(Retained(reason, ops)) == KeysOf(ops)
  {
    if ops != [] {
      var n := |ops| - 1;
      RetainedKeys(reason, ops[..n]);
      assert Retained(reason, ops)[..n] == Retained(reason, ops[..n]);
    }
  }

  lemma {:induction false} SelectDropsNoKeys(p: Attention -> bool, items: seq<Attention>)
    requires forall item | item in items && !p(item) :: item.operation.None?
    ensures AttentionKeys(Select(p, items)) == AttentionKeys(items)
  {
    if items != [] {
      var n := |items| - 1;
      var front, last := items[..n], items[n];
      assert items == front + [last];
      forall item | item in front && !p(item)
        ensures item.operation.None?
      {
        assert item in items;
      }
      SelectDropsNoKeys(p, front);
      assert last in items;
      AttentionKeysJoin(Select(p, front), if p(last) then [last] else []);
      OneAttention(last);
    }
  }

  lemma OneAttention(item: Attention)
    ensures AttentionKeys([item]) == HeldKey(item) && AttentionKeys([]) == multiset{}
  {
    assert [item][..0] == [];
  }

  // ---- Custody, transition by transition ----

  /** Held after + discharged == held before + issued. */
  ghost predicate Balanced(id: Identity, s: State, command: Command) {
    Next(id, s, command).Success? ==>
      Held(Next(id, s, command).value) + Discharged(id, s, command) == Held(s) + Issued(s, command)
  }

  function OnlyKey(key: Key): (nat, Operation) -> Option<Operation> {
    (i: nat, op: Operation) => if op.key == key then Some(op) else None
  }

  /** With unique keys, selecting by key selects one operation. */
  lemma OnlyKeyIsOne(s: State, i: nat)
    requires Exclusive(s) && i < |s.pendingOps|
    ensures KeysOf(Edit(OnlyKey(s.pendingOps[i].key), s.pendingOps)) == multiset{s.pendingOps[i].key}
  {
    hide KeysOf, AttentionKeys, Edit, Select, Touches, Ordered, Anchored;
    var ops, key := s.pendingOps, s.pendingOps[i].key;
    var drop := DropKey(key);
    forall j | 0 <= j < |ops|
      ensures drop(j, ops[j]).None? <==> j == i
    {
      if ops[j].key == key {
        QueueKeysAreUnique(s, i, j);
      }
    }
    DropsOneKey(drop, ops, i);
    SameEdits(Rest(drop), OnlyKey(key), ops);
    KeyOfOne(ops[i]);
  }

  lemma {:induction false} SameEdits(f: (nat, Operation) -> Option<Operation>, g: (nat, Operation) -> Option<Operation>, ops: seq<Operation>)
    requires forall i: nat, op: Operation :: f(i, op) == g(i, op)
    ensures Edit(f, ops) == Edit(g, ops)
  {
    if ops != [] {
      SameEdits(f, g, ops[..|ops| - 1]);
    }
  }

  lemma DropOneKeyCustody(s: State, i: nat)
    requires Exclusive(s) && i < |s.pendingOps|
    ensures KeysOf(s.pendingOps) == KeysOf(Edit(DropKey(s.pendingOps[i].key), s.pendingOps)) + multiset{s.pendingOps[i].key}
  {
    hide KeysOf, AttentionKeys, Edit, Select, Touches, Ordered, Anchored;
    var ops, key := s.pendingOps, s.pendingOps[i].key;
    OnlyKeyIsOne(s, i);
    EditSplitsKeys(DropKey(key), ops);
    SameEdits(Rest(DropKey(key)), OnlyKey(key), ops);
  }

  lemma EnqueueCustody(id: Identity, s: State, intent: Intent, hash: Hash, key: Key)
    ensures Balanced(id, s, CEnqueue(intent, hash, key))
  {
    hide KeysOf, AttentionKeys, Edit, Select, Touches, Ordered, Anchored;
    var ops, op := s.pendingOps, NewOperation(intent, hash, key);
    var at := ReplaceIndex(id, ops, intent.action, intent.path, 0);
    EditSplitsKeys(DropAt(at), ops);
    KeysJoin(Edit(DropAt(at), ops), [op]);
    KeyOfOne(op);
    if at < |ops| {
      DropsOneKey(DropAt(at), ops, at);
      KeyOfOne(ops[at]);
    } else {
      DropsNothing(DropAt(at), ops);
    }
  }

  /** A dependent delete never waits for itself. */
  lemma NotItsOwnParent(id: Identity, s: State, i: nat, j: nat)
    requires Inv(id, s) && i < |s.pendingOps| && j < |s.pendingOps|
    requires DependsOn(s.pendingOps[j], s.pendingOps[i].key)
    ensures i < j && s.pendingOps[i].state == Sent && s.pendingOps[i].action.Put?
    ensures s.pendingOps[j].state == Queued && id(s.pendingOps[i].path) == id(s.pendingOps[j].path)
    ensures Conflict(id, s.pendingOps[i], s.pendingOps[j])
  {
    var ops := s.pendingOps;
    assert HasParent(id, ops, j);
    var p :| 0 <= p < j && IsParent(id, ops[p], ops[j], ops[i].key);
    QueueKeysAreUnique(s, p, i);
    assert id(ops[i].path) in Touches(id, ops[i]) * Touches(id, ops[j]);
  }

  /** Settling splits the queue in three: what stays, what attention takes, and the settled key. */
  lemma SettleSplits(
      id: Identity, s: State, index: nat, f: (nat, Operation) -> Option<Operation>, receipt: bool, successor: Option<Base>)
    requires Inv(id, s) && index < |s.pendingOps|
    requires var parent := s.pendingOps[index];
             forall i: nat, op: Operation :: if op.key == parent.key || Blocked(s, op, parent, receipt, successor) then f(i, op).None?
                                  else f(i, op).Some? && f(i, op).value.key == op.key
    ensures var parent := s.pendingOps[index];
            KeysOf(s.pendingOps) == KeysOf(Edit(f, s.pendingOps))
              + (KeysOf(Edit(OnlyBlocked(s, parent, receipt, successor), s.pendingOps)) + multiset{parent.key})
  {
    hide KeysOf, Edit, Touches, Ordered, Anchored;
    var ops, parent := s.pendingOps, s.pendingOps[index];
    EditSplitsKeys(f, ops);
    var dropped := Edit(Rest(f), ops);
    OnlyKeyIsOne(s, index);
    forall i | 0 <= i < |ops| && ops[i].key == parent.key
      ensures !Blocked(s, ops[i], parent, receipt, successor)
    {
      if DependsOn(ops[i], parent.key) {
        NotItsOwnParent(id, s, index, i);
        QueueKeysAreUnique(s, index, i);
      }
    }
    TwoWays(Rest(f), OnlyBlocked(s, parent, receipt, successor), OnlyKey(parent.key), ops);
  }

  lemma {:induction false} TwoWays(
      f: (nat, Operation) -> Option<Operation>, g: (nat, Operation) -> Option<Operation>,
      h: (nat, Operation) -> Option<Operation>, ops: seq<Operation>)
    requires forall i | 0 <= i < |ops| :: Splits(f, g, h, i, ops[i])
    ensures KeysOf(Edit(f, ops)) == KeysOf(Edit(g, ops)) + KeysOf(Edit(h, ops))
  {
    if ops != [] {
      var n := |ops| - 1;
      forall i | 0 <= i < n
        ensures Splits(f, g, h, i, ops[..n][i])
      {
        assert ops[..n][i] == ops[i];
      }
      TwoWays(f, g, h, ops[..n]);
      hide Listed;
      KeysJoin(Edit(f, ops[..n]), Listed(f(n, ops[n])));
      KeysJoin(Edit(g, ops[..n]), Listed(g(n, ops[n])));
      KeysJoin(Edit(h, ops[..n]), Listed(h(n, ops[n])));
      ListedSplits(f, g, h, n, ops[n]);
      Regroup(KeysOf(Edit(g, ops[..n])), KeysOf(Listed(g(n, ops[n]))), KeysOf(Edit(h, ops[..n])), KeysOf(Listed(h(n, ops[n]))));
    }
  }

  /** What `f` keeps, exactly one of `g` and `h` keeps. */
  ghost predicate Splits(
      f: (nat, Operation) -> Option<Operation>, g: (nat, Operation) -> Option<Operation>,
      h: (nat, Operation) -> Option<Operation>, i: nat, op: Operation)
  {
    (f(i, op) == g(i, op) && h(i, op).None?) || (f(i, op) == h(i, op) && g(i, op).None?)
  }

  lemma ListedSplits(
      f: (nat, Operation) -> Option<Operation>, g: (nat, Operation) -> Option<Operation>,
      h: (nat, Operation) -> Option<Operation>, i: nat, op: Operation)
    requires Splits(f, g, h, i, op)
    ensures KeysOf(Listed(f(i, op))) == KeysOf(Listed(g(i, op))) + KeysOf(Listed(h(i, op)))
  {
  }

  lemma BlockedArePending(s: State, parent: Operation, receipt: bool, successor: Option<Base>)
    ensures forall op | op in Edit(OnlyBlocked(s, parent, receipt, successor), s.pendingOps) :: op in s.pendingOps
  {
    var f := OnlyBlocked(s, parent, receipt, successor);
    forall op | op in Edit(f, s.pendingOps)
      ensures op in s.pendingOps
    {
      var j :| 0 <= j < |Edit(f, s.pendingOps)| && Edit(f, s.pendingOps)[j] == op;
      EditOrigin(f, s.pendingOps, j);
    }
  }

  lemma SettledAttentionKeys(id: Identity, s: State, i: nat, receipt: bool, successor: Option<Base>)
    requires Inv(id, s) && i < |s.pendingOps|
    ensures var parent := s.pendingOps[i];
            AttentionKeys(SettledAttention(s, parent, receipt, successor))
            == AttentionKeys(s.attention)
               + (KeysOf(Edit(OnlyBlocked(s, parent, receipt, successor), s.pendingOps))
                  + if receipt then multiset{} else multiset{parent.key})
  {
    hide KeysOf, AttentionKeys, Edit, Select, Touches, Ordered, Anchored;
    var parent := s.pendingOps[i];
    var blocked := Edit(OnlyBlocked(s, parent, receipt, successor), s.pendingOps);
    var reason := if receipt then RECEIPT_MISMATCH else BLOCKED_BY_REJECTION;
    var own := if receipt then [] else [Attention(parent.path, REJECTED, Some(parent))];
    BlockedArePending(s, parent, receipt, successor);
    AboutKeepsAll(s, parent.key, blocked);
    RetainedKeys(reason, blocked);
    OneAttention(Attention(parent.path, REJECTED, Some(parent)));
    ThreePieces(s.attention, own, Retained(reason, blocked));
  }

  lemma ResolveCustody(id: Identity, s: State, key: Key, receipt: bool, successor: Option<Base>)
    requires Inv(id, s)
    ensures Balanced(id, s, CResolve(key, receipt, successor))
  {
    hide KeysOf, AttentionKeys, Edit, Select, Touches, Inv, Settled, OnlyBlocked, SettledAttention;
    var i := SentIndex(s.pendingOps, key, 0);
    if i < |s.pendingOps| {
      SettleSplitsResolve(id, s, i, receipt, successor);
      SettledAttentionKeys(id, s, i, receipt, successor);
    }
  }

  lemma RebasedShape(id: Identity, s: State, op: Operation, parent: Operation, successor: Base)
    requires s.epoch.Some?
    ensures var next := Rebased(s, op, parent, successor);
            && next.key == op.key && next.path == op.path && next.state == op.state && next.payloadHash == op.payloadHash
            && next.action == (if DependsOn(op, parent.key) then Delete(None) else op.action)
            && Touches(id, next) == Touches(id, op)
  {
  }

  lemma SettleSplitsResolve(id: Identity, s: State, i: nat, receipt: bool, successor: Option<Base>)
    requires Inv(id, s) && i < |s.pendingOps|
    ensures var parent := s.pendingOps[i];
            KeysOf(s.pendingOps) == KeysOf(Edit(Settled(id, s, i, receipt, successor), s.pendingOps))
              + (KeysOf(Edit(OnlyBlocked(s, parent, receipt, successor), s.pendingOps)) + multiset{parent.key})
  {
    var f, parent := Settled(id, s, i, receipt, successor), s.pendingOps[i];
    forall j: nat, op: Operation
      ensures if op.key == parent.key || Blocked(s, op, parent, receipt, successor) then f(j, op).None?
              else f(j, op).Some? && f(j, op).value.key == op.key
    {
      if s.epoch.Some? && successor.Some? {
        RebasedShape(id, s, op, parent, successor.value);
      }
    }
    hide KeysOf, Edit, Touches, Inv;
    SettleSplits(id, s, i, Settled(id, s, i, receipt, successor), receipt, successor);
  }

  lemma ThreePieces(a: seq<Attention>, b: seq<Attention>, c: seq<Attention>)
    ensures AttentionKeys(a + b + c) == AttentionKeys(a) + (AttentionKeys(c) + AttentionKeys(b))
  {
    hide AttentionKeys;
    AttentionKeysJoin(a + b, c);
    AttentionKeysJoin(a, b);
  }

  lemma RejectedCustody(id: Identity, s: State, op: Operation, reason: string, path: Path)
    requires Inv(id, s)
    ensures Balanced(id, s, CRecordRejected(op, reason, path))
  {
    hide KeysOf, AttentionKeys, Edit, Select, Touches, Ordered, Anchored;
    var i := SentIndex(s.pendingOps, op.key, 0);
    if i == |s.pendingOps| || s.pendingOps[i] != op {
      return;
    }
    var blocked := Edit(OnlyBlocked(s, op, false, None), s.pendingOps);
    SettleSplits(id, s, i, Unblocked(s, op), false, None);
    BlockedArePending(s, op, false, None);
    AboutKeepsAll(s, op.key, blocked);
    AttentionKeysJoin(s.attention + [Attention(path, reason, Some(op))], Retained(BLOCKED_BY_REJECTION, blocked));
    AttentionKeysJoin(s.attention, [Attention(path, reason, Some(op))]);
    RetainedKeys(BLOCKED_BY_REJECTION, blocked);
    OneAttention(Attention(path, reason, Some(op)));
  }

  lemma QueuedRejectedCustody(id: Identity, s: State, op: Operation, reason: string)
    requires Inv(id, s)
    ensures Balanced(id, s, CRecordQueuedRejected(op, reason))
  {
    hide KeysOf, AttentionKeys, Edit, Select, Touches, Ordered, Anchored;
    if op !in s.pendingOps || op.state != Queued {
      return;
    }
    var i :| 0 <= i < |s.pendingOps| && s.pendingOps[i] == op;
    DropOneKeyCustody(s, i);
    AboutKeepsAll(s, op.key, []);
    AttentionKeysJoin(s.attention, [Attention(op.path, reason, Some(op))]);
    OneAttention(Attention(op.path, reason, Some(op)));
  }

  lemma DiscardCustody(id: Identity, s: State, key: Key)
    requires Inv(id, s)
    ensures Balanced(id, s, CDiscardQueued(key))
  {
    hide KeysOf, AttentionKeys, Edit, Select, Touches, Ordered, Anchored;
    if !IsQueued(s.pendingOps, key) {
      return;
    }
    var op :| op in s.pendingOps && op.key == key && op.state == Queued;
    var i :| 0 <= i < |s.pendingOps| && s.pendingOps[i] == op;
    DropOneKeyCustody(s, i);
  }

  /** A rewrite in place keeps every key. */
  lemma RewriteCustody(f: (nat, Operation) -> Option<Operation>, ops: seq<Operation>)
    requires forall i: nat, op: Operation :: f(i, op).Some? && f(i, op).value.key == op.key
    ensures KeysOf(Edit(f, ops)) == KeysOf(ops)
  {
    EditSplitsKeys(f, ops);
    DropsNothing(f, ops);
  }

  lemma RemoveOne(items: seq<Attention>, i: nat)
    requires i < |items|
    ensures AttentionKeys(items[..i] + items[i + 1..]) + HeldKey(items[i]) == AttentionKeys(items)
  {
    hide AttentionKeys, HeldKey;
    var front, one, rest := items[..i], [items[i]], items[i + 1..];
    assert items == front + (one + rest);
    AttentionKeysJoin(front, one + rest);
    AttentionKeysJoin(one, rest);
    AttentionKeysJoin(front, rest);
    OneAttention(items[i]);
  }

  lemma DismissCustody(id: Identity, s: State, item: (Path, string, Option<Key>))
    ensures Balanced(id, s, CDismissAttention(item))
  {
    hide KeysOf, AttentionKeys, HeldKey;
    var i := AttentionIndex(s.attention, item, 0);
    if i < |s.attention| {
      RemoveOne(s.attention, i);
    }
  }

  lemma {:induction false} SelectSame(p: Attention -> bool, q: Attention -> bool, items: seq<Attention>)
    requires forall item :: p(item) == q(item)
    ensures Select(p, items) == Select(q, items)
  {
    if items != [] {
      SelectSame(p, q, items[..|items| - 1]);
    }
  }

  lemma InformationalCustody(id: Identity, s: State)
    ensures Balanced(id, s, CDismissInformational)
  {
    hide AttentionKeys, Select;
    SelectSplitsKeys(Kept(), s.attention);
    SelectSame((item: Attention) => !Kept()(item), IsInformational, s.attention);
  }

  lemma NoKeys()
    ensures KeysOf([]) == multiset{}
  {
  }

  lemma ResetCustody(id: Identity, s: State, epoch: Epoch)
    ensures Balanced(id, s, CResetEpoch(epoch))
  {
    hide KeysOf, AttentionKeys, Edit, Select, Touches, Ordered, Anchored;
    RetainedKeys(OLD_EPOCH, s.pendingOps);
    AttentionKeysJoin(s.attention, Retained(OLD_EPOCH, s.pendingOps));
    NoKeys();
  }

  lemma ReplaceAttentionCustody(s: State, path: Path, reason: string)
    ensures AttentionKeys(Select(Replaces(path), s.attention) + [Attention(path, reason, None)]) == AttentionKeys(s.attention)
  {
    hide KeysOf, AttentionKeys, Edit, Select, Touches, Ordered, Anchored;
    SelectDropsNoKeys(Replaces(path), s.attention);
    AttentionKeysJoin(Select(Replaces(path), s.attention), [Attention(path, reason, None)]);
    OneAttention(Attention(path, reason, None));
  }

  lemma ConfirmCustody(id: Identity, s: State, confirmation: Key, key: Key)
    ensures Balanced(id, s, CConfirm(confirmation, key))
  {
    hide KeysOf, AttentionKeys, Edit, Select;
    var next, issued := Confirm(s, confirmation, key), Issued(s, CConfirm(confirmation, key));
    if next.Success? {
      assert next.value.attention == s.attention;
      if issued == multiset{} {
        assert next.value.pendingOps == s.pendingOps;
      } else {
        var op := next.value.pendingOps[|next.value.pendingOps| - 1];
        assert next.value.pendingOps == s.pendingOps + [op] && op.key == key;
        KeysJoin(s.pendingOps, [op]);
        KeyOfOne(op);
      }
      assert Held(next.value) == Held(s) + issued;
      hide Confirm, Held, Issued;
    }
  }

  lemma RewritesCustody(id: Identity, s: State, command: Command)
    requires Inv(id, s) && (command.CMarkSent? || command.CDefer?)
    ensures Balanced(id, s, command)
  {
    hide KeysOf, AttentionKeys, Edit;
    match command {
      case CMarkSent(key, precondition) =>
        var i := IndexOf(s.pendingOps, key, 0);
        if i < |s.pendingOps| {
          RewriteCustody(Rewrite(key, AsSent(s.pendingOps[i], precondition)), s.pendingOps);
        }
      case CDefer(key, retryAt) =>
        RewriteCustody(Deferred(key, retryAt), s.pendingOps);
    }
  }

  lemma SkipCustody(id: Identity, s: State, command: Command)
    requires command.CSkipApply? || command.CRecordAttention?
    ensures Balanced(id, s, command)
  {
    hide KeysOf, AttentionKeys, Select;
    match command {
      case CSkipApply(path, _, reason) => ReplaceAttentionCustody(s, path, reason);
      case CRecordAttention(path, reason) => ReplaceAttentionCustody(s, path, reason);
    }
  }

  /** Transitions that touch neither the queue nor attention. */
  predicate Elsewhere(command: Command) {
    || command.CSetBase? || command.CSetCursor? || command.CBeginApply? || command.CRebaseApply? || command.CUpdateApply?
    || command.CCompleteApply? || command.CCompleteRename? || command.CIgnoreApply? || command.CExpectWrite?
    || command.CClearExpected? || command.CCapture? || command.CSaveConfirmation? || command.CClearConfirmation? || command.CMarkStale?
  }

  lemma ElsewhereKeeps(id: Identity, s: State, command: Command)
    requires Elsewhere(command) && Next(id, s, command).Success?
    ensures Next(id, s, command).value.pendingOps == s.pendingOps
    ensures Next(id, s, command).value.attention == s.attention
  {
  }

  lemma ElsewhereCustody(id: Identity, s: State, command: Command)
    requires Elsewhere(command)
    ensures Balanced(id, s, command)
  {
    if Next(id, s, command).Success? {
      ElsewhereKeeps(id, s, command);
      hide Next;
    }
  }

  /** Conservation. Every transition keeps custody of every key, except the one it is told to let go:
      held after + discharged == held before + issued. */
  lemma Custody(id: Identity, s: State, command: Command)
    requires Inv(id, s) && Next(id, s, command).Success?
    ensures Held(Next(id, s, command).value) + Discharged(id, s, command) == Held(s) + Issued(s, command)
  {
    assert Balanced(id, s, command) by {
      hide Inv, Balanced, Next, Held, Discharged, Issued;
      match command {
        case CEnqueue(intent, hash, key) => EnqueueCustody(id, s, intent, hash, key);
        case CMarkSent(_, _) => RewritesCustody(id, s, command);
        case CDefer(_, _) => RewritesCustody(id, s, command);
        case CResolve(key, receipt, successor) => ResolveCustody(id, s, key, receipt, successor);
        case CDiscardQueued(key) => DiscardCustody(id, s, key);
        case CRecordQueuedRejected(op, reason) => QueuedRejectedCustody(id, s, op, reason);
        case CRecordRejected(op, reason, path) => RejectedCustody(id, s, op, reason, path);
        case CResetEpoch(epoch) => ResetCustody(id, s, epoch);
        case CSkipApply(_, _, _) => SkipCustody(id, s, command);
        case CRecordAttention(_, _) => SkipCustody(id, s, command);
        case CDismissAttention(item) => DismissCustody(id, s, item);
        case CDismissInformational => InformationalCustody(id, s);
        case CConfirm(confirmation, key) => ConfirmCustody(id, s, confirmation, key);
        case _ => ElsewhereCustody(id, s, command);
      }
    }
    hide Next, Held, Discharged, Issued;
  }
}
