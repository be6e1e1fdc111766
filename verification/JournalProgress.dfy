/** Within one epoch nothing confirmed moves backward, and a new epoch trusts no old base. */
module JournalProgress {
  import opened Bytes
  import opened DeviceState
  import opened JournalSteps
  import opened OperationQueue
  import opened JournalCustody

  predicate CursorForward(before: Option<nat>, after: Option<nat>) {
    before.Some? ==> after.Some? && before.value <= after.value
  }

  /** Every trusted base stays, stays trusted, and never loses a revision. */
  ghost predicate BaseForward(s: State, t: State) {
    forall path | path in s.base && path !in s.stale ::
      path in t.base && path !in t.stale && s.base[path].rev <= t.base[path].rev
  }

  ghost predicate AllStale(s: State) {
    forall path | path in s.base :: path in s.stale
  }

  /** Only a base transition or a new epoch can touch base, staleness, epoch, or cursor. */
  predicate MovesBase(command: Command) {
    || command.CSetBase? || command.CSetCursor? || command.CCompleteApply? || command.CCompleteRename? || command.CResetEpoch?
  }

  lemma Untouched(id: Identity, s: State, command: Command)
    requires !MovesBase(command) && Next(id, s, command).Success?
    ensures var t := Next(id, s, command).value;
            t.epoch == s.epoch && t.cursor == s.cursor && t.base == s.base && t.stale == s.stale
  {
  }

  /** Progress. In one epoch the cursor and every trusted base only advance; a new epoch starts with every
      base stale, no cursor, and no pending apply. */
  lemma NothingMovesBack(id: Identity, s: State, command: Command)
    requires Next(id, s, command).Success?
    ensures var t := Next(id, s, command).value;
            if t.epoch == s.epoch then CursorForward(s.cursor, t.cursor) && BaseForward(s, t)
            else AllStale(t) && t.base == s.base && t.cursor == None && t.pendingApply == None && t.pendingOps == []
  {
    if !MovesBase(command) {
      Untouched(id, s, command);
      hide Next;
    }
  }

  ghost predicate IsRun(id: Identity, states: seq<State>, commands: seq<Command>) {
    && |states| == |commands| + 1
    && forall i | 0 <= i < |commands| ::
         states[i + 1] == if Next(id, states[i], commands[i]).Success? then Next(id, states[i], commands[i]).value else states[i]
  }

  /** A base trusted anywhere in an epoch is never behind anywhere later in that epoch. */
  lemma {:induction false} RunsAdvance(id: Identity, states: seq<State>, commands: seq<Command>, m: nat, k: nat)
    requires IsRun(id, states, commands) && m <= k < |states|
    requires forall n | m <= n <= k :: states[n].epoch == states[m].epoch
    ensures CursorForward(states[m].cursor, states[k].cursor) && BaseForward(states[m], states[k])
    decreases k
  {
    hide Next;
    if m < k {
      RunsAdvance(id, states, commands, m, k - 1);
      assert states[k] == states[k - 1 + 1];
      if Next(id, states[k - 1], commands[k - 1]).Success? {
        NothingMovesBack(id, states[k - 1], commands[k - 1]);
      }
    }
  }

  /** A rename confirmation with one side withheld marks that side trusted without a new base: after a new
      epoch, an old-epoch base can come back as if it were confirmed. */
  lemma RenameTrustsAWithheldSide()
    ensures exists s: State, from: Path, to: Path, rev: nat, hash: Hash ::
      && AllStale(s) && s.base == map[from := Tombstone(rev)]
      && CompleteRename(s, from, None, to, Some(Live(1, hash))).Success?
      && from !in CompleteRename(s, from, None, to, Some(Live(1, hash))).value.stale
      && CompleteRename(s, from, None, to, Some(Live(1, hash))).value.base[from] == s.base[from]
  {
    var from, to, hash := "a", "b", Sha256([]);
    var change := RenameChange(1, from, 1, to, 2, 1, hash);
    var s := FreshState().(epoch := Some(2), base := map[from := Tombstone(9)], stale := {from},
                           pendingApply := Some(PendingApply(change, Prepared, [])));
    assert CompleteRename(s, from, None, to, Some(Live(1, hash))).Success?;
    assert s.base == map[from := Tombstone(9)];
  }

  /** The exact condition, for either side: it comes out trusted, and at the rename's own revision if and only if
      it was given, or its old base says the same already. */
  lemma StaleSideIsConfirmed(s: State, from: Path, fromBase: Option<Base>, to: Path, toBase: Option<Base>)
    requires CompleteRename(s, from, fromBase, to, toBase).Success? && from != to
    ensures var t, change := CompleteRename(s, from, fromBase, to, toBase).value, s.pendingApply.value.change;
            && from !in t.stale && to !in t.stale
            && (from in t.base && t.base[from] == Tombstone(change.fromRev)
                <==> fromBase.Some? || (from in s.base && s.base[from] == Tombstone(change.fromRev)))
            && (to in t.base && t.base[to] == Live(change.rev, change.hash)
                <==> toBase.Some? || (to in s.base && s.base[to] == Live(change.rev, change.hash)))
  {
  }

  // ---- Coalescing ----

  /** A vault keyed by path identity, as seen through the outgoing queue. */
  type Vault = map<Path, Hash>

  /** The effect of one operation on a vault. */
  function Perform(id: Identity, v: Vault, op: Operation): Vault {
    if op.state == Resolved then v
    else match op.action
      case Put => v[id(op.path) := op.payloadHash]
      case Delete(_) => v - {id(op.path)}
      case Rename(to, _) =>
        if id(op.path) in v then (v - {id(op.path)})[id(to) := v[id(op.path)]] else v
  }

  function PerformAll(id: Identity, v: Vault, ops: seq<Operation>): Vault
    decreases |ops|
  {
    if ops == [] then v else PerformAll(id, Perform(id, v, ops[0]), ops[1..])
  }

  /** Two vaults that differ at most at one path identity. */
  ghost predicate AgreeOff(key: Path, v: Vault, w: Vault) {
    v - {key} == w - {key}
  }

  lemma AgreeAt(key: Path, v: Vault, w: Vault, other: Path)
    requires AgreeOff(key, v, w) && other != key
    ensures (other in v <==> other in w) && (other in v ==> v[other] == w[other])
  {
    assert other in v <==> other in v - {key};
    assert other in w <==> other in w - {key};
    if other in v {
      assert (v - {key})[other] == v[other] && (w - {key})[other] == w[other];
    }
  }

  /** An operation that does not touch `key` keeps two vaults equal off `key`. */
  lemma PerformAgrees(id: Identity, key: Path, v: Vault, w: Vault, op: Operation)
    requires AgreeOff(key, v, w) && (op.state == Resolved || key !in Touches(id, op))
    ensures AgreeOff(key, Perform(id, v, op), Perform(id, w, op))
  {
    var a, b := Perform(id, v, op), Perform(id, w, op);
    if op.state != Resolved && op.action.Rename? {
      AgreeAt(key, v, w, id(op.path));
    }
    forall other | other != key
      ensures (other in a <==> other in b) && (other in a ==> a[other] == b[other])
    {
      AgreeAt(key, v, w, other);
    }
    assert a - {key} == b - {key};
  }

  lemma {:induction false} TailAgrees(id: Identity, key: Path, v: Vault, w: Vault, ops: seq<Operation>)
    requires AgreeOff(key, v, w) && forall op | op in ops :: op.state == Resolved || key !in Touches(id, op)
    ensures AgreeOff(key, PerformAll(id, v, ops), PerformAll(id, w, ops))
    decreases |ops|
  {
    if ops != [] {
      assert ops[0] in ops;
      PerformAgrees(id, key, v, w, ops[0]);
      TailAgrees(id, key, Perform(id, v, ops[0]), Perform(id, w, ops[0]), ops[1..]);
    }
  }

  lemma {:induction false} PerformSplits(id: Identity, v: Vault, a: seq<Operation>, b: seq<Operation>)
    ensures PerformAll(id, v, a + b) == PerformAll(id, PerformAll(id, v, a), b)
    decreases |a|
  {
    if a == [] {
      assert a + b == b;
    } else {
      assert (a + b)[1..] == a[1..] + b;
      PerformSplits(id, Perform(id, v, a[0]), a[1..], b);
    }
  }

  lemma {:induction false} DropAtIsSlice(ops: seq<Operation>, at: nat)
    requires at < |ops|
    ensures Edit(DropAt(at), ops) == ops[..at] + ops[at + 1..]
  {
    var n := |ops| - 1;
    if at < n {
      DropAtIsSlice(ops[..n], at);
      assert ops[at + 1..] == ops[..n][at + 1..] + [ops[n]];
      assert ops[..n][..at] == ops[..at];
    } else {
      DropAtBeyond(ops[..n], at);
    }
  }

  lemma {:induction false} DropAtBeyond(ops: seq<Operation>, at: nat)
    requires at >= |ops|
    ensures Edit(DropAt(at), ops) == ops
  {
    if ops != [] {
      DropAtBeyond(ops[..|ops| - 1], at);
    }
  }

  /** Coalescing preserves meaning. For puts and deletes, running the queue gives the same vault whether the
      replaced operation is dropped or kept, whatever unrelated operations lie between. */
  lemma CoalescingPreservesMeaning(id: Identity, s: State, intent: Intent, hash: Hash, key: Key, v: Vault)
    requires !intent.action.Rename? && Enqueue(id, s, intent, hash, key).Success?
    ensures PerformAll(id, v, Enqueue(id, s, intent, hash, key).value.pendingOps)
         == PerformAll(id, v, s.pendingOps + [NewOperation(intent, hash, key)])
  {
    hide PerformAll, Enqueue, ReplaceIndex, Replaceable, Conflict, Edit;
    var ops, op := s.pendingOps, NewOperation(intent, hash, key);
    var at := ReplaceIndex(id, ops, intent.action, intent.path, 0);
    CoalescedQueue(id, s, intent, hash, key);
    if at < |ops| {
      KeptOrReplaced(id, v, ops[..at], ops[at], ops[at + 1..], op);
    }
  }

  /** The queue after an intent: the first replaceable operation is gone, the new one is last. */
  lemma CoalescedQueue(id: Identity, s: State, intent: Intent, hash: Hash, key: Key)
    requires Enqueue(id, s, intent, hash, key).Success?
    ensures var ops, op := s.pendingOps, NewOperation(intent, hash, key);
            var at := ReplaceIndex(id, ops, intent.action, intent.path, 0);
            var after := Enqueue(id, s, intent, hash, key).value.pendingOps;
            if at < |ops| then
              && after == ops[..at] + ops[at + 1..] + [op] && ops == ops[..at] + ([ops[at]] + ops[at + 1..])
              && SameKind(ops[at].action, op.action) && ops[at].state == Queued && id(ops[at].path) == id(op.path)
              && forall later | later in ops[at + 1..] :: later.state == Resolved || !Conflict(id, ops[at], later)
            else after == ops + [op]
  {
    hide Conflict, PerformAll, Perform, Replaceable, ReplaceIndex, SameKind, Edit;
    var ops := s.pendingOps;
    var at := ReplaceIndex(id, ops, intent.action, intent.path, 0);
    if at < |ops| {
      DropAtIsSlice(ops, at);
      TailIsApart(id, ops, at, intent);
    } else {
      DropAtBeyond(ops, at);
    }
  }

  lemma TailIsApart(id: Identity, ops: seq<Operation>, at: nat, intent: Intent)
    requires at < |ops| && Replaceable(id, ops, at, intent.action, intent.path)
    ensures SameKind(ops[at].action, intent.action) && ops[at].state == Queued && id(ops[at].path) == id(intent.path)
    ensures forall later | later in ops[at + 1..] :: later.state == Resolved || !Conflict(id, ops[at], later)
  {
    var tail := ops[at + 1..];
    forall later | later in tail
      ensures later.state == Resolved || !Conflict(id, ops[at], later)
    {
      var j :| 0 <= j < |tail| && tail[j] == later;
      assert later == ops[at + 1 + j];
    }
  }

  lemma KeptOrReplaced(id: Identity, v: Vault, front: seq<Operation>, replaced: Operation, tail: seq<Operation>, op: Operation)
    requires SameKind(replaced.action, op.action) && !op.action.Rename? && op.state == Queued == replaced.state
    requires id(replaced.path) == id(op.path)
    requires forall later | later in tail :: later.state == Resolved || !Conflict(id, replaced, later)
    ensures PerformAll(id, v, front + tail + [op]) == PerformAll(id, v, front + ([replaced] + tail) + [op])
  {
    hide Perform, PerformAll, Conflict;
    ReplacedIsOverwritten(id, PerformAll(id, v, front), replaced, tail, op);
    PerformSplits(id, v, front, tail + [op]);
    PerformSplits(id, v, front, [replaced] + tail + [op]);
    assert front + tail + [op] == front + (tail + [op]);
    assert front + ([replaced] + tail) + [op] == front + ([replaced] + tail + [op]);
  }

  /** The replaced operation and its successor touch one path identity; nothing between reads or writes it. */
  lemma ReplacedIsOverwritten(id: Identity, v: Vault, replaced: Operation, tail: seq<Operation>, op: Operation)
    requires SameKind(replaced.action, op.action) && !op.action.Rename? && op.state == Queued == replaced.state
    requires id(replaced.path) == id(op.path)
    requires forall later | later in tail :: later.state == Resolved || !Conflict(id, replaced, later)
    ensures PerformAll(id, v, tail + [op]) == PerformAll(id, v, [replaced] + tail + [op])
  {
    var key := id(op.path);
    var w := Perform(id, v, replaced);
    assert v - {key} == w - {key};
    forall later | later in tail
      ensures later.state == Resolved || key !in Touches(id, later)
    {
      assert key in Touches(id, replaced);
      if key in Touches(id, later) {
        assert key in Touches(id, replaced) * Touches(id, later);
      }
    }
    TailAgrees(id, key, v, w, tail);
    PerformSplits(id, v, tail, [op]);
    PerformSplits(id, w, tail, [op]);
    assert [replaced] + tail + [op] == [replaced] + (tail + [op]);
    assert ([replaced] + (tail + [op]))[1..] == tail + [op];
    LastOverwrites(id, key, PerformAll(id, v, tail), PerformAll(id, w, tail), op);
  }

  lemma LastOverwrites(id: Identity, key: Path, v: Vault, w: Vault, op: Operation)
    requires AgreeOff(key, v, w) && key == id(op.path) && !op.action.Rename? && op.state == Queued
    ensures PerformAll(id, v, [op]) == PerformAll(id, w, [op])
  {
    var a, b := Perform(id, v, op), Perform(id, w, op);
    forall other | other != key
      ensures (other in a <==> other in b) && (other in a ==> a[other] == b[other])
    {
      AgreeAt(key, v, w, other);
    }
    assert a == b;
    assert [op][1..] == [];
  }

  /** When two renames of one path come to the same vault whether the first is carried out or not: nothing is
      there to move, the first moves it onto itself or to the same place, or all three hold the same file. */
  predicate RenamesAgree(v: Vault, from: Path, first: Path, second: Path) {
    || from !in v || first == from || first == second
    || (from != second && first in v && second in v && v[first] == v[from] == v[second])
  }

  lemma TwoRenames(id: Identity, v: Vault, first: Operation, second: Operation)
    requires first.action.Rename? && second.action.Rename? && first.state == second.state == Queued
    requires id(first.path) == id(second.path)
    ensures Perform(id, v, second) == Perform(id, Perform(id, v, first), second)
       <==> RenamesAgree(v, id(first.path), id(first.action.to), id(second.action.to))
  {
    var p, x, y := id(first.path), id(first.action.to), id(second.action.to);
    if p in v && x != p {
      var w := Perform(id, v, first);
      assert p !in w && Perform(id, w, second) == w;
      var kept := Perform(id, v, second);
      assert w == (v - {p})[x := v[p]] && kept == (v - {p})[y := v[p]];
      if x != y {
        RenamesApart(v, p, x, y);
      }
    } else if p in v {
      assert Perform(id, v, first) == v;
    }
  }

  lemma RenamesApart(v: Vault, p: Path, x: Path, y: Path)
    requires p in v && x != p && x != y
    ensures (v - {p})[x := v[p]] == (v - {p})[y := v[p]]
       <==> p != y && x in v && y in v && v[x] == v[p] == v[y]
  {
    var w, kept := (v - {p})[x := v[p]], (v - {p})[y := v[p]];
    if p != y && x in v && y in v && v[x] == v[p] == v[y] {
      assert w == v - {p};
      assert kept == v - {p};
    }
    assert w == kept ==> x in kept && y in w;
  }

  /** An operation that does not touch a rename's paths commutes with it. */
  lemma RenameCommutes(id: Identity, v: Vault, rename: Operation, later: Operation)
    requires rename.action.Rename? && (later.state == Resolved || !Conflict(id, rename, later))
    ensures Perform(id, Perform(id, v, rename), later) == Perform(id, Perform(id, v, later), rename)
  {
    var p, x := id(rename.path), id(rename.action.to);
    assert p in Touches(id, rename) && x in Touches(id, rename);
    if later.state != Resolved {
      Untouching(id, rename, later, p);
      Untouching(id, rename, later, x);
      assert id(later.path) in Touches(id, later);
      if later.action.Rename? {
        assert id(later.action.to) in Touches(id, later);
      }
    }
  }

  lemma Untouching(id: Identity, op: Operation, later: Operation, key: Path)
    requires !Conflict(id, op, later) && key in Touches(id, op)
    ensures key !in Touches(id, later)
  {
    assert key in Touches(id, later) ==> key in Touches(id, op) * Touches(id, later);
  }

  lemma {:induction false} RenameCommutesOver(id: Identity, v: Vault, rename: Operation, tail: seq<Operation>)
    requires rename.action.Rename? && forall later | later in tail :: later.state == Resolved || !Conflict(id, rename, later)
    ensures PerformAll(id, Perform(id, v, rename), tail) == Perform(id, PerformAll(id, v, tail), rename)
    decreases |tail|
  {
    if tail != [] {
      RenameCommutes(id, v, rename, tail[0]);
      RenameCommutesOver(id, Perform(id, v, tail[0]), rename, tail[1..]);
    }
  }

  /** No rename is replaced, or the replaced one agrees with its successor on the vault the other operations leave. */
  predicate CoalescedAgree(id: Identity, ops: seq<Operation>, at: nat, intent: Intent, v: Vault)
    requires intent.action.Rename? && (at < |ops| ==> ops[at].action.Rename?)
  {
    at >= |ops| || RenamesAgree(PerformAll(id, v, ops[..at] + ops[at + 1..]), id(intent.path), id(ops[at].action.to), id(intent.action.to))
  }

  /** Coalescing of renames, exactly. Replacing the earlier rename preserves the meaning of the queue if and only
      if the two renames agree on the vault that the other operations leave. */
  lemma RenamesCoalesceExactly(id: Identity, s: State, intent: Intent, hash: Hash, key: Key, v: Vault)
    requires intent.action.Rename? && Enqueue(id, s, intent, hash, key).Success?
    ensures PerformAll(id, v, Enqueue(id, s, intent, hash, key).value.pendingOps)
            == PerformAll(id, v, s.pendingOps + [NewOperation(intent, hash, key)])
       <==> CoalescedAgree(id, s.pendingOps, ReplaceIndex(id, s.pendingOps, intent.action, intent.path, 0), intent, v)
  {
    hide PerformAll, Enqueue, ReplaceIndex, Replaceable, Conflict, Edit, RenamesAgree;
    var ops, op := s.pendingOps, NewOperation(intent, hash, key);
    var at := ReplaceIndex(id, ops, intent.action, intent.path, 0);
    CoalescedQueue(id, s, intent, hash, key);
    if at < |ops| {
      RenamedOrReplaced(id, v, ops[..at], ops[at], ops[at + 1..], op);
    }
  }

  lemma RenamedOrReplaced(id: Identity, v: Vault, front: seq<Operation>, replaced: Operation, tail: seq<Operation>, op: Operation)
    requires replaced.action.Rename? && op.action.Rename? && op.state == Queued == replaced.state
    requires id(replaced.path) == id(op.path)
    requires forall later | later in tail :: later.state == Resolved || !Conflict(id, replaced, later)
    ensures PerformAll(id, v, front + tail + [op]) == PerformAll(id, v, front + ([replaced] + tail) + [op])
       <==> RenamesAgree(PerformAll(id, v, front + tail), id(op.path), id(replaced.action.to), id(op.action.to))
  {
    hide Perform, Conflict;
    var start := PerformAll(id, v, front);
    var w := PerformAll(id, start, tail);
    PerformSplits(id, v, front, tail);
    PerformSplits(id, v, front + tail, [op]);
    PerformSplits(id, v, front, [replaced] + tail);
    PerformSplits(id, v, front + ([replaced] + tail), [op]);
    assert ([replaced] + tail)[1..] == tail;
    RenameCommutesOver(id, start, replaced, tail);
    OneIsPerformed(id, w, op);
    OneIsPerformed(id, Perform(id, w, replaced), op);
    TwoRenames(id, w, replaced, op);
  }

  lemma OneIsPerformed(id: Identity, v: Vault, op: Operation)
    ensures PerformAll(id, v, [op]) == Perform(id, v, op)
  {
    assert [op][1..] == [];
  }

  /** The limit of coalescing: two renames of one source do not compose, so replacing the first changes the vault. */
  lemma CoalescingRenamesChangesMeaning()
    ensures exists id: Identity, s: State, intent: Intent, v: Vault ::
      && intent.action.Rename? && Enqueue(id, s, intent, Sha256([]), 2).Success?
      && PerformAll(id, v, Enqueue(id, s, intent, Sha256([]), 2).value.pendingOps)
         != PerformAll(id, v, s.pendingOps + [NewOperation(intent, Sha256([]), 2)])
  {
    var id: Identity := (path: Path) => path;
    var first := Operation(1, Rename("b", None), "a", Absent, Sha256([]), 0, None, Queued);
    var intent := Intent(Rename("c", None), "a", Absent);
    var second := NewOperation(intent, Sha256([]), 2);
    var s := FreshState().(pendingOps := [first]);
    var v: Vault := map["a" := Sha256([1])];
    assert Replaceable(id, [first], 0, intent.action, "a");
    DropAtIsSlice([first], 0);
    var replaced := Enqueue(id, s, intent, Sha256([]), 2).value.pendingOps;
    assert replaced == [second];
    assert [second][1..] == [];
    assert "c" in PerformAll(id, v, [second]);
    assert ([first] + [second])[1..] == [second];
    assert "a"[0] != "c"[0] && "b"[0] != "c"[0] && "a"[0] != "b"[0];
    var w := Perform(id, v, first);
    assert "a" !in w && "c" !in w;
    assert Perform(id, w, second) == w;
    assert PerformAll(id, w, [second]) == PerformAll(id, w, []);
    assert PerformAll(id, v, [first] + [second]) == PerformAll(id, w, [second]);
  }
}
