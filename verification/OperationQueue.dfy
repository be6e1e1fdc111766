/** Order-preserving edits of the operation queue, and the custody of keys. */
module OperationQueue {
  import opened Bytes
  import opened DeviceState

  /** Keeps, rewrites, or drops each operation by position, in order. */
  function Edit(f: (nat, Operation) -> Option<Operation>, ops: seq<Operation>): (r: seq<Operation>) {
    if ops == [] then []
    else
      var n := |ops| - 1;
      Edit(f, ops[..n]) + Listed(f(n, ops[n]))
  }

  function Listed(kept: Option<Operation>): seq<Operation> {
    if kept.Some? then [kept.value] else []
  }

  /** The operations an edit drops. */
  function Rest(f: (nat, Operation) -> Option<Operation>): (nat, Operation) -> Option<Operation> {
    (i: nat, op: Operation) => if f(i, op).None? then Some(op) else None
  }

  function KeysOf(ops: seq<Operation>): multiset<Key> {
    if ops == [] then multiset{} else KeysOf(ops[..|ops| - 1]) + multiset{ops[|ops| - 1].key}
  }

  function HeldKey(item: Attention): multiset<Key> {
    if item.operation.Some? then multiset{item.operation.value.key} else multiset{}
  }

  function AttentionKeys(items: seq<Attention>): multiset<Key> {
    if items == [] then multiset{} else AttentionKeys(items[..|items| - 1]) + HeldKey(items[|items| - 1])
  }

  /** Every key the journal holds: pending or kept in attention. */
  function Held(s: State): multiset<Key> {
    KeysOf(s.pendingOps) + AttentionKeys(s.attention)
  }

  function Select(p: Attention -> bool, items: seq<Attention>): seq<Attention> {
    if items == [] then []
    else
      var n := |items| - 1;
      Select(p, items[..n]) + if p(items[n]) then [items[n]] else []
  }

  /** No unresolved operation has a conflicting later one that is anything but queued. */
  ghost predicate Ordered(id: Identity, ops: seq<Operation>) {
    forall i, j | 0 <= i < j < |ops| && ops[i].state != Resolved && Conflict(id, ops[i], ops[j]) ::
      ops[j].state == Queued
  }

  /** An edit that keeps keys and paths, and marks as sent only what nothing unresolved precedes. */
  ghost predicate Tame(id: Identity, f: (nat, Operation) -> Option<Operation>, ops: seq<Operation>) {
    forall i | 0 <= i < |ops| && f(i, ops[i]).Some? :: TameAt(id, f(i, ops[i]).value, ops, i)
  }

  ghost predicate TameAt(id: Identity, next: Operation, ops: seq<Operation>, i: nat)
    requires i < |ops|
  {
    && next.key == ops[i].key
    && Touches(id, next) == Touches(id, ops[i])
    && (next.state == ops[i].state
        || (next.state == Sent && ops[i].state == Queued
            && forall j | 0 <= j < i && ops[j].state != Resolved :: !Conflict(id, ops[j], ops[i])))
  }

  /** Each edited operation comes from one operation before the edit. */
  lemma {:induction false} EditOrigin(f: (nat, Operation) -> Option<Operation>, ops: seq<Operation>, j: nat)
    requires j < |Edit(f, ops)|
    ensures exists i :: 0 <= i < |ops| && f(i, ops[i]) == Some(Edit(f, ops)[j])
  {
    var n := |ops| - 1;
    if j < |Edit(f, ops[..n])| {
      EditOrigin(f, ops[..n], j);
      var i :| 0 <= i < n && f(i, ops[..n][i]) == Some(Edit(f, ops[..n])[j]);
      assert ops[i] == ops[..n][i];
    } else {
      assert f(n, ops[n]) == Some(Edit(f, ops)[j]);
    }
  }

  lemma {:induction false} EditKeeps(f: (nat, Operation) -> Option<Operation>, ops: seq<Operation>, i: nat)
    requires i < |ops| && f(i, ops[i]).Some?
    ensures f(i, ops[i]).value in Edit(f, ops)
  {
    var n := |ops| - 1;
    if i < n {
      assert ops[..n][i] == ops[i];
      EditKeeps(f, ops[..n], i);
    }
  }

  lemma TameFront(id: Identity, f: (nat, Operation) -> Option<Operation>, ops: seq<Operation>)
    requires ops != [] && Tame(id, f, ops) && Ordered(id, ops)
    ensures Tame(id, f, ops[..|ops| - 1]) && Ordered(id, ops[..|ops| - 1])
  {
    var front := ops[..|ops| - 1];
    forall i | 0 <= i < |front| && f(i, front[i]).Some?
      ensures TameAt(id, f(i, front[i]).value, front, i)
    {
      assert TameAt(id, f(i, ops[i]).value, ops, i);
    }
  }

  /** Ordering survives every tame edit of the queue. */
  lemma {:induction false} EditKeepsOrder(id: Identity, f: (nat, Operation) -> Option<Operation>, ops: seq<Operation>)
    requires Tame(id, f, ops) && Ordered(id, ops)
    ensures Ordered(id, Edit(f, ops))
  {
    if ops != [] {
      var n := |ops| - 1;
      var front, result := Edit(f, ops[..n]), Edit(f, ops);
      TameFront(id, f, ops);
      EditKeepsOrder(id, f, ops[..n]);
      forall i, j | 0 <= i < j < |result| && result[i].state != Resolved && Conflict(id, result[i], result[j])
        ensures result[j].state == Queued
      {
        if j == |front| {
          EditOrigin(f, ops[..n], i);
          var k :| 0 <= k < n && f(k, ops[..n][k]) == Some(front[i]);
          assert ops[..n][k] == ops[k];
          assert TameAt(id, front[i], ops, k) && TameAt(id, result[j], ops, n);
          assert Conflict(id, ops[k], ops[n]);
        }
      }
    }
  }

  /** Appending a queued operation cannot disturb the order. */
  lemma AppendKeepsOrder(id: Identity, ops: seq<Operation>, op: Operation)
    requires Ordered(id, ops) && op.state == Queued
    ensures Ordered(id, ops + [op])
  {
  }

  /** An edit that keeps keys splits custody between what stays and what is dropped. */
  lemma {:induction false} EditSplitsKeys(f: (nat, Operation) -> Option<Operation>, ops: seq<Operation>)
    requires forall i | 0 <= i < |ops| && f(i, ops[i]).Some? :: f(i, ops[i]).value.key == ops[i].key
    ensures KeysOf(ops) == KeysOf(Edit(f, ops)) + KeysOf(Edit(Rest(f), ops))
  {
    if ops != [] {
      hide Listed, Rest;
      var n := |ops| - 1;
      forall i | 0 <= i < n && f(i, ops[..n][i]).Some?
        ensures f(i, ops[..n][i]).value.key == ops[..n][i].key
      {
        assert ops[..n][i] == ops[i];
      }
      EditSplitsKeys(f, ops[..n]);
      var kept, dropped := Listed(f(n, ops[n])), Listed(Rest(f)(n, ops[n]));
      ListedOnce(f, n, ops[n]);
      KeysJoin(Edit(f, ops[..n]), kept);
      KeysJoin(Edit(Rest(f), ops[..n]), dropped);
      Regroup(KeysOf(Edit(f, ops[..n])), KeysOf(kept), KeysOf(Edit(Rest(f), ops[..n])), KeysOf(dropped));
    }
  }

  lemma Regroup<T>(a: multiset<T>, x: multiset<T>, b: multiset<T>, y: multiset<T>)
    ensures (a + x) + (b + y) == (a + b) + (x + y)
  {
  }

  lemma ListedOnce(f: (nat, Operation) -> Option<Operation>, n: nat, op: Operation)
    requires f(n, op).Some? ==> f(n, op).value.key == op.key
    ensures KeysOf(Listed(f(n, op))) + KeysOf(Listed(Rest(f)(n, op))) == multiset{op.key}
  {
    KeyOfOne(if f(n, op).Some? then f(n, op).value else op);
  }

  lemma KeyOfOne(op: Operation)
    ensures KeysOf([op]) == multiset{op.key} && KeysOf([]) == multiset{}
  {
    assert [op][..0] == [];
  }

  lemma {:induction false} KeysJoin(a: seq<Operation>, b: seq<Operation>)
    ensures KeysOf(a + b) == KeysOf(a) + KeysOf(b)
  {
    if b == [] {
      assert a + b == a;
    } else {
      var n := |b| - 1;
      assert (a + b)[..|a + b| - 1] == a + b[..n];
      KeysJoin(a, b[..n]);
    }
  }

  lemma {:induction false} AttentionKeysJoin(a: seq<Attention>, b: seq<Attention>)
    ensures AttentionKeys(a + b) == AttentionKeys(a) + AttentionKeys(b)
  {
    if b == [] {
      assert a + b == a;
    } else {
      var n := |b| - 1;
      assert (a + b)[..|a + b| - 1] == a + b[..n];
      AttentionKeysJoin(a, b[..n]);
    }
  }

  lemma {:induction false} KeyIsHeld(ops: seq<Operation>, i: nat)
    requires i < |ops|
    ensures ops[i].key in KeysOf(ops)
  {
    if i < |ops| - 1 {
      KeyIsHeld(ops[..|ops| - 1], i);
    }
  }

  lemma {:induction false} HeldByOperation(ops: seq<Operation>, key: Key)
    requires key in KeysOf(ops)
    ensures exists i :: 0 <= i < |ops| && ops[i].key == key
  {
    var n := |ops| - 1;
    if ops[n].key != key {
      HeldByOperation(ops[..n], key);
      var i :| 0 <= i < n && ops[..n][i].key == key;
      assert ops[i].key == key;
    }
  }

  lemma {:induction false} AttentionKeyIsHeld(items: seq<Attention>, i: nat)
    requires i < |items| && items[i].operation.Some?
    ensures items[i].operation.value.key in AttentionKeys(items)
  {
    if i < |items| - 1 {
      AttentionKeyIsHeld(items[..|items| - 1], i);
    }
  }

  lemma {:induction false} SelectAll(p: Attention -> bool, items: seq<Attention>)
    requires forall item | item in items :: p(item)
    ensures Select(p, items) == items
  {
    if items != [] {
      SelectAll(p, items[..|items| - 1]);
    }
  }

  lemma {:induction false} SelectSplitsKeys(p: Attention -> bool, items: seq<Attention>)
    ensures AttentionKeys(items)
         == AttentionKeys(Select(p, items)) + AttentionKeys(Select((item: Attention) => !p(item), items))
  {
    if items != [] {
      var n := |items| - 1;
      SelectSplitsKeys(p, items[..n]);
      var q := (item: Attention) => !p(item);
      if p(items[n]) {
        assert Select(p, items)[..|Select(p, items)| - 1] == Select(p, items[..n]);
        assert Select(q, items) == Select(q, items[..n]);
      } else {
        assert Select(q, items)[..|Select(q, items)| - 1] == Select(q, items[..n]);
        assert Select(p, items) == Select(p, items[..n]);
      }
    }
  }

  /** Distinct keys: an edit that drops exactly the operation with one key drops exactly that key. */
  lemma {:induction false} DropsOneKey(f: (nat, Operation) -> Option<Operation>, ops: seq<Operation>, i: nat)
    requires i < |ops| && forall j | 0 <= j < |ops| :: f(j, ops[j]).None? <==> j == i
    ensures Edit(Rest(f), ops) == [ops[i]]
  {
    var n := |ops| - 1;
    if i < n {
      forall j | 0 <= j < n
        ensures f(j, ops[..n][j]).None? <==> j == i
      {
        assert ops[..n][j] == ops[j];
      }
      DropsOneKey(f, ops[..n], i);
    } else {
      DropsNothing(f, ops[..n]);
    }
  }

  lemma {:induction false} DropsNothing(f: (nat, Operation) -> Option<Operation>, ops: seq<Operation>)
    requires forall j | 0 <= j < |ops| :: f(j, ops[j]).Some?
    ensures Edit(Rest(f), ops) == []
  {
    if ops != [] {
      var n := |ops| - 1;
      forall j | 0 <= j < n
        ensures f(j, ops[..n][j]).Some?
      {
        assert ops[..n][j] == ops[j];
      }
      DropsNothing(f, ops[..n]);
    }
  }

  lemma {:induction false} KeysAreUnique(ops: seq<Operation>, i: nat, j: nat)
    requires i < j < |ops| && ops[i].key == ops[j].key
    ensures KeysOf(ops)[ops[i].key] >= 2
  {
    var n := |ops| - 1;
    if j < n {
      KeysAreUnique(ops[..n], i, j);
    } else {
      KeyIsHeld(ops[..n], i);
    }
  }
}
