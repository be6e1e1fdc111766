/** The effect fence between an observed local delete or rename and the owner's decision about it. */
module Coexistence {
  import opened Bytes
  import opened DeviceState
  import opened JournalSteps

  /** Prevents new effects while a capture is open, has failed, or left a decision pending. */
  class CoexistenceEffectFence {
    var activeCaptures: nat
    var failedCapture: bool
    var next: nat
    var released: set<nat>
    /** Captures begun and not released. */
    ghost var open: set<nat>

    ghost predicate Valid()
      reads this
    {
      && activeCaptures == |open|
      && (forall token | token in open :: token < next && token !in released)
    }

    constructor ()
      ensures Valid() && open == {} && !failedCapture
    {
      activeCaptures, failedCapture, next, released, open := 0, false, 0, {}, {};
    }

    predicate IsBlocked(confirmations: seq<Confirmation>)
      reads this
    {
      failedCapture || activeCaptures > 0 || |confirmations| > 0
    }

    /** Closes admission before the capture's first await. */
    method BeginCapture() returns (token: nat)
      requires Valid()
      modifies this
      ensures Valid() && token !in old(open) && open == old(open) + {token} && failedCapture == old(failedCapture)
    {
      token := next;
      next, activeCaptures := next + 1, activeCaptures + 1;
      released := released - {token};
      open := open + {token};
    }

    /** Releases a capture once; a failed one keeps the gate closed for this lifetime. */
    method Release(token: nat, succeeded: bool)
      requires Valid() && (token in open || token in released)
      modifies this
      ensures Valid() && open == old(open) - {token}
      ensures failedCapture == (old(failedCapture) || (token in old(open) && !succeeded))
    {
      if token in released {
        return;
      }
      released, activeCaptures := released + {token}, activeCaptures - 1;
      open := open - {token};
      if !succeeded {
        failedCapture := true;
      }
    }

    lemma OpenCapturesBlock(token: nat, confirmations: seq<Confirmation>)
      requires Valid() && token in open
      ensures IsBlocked(confirmations)
    {
      assert |open| > 0;
    }
  }

  /** Where one observation stands: waiting for host-origin proof, saving its decision, or checking placeholders. */
  datatype Stage = Proving | Saving | Checking

  datatype Observation = Observation(stage: Stage, token: nat, frozen: Confirmation)

  /** Copies decision authority at event time; a stale source carries none. */
  function Freeze(s: State, path: Path, to: Option<Path>): Confirmation {
    var stale := path in s.stale;
    Confirmation(0, path, to,
      if stale then None else s.epoch,
      if stale then None else BaseAt(s, path),
      if stale then Some(STALE_SOURCE) else None)
  }

  ghost predicate Awaits(s: State, key: Key) {
    exists item | item in s.confirmations :: item.id == key
  }

  lemma {:induction false} WithoutKeeps(items: seq<Confirmation>, key: Key, item: Confirmation)
    ensures item in Without(items, key) <==> item in items && item.id != key
  {
    if items != [] {
      WithoutKeeps(items[..|items| - 1], key, item);
    }
  }

  lemma MarkedKeeps(items: seq<Confirmation>, key: Key, reason: string, item: Confirmation)
    requires item in items
    ensures exists kept | kept in Marked(items, key, reason) :: kept.id == item.id
  {
    var i :| 0 <= i < |items| && items[i] == item;
    assert Marked(items, key, reason)[i].id == item.id;
  }

  /** The transitions by which the owner decides: the queue takes the intent over, or the server state stays. */
  predicate Decides(command: Command, key: Key) {
    command == CClearConfirmation(key) || (command.CConfirm? && command.confirmation == key)
  }

  /** A committed decision acts only on authority that still is what the event froze: the path is trusted, live,
      and at the revision and epoch seen then. Anything else queues nothing. */
  lemma DecisionActsOnFrozenAuthority(s: State, confirmation: Key, key: Key)
    requires Confirm(s, confirmation, key).Success?
    ensures var t := Confirm(s, confirmation, key).value;
            || t.pendingOps == s.pendingOps
            || exists item | item in s.confirmations ::
                 && item.id == confirmation && item.staleReason.None? && item.path !in s.stale
                 && item.epoch == s.epoch && item.base == BaseAt(s, item.path)
                 && s.epoch.Some? && item.base.Some? && item.base.value.Live?
                 && t.pendingOps == s.pendingOps + [Operation(
                      key, if item.to.Some? then Rename(item.to.value, Some(item.base.value.hash)) else Delete(None),
                      item.path, Match(s.epoch.value, item.base.value.rev), Sha256([]), 0, None, Queued)]
  {
    var i := ConfirmationIndex(s.confirmations, confirmation, 0);
    if i < |s.confirmations| {
      assert s.confirmations[i] in s.confirmations;
    }
  }

  lemma ConfirmKeepsOthers(s: State, confirmation: Key, newKey: Key, key: Key)
    requires Confirm(s, confirmation, newKey).Success? && Awaits(s, key) && key != confirmation
    ensures Awaits(Confirm(s, confirmation, newKey).value, key)
  {
    var item :| item in s.confirmations && item.id == key;
    WithoutKeeps(s.confirmations, confirmation, item);
    var i := ConfirmationIndex(s.confirmations, confirmation, 0);
    if i < |s.confirmations| && Doubt(s, s.confirmations[i]).Some? {
      MarkedKeeps(s.confirmations, confirmation, Doubt(s, s.confirmations[i]).value, item);
    }
  }

  /** No transition but the owner's decision about it takes a pending decision away. */
  lemma DecisionsStay(id: Identity, s: State, command: Command, key: Key)
    requires Next(id, s, command).Success? && Awaits(s, key) && !Decides(command, key)
    ensures Awaits(Next(id, s, command).value, key)
  {
    var item :| item in s.confirmations && item.id == key;
    match command {
      case CClearConfirmation(other) => WithoutKeeps(s.confirmations, other, item);
      case CMarkStale(other, reason) => MarkedKeeps(s.confirmations, other, reason, item);
      case CConfirm(confirmation, newKey) => ConfirmKeepsOthers(s, confirmation, newKey, key);
      case _ => OthersKeepConfirmations(id, s, command);
    }
  }

  lemma OthersKeepConfirmations(id: Identity, s: State, command: Command)
    requires Next(id, s, command).Success?
    requires !command.CClearConfirmation? && !command.CMarkStale? && !command.CConfirm?
    ensures s.confirmations <= Next(id, s, command).value.confirmations
  {
  }

  lemma SavingAwaits(id: Identity, s: State, item: Confirmation)
    requires Next(id, s, CSaveConfirmation(item)).Success?
    ensures Awaits(Next(id, s, CSaveConfirmation(item)).value, item.id)
  {
    var t := Next(id, s, CSaveConfirmation(item)).value;
    if t != s {
      assert t.confirmations[|s.confirmations|] == item;
    }
  }

  datatype Kind = Changed | Deleted | RenamedTo(to: Path) {
    function Target(): Option<Path> {
      if RenamedTo? then Some(to) else None
    }
  }

  /** Owns durable owner decisions in coexistence mode. */
  class CoexistenceController {
    const fence: CoexistenceEffectFence
    const id: Identity
    const excluded: Path -> bool
    var state: State
    /** Events being observed, and events already handled. */
    var observations: map<nat, Observation>
    var handled: set<nat>
    /** In-scope destructive events observed and not proven to be the plugin's own. */
    ghost var intents: set<nat>
    /** The saved decision of each event, and the decisions the owner has committed. */
    ghost var saved: map<nat, Key>
    ghost var decided: set<Key>
    ghost var failed: set<nat>

    /** Each observation holds a capture of its own. */
    ghost predicate Captured()
      reads this`observations, fence
    {
      && fence.Valid()
      && (forall event | event in observations :: observations[event].token in fence.open)
      && (forall e, f | e in observations && f in observations && e != f :: observations[e].token != observations[f].token)
    }

    /** A saved decision is pending until the owner commits it. */
    ghost predicate Remembered()
      reads this`saved, this`decided, this`state
    {
      forall event | event in saved :: saved[event] in decided || Awaits(state, saved[event])
    }

    /** Every intent is held by its open capture, its saved decision, or the failure latch. */
    ghost predicate Valid()
      reads this, fence
    {
      && Captured() && Remembered()
      && (failed != {} ==> fence.failedCapture)
      && (forall event | event in intents :: event in observations || event in saved || event in failed)
      && (forall event | event in observations && observations[event].stage == Checking :: event in saved)
    }

    /** The event is being observed, or was. */
    ghost predicate Knows(event: nat)
      reads this`observations, this`handled
    {
      event in observations || event in handled
    }

    constructor (id: Identity, excluded: Path -> bool, state: State)
      ensures Valid() && fresh(fence) && this.excluded == excluded && this.state == state
      ensures observations == map[] && handled == {} && intents == {} && saved == map[] && decided == {}
    {
      this.id, this.excluded, this.state := id, excluded, state;
      fence := new CoexistenceEffectFence();
      observations, handled, intents, saved, decided, failed := map[], {}, {}, map[], {}, {};
    }

    predicate IsBlocked()
      reads this, fence
    {
      fence.IsBlocked(state.confirmations)
    }

    /** Gap-free fence: an intent whose decision the owner has not committed blocks effects, at every point. */
    lemma IntentBlocks(event: nat)
      requires Valid() && event in intents && (event in saved ==> saved[event] !in decided)
      ensures IsBlocked()
    {
      if event in observations {
        fence.OpenCapturesBlock(observations[event].token, state.confirmations);
      } else if event in saved {
        var item :| item in state.confirmations && item.id == saved[event];
      }
    }

    /** A failed capture blocks for the rest of this lifetime. */
    lemma FailureBlocks()
      requires Valid() && failed != {}
      ensures IsBlocked()
    {
    }

    /** In coexistence mode, an in-scope delete or rename takes something away. */
    predicate IsDestructive(enabled: bool, kind: Kind, path: Path) {
      enabled && !kind.Changed? && !excluded(path)
    }

    lemma FenceHolds()
      requires Valid()
      ensures forall event | event in intents && (event in saved ==> saved[event] !in decided) :: IsBlocked()
      ensures failed != {} ==> IsBlocked()
    {
      forall event | event in intents && (event in saved ==> saved[event] !in decided)
        ensures IsBlocked()
      {
        IntentBlocks(event);
      }
      if failed != {} {
        FailureBlocks();
      }
    }

    /** Opens the capture of a new observation. */
    method Capture(event: nat, stage: Stage, frozen: Confirmation)
      requires Captured() && event !in observations
      modifies this`observations, fence
      ensures Captured() && fence.failedCapture == old(fence.failedCapture)
      ensures event in observations && observations == old(observations)[event := observations[event]]
      ensures observations[event].stage == stage && observations[event].frozen == frozen
    {
      var token := fence.BeginCapture();
      observations := observations[event := Observation(stage, token, frozen)];
    }

    /** The synchronous part of an observation: for a destructive event, admission closes and authority is frozen
        before any await. A repeated delivery of the same event shares the first. */
    method Observe(event: nat, enabled: bool, kind: Kind, path: Path, hasProof: bool)
      requires Valid()
      modifies this`observations, this`intents, fence
      ensures Valid()
      ensures intents == if IsDestructive(enabled, kind, path) && !old(Knows(event)) then old(intents) + {event} else old(intents)
      ensures forall e :: Knows(e) <==> old(Knows(e)) || (e == event && IsDestructive(enabled, kind, path))
      ensures event in observations && event !in old(observations) ==>
        observations[event].frozen == Freeze(state, path, kind.Target())
    {
      hide Captured, Remembered, Freeze, Kind.Target;
      if event in handled || event in observations || !IsDestructive(enabled, kind, path) {
        return;
      }
      Capture(event, if hasProof then Proving else Saving, Freeze(state, path, kind.Target()));
      intents := intents + {event};
    }

    /** The origin proof settles: the plugin's own effect needs no decision, anything else is saved. */
    method ProofSettled(event: nat, isPlugin: bool)
      requires Valid() && event in observations && observations[event].stage == Proving
      modifies this`observations, this`handled, this`intents, fence
      ensures Valid()
      ensures intents == if isPlugin then old(intents) - {event} else old(intents)
      ensures isPlugin ==> event !in observations && event in handled
      ensures forall e :: Knows(e) <==> old(Knows(e))
    {
      hide Remembered;
      if !isPlugin {
        observations := observations[event := observations[event].(stage := Saving)];
        return;
      }
      var token := observations[event].token;
      observations := observations - {event};
      fence.Release(token, true);
      handled := handled + {event};
      intents := intents - {event};
    }

    /** The decision is durable, or its save failed and the gate stays closed. */
    method SaveSettled(event: nat, key: Key, ok: bool)
      requires Valid() && event in observations && observations[event].stage == Saving
      requires key !in decided && forall e | e in saved :: saved[e] != key
      modifies this, fence
      ensures Valid() && intents == old(intents) && decided == old(decided)
      ensures event in saved || event in failed
      ensures forall e | Knows(e) :: old(Knows(e))
      ensures saved == old(saved) || saved == old(saved)[event := key]
      ensures saved != old(saved) ==> Next(id, old(state), CSaveConfirmation(old(observations)[event].frozen.(id := key))) == Success(state)
    {
      hide Next;
      var item := observations[event].frozen.(id := key);
      var next := Next(id, state, CSaveConfirmation(item));
      if !ok || next.Failure? {
        CaptureFailed(event);
      } else {
        DecisionSaved(event, item, next.value);
      }
    }

    /** A capture that could not be saved latches the gate. */
    method CaptureFailed(event: nat)
      requires Valid() && event in observations
      modifies this`observations, this`failed, fence
      ensures Valid() && event in failed
      ensures forall e :: Knows(e) <==> old(Knows(e)) && (e != event || event in handled)
    {
      hide Remembered;
      var token := observations[event].token;
      observations := observations - {event};
      fence.Release(token, false);
      failed := failed + {event};
    }

    method DecisionSaved(event: nat, item: Confirmation, next: State)
      requires Valid() && event in observations
      requires Next(id, state, CSaveConfirmation(item)) == Success(next)
      requires item.id !in decided && forall e | e in saved :: saved[e] != item.id
      modifies this`state, this`saved, this`handled, this`observations
      ensures Valid() && saved == old(saved)[event := item.id] && state == next
      ensures forall e :: Knows(e) <==> old(Knows(e))
    {
      hide Next, Awaits;
      SavingAwaits(id, state, item);
      forall e | e in saved && saved[e] !in decided
        ensures Awaits(next, saved[e])
      {
        DecisionsStay(id, state, CSaveConfirmation(item), saved[e]);
      }
      state := next;
      saved := saved[event := item.id];
      handled := handled + {event};
      observations := observations[event := observations[event].(stage := Checking)];
    }

    /** Placeholder checks settle, with or without an error: the decision is already durable. */
    method ChecksSettled(event: nat)
      requires Valid() && event in observations && observations[event].stage == Checking
      modifies this`observations, fence
      ensures Valid()
      ensures forall e :: Knows(e) <==> old(Knows(e)) && (e != event || event in handled)
    {
      hide Remembered;
      var token := observations[event].token;
      observations := observations - {event};
      fence.Release(token, true);
    }

    /** Any journal transition: only the owner's decision about a key removes its pending decision. */
    method Transition(command: Command)
      requires Valid() && Next(id, state, command).Success?
      modifies this`state, this`decided
      ensures Valid() && Next(id, old(state), command) == Success(state)
      ensures forall key | key in decided && key !in old(decided) :: Decides(command, key) && !Awaits(state, key)
      ensures forall key | key in decided && key !in old(decided) :: key in saved.Values
    {
      var next := Next(id, state, command).value;
      forall e | e in saved && saved[e] !in decided && !Decides(command, saved[e])
        ensures Awaits(next, saved[e])
      {
        DecisionsStay(id, state, command, saved[e]);
      }
      hide Next;
      decided := decided + set e | e in saved && !Awaits(next, saved[e]) :: saved[e];
      state := next;
    }
  }

  /** One thing that can happen next, in any order. */
  datatype Happening =
    | Observed(event: nat, enabled: bool, kind: Kind, path: Path, hasProof: bool)
    | Proved(event: nat, isPlugin: bool)
    | SaveEnded(event: nat, stored: bool)
    | ChecksEnded(event: nat)
    | Committed(command: Command)

  /** Decisions already named keep clear of the next name. */
  ghost predicate NamesBelow(c: CoexistenceController, next: Key)
    reads c
  {
    (forall e | e in c.saved :: c.saved[e] < next) && (forall key | key in c.decided :: key < next)
  }

  /** Carries out one happening if it can occur; a decision saved now is named `key`. */
  method Happen(c: CoexistenceController, h: Happening, key: Key)
    requires c.Valid() && NamesBelow(c, key)
    modifies c, c.fence
    ensures c.Valid() && NamesBelow(c, key + 1)
    ensures c.intents == old(c.intents)
         || (h.Observed? && c.intents == old(c.intents) + {h.event}) || (h.Proved? && h.isPlugin && c.intents == old(c.intents) - {h.event})
    ensures h.Observed? && c.IsDestructive(h.enabled, h.kind, h.path) ==> h.event in c.intents || old(c.Knows(h.event))
    ensures forall event | c.Knows(event) :: old(c.Knows(event)) || (h.Observed? && event in c.intents)
  {
    hide Next, CoexistenceController.Valid, Awaits, Decides;
    match h {
      case Observed(event, enabled, kind, path, hasProof) => c.Observe(event, enabled, kind, path, hasProof);
      case Proved(event, isPlugin) =>
        if event in c.observations && c.observations[event].stage == Proving {
          c.ProofSettled(event, isPlugin);
        }
      case SaveEnded(event, stored) =>
        if event in c.observations && c.observations[event].stage == Saving {
          c.SaveSettled(event, key, stored);
        }
      case ChecksEnded(event) =>
        if event in c.observations && c.observations[event].stage == Checking {
          c.ChecksSettled(event);
        }
      case Committed(command) =>
        if Next(c.id, c.state, command).Success? {
          c.Transition(command);
        }
    }
  }

  /** The fence has no gap under any interleaving of deliveries, proofs, saves, checks and journal transitions: an
      observed destructive event that no proof claimed for the plugin blocks effects until the owner's decision
      about it is committed, and a failed capture blocks for good. */
  method Interleave(c: CoexistenceController, happenings: seq<Happening>, first: Key)
    requires c.Valid() && NamesBelow(c, first) && forall event :: !c.Knows(event)
    modifies c, c.fence
    ensures c.Valid()
    ensures forall h | h in happenings && h.Observed? && c.IsDestructive(h.enabled, h.kind, h.path)
                       && Proved(h.event, true) !in happenings ::
      h.event in c.intents && (c.IsBlocked() || (h.event in c.saved && c.saved[h.event] in c.decided))
    ensures c.failed != {} ==> c.IsBlocked()
  {
    hide Next, CoexistenceController.Valid, CoexistenceController.IsBlocked, CoexistenceController.Knows, NamesBelow;
    ghost var proved: set<nat> := {};
    for i := 0 to |happenings|
      invariant c.Valid() && NamesBelow(c, first + i)
      invariant forall event | event in proved :: Proved(event, true) in happenings
      invariant forall event | c.Knows(event) :: event in c.intents || event in proved
      invariant forall j | 0 <= j < i && happenings[j].Observed?
                           && c.IsDestructive(happenings[j].enabled, happenings[j].kind, happenings[j].path) ::
        happenings[j].event in c.intents || happenings[j].event in proved
    {
      Happen(c, happenings[i], first + i);
      if happenings[i].Proved? && happenings[i].isPlugin {
        proved := proved + {happenings[i].event};
      }
    }
    c.FenceHolds();
  }
}
