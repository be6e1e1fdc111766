/** One serialized sync loop: retained events, the admission queue, and the timers that feed it. */
module DesktopSync {
  import opened Bytes

  type Event = nat

  /** Host timers, by the handles still live. */
  class TimerHost {
    var intervals: set<nat>
    var timeouts: set<nat>
    var next: nat

    ghost predicate Valid()
      reads this
    {
      (forall handle | handle in intervals :: handle < next) && (forall handle | handle in timeouts :: handle < next)
    }

    constructor ()
      ensures Valid() && intervals == {} && timeouts == {}
    {
      intervals, timeouts, next := {}, {}, 0;
    }

    method SetInterval() returns (handle: nat)
      requires Valid()
      modifies this
      ensures Valid() && intervals == old(intervals) + {handle} && handle !in old(intervals) && timeouts == old(timeouts)
    {
      handle := next;
      intervals, next := intervals + {handle}, next + 1;
    }

    method SetTimeout() returns (handle: nat)
      requires Valid()
      modifies this
      ensures Valid() && timeouts == old(timeouts) + {handle} && handle !in old(timeouts) && intervals == old(intervals)
    {
      handle := next;
      timeouts, next := timeouts + {handle}, next + 1;
    }

    method ClearInterval(handle: nat)
      requires Valid()
      modifies this
      ensures Valid() && intervals == old(intervals) - {handle} && timeouts == old(timeouts)
    {
      intervals := intervals - {handle};
    }

    method ClearTimeout(handle: nat)
      requires Valid()
      modifies this
      ensures Valid() && timeouts == old(timeouts) - {handle} && intervals == old(intervals)
    {
      timeouts := timeouts - {handle};
    }
  }

  /** Where an admitted run stands: queued, or suspended at one of its awaits. */
  datatype Stage = Waiting | Capturing | Admitting | Cycling

  /** One link of the admission chain. Only the first link has left `Waiting`. */
  datatype Run = Cycle(stage: Stage) | Drain(stage: Stage, cycleNeeded: bool)

  /** A recovery that waits for every run admitted before it. */
  datatype Recovery = Recovery(revision: nat, after: nat)

  /** What a synchronous segment sees of its host; it cannot change within the segment. */
  datatype Sight = Sight(suspended: bool, visible: bool, blocked: bool)

  class DesktopSyncController {
    const host: TimerHost
    const excluded: Event -> bool
    var events: seq<Event>
    var interval: Option<nat>
    var debounce: Option<nat>
    var closed: bool
    var paused: bool
    var suspended: bool
    var started: bool
    var lifecycleRevision: nat
    /** The chain of admitted runs that have not settled. */
    var runs: seq<Run>
    var admitted: nat
    var recoveries: set<Recovery>
    /** Every event ever retained, and every event handled and removed, in order. */
    ghost var retained: seq<Event>
    ghost var processed: seq<Event>
    /** Shared effects in flight. */
    ghost var cyclesInFlight: nat
    ghost var eventsInFlight: nat

    ghost predicate Fenced()
      reads `closed, `paused, `suspended
    {
      closed || paused || suspended
    }

    /** Fences leave no timer behind; otherwise the host holds exactly the handles the controller knows. */
    ghost predicate TimersOwned()
      reads `closed, `paused, `suspended, `interval, `debounce, host
    {
      && host.Valid()
      && host.intervals == (if interval.Some? then {interval.value} else {})
      && host.timeouts == (if debounce.Some? then {debounce.value} else {})
      && (Fenced() ==> interval.None? && debounce.None?)
    }

    /** Later links wait for the first; there is at most one cycle and one drain. */
    ghost predicate ChainOrdered()
      reads `runs, `admitted, `events
    {
      && |runs| <= admitted
      && (forall i | 0 < i < |runs| :: runs[i].stage == Waiting)
      && (forall i, j | 0 <= i < j < |runs| :: runs[i].Cycle? != runs[j].Cycle?)
      && (runs != [] && runs[0].Cycle? ==> runs[0].stage == Waiting || runs[0].stage == Cycling)
      && (runs != [] && (runs[0].stage == Capturing || runs[0].stage == Admitting) ==> events != [])
    }

    ghost predicate EffectsExclusive()
      reads `runs, `cyclesInFlight, `eventsInFlight
    {
      && cyclesInFlight == (if runs != [] && runs[0].stage == Cycling then 1 else 0)
      && eventsInFlight == (if runs != [] && runs[0].stage == Admitting then 1 else 0)
    }

    ghost predicate Valid()
      reads this, host
    {
      && TimersOwned() && ChainOrdered() && EffectsExclusive()
      && retained == processed + events
    }

    constructor (host: TimerHost, excluded: Event -> bool)
      requires host.Valid() && host.intervals == {} && host.timeouts == {}
      ensures Valid() && this.host == host && events == [] && retained == []
    {
      this.host, this.excluded := host, excluded;
      events, interval, debounce, runs, admitted, recoveries := [], None, None, [], 0, {};
      closed, paused, suspended, started, lifecycleRevision := false, false, false, false, 0;
      retained, processed, cyclesInFlight, eventsInFlight := [], [], 0, 0;
    }

    /** Nothing retained is dropped or reordered, and no shared effect starts or ends here. */
    twostate predicate KeepsEvents()
      reads this
    {
      && retained == old(retained) && processed == old(processed) && events == old(events)
      && cyclesInFlight == old(cyclesInFlight) && eventsInFlight == old(eventsInFlight)
    }

    /** Nothing but a suspension the host reports can fence this segment or take a timer away. */
    twostate predicate OnlySuspends(sight: Sight)
      reads this
    {
      && (!sight.suspended ==> suspended == old(suspended) && lifecycleRevision == old(lifecycleRevision))
      && (!sight.suspended || Fenced())
      && (!Fenced() ==> interval == old(interval) && debounce == old(debounce))
    }

    // ---- Timers and fences ----

    method ClearTimers()
      requires host.Valid()
      requires host.intervals == (if interval.Some? then {interval.value} else {})
      requires host.timeouts == (if debounce.Some? then {debounce.value} else {})
      modifies this`interval, this`debounce, host
      ensures host.Valid() && host.intervals == {} && host.timeouts == {} && interval == None && debounce == None
    {
      if interval.Some? {
        host.ClearInterval(interval.value);
      }
      if debounce.Some? {
        host.ClearTimeout(debounce.value);
      }
      interval, debounce := None, None;
    }

    /** Takes the host's suspension as a fence, unless one of its kind is up already; timers do not outlive it. */
    method Suspend()
      requires Valid()
      modifies this`suspended, this`lifecycleRevision, this`interval, this`debounce, host
      ensures Valid() && KeepsEvents() && (closed || suspended)
    {
      if closed || suspended {
        return;
      }
      suspended, lifecycleRevision := true, lifecycleRevision + 1;
      ClearTimers();
    }

    /** Asks the host whether it is suspended, and becomes suspended itself if so. */
    method IsSuspended(sight: Sight) returns (result: bool)
      requires Valid()
      modifies this`suspended, this`lifecycleRevision, this`interval, this`debounce, host
      ensures Valid() && KeepsEvents()
      ensures result <==> sight.suspended || old(suspended)
      ensures (result ==> Fenced()) && OnlySuspends(sight)
    {
      if sight.suspended {
        Suspend();
        return true;
      }
      return suspended;
    }

    /** Chooses one poll interval; a fenced controller schedules nothing. */
    method SchedulePolling(sight: Sight)
      requires Valid()
      modifies this`suspended, this`lifecycleRevision, this`interval, this`debounce, host
      ensures Valid() && KeepsEvents()
      ensures !old(Fenced()) && !sight.suspended ==> interval.Some? && debounce == old(debounce) && !Fenced()
      ensures !sight.suspended ==> suspended == old(suspended) && lifecycleRevision == old(lifecycleRevision)
    {
      if closed || paused {
        if suspended {
          ClearTimers();
        }
        return;
      }
      var fenced := IsSuspended(sight);
      if fenced {
        ClearTimers();
        return;
      }
      if interval.Some? {
        host.ClearInterval(interval.value);
      }
      var handle := host.SetInterval();
      interval := Some(handle);
    }

    method Pause()
      requires Valid()
      modifies this`paused, this`lifecycleRevision, this`interval, this`debounce, host
      ensures Valid() && KeepsEvents() && (closed || paused)
    {
      if closed || paused {
        return;
      }
      paused, lifecycleRevision := true, lifecycleRevision + 1;
      ClearTimers();
    }

    method Close()
      requires Valid()
      modifies this`closed, this`lifecycleRevision, this`interval, this`debounce, host
      ensures Valid() && KeepsEvents() && closed
    {
      if closed {
        return;
      }
      closed, lifecycleRevision := true, lifecycleRevision + 1;
      ClearTimers();
    }

    // ---- Admission to the chain ----

    /** No fence holds here, and this segment's host and capture gate allow new work. */
    ghost predicate Open(sight: Sight)
      reads this
    {
      !Fenced() && !sight.suspended && !sight.blocked
    }

    predicate HasCycle()
      reads `runs
    {
      exists run | run in runs :: run.Cycle?
    }

    predicate HasDrain()
      reads `runs
    {
      exists run | run in runs :: run.Drain?
    }

    /** Work is on its way: a drain for the retained events, or a cycle when there are none. */
    ghost predicate Underway()
      reads this
    {
      if events != [] then HasDrain() else HasCycle()
    }

    method MayAdmit(sight: Sight) returns (may: bool)
      requires Valid()
      modifies this`suspended, this`lifecycleRevision, this`interval, this`debounce, host
      ensures Valid() && KeepsEvents() && (may <==> old(Open(sight))) && (may ==> Open(sight))
      ensures OnlySuspends(sight)
    {
      if closed || paused {
        return false;
      }
      var fenced := IsSuspended(sight);
      return !fenced && !sight.blocked;
    }

    method CancelDebounce()
      requires Valid()
      modifies this`debounce, host
      ensures Valid() && debounce.None?
    {
      if debounce.Some? {
        host.ClearTimeout(debounce.value);
      }
      debounce := None;
    }

    /** Requests a cycle: retained events are drained first, and a cycle already in the chain is shared. */
    method SyncNow(sight: Sight)
      requires Valid()
      modifies this`suspended, this`lifecycleRevision, this`interval, this`debounce, this`runs, this`admitted, host
      ensures Valid() && KeepsEvents() && old(runs) <= runs
      ensures if old(Open(sight)) then Underway() && (events != [] ==> debounce.None?) else runs == old(runs)
      ensures !sight.suspended ==>
        suspended == old(suspended) && lifecycleRevision == old(lifecycleRevision) && (Fenced() || interval == old(interval))
    {
      hide TimersOwned;
      var may := MayAdmit(sight);
      if !may {
        return;
      }
      if events != [] {
        CancelDebounce();
        DrainEvents(sight);
        return;
      }
      if HasCycle() {
        return;
      }
      runs, admitted := runs + [Cycle(Waiting)], admitted + 1;
      assert runs[|runs| - 1].Cycle?;
    }

    /** Appends a drain to the chain when something is retained, nothing is fenced, and no drain is waiting. */
    method DrainEvents(sight: Sight)
      requires Valid()
      modifies this`suspended, this`lifecycleRevision, this`interval, this`debounce, this`runs, this`admitted, host
      ensures Valid() && KeepsEvents() && old(runs) <= runs
      ensures if old(Open(sight)) && events != [] then HasDrain() else runs == old(runs)
      ensures OnlySuspends(sight)
    {
      var may := MayAdmit(sight);
      if !may || events == [] || HasDrain() {
        return;
      }
      runs, admitted := runs + [Drain(Waiting, true)], admitted + 1;
      assert runs[|runs| - 1].Drain?;
    }

    // ---- Observing one event ----

    /** Keeps the event for a later drain. */
    method Retain(event: Event)
      requires Valid()
      modifies this`events, this`retained
      ensures Valid() && events == old(events) + [event] && retained == old(retained) + [event]
    {
      events, retained := events + [event], retained + [event];
    }

    /** The part of `observe` after its capture settled: a captured or excluded event is not retained; any
        other is, with one fresh debounce unless a fence holds. */
    method ObserveCaptured(event: Event, captured: bool, threw: bool, sight: Sight)
      requires Valid()
      modifies this`suspended, this`lifecycleRevision, this`interval, this`debounce, this`events, this`retained, host
      ensures Valid() && processed == old(processed)
      ensures cyclesInFlight == old(cyclesInFlight) && eventsInFlight == old(eventsInFlight)
      ensures if threw || !(captured || old(closed) || excluded(event))
              then events == old(events) + [event] && retained == old(retained) + [event]
              else events == old(events) && retained == old(retained)
      ensures !threw && !captured && !excluded(event) && !Fenced() && !sight.suspended ==> debounce.Some?
    {
      hide TimersOwned, ChainOrdered, EffectsExclusive;
      if threw {
        Retain(event);
        return;
      }
      if captured || closed || excluded(event) {
        return;
      }
      if paused {
        Retain(event);
        return;
      }
      var fenced := IsSuspended(sight);
      if fenced {
        Retain(event);
        return;
      }
      RetainAndDebounce(event, sight);
    }

    /** Retains an event outside any fence and lets it rest before it is drained. */
    method RetainAndDebounce(event: Event, sight: Sight)
      requires Valid() && !Fenced() && !sight.suspended
      modifies this`suspended, this`lifecycleRevision, this`interval, this`debounce, this`events, this`retained, host
      ensures Valid() && debounce.Some? && interval.Some? && !Fenced()
      ensures events == old(events) + [event] && retained == old(retained) + [event]
    {
      SchedulePolling(sight);
      Retain(event);
      RestartDebounce();
    }

    /** Replaces the pending debounce, if any, by a fresh one. */
    method RestartDebounce()
      requires Valid() && !Fenced()
      modifies this`debounce, host
      ensures Valid() && debounce.Some?
    {
      if debounce.Some? {
        host.ClearTimeout(debounce.value);
      }
      var handle := host.SetTimeout();
      debounce := Some(handle);
    }

    /** An origin proof settles: a plugin-made event that is still the latest of its lifecycle no longer counts as
        activity, so polling is scheduled anew. */
    method ReviseActivity(isPlugin: bool, isLatest: bool, lifecycle: nat, sight: Sight)
      requires Valid()
      modifies this`suspended, this`lifecycleRevision, this`interval, this`debounce, host
      ensures Valid() && KeepsEvents()
      ensures isPlugin && isLatest && lifecycle == old(lifecycleRevision) && !old(Fenced()) && !sight.suspended ==>
        interval.Some? && debounce == old(debounce)
      ensures !isPlugin || !isLatest || lifecycle != old(lifecycleRevision) ==>
        interval == old(interval) && debounce == old(debounce) && suspended == old(suspended)
    {
      if !isPlugin || closed || paused || !isLatest || lifecycle != lifecycleRevision {
        return;
      }
      SchedulePolling(sight);
    }

    // ---- Host callbacks ----

    /** The debounce fires: its handle is spent, and retained events are drained. */
    method DebounceFired(handle: nat, sight: Sight)
      requires Valid() && handle in host.timeouts
      modifies this`suspended, this`lifecycleRevision, this`interval, this`debounce, this`runs, this`admitted, host
      ensures Valid() && KeepsEvents() && old(runs) <= runs
      ensures debounce.None? && (old(Open(sight)) && events != [] ==> HasDrain())
    {
      host.ClearTimeout(handle);
      debounce := None;
      DrainEvents(sight);
    }

    method IntervalFired(sight: Sight)
      requires Valid() && host.intervals != {}
      modifies this`suspended, this`lifecycleRevision, this`interval, this`debounce, this`runs, this`admitted, host
      ensures Valid() && KeepsEvents() && old(runs) <= runs
      ensures old(Open(sight)) ==> interval.Some? && Underway()
    {
      SchedulePolling(sight);
      SyncNow(sight);
    }

    method Start(sight: Sight)
      requires Valid()
      modifies this`started, this`suspended, this`lifecycleRevision, this`interval, this`debounce, this`runs, this`admitted, host
      ensures Valid() && KeepsEvents() && old(runs) <= runs
      ensures started || closed
      ensures old(Open(sight)) ==> Underway() && (interval.Some? || old(started))
    {
      if closed {
        return;
      }
      if !started {
        started := true;
        SchedulePolling(sight);
      }
      SyncNow(sight);
    }

    method Resume(sight: Sight)
      requires Valid()
      modifies this`paused, this`suspended, this`lifecycleRevision, this`interval, this`debounce, this`recoveries, host
      ensures Valid() && KeepsEvents() && (closed || !paused)
      ensures !closed && !old(suspended) && !sight.suspended ==> Recovering()
    {
      if closed {
        return;
      }
      if paused {
        paused, lifecycleRevision := false, lifecycleRevision + 1;
      }
      var fenced := IsSuspended(sight);
      if !fenced {
        RecoverAfterLifecycleChange(sight);
      }
    }

    method VisibilityChanged(sight: Sight)
      requires Valid()
      modifies this`suspended, this`lifecycleRevision, this`interval, this`debounce, this`runs, this`admitted, this`recoveries, host
      ensures Valid() && KeepsEvents() && old(runs) <= runs
      ensures closed || suspended == sight.suspended
      ensures old(suspended) && !Fenced() ==> Recovering()
      ensures !old(suspended) && !Fenced() ==> interval.Some? && (sight.visible && !sight.blocked ==> Underway())
    {
      if closed {
        return;
      }
      if sight.suspended {
        Suspend();
        return;
      }
      if suspended {
        suspended, lifecycleRevision := false, lifecycleRevision + 1;
        if !paused {
          RecoverAfterLifecycleChange(sight);
        }
        return;
      }
      if paused {
        return;
      }
      SchedulePolling(sight);
      if sight.visible {
        SyncNow(sight);
      }
    }

    /** A recovery of the current lifecycle revision is waiting. */
    ghost predicate Recovering()
      reads this
    {
      exists r | r in recoveries :: r.revision == lifecycleRevision
    }

    /** Waits for everything admitted so far; one recovery for each lifecycle revision. */
    method RecoverAfterLifecycleChange(sight: Sight)
      requires Valid()
      modifies this`suspended, this`lifecycleRevision, this`interval, this`debounce, this`recoveries, host
      ensures Valid() && KeepsEvents()
      ensures old(recoveries) <= recoveries
      ensures if old(Fenced()) || sight.suspended then recoveries == old(recoveries) else !Fenced() && Recovering()
    {
      if closed || paused {
        return;
      }
      var fenced := IsSuspended(sight);
      if fenced || exists r | r in recoveries :: r.revision == lifecycleRevision {
        return;
      }
      recoveries := recoveries + {Recovery(lifecycleRevision, admitted)};
    }

    /** A recovery whose earlier runs have settled: it starts over unless another fence won. */
    method RecoveryReady(recovery: Recovery, sight: Sight)
      requires Valid() && recovery in recoveries && admitted - |runs| >= recovery.after
      modifies this`started, this`suspended, this`lifecycleRevision, this`interval, this`debounce, this`runs, this`admitted,
               this`recoveries, host
      ensures Valid() && KeepsEvents() && old(runs) <= runs
      ensures recovery !in recoveries
      ensures old(lifecycleRevision) != recovery.revision ==> runs == old(runs) && started == old(started)
      ensures old(lifecycleRevision) == recovery.revision && old(Open(sight)) ==> started && interval.Some? && Underway()
    {
      hide TimersOwned, ChainOrdered, EffectsExclusive, HasDrain, HasCycle;
      recoveries := recoveries - {recovery};
      if closed || paused {
        return;
      }
      var fenced := IsSuspended(sight);
      if fenced || lifecycleRevision != recovery.revision {
        return;
      }
      StartOver(sight);
    }

    /** Polls again, then drains what was retained or runs a cycle. */
    method StartOver(sight: Sight)
      requires Valid() && !Fenced() && !sight.suspended
      modifies this`started, this`suspended, this`lifecycleRevision, this`interval, this`debounce, this`runs, this`admitted, host
      ensures Valid() && KeepsEvents() && old(runs) <= runs
      ensures started && (old(Open(sight)) ==> interval.Some? && Underway())
    {
      hide TimersOwned, ChainOrdered, EffectsExclusive, HasDrain, HasCycle;
      started := true;
      SchedulePolling(sight);
      if events != [] {
        DrainEvents(sight);
      } else {
        SyncNow(sight);
      }
    }

    // ---- Running the first link of the chain ----

    /** The first run settles and the next may start. */
    method Settle()
      requires Valid() && runs != []
      modifies this`runs, this`cyclesInFlight, this`eventsInFlight
      ensures Valid() && runs == old(runs)[1..] && cyclesInFlight == 0 && eventsInFlight == 0
    {
      if runs[0].stage == Cycling {
        cyclesInFlight := 0;
      }
      if runs[0].stage == Admitting {
        eventsInFlight := 0;
      }
      runs := runs[1..];
    }

    /** Moves the first run to its next await. */
    method MoveTo(stage: Stage, cycleNeeded: bool)
      requires Valid() && runs != [] && stage != Waiting
      requires runs[0].Cycle? ==> stage == Cycling
      requires stage == Capturing || stage == Admitting ==> events != []
      modifies this`runs, this`cyclesInFlight, this`eventsInFlight
      ensures Valid() && |runs| == |old(runs)| && runs[0].stage == stage && runs[0].Drain? == old(runs)[0].Drain?
      ensures runs[0].Drain? ==> runs[0].cycleNeeded == cycleNeeded
    {
      runs := runs[0 := if runs[0].Cycle? then Cycle(stage) else Drain(stage, cycleNeeded)];
      cyclesInFlight := if stage == Cycling then 1 else 0;
      eventsInFlight := if stage == Admitting then 1 else 0;
    }

    /** The first waiting run starts. */
    method RunFirst(sight: Sight)
      requires Valid() && runs != [] && runs[0].stage == Waiting
      modifies this`suspended, this`lifecycleRevision, this`interval, this`debounce, this`runs, this`cyclesInFlight,
               this`eventsInFlight, host
      ensures Valid() && retained == old(retained) && processed == old(processed) && events == old(events)
      ensures !old(Open(sight)) ==> runs == old(runs)[1..]
      ensures old(Open(sight)) ==>
        && |runs| == |old(runs)|
        && runs[0] == if old(runs)[0].Cycle? then Cycle(Cycling)
                      else if events != [] && old(debounce).None? then Drain(Capturing, true) else Drain(Cycling, true)
    {
      if runs[0].Drain? {
        LoopTop(true, sight);
        return;
      }
      var may := MayAdmit(sight);
      if may {
        MoveTo(Cycling, false);
      } else {
        Settle();
      }
    }

    /** The top of the drain loop, up to its next await. */
    method LoopTop(cycleNeeded: bool, sight: Sight)
      requires Valid() && runs != [] && runs[0].Drain?
      modifies this`suspended, this`lifecycleRevision, this`interval, this`debounce, this`runs, this`cyclesInFlight,
               this`eventsInFlight, host
      ensures Valid() && retained == old(retained) && processed == old(processed) && events == old(events)
      ensures if !old(Open(sight)) then runs == old(runs)[1..]
              else if events != [] && old(debounce).None? then |runs| == |old(runs)| && runs[0] == Drain(Capturing, cycleNeeded)
              else if cycleNeeded then |runs| == |old(runs)| && runs[0] == Drain(Cycling, true)
              else runs == old(runs)[1..]
    {
      var more := events != [] && debounce.None?;
      var may := MayAdmit(sight);
      if !may || (!more && !cycleNeeded) {
        Settle();
      } else if more {
        MoveTo(Capturing, cycleNeeded);
      } else {
        MoveTo(Cycling, cycleNeeded);
      }
    }

    /** A drained event's capture settled: it is admitted, dropped as captured or excluded, or kept. */
    method CaptureSettled(captured: bool, threw: bool, sight: Sight)
      requires Valid() && runs != [] && runs[0].Drain? && runs[0].stage == Capturing
      modifies this`suspended, this`lifecycleRevision, this`interval, this`debounce, this`runs, this`events, this`processed,
               this`cyclesInFlight, this`eventsInFlight, host
      ensures Valid() && retained == old(retained)
      ensures processed + events == old(processed + events)
      ensures threw || old(Fenced()) || sight.suspended ==> processed == old(processed) && runs == old(runs)[1..]
      ensures !threw && !old(Fenced()) && !sight.suspended && !captured && !excluded(old(events)[0]) ==>
        processed == old(processed) && eventsInFlight == 1
      ensures !threw && !old(Fenced()) && !sight.suspended && (captured || excluded(old(events)[0])) ==>
        processed == old(processed) + [old(events)[0]]
      ensures processed == old(processed) || (processed == old(processed) + [old(events)[0]] && (captured || excluded(old(events)[0])))
    {
      if threw || closed || paused {
        Settle();
        return;
      }
      var fenced := IsSuspended(sight);
      if fenced {
        Settle();
        return;
      }
      if !captured && !excluded(events[0]) {
        MoveTo(Admitting, runs[0].cycleNeeded);
        return;
      }
      Shift();
      LoopTop(runs[0].cycleNeeded, sight);
    }

    /** The admitted event settled: handled events leave the queue, a failed one stays first. */
    method EventSettled(threw: bool, sight: Sight)
      requires Valid() && runs != [] && runs[0].Drain? && runs[0].stage == Admitting
      modifies this`suspended, this`lifecycleRevision, this`interval, this`debounce, this`runs, this`events, this`processed,
               this`cyclesInFlight, this`eventsInFlight, host
      ensures Valid() && retained == old(retained)
      ensures if threw then processed == old(processed) && events == old(events) && runs == old(runs)[1..]
              else processed == old(processed) + [old(events)[0]] && events == old(events)[1..]
    {
      if threw {
        Settle();
        return;
      }
      MoveTo(Capturing, runs[0].cycleNeeded);
      Shift();
      LoopTop(runs[0].cycleNeeded, sight);
    }

    /** Removes the first event, which is the one just handled. */
    method Shift()
      requires Valid() && events != [] && runs != [] && runs[0].Drain? && runs[0].stage == Capturing
      modifies this`events, this`processed, this`runs
      ensures Valid() && processed == old(processed) + [old(events)[0]] && events == old(events)[1..]
      ensures runs != [] && runs[0] == Drain(Waiting, old(runs)[0].cycleNeeded) && |runs| == |old(runs)|
      ensures cyclesInFlight == old(cyclesInFlight) && eventsInFlight == old(eventsInFlight)
    {
      processed := processed + [events[0]];
      runs := runs[0 := Drain(Waiting, runs[0].cycleNeeded)];
      events := events[1..];
    }

    /** A cycle settled: a drain goes round again while events arrived without a pending debounce. */
    method CycleSettled(threw: bool, sight: Sight)
      requires Valid() && runs != [] && runs[0].stage == Cycling
      modifies this`suspended, this`lifecycleRevision, this`interval, this`debounce, this`runs, this`cyclesInFlight,
               this`eventsInFlight, host
      ensures Valid() && retained == old(retained) && processed == old(processed) && events == old(events)
      ensures if old(runs)[0].Drain? && !threw && events != [] && old(debounce).None? && old(Open(sight))
              then |runs| == |old(runs)| && runs[0] == Drain(Capturing, true)
              else runs == old(runs)[1..]
    {
      if runs[0].Cycle? || threw || events == [] || debounce.Some? {
        Settle();
        return;
      }
      LoopTop(true, sight);
    }
  }

  /** One thing that can happen next, in any order. */
  datatype Happening =
    | Observed(event: Event, captured: bool, threw: bool)
    | Proved(isPlugin: bool, isLatest: bool, lifecycle: nat)
    | Started
    | Requested
    | Paused
    | Resumed
    | VisibilityShown
    | Closed
    | DebounceDue
    | IntervalDue
    | RecoveryDue
    | RunDue
    | AwaitSettled(capturedNow: bool, failed: bool)

  /** Carries out one happening if it can occur. */
  method Happen(c: DesktopSyncController, h: Happening, sight: Sight)
    requires c.Valid()
    modifies c, c.host
    ensures c.Valid() && old(c.retained) <= c.retained && old(c.processed) <= c.processed
    ensures old(c.closed) ==> c.closed
  {
    match h {
      case Observed(event, captured, threw) => c.ObserveCaptured(event, captured, threw, sight);
      case Proved(isPlugin, isLatest, lifecycle) => c.ReviseActivity(isPlugin, isLatest, lifecycle, sight);
      case Started => c.Start(sight);
      case Requested => c.SyncNow(sight);
      case Paused => c.Pause();
      case Resumed => c.Resume(sight);
      case VisibilityShown => c.VisibilityChanged(sight);
      case Closed => c.Close();
      case DebounceDue =>
        if c.debounce.Some? {
          c.DebounceFired(c.debounce.value, sight);
        }
      case IntervalDue =>
        if c.interval.Some? {
          c.IntervalFired(sight);
        }
      case RecoveryDue =>
        if recovery :| recovery in c.recoveries && c.admitted - |c.runs| >= recovery.after {
          c.RecoveryReady(recovery, sight);
        }
      case RunDue =>
        if c.runs != [] && c.runs[0].stage == Waiting {
          c.RunFirst(sight);
        }
      case AwaitSettled(captured, failed) => SettleAwait(c, captured, failed, sight);
    }
  }

  /** The one await the chain is suspended at, if any, settles. */
  method SettleAwait(c: DesktopSyncController, captured: bool, failed: bool, sight: Sight)
    requires c.Valid()
    modifies c, c.host
    ensures c.Valid() && c.retained == old(c.retained) && old(c.processed) <= c.processed && c.closed == old(c.closed)
  {
    if c.runs == [] || c.runs[0].stage == Waiting {
      return;
    }
    match c.runs[0].stage {
      case Capturing => c.CaptureSettled(captured, failed, sight);
      case Admitting => c.EventSettled(failed, sight);
      case Cycling => c.CycleSettled(failed, sight);
    }
  }

  /** Event order, exclusion and timer ownership under any interleaving of observations, commands, host
      callbacks, fences and settling awaits. */
  method Interleave(c: DesktopSyncController, happenings: seq<(Happening, Sight)>)
    requires c.Valid()
    modifies c, c.host
    ensures c.retained == c.processed + c.events && old(c.retained) <= c.retained && old(c.processed) <= c.processed
    ensures c.cyclesInFlight + c.eventsInFlight <= 1
    ensures c.closed || c.paused || c.suspended ==> c.host.intervals == {} && c.host.timeouts == {}
    ensures |c.host.intervals| <= 1 && |c.host.timeouts| <= 1
  {
    for i := 0 to |happenings|
      invariant c.Valid() && old(c.retained) <= c.retained && old(c.processed) <= c.processed
    {
      Happen(c, happenings[i].0, happenings[i].1);
    }
  }
}
