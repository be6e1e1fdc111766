/** Whole runs of the reconciliation controller: a server that keeps publishing, and any number of lives. */
module ReconciliationRuns {
  import opened Bytes
  import opened DeviceState
  import opened JournalSteps
  import opened TextDevice
  import opened TextApply
  import opened Reconciliation

  /** What the server serves at one moment. */
  datatype Feed = Feed(epoch: Epoch, head: nat, snapshot: Snapshot, changes: nat -> ChangesPage)

  /** What the device meets at one moment besides the server. */
  datatype Moment = Moment(
    host: Host, manifest: map<Path, Option<ManifestRow>>, local: Path -> Option<bytes>, weather: Weather, rejected: Option<Key>)

  /** The server's promise at one moment: both answers are complete up to its head. */
  ghost predicate Serves(feed: Feed, published: set<Row>) {
    && feed.snapshot.epoch == feed.epoch && feed.snapshot.head == feed.head && feed.snapshot.pages != []
    && SnapshotOf(feed.snapshot, published)
    && forall cursor: nat ::
         var page := feed.changes(cursor);
         page.epoch == feed.epoch && page.head == feed.head && Faithful(page, published, cursor)
  }

  /** Its promise over time: within an epoch it publishes only beyond its head, and one head has one manifest. */
  ghost predicate Appends(earlier: Feed, before: set<Row>, later: Feed, after: set<Row>) {
    earlier.epoch == later.epoch ==>
      && earlier.head <= later.head
      && (forall row | row in after && row.sequence <= earlier.head :: row in before)
      && (earlier.head == later.head ==> earlier.snapshot == later.snapshot)
  }

  ghost predicate Server(feeds: nat -> Feed, logs: nat -> set<Row>) {
    && (forall t: nat :: Serves(feeds(t), logs(t)))
    && (forall t: nat, u: nat | t <= u :: Appends(feeds(t), logs(t), feeds(u), logs(u)))
  }

  /** Between two sessions: the device last met the server at moment `met`, and walks the manifest of moment `walked`. */
  ghost predicate Behind(c: ReconciliationController, feeds: nat -> Feed, logs: nat -> set<Row>, met: nat, walked: nat, now: nat)
    reads c, c.engine, c.engine.device
  {
    && c.Valid() && c.Traversing() && walked <= met <= now
    && (c.engine.device.state.epoch.None? ==> c.engine.device.state.cursor.None? && c.checkpoint.None?)
    && (c.engine.device.state.epoch.Some? ==>
          && c.engine.device.state.epoch.value == feeds(met).epoch && c.log == logs(met)
          && (c.engine.device.state.cursor.Some? ==> c.engine.device.state.cursor.value <= feeds(met).head))
    && (c.checkpoint.Some? ==> feeds(walked).epoch == feeds(met).epoch && c.snapshot == feeds(walked).snapshot)
  }

  /** The device learns what is published now; nothing of it lies at or below its cursor unless it knew it. */
  ghost method CatchUp(c: ReconciliationController, feeds: nat -> Feed, logs: nat -> set<Row>, met: nat, walked: nat, now: nat)
    requires Server(feeds, logs) && Behind(c, feeds, logs, met, walked, now)
    requires c.engine.device.state.epoch == Some(feeds(now).epoch)
    modifies c`log
    ensures Behind(c, feeds, logs, now, walked, now)
  {
    hide Serves, Faithful;
    assert Appends(feeds(met), logs(met), feeds(now), logs(now));
    if c.checkpoint.Some? {
      assert Appends(feeds(walked), logs(walked), feeds(now), logs(now));
      SnapshotGrows(feeds(walked), logs(walked), logs(now));
    }
    c.Publish(logs(now));
  }

  lemma SnapshotGrows(feed: Feed, before: set<Row>, after: set<Row>)
    requires Serves(feed, before) && forall row | row in after && row.sequence <= feed.head :: row in before
    ensures SnapshotOf(feed.snapshot, after)
  {
  }

  /** One session: replay from the cursor, and a full walk where the cursor or the epoch does not fit. */
  method Session(
      c: ReconciliationController, feeds: nat -> Feed, ghost logs: nat -> set<Row>, moment: Moment, now: nat,
      ghost met: nat, ghost walked: nat)
    returns (ghost nextMet: nat, ghost nextWalked: nat)
    requires Server(feeds, logs) && Behind(c, feeds, logs, met, walked, now) && c.engine.device.alive
    requires forall path | path in moment.manifest && moment.manifest[path].Some? :: moment.manifest[path].value.path == path
    modifies c, c.engine.device
    ensures Behind(c, feeds, logs, nextMet, nextWalked, now)
  {
    hide Serves, Appends, Faithful, SnapshotOf;
    var feed := feeds(now);
    var cursor := if c.engine.device.state.cursor.Some? then c.engine.device.state.cursor.value else 0;
    nextMet, nextWalked := met, walked;
    if c.engine.device.state.epoch == Some(feed.epoch) {
      CatchUp(c, feeds, logs, met, walked, now);
      nextMet := now;
    }
    PageFits(feed, logs(now), cursor);
    label Served:
    var r := c.RunReplay(feed.changes(cursor), moment.manifest, moment.weather, moment.rejected);
    c.WalksStay@Served();
    if r != NeedsReconciliation {
      return;
    }
    OneManifest(feeds, logs, nextWalked, now);
    label Replayed:
    var _ := c.RunReconciliation(feed.snapshot, logs(now), moment.local, moment.weather, moment.rejected);
    if !c.Unmoved@Replayed() {
      nextMet, nextWalked := now, now;
    }
  }

  lemma PageFits(feed: Feed, published: set<Row>, cursor: nat)
    requires Serves(feed, published)
    ensures feed.changes(cursor).epoch == feed.epoch && feed.changes(cursor).head == feed.head
    ensures Faithful(feed.changes(cursor), published, cursor)
    ensures feed.snapshot.epoch == feed.epoch && feed.snapshot.head == feed.head && feed.snapshot.pages != []
    ensures SnapshotOf(feed.snapshot, published)
  {
    hide SnapshotOf, Faithful;
  }

  lemma OneManifest(feeds: nat -> Feed, logs: nat -> set<Row>, walked: nat, now: nat)
    requires Server(feeds, logs) && walked <= now
    ensures feeds(walked).snapshot.epoch == feeds(walked).epoch && feeds(walked).snapshot.head == feeds(walked).head
    ensures feeds(walked).epoch == feeds(now).epoch && feeds(walked).head == feeds(now).head ==>
      feeds(walked).snapshot == feeds(now).snapshot
  {
    hide SnapshotOf, Faithful;
    assert Serves(feeds(walked), logs(walked));
    assert Appends(feeds(walked), logs(walked), feeds(now), logs(now));
  }

  /** Cursor completeness over whole runs. From a fresh journal, through any number of sessions, crashes, edits,
      storage failures and epochs, every row published in the cursor's epoch at or below it is accounted for, or
      was passed by an unguarded branch; and every text ever taken away was justified unless its path was stale. */
  method RunLives(c: ReconciliationController, feeds: nat -> Feed, ghost logs: nat -> set<Row>, moments: nat -> Moment, n: nat)
    returns (ghost met: nat)
    requires Server(feeds, logs)
    requires c.engine.device.Safe() && c.engine.device.focus.None? && c.engine.device.state == FreshState()
    requires c.checkpoint.None? && c.swallowed == {}
    requires forall t: nat, path | path in moments(t).manifest && moments(t).manifest[path].Some? ::
      moments(t).manifest[path].value.path == path
    modifies c, c.engine.device
    ensures c.Valid()
    ensures forall r | r in c.engine.device.removed :: Justified(r) <==> !r.stale || InACopy(r)
    ensures c.engine.device.state.cursor.Some? ==>
      && met <= n && c.engine.device.state.epoch == Some(feeds(met).epoch)
      && forall row | row in logs(met) && row.sequence <= c.engine.device.state.cursor.value ::
           c.Accounted(row) || exists w | w in c.swallowed :: w.row == row && Unguarded(c.excluded, w)
  {
    hide Server, Unguarded;
    ghost var walked := 0;
    met := 0;
    for t := 0 to n
      invariant Behind(c, feeds, logs, met, walked, t)
    {
      if !c.engine.device.alive {
        c.engine.device.host, c.engine.device.alive := moments(t).host, true;
      }
      met, walked := Session(c, feeds, logs, moments(t), t, met, walked);
    }
    forall r | r in c.engine.device.removed
      ensures Justified(r) <==> !r.stale || InACopy(r)
    {
      c.engine.device.OnlyStaleTextIsExposed(r);
    }
  }
}
