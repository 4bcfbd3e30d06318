/** The retention run: one transaction of deletes, table by table, under foreign keys that
    are checked when each statement ends. Columns that retention never reads are omitted. */
module Retention {
  import opened Order
  import opened Digest
  import PendingActions

  const DAY := 86_400_000_000
  const RUN_DAYS := 90 * DAY
  const DELIVERY_DAYS := 180 * DAY
  const DISABLED_DAYS := 30 * DAY

  datatype Monitor = Monitor(owner: string, status: string, disabledAt: Option<int>)
  datatype Version = Version(monitor: string, parent: Option<string>)
  datatype RunRow = RunRow(monitor: string, startedAt: int, finishedAt: Option<int>)
  datatype Outbox = Outbox(monitor: string, status: string)
  datatype Snapshot = Snapshot(monitor: string, expiresAt: int)
  datatype Feature = Feature(namespace: Hash, expiresAt: int)

  /** `observations` is keyed by monitor and item, `deliveries` by outbox row (giving the
      delivery time), `probes` by monitor. */
  datatype Tables = Tables(
    monitors: map<string, Monitor>,
    versions: map<string, Version>,
    observations: map<(string, string), string>,
    runs: map<string, RunRow>,
    outbox: map<string, Outbox>,
    deliveries: map<string, int>,
    actions: map<Hash, PendingActions.Row>,
    snapshots: map<string, Snapshot>,
    features: map<string, Feature>,
    probes: map<string, string>)

  /** Every foreign key that touches these tables holds. */
  predicate Integrity(db: Tables)
  {
    && (forall v :: v in db.versions ==> db.versions[v].monitor in db.monitors)
    && (forall v :: v in db.versions ==> db.versions[v].parent.Some? ==> db.versions[v].parent.value in db.versions)
    && (forall o :: o in db.observations ==> o.0 in db.monitors)
    && (forall r :: r in db.runs ==> db.runs[r].monitor in db.monitors)
    && (forall o :: o in db.outbox ==> db.outbox[o].monitor in db.monitors)
    && (forall o :: o in db.deliveries ==> o in db.outbox)
    && (forall s :: s in db.snapshots ==> db.snapshots[s].monitor in db.monitors)
    && (forall p :: p in db.probes ==> p in db.monitors)
  }

  /** The digest that scopes a version's adaptive features. */
  function Namespace(owner: string, monitor: string, version: string): Hash
  {
    Sha256(owner + "\0" + monitor + "\0" + version)
  }

  // ---------- which rows a run removes ----------

  predicate OldRun(r: RunRow, now: int)
  {
    (if r.finishedAt.Some? then r.finishedAt.value else r.startedAt) < now - RUN_DAYS
  }

  predicate OldDelivery(db: Tables, o: string, now: int)
  {
    && o in db.outbox && o in db.deliveries
    && db.outbox[o].status == "delivered" && db.deliveries[o] < now - DELIVERY_DAYS
  }

  /** A monitor disabled for more than thirty days. */
  predicate Expired(db: Tables, m: string, now: int)
  {
    && m in db.monitors && db.monitors[m].status == "disabled"
    && db.monitors[m].disabledAt.Some? && db.monitors[m].disabledAt.value < now - DISABLED_DAYS
  }

  function ExpiredMonitors(db: Tables, now: int): set<string>
  {
    set m | m in db.monitors && Expired(db, m, now)
  }

  /** The namespaces of every version of every disabled monitor, whatever its age. */
  function DisabledNamespaces(db: Tables): set<Hash>
  {
    set v | v in db.versions && db.versions[v].monitor in db.monitors
              && db.monitors[db.versions[v].monitor].status == "disabled" ::
      Namespace(db.monitors[db.versions[v].monitor].owner, db.versions[v].monitor, v)
  }

  /** A foreign key holds an expired monitor, or one of its versions, in place: that of a
      duplicate probe, or that of a version of another monitor derived from it. The program
      writes no such version, so `BlockedIffProbed` leaves the probes. */
  predicate Blocked(db: Tables, now: int)
  {
    || (exists p :: p in db.probes && Expired(db, p, now))
    || (exists v :: v in db.versions && !Expired(db, db.versions[v].monitor, now)
                    && db.versions[v].parent.Some? && db.versions[v].parent.value in db.versions
                    && Expired(db, db.versions[db.versions[v].parent.value].monitor, now))
  }

  /** Every version derives from a version of its own monitor, as the program writes them. */
  predicate OwnParents(db: Tables)
  {
    forall v :: v in db.versions && db.versions[v].parent.Some? && db.versions[v].parent.value in db.versions ==>
      db.versions[db.versions[v].parent.value].monitor == db.versions[v].monitor
  }

  /** The tables after a successful run. */
  function Retained(db: Tables, now: int): Tables
  {
    var namespaces := DisabledNamespaces(db);
    Tables(
      map m | m in db.monitors && !Expired(db, m, now) :: db.monitors[m],
      map v | v in db.versions && !Expired(db, db.versions[v].monitor, now) :: db.versions[v],
      map o | o in db.observations && !Expired(db, o.0, now) :: db.observations[o],
      map r | r in db.runs && !OldRun(db.runs[r], now) && !Expired(db, db.runs[r].monitor, now) :: db.runs[r],
      map o | o in db.outbox && !OldDelivery(db, o, now) && !Expired(db, db.outbox[o].monitor, now) :: db.outbox[o],
      map o | o in db.deliveries && !OldDelivery(db, o, now)
              && !(o in db.outbox && Expired(db, db.outbox[o].monitor, now)) :: db.deliveries[o],
      map h | h in db.actions && !PendingActions.Stale(db.actions[h], now) :: db.actions[h],
      map s | s in db.snapshots && db.snapshots[s].expiresAt > now
              && !Expired(db, db.snapshots[s].monitor, now) :: db.snapshots[s],
      map f | f in db.features && db.features[f].expiresAt > now
              && db.features[f].namespace !in namespaces :: db.features[f],
      db.probes)
  }

  /** The outcome of a run: refused runs are rolled back. */
  function RunAt(db: Tables, now: int): (Tables, bool)
  {
    if Blocked(db, now) then (db, false) else (Retained(db, now), true)
  }

  // ---------- one delete statement each ----------

  function OutboxWithout(outbox: map<string, Outbox>, ids: set<string>): map<string, Outbox>
  {
    map o | o in outbox && o !in ids :: outbox[o]
  }

  function DeliveriesWithout(deliveries: map<string, int>, ids: set<string>): map<string, int>
  {
    map o | o in deliveries && o !in ids :: deliveries[o]
  }

  function SnapshotsOutside(snapshots: map<string, Snapshot>, ids: set<string>): map<string, Snapshot>
  {
    map s | s in snapshots && snapshots[s].monitor !in ids :: snapshots[s]
  }

  function ObservationsOutside(observations: map<(string, string), string>, ids: set<string>): map<(string, string), string>
  {
    map o | o in observations && o.0 !in ids :: observations[o]
  }

  function RunsOutside(runs: map<string, RunRow>, ids: set<string>): map<string, RunRow>
  {
    map r | r in runs && runs[r].monitor !in ids :: runs[r]
  }

  function VersionsOutside(versions: map<string, Version>, ids: set<string>): map<string, Version>
  {
    map v | v in versions && versions[v].monitor !in ids :: versions[v]
  }

  function MonitorsOutside(monitors: map<string, Monitor>, ids: set<string>): map<string, Monitor>
  {
    map m | m in monitors && m !in ids :: monitors[m]
  }

  function RecentRuns(runs: map<string, RunRow>, now: int): map<string, RunRow>
  {
    map r | r in runs && !OldRun(runs[r], now) :: runs[r]
  }

  function FreshActions(actions: map<Hash, PendingActions.Row>, now: int): map<Hash, PendingActions.Row>
  {
    map h | h in actions && !PendingActions.Stale(actions[h], now) :: actions[h]
  }

  function LiveSnapshots(snapshots: map<string, Snapshot>, now: int): map<string, Snapshot>
  {
    map s | s in snapshots && snapshots[s].expiresAt > now :: snapshots[s]
  }

  function LiveFeatures(features: map<string, Feature>, now: int): map<string, Feature>
  {
    map f | f in features && features[f].expiresAt > now :: features[f]
  }

  function FeaturesOutside(features: map<string, Feature>, namespaces: set<Hash>): map<string, Feature>
  {
    map f | f in features && features[f].namespace !in namespaces :: features[f]
  }

  function OldDeliveries(db: Tables, now: int): set<string>
  {
    set o | o in db.outbox && OldDelivery(db, o, now)
  }

  function OutboxOf(db: Tables, ids: set<string>): set<string>
  {
    set o | o in db.outbox && db.outbox[o].monitor in ids
  }

  function WithoutOutbox(db: Tables, ids: set<string>): Tables
  {
    db.(deliveries := DeliveriesWithout(db.deliveries, ids), outbox := OutboxWithout(db.outbox, ids))
  }

  /** The tables without what hangs on the given monitors; the monitors stay. */
  function WithoutRowsOf(db: Tables, ids: set<string>): Tables
  {
    WithoutOutbox(db, OutboxOf(db, ids)).(
      snapshots := SnapshotsOutside(db.snapshots, ids), observations := ObservationsOutside(db.observations, ids),
      runs := RunsOutside(db.runs, ids), versions := VersionsOutside(db.versions, ids))
  }

  function WithoutMonitors(db: Tables, ids: set<string>): Tables
  {
    WithoutRowsOf(db, ids).(monitors := MonitorsOutside(db.monitors, ids))
  }

  /** The tables after the statements that do not concern old disabled monitors. */
  function Trimmed(db: Tables, now: int): Tables
  {
    WithoutOutbox(db, OldDeliveries(db, now)).(
      runs := RecentRuns(db.runs, now), actions := FreshActions(db.actions, now),
      snapshots := LiveSnapshots(db.snapshots, now),
      features := FeaturesOutside(LiveFeatures(db.features, now), DisabledNamespaces(db)))
  }

  lemma NoOutboxIds(db: Tables)
    ensures WithoutOutbox(db, {}) == db
  {
    assert DeliveriesWithout(db.deliveries, {}) == db.deliveries && OutboxWithout(db.outbox, {}) == db.outbox;
  }

  lemma NoNamespaces(features: map<string, Feature>)
    ensures FeaturesOutside(features, {}) == features
  {
  }

  lemma DeliveriesFirst(db: Tables, ids: set<string>)
    requires Integrity(db)
    ensures Integrity(db.(deliveries := DeliveriesWithout(db.deliveries, ids)))
    ensures Integrity(WithoutOutbox(db, ids))
  {
  }

  lemma TrimStepsKeepIntegrity(db: Tables, now: int, rest: Tables)
    requires Integrity(db) && rest == db.(runs := RecentRuns(db.runs, now))
    ensures Integrity(rest)
  {
  }

  lemma SnapshotStepKeepsIntegrity(db: Tables, now: int, rest: Tables)
    requires Integrity(db)
    requires rest == db.(snapshots := LiveSnapshots(db.snapshots, now), actions := rest.actions, features := rest.features)
    ensures Integrity(rest)
  {
  }

  // ---------- the run, statement by statement ----------

  class Maintenance {
    var db: Tables

    constructor (db: Tables)
      ensures this.db == db
    {
      this.db := db;
    }

    /** Delete the deliveries, then the outbox rows, of the given ids; no foreign key can
        refuse that. */
    method DeleteOutboxIds(ids: set<string>) returns (ok: bool)
      requires Integrity(db)
      modifies this
      ensures ok && Integrity(db) && db == WithoutOutbox(old(db), ids)
    {
      hide Integrity, OutboxWithout, DeliveriesWithout;
      if ids == {} {
        NoOutboxIds(db);
        return true;
      }
      DeliveriesFirst(db, ids);
      db := db.(deliveries := DeliveriesWithout(db.deliveries, ids));
      if !Integrity(db) {
        return false;
      }
      db := db.(outbox := OutboxWithout(db.outbox, ids));
      return Integrity(db);
    }

    method DeleteOldDeliveries(now: int)
      requires Integrity(db)
      modifies this
      ensures Integrity(db) && db == WithoutOutbox(old(db), OldDeliveries(old(db), now))
    {
      hide Integrity, WithoutOutbox, OldDeliveries;
      var deleted := DeleteOutboxIds(OldDeliveries(db, now));
    }

    method DeleteOldAdaptiveFeatures(now: int)
      modifies this
      ensures db == old(db).(features := FeaturesOutside(LiveFeatures(old(db.features), now), DisabledNamespaces(old(db))))
    {
      hide FeaturesOutside, LiveFeatures;
      db := db.(features := LiveFeatures(db.features, now));
      var namespaces := DisabledNamespaces(db);
      assert namespaces == DisabledNamespaces(old(db));
      NoNamespaces(db.features);
      if namespaces != {} {
        db := db.(features := FeaturesOutside(db.features, namespaces));
      }
    }

    /** Remove the expired monitors with everything retention knows to hang on them;
        false when a foreign key refuses one of the last two deletes. */
    method DeleteOldDisabledMonitors(now: int) returns (ok: bool)
      requires Integrity(db)
      modifies this
      ensures ok <==> !Blocked(old(db), now)
      ensures ok ==> db == WithoutMonitors(old(db), ExpiredMonitors(old(db), now)) && Integrity(db)
    {
      hide Integrity, Blocked, Derived, Probed, ExpiredMonitors, OutboxWithout, DeliveriesWithout, OutboxOf,
           SnapshotsOutside, ObservationsOutside, RunsOutside, VersionsOutside, MonitorsOutside;
      var ids := ExpiredMonitors(db, now);
      ghost var before := db;
      BlockedIsHeldBack(db, now);
      if ids == {} {
        NothingExpired(db);
        return true;
      }
      SnapshotsGo(db, ids);
      db := db.(snapshots := SnapshotsOutside(db.snapshots, ids));
      var deleted := DeleteOutboxIds(OutboxOf(db, ids));
      db := db.(observations := ObservationsOutside(db.observations, ids));
      db := db.(runs := RunsOutside(db.runs, ids));
      db := db.(versions := VersionsOutside(db.versions, ids));
      assert db == WithoutRowsOf(before, ids);
      UpToVersions(before, ids);
      if !Integrity(db) {
        return false;
      }
      db := db.(monitors := MonitorsOutside(db.monitors, ids));
      UpToMonitors(before, ids);
      return Integrity(db);
    }

    method Run(now: int) returns (ok: bool)
      requires Integrity(db)
      modifies this
      ensures (db, ok) == RunAt(old(db), now)
      ensures Integrity(db)
    {
      hide Integrity, Blocked, Retained, WithoutMonitors, RecentRuns, FreshActions, LiveSnapshots, LiveFeatures,
           FeaturesOutside, DisabledNamespaces, OldDeliveries, DeliveriesWithout, OutboxWithout;
      var before := db;
      TrimStepsKeepIntegrity(db, now, db.(runs := RecentRuns(db.runs, now)));
      db := db.(runs := RecentRuns(db.runs, now));
      SameRest(before, db, now);
      DeleteOldDeliveries(now);
      ghost var middle := db;
      db := db.(actions := FreshActions(db.actions, now));
      db := db.(snapshots := LiveSnapshots(db.snapshots, now));
      DeleteOldAdaptiveFeatures(now);
      SnapshotStepKeepsIntegrity(middle, now, db);
      SameNamespaces(before, middle.(actions := db.actions, snapshots := db.snapshots));
      assert db == Trimmed(before, now);
      TrimmedMonitors(before, now);
      ok := DeleteOldDisabledMonitors(now);
      if !ok {
        db := before;
        return false;
      }
      AllDeletes(before, now);
    }
  }

  // ---------- the deletes together ----------

  /** A version of a surviving monitor derived from a version of a removed one. */
  predicate Derived(db: Tables, ids: set<string>)
  {
    exists v :: v in db.versions && db.versions[v].monitor !in ids
                && db.versions[v].parent.Some? && db.versions[v].parent.value in db.versions
                && db.versions[db.versions[v].parent.value].monitor in ids
  }

  predicate Probed(db: Tables, ids: set<string>)
  {
    exists p :: p in db.probes && p in ids
  }

  lemma ExpiredIsMembership(db: Tables, now: int)
    ensures forall m :: m in ExpiredMonitors(db, now) <==> Expired(db, m, now)
  {
  }

  lemma BlockedIsHeldBack(db: Tables, now: int)
    ensures Blocked(db, now) <==> Probed(db, ExpiredMonitors(db, now)) || Derived(db, ExpiredMonitors(db, now))
  {
  }

  lemma NothingExpired(db: Tables)
    ensures WithoutMonitors(db, {}) == db && !Probed(db, {}) && !Derived(db, {})
  {
    NoOutboxIds(db);
    assert OutboxOf(db, {}) == {};
    assert SnapshotsOutside(db.snapshots, {}) == db.snapshots && ObservationsOutside(db.observations, {}) == db.observations;
    assert RunsOutside(db.runs, {}) == db.runs && VersionsOutside(db.versions, {}) == db.versions;
    assert MonitorsOutside(db.monitors, {}) == db.monitors;
  }

  lemma SnapshotsGo(db: Tables, ids: set<string>)
    requires Integrity(db)
    ensures Integrity(db.(snapshots := SnapshotsOutside(db.snapshots, ids)))
    ensures OutboxOf(db.(snapshots := SnapshotsOutside(db.snapshots, ids)), ids) == OutboxOf(db, ids)
  {
  }

  /** After the delete from `monitor_versions`: it stands unless a derived version remains. */
  lemma UpToVersions(before: Tables, ids: set<string>)
    requires Integrity(before)
    ensures Integrity(WithoutRowsOf(before, ids)) <==> !Derived(before, ids)
  {
    var db := WithoutRowsOf(before, ids);
    if Integrity(db) {
      forall v | v in before.versions && before.versions[v].monitor !in ids && before.versions[v].parent.Some?
        ensures before.versions[before.versions[v].parent.value].monitor !in ids
      {
        assert v in db.versions;
      }
    }
  }

  lemma UpToMonitors(before: Tables, ids: set<string>)
    requires Integrity(before) && Integrity(WithoutRowsOf(before, ids))
    ensures Integrity(WithoutMonitors(before, ids)) <==> !Probed(before, ids)
  {
    var rows, db := WithoutRowsOf(before, ids), WithoutMonitors(before, ids);
    forall v | v in rows.versions ensures rows.versions[v].monitor in db.monitors {
    }
    if Probed(before, ids) {
      var p :| p in before.probes && p in ids;
      assert p in db.probes && p !in db.monitors;
    }
  }

  lemma SameRest(before: Tables, db: Tables, now: int)
    requires db == before.(runs := db.runs)
    ensures OldDeliveries(db, now) == OldDeliveries(before, now)
  {
  }

  lemma SameNamespaces(before: Tables, db: Tables)
    requires db.monitors == before.monitors && db.versions == before.versions
    ensures DisabledNamespaces(db) == DisabledNamespaces(before)
  {
  }

  /** Trimming leaves the monitors, their versions and the probes alone. */
  lemma TrimmedMonitors(before: Tables, now: int)
    ensures Blocked(Trimmed(before, now), now) == Blocked(before, now)
    ensures ExpiredMonitors(Trimmed(before, now), now) == ExpiredMonitors(before, now)
  {
    hide DisabledNamespaces, FreshActions, LiveSnapshots, LiveFeatures, FeaturesOutside, RecentRuns, OldDeliveries,
         DeliveriesWithout, OutboxWithout;
    var t := Trimmed(before, now);
    assert t.monitors == before.monitors && t.versions == before.versions && t.probes == before.probes;
    assert forall m :: Expired(t, m, now) == Expired(before, m, now);
  }

  lemma OldDeliveriesMembership(db: Tables, now: int)
    ensures forall o :: o in OldDeliveries(db, now) <==> OldDelivery(db, o, now)
  {
  }

  lemma OutboxAgrees(db: Tables, now: int)
    ensures var ids, t := ExpiredMonitors(db, now), Trimmed(db, now);
            OutboxWithout(t.outbox, OutboxOf(t, ids)) == Retained(db, now).outbox
  {
    hide DisabledNamespaces, OldDelivery, Expired, OldDeliveries;
    ExpiredIsMembership(db, now);
    OldDeliveriesMembership(db, now);
  }

  lemma DeliveriesAgree(db: Tables, now: int)
    ensures var ids, t := ExpiredMonitors(db, now), Trimmed(db, now);
            DeliveriesWithout(t.deliveries, OutboxOf(t, ids)) == Retained(db, now).deliveries
  {
    hide DisabledNamespaces, OldDelivery, Expired, OldDeliveries;
    ExpiredIsMembership(db, now);
    OldDeliveriesMembership(db, now);
  }

  lemma MonitorRowsAgree(db: Tables, now: int)
    ensures var ids, r := ExpiredMonitors(db, now), Retained(db, now);
            && MonitorsOutside(db.monitors, ids) == r.monitors
            && VersionsOutside(db.versions, ids) == r.versions
            && ObservationsOutside(db.observations, ids) == r.observations
  {
    hide DisabledNamespaces, OldDelivery, Expired;
    ExpiredIsMembership(db, now);
  }

  lemma DatedRowsAgree(db: Tables, now: int)
    ensures var ids, r := ExpiredMonitors(db, now), Retained(db, now);
            && RunsOutside(RecentRuns(db.runs, now), ids) == r.runs
            && SnapshotsOutside(LiveSnapshots(db.snapshots, now), ids) == r.snapshots
            && FreshActions(db.actions, now) == r.actions
            && FeaturesOutside(LiveFeatures(db.features, now), DisabledNamespaces(db)) == r.features
  {
    hide DisabledNamespaces, OldDelivery, Expired, OldRun;
    ExpiredIsMembership(db, now);
  }

  /** The statements together remove exactly the rows the policy names. */
  lemma AllDeletes(db: Tables, now: int)
    ensures WithoutMonitors(Trimmed(db, now), ExpiredMonitors(db, now)) == Retained(db, now)
  {
    hide DisabledNamespaces, OldDeliveries, ExpiredMonitors, OutboxOf, OutboxWithout, DeliveriesWithout, SnapshotsOutside,
         ObservationsOutside, RunsOutside, VersionsOutside, MonitorsOutside, RecentRuns, FreshActions, LiveSnapshots,
         LiveFeatures, FeaturesOutside, Expired, OldDelivery, OldRun;
    OutboxAgrees(db, now);
    DeliveriesAgree(db, now);
    MonitorRowsAgree(db, now);
    DatedRowsAgree(db, now);
  }

  // ---------- what retention guarantees ----------

  /** No delivery, outbox, observation, run, snapshot or version row is left dangling. */
  lemma RunKeepsIntegrity(db: Tables, now: int)
    requires Integrity(db)
    ensures Integrity(RunAt(db, now).0)
  {
    if !Blocked(db, now) {
      var r := Retained(db, now);
      forall v | v in r.versions && r.versions[v].parent.Some? ensures r.versions[v].parent.value in r.versions {
        assert v in db.versions && db.versions[v].parent.value in db.versions;
      }
    }
  }

  lemma ExpiryGrows(db: Tables, t1: int, t2: int)
    requires t1 <= t2
    ensures forall m :: Expired(db, m, t1) ==> Expired(db, m, t2)
    ensures forall m :: Expired(Retained(db, t1), m, t2) <==> Expired(db, m, t2) && !Expired(db, m, t1)
  {
  }

  /** What held a monitor back at the later time still does after the earlier run, and
      the earlier run removes nothing that held one back. */
  lemma BlockedLater(db: Tables, t1: int, t2: int)
    requires Integrity(db) && t1 <= t2 && !Blocked(db, t1)
    ensures Blocked(Retained(db, t1), t2) <==> Blocked(db, t2)
  {
    hide Expired, Retained;
    ExpiryGrows(db, t1, t2);
    RetainedVersions(db, t1);
    var r := Retained(db, t1);
    if Blocked(db, t2) && forall p :: p in db.probes ==> !Expired(db, p, t2) {
      var v :| v in db.versions && !Expired(db, db.versions[v].monitor, t2)
               && db.versions[v].parent.Some? && db.versions[v].parent.value in db.versions
               && Expired(db, db.versions[db.versions[v].parent.value].monitor, t2);
      assert v in r.versions && r.versions[v].parent.value in r.versions;
    }
  }

  lemma RetainedVersions(db: Tables, now: int)
    ensures var r := Retained(db, now);
            && r.probes == db.probes
            && (forall v :: v in r.versions <==> v in db.versions && !Expired(db, db.versions[v].monitor, now))
            && (forall v :: v in r.versions ==> r.versions[v] == db.versions[v])
  {
    hide Expired;
  }

  lemma MonitorsCompose(db: Tables, t1: int, t2: int)
    requires t1 <= t2
    ensures var a, b := Retained(Retained(db, t1), t2), Retained(db, t2);
            a.monitors == b.monitors && a.versions == b.versions && a.observations == b.observations && a.probes == b.probes
  {
    hide Expired, DisabledNamespaces;
    ExpiryGrows(db, t1, t2);
  }

  lemma OutboxAt(db: Tables, now: int, o: string)
    requires forall d :: d in db.deliveries ==> d in db.outbox
    ensures var r := Retained(db, now);
            && (o in r.outbox <==> o in db.outbox && !OldDelivery(db, o, now) && !Expired(db, db.outbox[o].monitor, now))
            && (o in r.outbox ==> r.outbox[o] == db.outbox[o])
            && (o in r.deliveries <==> o in db.deliveries && o in r.outbox)
            && (o in r.deliveries ==> r.deliveries[o] == db.deliveries[o])
  {
    hide DisabledNamespaces, OldDelivery, Expired;
  }

  lemma OutboxComposesAt(db: Tables, t1: int, t2: int, o: string)
    requires t1 <= t2 && forall d :: d in db.deliveries ==> d in db.outbox
    ensures var a, b := Retained(Retained(db, t1), t2), Retained(db, t2);
            && (o in a.outbox <==> o in b.outbox) && (o in a.outbox ==> a.outbox[o] == b.outbox[o])
            && (o in a.deliveries <==> o in b.deliveries) && (o in a.deliveries ==> a.deliveries[o] == b.deliveries[o])
  {
    hide Retained, Expired;
    var r := Retained(db, t1);
    forall d | d in r.deliveries ensures d in r.outbox {
      OutboxAt(db, t1, d);
    }
    OutboxAt(db, t1, o);
    OutboxAt(db, t2, o);
    OutboxAt(r, t2, o);
    ExpiryGrows(db, t1, t2);
  }

  lemma OutboxComposes(db: Tables, t1: int, t2: int)
    requires Integrity(db) && t1 <= t2
    ensures Retained(Retained(db, t1), t2).outbox == Retained(db, t2).outbox
    ensures Retained(Retained(db, t1), t2).deliveries == Retained(db, t2).deliveries
  {
    hide Retained;
    forall o {
      OutboxComposesAt(db, t1, t2, o);
    }
  }

  lemma RunsRowsCompose(db: Tables, t1: int, t2: int)
    requires t1 <= t2
    ensures Retained(Retained(db, t1), t2).runs == Retained(db, t2).runs
  {
    hide Expired, DisabledNamespaces, OldDelivery;
    ExpiryGrows(db, t1, t2);
  }

  lemma ActionsCompose(db: Tables, t1: int, t2: int)
    requires t1 <= t2
    ensures Retained(Retained(db, t1), t2).actions == Retained(db, t2).actions
  {
    hide Expired, DisabledNamespaces, OldDelivery, OldRun;
    assert forall row: PendingActions.Row :: PendingActions.Stale(row, t1) ==> PendingActions.Stale(row, t2);
  }

  lemma SnapshotsCompose(db: Tables, t1: int, t2: int)
    requires t1 <= t2
    ensures Retained(Retained(db, t1), t2).snapshots == Retained(db, t2).snapshots
  {
    hide Expired, DisabledNamespaces, OldDelivery, OldRun, PendingActions.Stale;
    ExpiryGrows(db, t1, t2);
  }

  lemma FeaturesCompose(db: Tables, t1: int, t2: int)
    requires t1 <= t2
    ensures Retained(Retained(db, t1), t2).features == Retained(db, t2).features
  {
    hide OldDelivery, OldRun;
    var r := Retained(db, t1);
    assert DisabledNamespaces(r) <= DisabledNamespaces(db);
  }

  predicate NoneExpired(db: Tables, now: int)
  {
    forall m :: m in db.monitors ==> !Expired(db, m, now)
  }

  predicate NoOldDelivery(db: Tables, now: int)
  {
    forall o :: o in db.outbox ==> !OldDelivery(db, o, now)
  }

  /** The policy names no row at all. */
  predicate NothingDue(db: Tables, now: int)
  {
    && NoneExpired(db, now)
    && (forall r :: r in db.runs ==> !OldRun(db.runs[r], now))
    && NoOldDelivery(db, now)
    && (forall h :: h in db.actions ==> !PendingActions.Stale(db.actions[h], now))
    && (forall s :: s in db.snapshots ==> db.snapshots[s].expiresAt > now)
    && (forall f :: f in db.features ==> db.features[f].expiresAt > now && db.features[f].namespace !in DisabledNamespaces(db))
  }

  lemma MonitorRowsKept(db: Tables, now: int)
    requires Integrity(db)
    ensures var r := Retained(db, now);
            r.monitors == db.monitors && r.versions == db.versions && r.observations == db.observations <==> NoneExpired(db, now)
  {
    hide DisabledNamespaces, OldRun, Expired, OldDelivery, PendingActions.Stale;
    var r := Retained(db, now);
    if r.monitors == db.monitors {
      forall m | m in db.monitors ensures !Expired(db, m, now) {
        assert m in r.monitors;
      }
    }
  }

  lemma OutboxRowsKept(db: Tables, now: int)
    requires Integrity(db) && NoneExpired(db, now)
    ensures var r := Retained(db, now);
            r.outbox == db.outbox && r.deliveries == db.deliveries <==> NoOldDelivery(db, now)
  {
    hide DisabledNamespaces, OldRun, Expired, PendingActions.Stale, OldDelivery;
    var r := Retained(db, now);
    if r.outbox == db.outbox {
      forall o | o in db.outbox ensures !OldDelivery(db, o, now) {
        assert o in r.outbox;
      }
    }
  }

  lemma RunRowsKept(db: Tables, now: int)
    requires Integrity(db) && NoneExpired(db, now)
    ensures Retained(db, now).runs == db.runs <==> forall r :: r in db.runs ==> !OldRun(db.runs[r], now)
  {
    hide DisabledNamespaces, OldRun, Expired, PendingActions.Stale, OldDelivery;
  }

  lemma SnapshotRowsKept(db: Tables, now: int)
    requires Integrity(db) && NoneExpired(db, now)
    ensures Retained(db, now).snapshots == db.snapshots <==> forall s :: s in db.snapshots ==> db.snapshots[s].expiresAt > now
  {
    hide DisabledNamespaces, OldRun, Expired, PendingActions.Stale, OldDelivery;
  }

  lemma OtherRowsKept(db: Tables, now: int)
    ensures Retained(db, now).actions == db.actions <==>
            forall h :: h in db.actions ==> !PendingActions.Stale(db.actions[h], now)
    ensures Retained(db, now).features == db.features <==>
            forall f :: f in db.features ==> db.features[f].expiresAt > now && db.features[f].namespace !in DisabledNamespaces(db)
  {
    hide DisabledNamespaces, OldRun, Expired, PendingActions.Stale, OldDelivery;
  }

  /** What a run that is not refused would leave is what was there exactly when nothing
      is due. */
  lemma NothingDueMeans(db: Tables, now: int)
    requires Integrity(db)
    ensures Retained(db, now) == db <==> NothingDue(db, now)
  {
    hide Integrity, Retained, DisabledNamespaces, OldRun, NoneExpired, PendingActions.Stale, NoOldDelivery;
    MonitorRowsKept(db, now);
    if NoneExpired(db, now) {
      RunRowsKept(db, now);
      OutboxRowsKept(db, now);
      SnapshotRowsKept(db, now);
      OtherRowsKept(db, now);
      ProbesKept(db, now);
    }
  }

  lemma ProbesKept(db: Tables, now: int)
    ensures Retained(db, now).probes == db.probes
  {
  }

  /** Running at t1 and then at t2: the second run succeeds or not as it would have alone,
      and the tables are those of running at t2 alone exactly when the run at t2 succeeds,
      or the run at t1 was refused too, or nothing was due at t1. */
  lemma RunsCompose(db: Tables, t1: int, t2: int)
    requires Integrity(db) && t1 <= t2
    ensures RunAt(RunAt(db, t1).0, t2).1 == RunAt(db, t2).1
    ensures RunAt(RunAt(db, t1).0, t2).0 == RunAt(db, t2).0 <==>
            !Blocked(db, t2) || Blocked(db, t1) || NothingDue(db, t1)
  {
    hide Retained, Blocked, NothingDue;
    NothingDueMeans(db, t1);
    if !Blocked(db, t1) {
      BlockedLater(db, t1, t2);
      MonitorsCompose(db, t1, t2);
      OutboxComposes(db, t1, t2);
      RunsRowsCompose(db, t1, t2);
      ActionsCompose(db, t1, t2);
      SnapshotsCompose(db, t1, t2);
      FeaturesCompose(db, t1, t2);
    }
  }

  /** For every two times there is a database on which the runs do not compose: the run at
      t1 deletes an old row of the disabled monitor, and the run at t2, which finds the
      monitor expired and held by a probe, is refused and does not bring the row back. */
  lemma RefusedRunDoesNotCompose(t1: int, t2: int) returns (db: Tables)
    requires t1 < t2
    ensures Integrity(db) && OwnParents(db) && RunAt(db, t1).1 && RunAt(db, t2) == (db, false)
    ensures RunAt(RunAt(db, t1).0, t2).0 != RunAt(db, t2).0
  {
    db := Tables(map["m" := Monitor("o", "disabled", Some(t1 - DISABLED_DAYS))], map[], map[],
      map["r" := RunRow("m", t1 - RUN_DAYS - 1, None)], map[], map[], map[], map[], map[], map["m" := "p"]);
    assert Expired(db, "m", t2) && !Expired(db, "m", t1) && OldRun(db.runs["r"], t1);
    hide Retained, Expired, OldRun;
    assert !NothingDue(db, t1);
    RunsCompose(db, t1, t2);
  }

  /** A duplicate probe of an expired monitor refuses this run and every later one, so
      none of the retention policy takes effect until the probe row goes. */
  lemma ProbeBlocksForever(db: Tables, p: string, t1: int, t2: int)
    requires p in db.probes && Expired(db, p, t1) && t1 <= t2
    ensures RunAt(db, t2) == (db, false)
  {
    ExpiryGrows(db, t1, t2);
  }

  /** Such a database exists at every time, with rows that would otherwise go. */
  lemma ProbedDatabase(now: int) returns (db: Tables)
    ensures Integrity(db) && OwnParents(db) && !NothingDue(db, now)
    ensures "m" in db.probes && Expired(db, "m", now) && RunAt(db, now) == (db, false)
  {
    db := Tables(map["m" := Monitor("o", "disabled", Some(now - DISABLED_DAYS - 1))], map[], map[], map[],
      map[], map[], map[], map[], map[], map["m" := "p"]);
    assert Expired(db, "m", now);
    ProbeBlocksForever(db, "m", now, now);
  }

  /** In a database the program writes, what refuses a run is a duplicate probe of an expired
      monitor and nothing else, and a run keeps the database of that form. */
  lemma BlockedIffProbed(db: Tables, now: int)
    requires OwnParents(db)
    ensures Blocked(db, now) <==> Probed(db, ExpiredMonitors(db, now))
    ensures OwnParents(RunAt(db, now).0)
  {
    BlockedIsHeldBack(db, now);
  }

  /** An outbox row is removed exactly when it was delivered over 180 days ago or its
      monitor is removed; so pending rows of surviving monitors stay. */
  lemma OutboxRemoval(db: Tables, now: int, o: string)
    requires Integrity(db) && RunAt(db, now).1 && o in db.outbox
    ensures o !in RunAt(db, now).0.outbox <==>
            OldDelivery(db, o, now) || db.outbox[o].monitor !in RunAt(db, now).0.monitors
    ensures db.outbox[o].status != "delivered" && db.outbox[o].monitor in RunAt(db, now).0.monitors ==>
            o in RunAt(db, now).0.outbox && RunAt(db, now).0.outbox[o] == db.outbox[o]
  {
  }

  /** No adaptive feature of a removed monitor survives. */
  lemma RemovedMonitorLeavesNoFeature(db: Tables, now: int, v: string, f: string)
    requires Integrity(db) && RunAt(db, now).1
    requires v in db.versions && db.versions[v].monitor !in RunAt(db, now).0.monitors
    requires f in RunAt(db, now).0.features
    ensures var m := db.versions[v].monitor;
            RunAt(db, now).0.features[f].namespace != Namespace(db.monitors[m].owner, m, v)
  {
    assert Expired(db, db.versions[v].monitor, now);
  }

  /** The run with its last two steps exchanged: monitors first, then adaptive features. */
  function MonitorsFirst(db: Tables, now: int): Tables
  {
    var r := Retained(db, now);
    r.(features := FeaturesOutside(LiveFeatures(db.features, now), DisabledNamespaces(r)))
  }

  /** The order matters: exchanged, a removed monitor's feature would stay. */
  lemma OrderMatters(now: int) returns (db: Tables)
    ensures Integrity(db) && !Blocked(db, now)
    ensures "v" in db.versions && db.versions["v"].monitor == "m" && "m" in db.monitors && "m" !in MonitorsFirst(db, now).monitors
    ensures "f" in MonitorsFirst(db, now).features
            && MonitorsFirst(db, now).features["f"].namespace == Namespace(db.monitors["m"].owner, "m", "v")
  {
    db := Tables(map["m" := Monitor("o", "disabled", Some(now - DISABLED_DAYS - 1))], map["v" := Version("m", None)],
      map[], map[], map[], map[], map[], map[], map["f" := Feature(Namespace("o", "m", "v"), now + 1)], map[]);
    assert Expired(db, "m", now);
    var r := Retained(db, now);
    assert r.versions == map[];
    assert DisabledNamespaces(r) == {};
  }

  // ---------- features of monitors that are not disabled ----------

  predicate NulFree(s: string)
  {
    forall i :: 0 <= i < |s| ==> s[i] != '\0'
  }

  function FirstNul(s: string): nat
  {
    if s == "" || s[0] == '\0' then 0 else 1 + FirstNul(s[1..])
  }

  lemma {:induction false} FirstNulAfter(a: string, x: string)
    requires NulFree(a)
    ensures FirstNul(a + "\0" + x) == |a|
  {
    if a != "" {
      FirstNulAfter(a[1..], x);
      assert (a + "\0" + x)[1..] == a[1..] + "\0" + x;
    }
  }

  lemma CutAtNul(a: string, b: string, x: string, y: string)
    requires NulFree(a) && NulFree(b) && a + "\0" + x == b + "\0" + y
    ensures a == b && x == y
  {
    FirstNulAfter(a, x);
    FirstNulAfter(b, y);
    var s, t := a + "\0" + x, b + "\0" + y;
    assert s[..|a|] == a && t[..|a|] == b && s[|a| + 1..] == x && t[|a| + 1..] == y;
  }

  /** Namespaces of NUL-free ids are distinct. */
  lemma NamespaceInjective(o: string, m: string, v: string, o': string, m': string, v': string)
    requires NulFree(o) && NulFree(o') && NulFree(m) && NulFree(m')
    requires Namespace(o, m, v) == Namespace(o', m', v')
    ensures o == o' && m == m' && v == v'
  {
    assert o + "\0" + m + "\0" + v == o + "\0" + (m + "\0" + v);
    assert o' + "\0" + m' + "\0" + v' == o' + "\0" + (m' + "\0" + v');
    CutAtNul(o, o', m + "\0" + v, m' + "\0" + v');
    CutAtNul(m, m', v, v');
  }

  /** An unexpired feature of a monitor that is not disabled survives. */
  lemma LiveFeatureStays(db: Tables, now: int, v: string, f: string)
    requires Integrity(db) && RunAt(db, now).1
    requires forall m :: m in db.monitors ==> NulFree(m) && NulFree(db.monitors[m].owner)
    requires v in db.versions && f in db.features && db.features[f].expiresAt > now
    requires db.monitors[db.versions[v].monitor].status != "disabled"
    requires db.features[f].namespace == Namespace(db.monitors[db.versions[v].monitor].owner, db.versions[v].monitor, v)
    ensures f in RunAt(db, now).0.features && RunAt(db, now).0.features[f] == db.features[f]
  {
    hide NulFree, Namespace;
    forall w | w in db.versions && db.monitors[db.versions[w].monitor].status == "disabled"
      ensures db.features[f].namespace != Namespace(db.monitors[db.versions[w].monitor].owner, db.versions[w].monitor, w)
    {
      var m, n := db.versions[v].monitor, db.versions[w].monitor;
      if Namespace(db.monitors[m].owner, m, v) == Namespace(db.monitors[n].owner, n, w) {
        NamespaceInjective(db.monitors[m].owner, m, v, db.monitors[n].owner, n, w);
      }
    }
  }

  // ---------- which row goes, table by table ----------

  /** A run is refused exactly when a monitor disabled over thirty days ago has a duplicate
      probe, or a version that a version of a monitor that stays derives from. */
  lemma RefusedMeans(db: Tables, now: int)
    requires Integrity(db)
    ensures var cutoff := now - 2_592_000_000_000;
            !RunAt(db, now).1 <==>
            exists m :: m in db.monitors && db.monitors[m].status == "disabled"
                        && db.monitors[m].disabledAt.Some? && db.monitors[m].disabledAt.value < cutoff
                        && (m in db.probes
                            || exists v, u :: v in db.versions && u in db.versions
                                 && db.versions[v].parent == Some(u) && db.versions[u].monitor == m
                                 && var n := db.monitors[db.versions[v].monitor];
                                    !(n.status == "disabled" && n.disabledAt.Some? && n.disabledAt.value < cutoff))
    ensures !RunAt(db, now).1 ==> RunAt(db, now).0 == db
  {
    if Blocked(db, now) && forall p :: p in db.probes ==> !Expired(db, p, now) {
      var v :| v in db.versions && !Expired(db, db.versions[v].monitor, now)
               && db.versions[v].parent.Some? && db.versions[v].parent.value in db.versions
               && Expired(db, db.versions[db.versions[v].parent.value].monitor, now);
      var u := db.versions[v].parent.value;
      assert db.versions[v].parent == Some(u) && db.versions[u].monitor in db.monitors;
    }
  }

  /** A monitor goes exactly when it was disabled over thirty days ago, and its versions and
      observations go with it. */
  lemma MonitorGoes(db: Tables, now: int, m: string)
    requires Integrity(db) && RunAt(db, now).1 && m in db.monitors
    ensures var r := RunAt(db, now).0;
            && (m !in r.monitors <==>
                  && db.monitors[m].status == "disabled"
                  && db.monitors[m].disabledAt.Some? && db.monitors[m].disabledAt.value < now - 2_592_000_000_000)
            && (m in r.monitors ==> r.monitors[m] == db.monitors[m])
            && (forall v :: v in db.versions && db.versions[v].monitor == m ==> (v in r.versions <==> m in r.monitors))
            && (forall o :: o in db.observations && o.0 == m ==> (o in r.observations <==> m in r.monitors))
    ensures m in RunAt(db, now).0.monitors <==> !Expired(db, m, now)
  {
  }

  /** A run goes exactly when it finished, or else started, over ninety days ago, or its monitor
      goes. */
  lemma RunGoes(db: Tables, now: int, id: string)
    requires Integrity(db) && RunAt(db, now).1 && id in db.runs
    ensures var row, r := db.runs[id], RunAt(db, now).0;
            && (id !in r.runs <==>
                  || row.monitor !in r.monitors
                  || match row.finishedAt
                     case Some(finished) => finished < now - 7_776_000_000_000
                     case None => row.startedAt < now - 7_776_000_000_000)
            && (id in r.runs ==> r.runs[id] == row)
  {
    hide DisabledNamespaces, OldDelivery, PendingActions.Stale;
  }

  /** At the cutoff a run stays, finished or not; one microsecond earlier it goes. */
  lemma RunAtCutoff(db: Tables, now: int, id: string)
    requires Integrity(db) && RunAt(db, now).1 && id in db.runs && db.runs[id].monitor in RunAt(db, now).0.monitors
    ensures var row, runs := db.runs[id], RunAt(db, now).0.runs;
            && (row.finishedAt == Some(now - 7_776_000_000_000) ==> id in runs)
            && (row.finishedAt == Some(now - 7_776_000_000_001) ==> id !in runs)
            && (row.finishedAt == None && row.startedAt == now - 7_776_000_000_000 ==> id in runs)
            && (row.finishedAt == None && row.startedAt == now - 7_776_000_000_001 ==> id !in runs)
  {
    hide *;
    RunGoes(db, now, id);
  }

  /** An outbox row goes with its delivery when it is delivered and that was over 180 days ago,
      or when its monitor goes. */
  lemma NoticeGoes(db: Tables, now: int, o: string)
    requires Integrity(db) && RunAt(db, now).1 && o in db.outbox
    ensures var r := RunAt(db, now).0;
            && (o !in r.outbox <==>
                  || db.outbox[o].monitor !in r.monitors
                  || (db.outbox[o].status == "delivered" && o in db.deliveries && db.deliveries[o] < now - 15_552_000_000_000))
            && (o in r.outbox ==> r.outbox[o] == db.outbox[o])
            && (o in r.deliveries <==> o in db.deliveries && o in r.outbox)
            && (o in r.deliveries ==> r.deliveries[o] == db.deliveries[o])
  {
    hide DisabledNamespaces, OldRun, PendingActions.Stale;
  }

  /** A pending action goes when it was consumed, or expired, over a day ago; a snapshot when it
      expires now or earlier or its monitor goes; and every probe stays. */
  lemma DatedRowGoes(db: Tables, now: int, h: Hash, s: string)
    requires Integrity(db) && RunAt(db, now).1 && h in db.actions && s in db.snapshots
    ensures var row, r := db.actions[h], RunAt(db, now).0;
            && (h !in r.actions <==> (row.consumedAt.Some? && row.consumedAt.value < now - 86_400_000_000)
                                     || row.expires.at < now - 86_400_000_000)
            && (h in r.actions ==> r.actions[h] == row)
    ensures var row, r := db.snapshots[s], RunAt(db, now).0;
            (s !in r.snapshots <==> row.expiresAt <= now || row.monitor !in r.monitors) && (s in r.snapshots ==> r.snapshots[s] == row)
    ensures RunAt(db, now).0.probes == db.probes
  {
    hide DisabledNamespaces, OldRun, OldDelivery;
  }

  /** An adaptive feature goes when it expires now or earlier, or its namespace is that of a
      version of a monitor that is disabled, however recently. */
  lemma FeatureGoes(db: Tables, now: int, f: string)
    requires Integrity(db) && RunAt(db, now).1 && f in db.features
    ensures var row, r := db.features[f], RunAt(db, now).0;
            && (f !in r.features <==>
                  || row.expiresAt <= now
                  || exists v :: v in db.versions
                       && var m := db.versions[v].monitor;
                          db.monitors[m].status == "disabled" && row.namespace == Sha256(db.monitors[m].owner + "\0" + m + "\0" + v))
            && (f in r.features ==> r.features[f] == row)
  {
    hide OldRun, OldDelivery, PendingActions.Stale;
    var row := db.features[f];
    if row.namespace in DisabledNamespaces(db) {
      var v :| v in db.versions && db.versions[v].monitor in db.monitors && db.monitors[db.versions[v].monitor].status == "disabled"
               && row.namespace == Namespace(db.monitors[db.versions[v].monitor].owner, db.versions[v].monitor, v);
    }
    forall v | v in db.versions && db.monitors[db.versions[v].monitor].status == "disabled"
               && row.namespace == Sha256(db.monitors[db.versions[v].monitor].owner + "\0" + db.versions[v].monitor + "\0" + v)
      ensures row.namespace in DisabledNamespaces(db)
    {
      assert row.namespace == Namespace(db.monitors[db.versions[v].monitor].owner, db.versions[v].monitor, v);
    }
  }

  /** A run adds no row to any table. */
  lemma NothingAdded(db: Tables, now: int)
    ensures var r := RunAt(db, now).0;
            && r.monitors.Keys <= db.monitors.Keys && r.versions.Keys <= db.versions.Keys
            && r.observations.Keys <= db.observations.Keys && r.runs.Keys <= db.runs.Keys && r.outbox.Keys <= db.outbox.Keys
            && r.deliveries.Keys <= db.deliveries.Keys && r.actions.Keys <= db.actions.Keys
            && r.snapshots.Keys <= db.snapshots.Keys && r.features.Keys <= db.features.Keys
  {
    hide DisabledNamespaces, OldRun, OldDelivery, PendingActions.Stale, Expired;
  }
}
