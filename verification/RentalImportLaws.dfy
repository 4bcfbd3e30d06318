/** Laws of the rental import: repeating it changes nothing, a dry run predicts it, and no
    constraint of the database can refuse a row it inserts. */
module RentalImportLaws {
  import opened Order
  import opened Digest
  import opened Decimals
  import opened Timestamps
  import opened RentalSource
  import opened RentalImport
  import J = JsonText

  /** A positive number in decimal is an opaque identifier: short, printable, unspaced. */
  ghost predicate NumbersAreOpaque(config: Config)
  {
    forall n: nat :: 0 < n <= MAX_TELEGRAM_ID ==> config.opaqueId(J.Digits(n))
  }

  // ---------- the same plan again ----------

  lemma OneChat(deliveries: seq<SourceDelivery>)
    requires deliveries != [] && |Chats(deliveries)| <= 1
    ensures Chats(deliveries) == {deliveries[0].chatId}
  {
    var chats, first := Chats(deliveries), deliveries[0].chatId;
    assert first in chats;
    if exists c :: c in chats && c != first {
      var c :| c in chats && c != first;
      SubsetSize({c, first}, chats);
    }
  }

  lemma {:induction false} SubsetSize(a: set<string>, b: set<string>)
    requires a <= b
    ensures |a| <= |b|
  {
    if a != {} {
      var x :| x in a;
      SubsetSize(a - {x}, b - {x});
    }
  }

  lemma ChatsAreOpaque(l: Legacy, config: Config)
    requires WellFormed(l, config)
    ensures forall i :: 0 <= i < |l.deliveries| ==> config.opaqueId(l.deliveries[i].chatId)
  {
    forall i | 0 <= i < |l.deliveries| ensures config.opaqueId(l.deliveries[i].chatId) {
      assert DeliveryOk(l.deliveries[i], l.announcements, config);
    }
  }

  lemma TelegramIdPositive(owner: string)
    requires TelegramUserId(owner).Some?
    ensures 0 < TelegramUserId(owner).value <= MAX_TELEGRAM_ID
  {
    LeadingDigitPositive(owner[14..]);
  }

  /** Routing a second time finds the target the first run made, and the same chat. */
  lemma RoutingStable(targets: map<string, Target>, l: Legacy, r: Request, n: nat, config: Config)
    requires WellFormed(l, config) && ValidRequest(r, config) && NumbersAreOpaque(config) && 0 < n <= MAX_TELEGRAM_ID
    requires TargetRouting(targets, SnapshotOf(l), r, n, config).Some?
    requires var p := PlanOf(SnapshotOf(l), r, n, TargetRouting(targets, SnapshotOf(l), r, n, config).value, config);
             TargetAgrees(targets, p)
    ensures var p := PlanOf(SnapshotOf(l), r, n, TargetRouting(targets, SnapshotOf(l), r, n, config).value, config);
            TargetRouting(targets[r.targetId := TargetRow(p)], SnapshotOf(l), r, n, config) ==
            TargetRouting(targets, SnapshotOf(l), r, n, config)
  {
    hide WellFormed, Latest, Selected;
    if r.targetId !in targets {
      ChatsAreOpaque(l, config);
      if l.deliveries != [] {
        OneChat(l.deliveries);
      }
    }
  }

  lemma {:induction false} ObservationsAdded(before: map<ItemKey, StoredItem>, rows: seq<Announcement>, i: nat)
    requires DistinctKeys(rows) && i < |rows|
    ensures KeyOf(rows[i]) in WithObservations(before, rows)
    ensures WithObservations(before, rows)[KeyOf(rows[i])] == ObservationRow(rows[i])
  {
    hide KeyOf, ObservationRow;
    var n := |rows| - 1;
    if i < n {
      EarlierKeysDiffer(rows, n);
      ObservationsAdded(before, rows[..n], i);
      assert KeyOf(rows[..n][i]) != KeyOf(rows[n]);
    }
  }

  lemma {:induction false} ObservationsPresent(observations: map<ItemKey, StoredItem>, rows: seq<Announcement>)
    requires forall i :: 0 <= i < |rows| ==> KeyOf(rows[i]) in observations && observations[KeyOf(rows[i])] == ObservationRow(rows[i])
    ensures MissingObservations(observations, rows) == 0 && WithObservations(observations, rows) == observations
    ensures ObservationsAgree(observations, rows)
  {
    hide KeyOf, ObservationRow;
    if rows != [] {
      ObservationsPresent(observations, rows[..|rows| - 1]);
    }
  }

  lemma {:induction false} OutboxPresent(outbox: map<OutboxId, Outbox>, p: Plan, rows: seq<SourceDelivery>)
    requires forall i :: 0 <= i < |rows| ==> NewOutboxId(rows[i].key) in outbox && outbox[NewOutboxId(rows[i].key)] == OutboxRow(p, rows[i])
    ensures MissingOutbox(outbox, rows) == 0 && WithOutbox(outbox, p, rows) == outbox
  {
    hide NewOutboxId, OutboxRow;
    if rows != [] {
      OutboxPresent(outbox, p, rows[..|rows| - 1]);
    }
  }

  lemma {:induction false} DeliveriesPresent(deliveries: map<OutboxId, Delivery>, p: Plan, rows: seq<SourceDelivery>)
    requires forall i :: 0 <= i < |rows| ==>
      NewOutboxId(rows[i].key) in deliveries && deliveries[NewOutboxId(rows[i].key)] == DeliveryRow(p, rows[i])
    ensures MissingOutbox(deliveries, rows) == 0 && WithDeliveries(deliveries, p, rows) == deliveries
    ensures DeliveriesAgree(deliveries, p, rows)
  {
    hide NewOutboxId, DeliveryRow;
    if rows != [] {
      DeliveriesPresent(deliveries, p, rows[..|rows| - 1]);
    }
  }

  /** After an agreeing import the outbox still agrees. */
  lemma OutboxStillAgrees(before: map<OutboxId, Outbox>, p: Plan, rows: seq<SourceDelivery>)
    requires DistinctDeliveryKeys(rows) && OutboxAgrees(before, p, rows)
    ensures OutboxAgrees(WithOutbox(before, p, rows), p, rows)
  {
    hide DedupeKey, NewOutboxId, WithOutbox, DistinctDeliveryKeys;
    var after := WithOutbox(before, p, rows);
    forall i | 0 <= i < |rows| ensures OutboxAgreesFor(after, p, rows[i]) {
      assert OutboxAgreesFor(before, p, rows[i]);
      OutboxAdded(before, p, rows, i);
      forall id | id in after && (after[id].dedupeKey == DedupeKey(rows[i].key) || id == NewOutboxId(rows[i].key))
        ensures id == NewOutboxId(rows[i].key)
      {
        OutboxGrows(before, p, rows, id);
        if id !in before {
          var j :| 0 <= j < |rows| && NewOutboxId(rows[j].key) == id && after[id] == OutboxRow(p, rows[j]);
          IdFromDedupe(rows[j].key, rows[i].key);
        }
      }
    }
  }

  lemma IdFromDedupe(a: string, b: string)
    ensures DedupeKey(a) == DedupeKey(b) ==> NewOutboxId(a) == NewOutboxId(b)
  {
  }

  lemma RowsAfterImport(db: Tables, p: Plan, scheduled: string)
    requires DistinctKeys(p.announcements) && DistinctDeliveryKeys(p.deliveries) && Agrees(db, p)
    ensures var d := Merged(db, p, scheduled);
            && ObservationsAgree(d.observations, p.announcements) && OutboxAgrees(d.outbox, p, p.deliveries)
            && DeliveriesAgree(d.deliveries, p, p.deliveries)
            && MissingObservations(d.observations, p.announcements) == 0
            && MissingOutbox(d.outbox, p.deliveries) == 0 && MissingOutbox(d.deliveries, p.deliveries) == 0
            && WithObservations(d.observations, p.announcements) == d.observations
            && WithOutbox(d.outbox, p, p.deliveries) == d.outbox && WithDeliveries(d.deliveries, p, p.deliveries) == d.deliveries
  {
    hide *;
    MergedRows(db, p, scheduled);
    AllTogether(db, p, scheduled);
    var observations := WithObservations(db.observations, p.announcements);
    var outbox, deliveries := WithOutbox(db.outbox, p, p.deliveries), WithDeliveries(db.deliveries, p, p.deliveries);
    forall i | 0 <= i < |p.announcements|
      ensures KeyOf(p.announcements[i]) in observations
              && observations[KeyOf(p.announcements[i])] == ObservationRow(p.announcements[i])
    {
      ObservationsAdded(db.observations, p.announcements, i);
    }
    forall i | 0 <= i < |p.deliveries|
      ensures NewOutboxId(p.deliveries[i].key) in outbox
              && outbox[NewOutboxId(p.deliveries[i].key)] == OutboxRow(p, p.deliveries[i])
      ensures NewOutboxId(p.deliveries[i].key) in deliveries
              && deliveries[NewOutboxId(p.deliveries[i].key)] == DeliveryRow(p, p.deliveries[i])
    {
      OutboxAdded(db.outbox, p, p.deliveries, i);
      DeliveriesAdded(db.deliveries, p, p.deliveries, i);
    }
    ObservationsPresent(observations, p.announcements);
    OutboxPresent(outbox, p, p.deliveries);
    OutboxStillAgrees(db.outbox, p, p.deliveries);
    DeliveriesPresent(deliveries, p, p.deliveries);
  }

  lemma MergedRows(db: Tables, p: Plan, scheduled: string)
    ensures var d := Merged(db, p, scheduled);
            && d.observations == WithObservations(db.observations, p.announcements)
            && d.outbox == WithOutbox(db.outbox, p, p.deliveries) && d.deliveries == WithDeliveries(db.deliveries, p, p.deliveries)
  {
    hide WithObservations, WithOutbox, WithDeliveries;
  }

  lemma IdentityAfterImport(db: Tables, p: Plan, scheduled: string, later: string)
    requires UserAgrees(db.users, p) && TargetAgrees(db.targets, p) && MonitorAgrees(db.monitors, db.versions, p)
    ensures var d := Merged(db, p, scheduled);
            && UserAgrees(d.users, p) && TargetAgrees(d.targets, p) && MonitorAgrees(d.monitors, d.versions, p)
            && MarkerAgrees(d.runs, p)
            && p.owner in d.users && p.targetId in d.targets && MONITOR_ID in d.monitors && VERSION_ID in d.versions
            && d.users[p.owner := UserRow(p)] == d.users && d.targets[p.targetId := TargetRow(p)] == d.targets
            && MonitorsAfter(d.monitors, p, later) == d.monitors && d.versions[VERSION_ID := VersionRow(p)] == d.versions
            && MARKER_ID in d.runs && d.runs[MARKER_ID := MarkerRow(p)] == d.runs
  {
    hide WithObservations, WithOutbox, WithDeliveries;
  }

  lemma MergedAgain(d: Tables, p: Plan, later: string)
    requires d.users[p.owner := UserRow(p)] == d.users && d.targets[p.targetId := TargetRow(p)] == d.targets
    requires MonitorsAfter(d.monitors, p, later) == d.monitors && d.versions[VERSION_ID := VersionRow(p)] == d.versions
    requires WithObservations(d.observations, p.announcements) == d.observations
    requires WithOutbox(d.outbox, p, p.deliveries) == d.outbox && WithDeliveries(d.deliveries, p, p.deliveries) == d.deliveries
    requires d.runs[MARKER_ID := MarkerRow(p)] == d.runs
    ensures Merged(d, p, later) == d
  {
    hide WithObservations, WithOutbox, WithDeliveries, MonitorsAfter, UserRow, TargetRow, VersionRow, MarkerRow;
  }

  /** The plan of the second import is the plan of the first. */
  lemma SamePlan(db: Tables, l: Legacy, r: Request, config: Config, scheduled: string)
    requires WellFormed(l, config) && ValidRequest(r, config) && NumbersAreOpaque(config)
    requires Accepted(db, SnapshotOf(l), r, config)
    ensures var p := Planned(db, SnapshotOf(l), r, config); Planned(Merged(db, p.value, scheduled), SnapshotOf(l), r, config) == p
  {
    hide WellFormed, TargetRouting, TelegramUserId, WithObservations, WithOutbox, WithDeliveries, NumbersAreOpaque, Latest,
         UserAgrees, MonitorAgrees, ObservationsAgree, OutboxAgrees, DeliveriesAgree, MarkerAgrees, TargetAgrees, Selected;
    TelegramIdPositive(r.owner);
    RoutingStable(db.targets, l, r, TelegramUserId(r.owner).value, config);
  }

  /** A second import of the same source succeeds, leaves every table as it is, and
      reports what the first did with no new rows, whenever it runs. */
  lemma ImportTwice(db: Tables, l: Legacy, r: Request, config: Config, scheduled: string, later: string)
    requires WellFormed(l, config) && ValidRequest(r, config) && NumbersAreOpaque(config)
    requires Accepted(db, SnapshotOf(l), r, config)
    ensures var s := SnapshotOf(l);
            var p := Planned(db, s, r, config).value;
            var d := Merged(db, p, scheduled);
            && Accepted(d, s, r, config) && Planned(d, s, r, config) == Some(p)
            && Merged(d, p, later) == d
            && ReportOf(s, CountsOf(d, p, false), false) == WithNoNewRows(ReportOf(s, CountsOf(db, p, false), false))
  {
    hide *;
    var s := SnapshotOf(l);
    SamePlan(db, l, r, config, scheduled);
    AcceptedMeans(db, s, r, config);
    var p := Planned(db, s, r, config).value;
    var d := Merged(db, p, scheduled);
    SourceKeyed(l, config);
    PlanKeyed(db, s, r, config);
    AllTogether(db, p, scheduled);
    AllTogether(d, p, later);
    RowsAfterImport(db, p, scheduled);
    IdentityAfterImport(db, p, scheduled, later);
    MergedAgain(d, p, later);
    AcceptedMeans(d, s, r, config);
    NoNewRows(db, d, p, s);
  }

  lemma AcceptedMeans(db: Tables, s: Snapshot, r: Request, config: Config)
    ensures Accepted(db, s, r, config) <==>
            Planned(db, s, r, config).Some? && Agrees(db, Planned(db, s, r, config).value)
  {
  }

  lemma SourceKeyed(l: Legacy, config: Config)
    requires WellFormed(l, config)
    ensures Keyed(SnapshotOf(l))
  {
  }

  lemma NoNewRows(db: Tables, d: Tables, p: Plan, s: Snapshot)
    requires MissingObservations(d.observations, p.announcements) == 0
    requires MissingOutbox(d.outbox, p.deliveries) == 0 && MissingOutbox(d.deliveries, p.deliveries) == 0
    requires p.owner in d.users && p.targetId in d.targets && MONITOR_ID in d.monitors && VERSION_ID in d.versions
    ensures ReportOf(s, CountsOf(d, p, false), false) == WithNoNewRows(ReportOf(s, CountsOf(db, p, false), false))
  {
    hide MissingObservations, MissingOutbox;
  }

  /** A dry run reports a conflict exactly when the real run would, and otherwise every count
      and created flag of the real run; it is complete when the marker is already there. */
  lemma DryRunPredicts(db: Tables, l: Legacy, r: Request, config: Config)
    ensures var dry, done := ReportFor(db, l, r, config, true), ReportFor(db, l, r, config, false);
            && (dry.Some? <==> done.Some?)
            && (dry.Some? ==>
                  && done.value.status == "complete" && done.value.counts.complete
                  && dry.value.counts.complete == (MARKER_ID in db.runs)
                  && dry.value.status == (if MARKER_ID in db.runs then "complete" else "validated")
                  && dry.value == done.value.(dryRun := true, status := dry.value.status,
                                              counts := done.value.counts.(complete := dry.value.counts.complete)))
  {
    hide MissingObservations, MissingOutbox, Accepted, Planned, ValidRequest, SnapshotOf;
  }

  // ---------- no constraint is violated ----------

  /** The foreign keys and unique constraints of the eight tables. */
  ghost predicate Integrity(db: Tables)
  {
    && IdentityIntegrity(db) && RowIntegrity(db)
  }

  ghost predicate IdentityIntegrity(db: Tables)
  {
    && UsersUnique(db.users) && TargetsSound(db.targets, db.users)
    && (forall m :: m in db.monitors ==> db.monitors[m].owner in db.users)
    && VersionsSound(db.versions, db.monitors)
  }

  ghost predicate UsersUnique(users: map<string, User>)
  {
    forall u, v :: u in users && v in users && users[u].telegramId == users[v].telegramId ==> u == v
  }

  predicate SameDestination(a: Target, b: Target)
  {
    a.owner == b.owner && a.kind == b.kind && a.address == b.address
  }

  ghost predicate TargetsSound(targets: map<string, Target>, users: map<string, User>)
  {
    && (forall t :: t in targets ==> targets[t].owner in users)
    && (forall t, u :: t in targets && u in targets && SameDestination(targets[t], targets[u]) ==> t == u)
  }

  predicate SameNumber(a: Version, b: Version)
  {
    a.monitor == b.monitor && a.number == b.number
  }

  ghost predicate VersionsSound(versions: map<string, Version>, monitors: map<string, Monitor>)
  {
    && (forall v :: v in versions ==> versions[v].monitor in monitors)
    && (forall v :: v in versions && versions[v].parent.Some? ==> versions[v].parent.value in versions)
    && (forall v, w :: v in versions && w in versions && SameNumber(versions[v], versions[w]) ==> v == w)
  }

  ghost predicate RowIntegrity(db: Tables)
  {
    && (forall o :: o in db.observations ==> o.0 in db.monitors)
    && (forall o :: o in db.outbox ==> db.outbox[o].monitor in db.monitors && db.outbox[o].target in db.targets)
    && UniqueDedupe(db.outbox)
    && (forall o :: o in db.deliveries ==> o in db.outbox)
    && (forall r :: r in db.runs ==> db.runs[r].monitor in db.monitors)
  }

  lemma UsersAndTargetsKept(db: Tables, p: Plan)
    requires UsersUnique(db.users) && TargetsSound(db.targets, db.users) && UserAgrees(db.users, p) && TargetAgrees(db.targets, p)
    ensures UsersUnique(db.users[p.owner := UserRow(p)])
    ensures TargetsSound(db.targets[p.targetId := TargetRow(p)], db.users[p.owner := UserRow(p)])
  {
  }

  lemma VersionsKept(db: Tables, p: Plan, scheduled: string)
    requires VersionsSound(db.versions, db.monitors) && MonitorAgrees(db.monitors, db.versions, p)
    ensures VersionsSound(db.versions[VERSION_ID := VersionRow(p)], MonitorsAfter(db.monitors, p, scheduled))
    ensures MonitorsAfter(db.monitors, p, scheduled).Keys == db.monitors.Keys + {MONITOR_ID}
  {
  }

  lemma IdentityKept(db: Tables, p: Plan, scheduled: string)
    requires IdentityIntegrity(db)
    requires UserAgrees(db.users, p) && TargetAgrees(db.targets, p) && MonitorAgrees(db.monitors, db.versions, p)
    ensures IdentityIntegrity(Merged(db, p, scheduled))
    ensures db.monitors.Keys <= Merged(db, p, scheduled).monitors.Keys && MONITOR_ID in Merged(db, p, scheduled).monitors
    ensures db.targets.Keys <= Merged(db, p, scheduled).targets.Keys && p.targetId in Merged(db, p, scheduled).targets
  {
    hide WithObservations, WithOutbox, WithDeliveries, UsersUnique, TargetsSound, VersionsSound, UserAgrees, TargetAgrees, MonitorAgrees;
    UsersAndTargetsKept(db, p);
    VersionsKept(db, p, scheduled);
  }

  lemma {:induction false} ObservationKeys(before: map<ItemKey, StoredItem>, rows: seq<Announcement>, key: ItemKey)
    requires key in WithObservations(before, rows)
    ensures key in before || key.0 == MONITOR_ID
  {
    if rows != [] && key !in before {
      if key != KeyOf(rows[|rows| - 1]) {
        ObservationKeys(before, rows[..|rows| - 1], key);
      }
    }
  }

  lemma AddedRow(before: map<OutboxId, Outbox>, p: Plan, rows: seq<SourceDelivery>, o: OutboxId) returns (j: nat)
    requires OutboxAgrees(before, p, rows) && o in WithOutbox(before, p, rows) && o !in before
    ensures j < |rows| && NewOutboxId(rows[j].key) == o && WithOutbox(before, p, rows)[o] == OutboxRow(p, rows[j])
  {
    hide *;
    OutboxGrows(before, p, rows, o);
    j :| 0 <= j < |rows| && NewOutboxId(rows[j].key) == o && WithOutbox(before, p, rows)[o] == OutboxRow(p, rows[j]);
  }

  /** No other row shares an added row's dedupe key. */
  lemma AddedIsUnique(before: map<OutboxId, Outbox>, p: Plan, rows: seq<SourceDelivery>, o: OutboxId)
    requires DistinctDeliveryKeys(rows) && OutboxAgrees(before, p, rows)
    requires o in WithOutbox(before, p, rows) && o !in before
    ensures var after := WithOutbox(before, p, rows);
            forall x :: x in after && after[x].dedupeKey == after[o].dedupeKey ==> x == o
  {
    hide WithOutbox, NewOutboxId, DedupeKey, DistinctDeliveryKeys;
    var j := AddedRow(before, p, rows, o);
    OutboxStillAgrees(before, p, rows);
    assert OutboxAgreesFor(WithOutbox(before, p, rows), p, rows[j]);
  }

  lemma OutboxKept(db: Tables, p: Plan)
    requires DistinctDeliveryKeys(p.deliveries) && OutboxAgrees(db.outbox, p, p.deliveries) && RowIntegrity(db)
    ensures UniqueDedupe(WithOutbox(db.outbox, p, p.deliveries))
    ensures forall o :: o in WithOutbox(db.outbox, p, p.deliveries) ==>
              var row := WithOutbox(db.outbox, p, p.deliveries)[o];
              (o in db.outbox && row == db.outbox[o]) || (row.monitor == MONITOR_ID && row.target == p.targetId)
  {
    hide WithOutbox, NewOutboxId, DedupeKey, DistinctDeliveryKeys, OutboxAgrees;
    var rows, after := p.deliveries, WithOutbox(db.outbox, p, p.deliveries);
    forall o | o in after
      ensures (o in db.outbox && after[o] == db.outbox[o]) || (after[o].monitor == MONITOR_ID && after[o].target == p.targetId)
    {
      OutboxGrows(db.outbox, p, rows, o);
    }
    forall a, b | a in after && b in after && after[a].dedupeKey == after[b].dedupeKey ensures a == b {
      OutboxGrows(db.outbox, p, rows, a);
      OutboxGrows(db.outbox, p, rows, b);
      if a !in db.outbox {
        AddedIsUnique(db.outbox, p, rows, a);
      } else if b !in db.outbox {
        AddedIsUnique(db.outbox, p, rows, b);
      }
    }
  }

  /** An accepted import leaves every foreign key and unique constraint satisfied, so no
      insert of a real run can fail where the dry run passed. */
  lemma ImportKeepsIntegrity(db: Tables, p: Plan, scheduled: string)
    requires Integrity(db) && Agrees(db, p) && DistinctKeys(p.announcements) && DistinctDeliveryKeys(p.deliveries)
    ensures Integrity(Merged(db, p, scheduled))
  {
    hide IdentityIntegrity, UserAgrees, TargetAgrees, MonitorAgrees, ObservationsAgree, OutboxAgrees, DeliveriesAgree, MarkerAgrees,
         WithObservations, WithOutbox, WithDeliveries, DistinctKeys, DistinctDeliveryKeys, UniqueDedupe, NewOutboxId;
    IdentityKept(db, p, scheduled);
    OutboxKept(db, p);
    var d := Merged(db, p, scheduled);
    forall key | key in d.observations ensures key.0 in d.monitors {
      ObservationKeys(db.observations, p.announcements, key);
    }
    forall o | o in d.deliveries ensures o in d.outbox {
      DeliveriesElsewhere(db.deliveries, p, p.deliveries, o);
      if o in db.deliveries {
        OutboxGrows(db.outbox, p, p.deliveries, o);
      } else {
        var j: nat :| j < |p.deliveries| && NewOutboxId(p.deliveries[j].key) == o;
        OutboxAdded(db.outbox, p, p.deliveries, j);
      }
    }
  }
}
