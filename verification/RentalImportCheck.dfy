/** The independent check of an imported rental aggregate: it accepts every import into an
    empty database, and beyond those exactly two kinds of state, which no import makes but
    any import keeps. */
module RentalImportCheck {
  import opened Order
  import opened Digest
  import opened Timestamps
  import opened RentalSource
  import opened RentalImport
  import opened RentalImportLaws
  import J = JsonText

  // ---------- what the check looks at ----------

  /** The marker, its time, and an owner to check against. */
  predicate HasHeader(db: Tables)
  {
    && MARKER_ID in db.runs && MONITOR_ID in db.monitors
    && db.runs[MARKER_ID].startedAt.At? && db.runs[MARKER_ID].finishedAt == Some(db.runs[MARKER_ID].startedAt)
    && TelegramUserId(db.monitors[MONITOR_ID].owner).Some?
  }

  /** The owner and time every row is compared with. */
  function Base(db: Tables, config: Config): Plan
    requires HasHeader(db)
  {
    var owner := db.monitors[MONITOR_ID].owner;
    Plan(owner, TelegramUserId(owner).value, "", "", db.runs[MARKER_ID].startedAt.time, [], [], config)
  }

  predicate IdentityOk(db: Tables, b: Plan)
  {
    && b.owner in db.users && db.users[b.owner] == UserRow(b)
    && MONITOR_ID in db.monitors && MonitorFits(db.monitors[MONITOR_ID], b)
    && VERSION_ID in db.versions && db.versions[VERSION_ID] == VersionRow(b)
    && MARKER_ID in db.runs && db.runs[MARKER_ID] == MarkerRow(b)
  }

  /** The announcement a stored observation decodes to. */
  function StoredAnnouncement(item: string, row: StoredItem, config: Config): Option<Announcement>
  {
    if |item| < 13 || item[..13] != "announcement:" || !row.firstSeen.At? || !row.lastSeen.At? then None
    else
      match J.Loads(row.fieldsJson, config.floats)
      case None => None
      case Some(fields) =>
        if J.Print(fields) != row.fieldsJson then None
        else Some(Announcement(item[13..], fields, row.firstSeen.time, row.lastSeen.time))
  }

  predicate ObservationOk(item: string, row: StoredItem, b: Plan)
  {
    var a := StoredAnnouncement(item, row, b.config);
    && a.Some? && AnnouncementOk(a.value, b.config) && NotAfter(a.value.lastSeen, b.time)
    && row == ObservationRow(a.value)
  }

  predicate ObservationsOk(db: Tables, b: Plan)
  {
    forall k :: k in db.observations && k.0 == MONITOR_ID ==> ObservationOk(k.1, db.observations[k], b)
  }

  function RentalRows(db: Tables): set<OutboxId>
  {
    set id | id in db.outbox && db.outbox[id].monitor == MONITOR_ID
  }

  /** The target the outbox rows share, or without rows the only one of the owner that was
      created at the marker's time. */
  predicate IsTarget(db: Tables, b: Plan, t: string)
  {
    && t in db.targets
    && if RentalRows(db) != {} then
         forall id :: id in RentalRows(db) ==> db.outbox[id].target == t
       else
         forall u :: u in db.targets ==> (db.targets[u].owner == b.owner && db.targets[u].createdAt == At(b.time) <==> u == t)
  }

  predicate TargetOk(db: Tables, b: Plan, t: string)
  {
    && t in db.targets && b.config.opaqueId(db.targets[t].address) && b.config.opaqueId(t)
    && db.targets[t] == Target(b.owner, "telegram", db.targets[t].address, At(b.time))
  }

  /** The legacy delivery a stored outbox row and its delivery stand for. */
  function StoredDelivery(row: Delivery, key: string, address: string): SourceDelivery
    requires row.deliveredAt.At?
  {
    SourceDelivery(key, address, row.deliveredAt.time, row.messageId)
  }

  /** An outbox row of the announcement with the given key, with its delivery. */
  predicate RowOk(db: Tables, b: Plan, t: string, id: OutboxId, key: string)
  {
    && t in db.targets && id in db.outbox && (MONITOR_ID, ItemId(key)) in db.observations && id == NewOutboxId(key)
    && id in db.deliveries && db.deliveries[id].deliveredAt.At? && ValidMessageId(db.deliveries[id].messageId)
    && NotAfter(db.deliveries[id].deliveredAt.time, b.time)
    && var d := StoredDelivery(db.deliveries[id], key, db.targets[t].address);
       db.outbox[id] == OutboxRow(b.(targetId := t), d) && db.deliveries[id] == DeliveryRow(b.(targetId := t), d)
  }

  ghost predicate RowsOk(db: Tables, b: Plan, t: string)
  {
    forall id :: id in RentalRows(db) ==> exists key :: RowOk(db, b, t, id, key)
  }

  /** Ids that match `rental-import:*`. */
  predicate IsRentalImport(id: OutboxId)
  {
    id.Imported? || J.StartsWith(id.text, "rental-import:")
  }

  /** No import id belongs to anything but the rows checked. */
  predicate NoStrays(db: Tables)
  {
    && (forall id :: id in db.outbox && IsRentalImport(id) ==> id in RentalRows(db))
    && (forall id :: id in db.deliveries && IsRentalImport(id) ==> id in RentalRows(db))
  }

  ghost predicate AcceptsFor(db: Tables, b: Plan, t: string)
  {
    && IdentityOk(db, b) && ObservationsOk(db, b) && IsTarget(db, b, t) && TargetOk(db, b, t) && RowsOk(db, b, t) && NoStrays(db)
  }

  /** The states the check accepts. */
  ghost predicate Accepts(db: Tables, config: Config)
  {
    HasHeader(db) && exists t :: AcceptsFor(db, Base(db, config), t)
  }

  // ---------- the check ----------

  /** The target the rows name, if there is exactly one to take. */
  method FindTarget(db: Tables, b: Plan) returns (t: Option<string>)
    ensures t.Some? ==> IsTarget(db, b, t.value)
    ensures t.None? ==> forall u :: !IsTarget(db, b, u)
  {
    var rows := RentalRows(db);
    var named := set id | id in rows :: db.outbox[id].target;
    if rows != {} {
      var some :| some in rows;
      var t' := db.outbox[some].target;
      assert t' in named;
      if named != {t'} {
        var other :| other in named && other != t';
        var id :| id in rows && db.outbox[id].target == other;
        return None;
      }
      assert forall id :: id in rows ==> db.outbox[id].target in named;
      return if t' in db.targets then Some(t') else None;
    }
    var candidates := set u | u in db.targets && db.targets[u].owner == b.owner && db.targets[u].createdAt == At(b.time);
    forall u | IsTarget(db, b, u) ensures u in candidates {
    }
    if candidates == {} {
      return None;
    }
    var t' :| t' in candidates;
    if candidates != {t'} {
      var other :| other in candidates && other != t';
      forall u ensures !IsTarget(db, b, u) {
        assert other in db.targets && t' in db.targets;
      }
      return None;
    }
    forall u | u in db.targets
      ensures (db.targets[u].owner == b.owner && db.targets[u].createdAt == At(b.time)) <==> u == t'
    {
      assert u in candidates <==> u in {t'};
    }
    return Some(t');
  }

  method CheckObservations(db: Tables, b: Plan) returns (ok: bool)
    ensures ok <==> ObservationsOk(db, b)
  {
    hide ObservationOk;
    var keys := set k | k in db.observations && k.0 == MONITOR_ID;
    var rest := keys;
    while rest != {}
      invariant rest <= keys && forall k :: k in keys - rest ==> ObservationOk(k.1, db.observations[k], b)
      decreases |rest|
    {
      var k :| k in rest;
      if !ObservationOk(k.1, db.observations[k], b) {
        assert k in db.observations && k.0 == MONITOR_ID;
        return false;
      }
      rest := rest - {k};
    }
    forall k | k in db.observations && k.0 == MONITOR_ID ensures ObservationOk(k.1, db.observations[k], b) {
      assert k in keys - rest;
    }
    return true;
  }

  /** One outbox row: exactly one announcement has its dedupe key, and row and delivery are
      those an import of that announcement's delivery would make. */
  method CheckRow(db: Tables, b: Plan, t: string, id: OutboxId) returns (ok: bool)
    requires id in db.outbox && t in db.targets && ObservationsOk(db, b)
    ensures ok <==> exists key :: RowOk(db, b, t, id, key)
  {
    hide ObservationOk, NewOutboxId, ValidMessageId, DedupeKey, OutboxRow, DeliveryRow, NotAfter;
    var row := db.outbox[id];
    var matching := set k | k in db.observations && k.0 == MONITOR_ID && row.dedupeKey == MONITOR_ID + ":" + k.1 + ":new_item";
    forall key ensures RowOk(db, b, t, id, key) ==> (MONITOR_ID, ItemId(key)) in matching {
      DedupeOfRow(db, b, t, id, key);
    }
    if matching == {} {
      return false;
    }
    var k :| k in matching;
    assert ObservationOk(k.1, db.observations[k], b);
    ItemOfKey(k.1, db.observations[k], b);
    var key := k.1[13..];
    forall other | RowOk(db, b, t, id, other) ensures other == key {
      SameDedupe(db, b, t, id, key, other);
    }
    if id !in db.deliveries {
      return false;
    }
    var delivery := db.deliveries[id];
    if !ValidMessageId(delivery.messageId) || !delivery.deliveredAt.At? || !NotAfter(delivery.deliveredAt.time, b.time) {
      return false;
    }
    var d := SourceDelivery(key, db.targets[t].address, delivery.deliveredAt.time, delivery.messageId);
    ok := id == NewOutboxId(key) && row == OutboxRow(b.(targetId := t), d) && delivery == DeliveryRow(b.(targetId := t), d);
    assert ok ==> RowOk(db, b, t, id, key);
  }

  lemma DedupeOfRow(db: Tables, b: Plan, t: string, id: OutboxId, key: string)
    ensures RowOk(db, b, t, id, key) ==> db.outbox[id].dedupeKey == MONITOR_ID + ":" + ItemId(key) + ":new_item"
  {
    hide ValidMessageId, NotAfter, DeliveryRow;
  }

  lemma ItemOfKey(item: string, row: StoredItem, b: Plan)
    requires ObservationOk(item, row, b)
    ensures |item| >= 13 && item == ItemId(item[13..])
  {
  }

  lemma SameDedupe(db: Tables, b: Plan, t: string, id: OutboxId, key: string, other: string)
    requires RowOk(db, b, t, id, other) && db.outbox[id].dedupeKey == MONITOR_ID + ":" + ItemId(key) + ":new_item"
    ensures key == other
  {
    hide ValidMessageId, NotAfter, DeliveryRow, DedupeKey;
    DedupeOfRow(db, b, t, id, other);
    assert DedupeKey(key) == DedupeKey(other) by {
      DedupeText(key);
      DedupeText(other);
    }
    DedupeInjective(key, other);
  }

  lemma DedupeText(key: string)
    ensures DedupeKey(key) == MONITOR_ID + ":" + ItemId(key) + ":new_item"
  {
  }

  method CheckRows(db: Tables, b: Plan, t: string) returns (ok: bool)
    requires t in db.targets && ObservationsOk(db, b)
    ensures ok <==> RowsOk(db, b, t)
  {
    hide RowOk, ObservationsOk;
    var rows := RentalRows(db);
    var rest := rows;
    while rest != {}
      invariant rest <= rows && forall id :: id in rows - rest ==> exists key :: RowOk(db, b, t, id, key)
      decreases |rest|
    {
      var id :| id in rest;
      var rowOk := CheckRow(db, b, t, id);
      if !rowOk {
        assert id in RentalRows(db);
        return false;
      }
      assert forall x :: x in rows - (rest - {id}) ==> x in rows - rest || x == id;
      rest := rest - {id};
    }
    assert rows - rest == rows;
    return true;
  }

  method ValidateImported(db: Tables, config: Config) returns (ok: bool)
    ensures ok <==> Accepts(db, config)
  {
    hide IdentityOk, ObservationsOk, IsTarget, TargetOk, RowsOk, NoStrays, HasHeader, Base;
    if !HasHeader(db) {
      return false;
    }
    var b := Base(db, config);
    if !IdentityOk(db, b) {
      return false;
    }
    var observationsOk := CheckObservations(db, b);
    if !observationsOk {
      return false;
    }
    var t := FindTarget(db, b);
    if t.None? || !TargetOk(db, b, t.value) {
      assert t.Some? ==> forall u :: IsTarget(db, b, u) ==> u == t.value by {
        if t.Some? {
          TargetUnique(db, b, t.value);
        }
      }
      return false;
    }
    TargetUnique(db, b, t.value);
    TargetIn(db, b, t.value);
    var rowsOk := CheckRows(db, b, t.value);
    ok := rowsOk && NoStrays(db);
    assert ok ==> AcceptsFor(db, b, t.value);
  }

  lemma TargetIn(db: Tables, b: Plan, t: string)
    requires IsTarget(db, b, t)
    ensures t in db.targets
  {
  }

  lemma TargetUnique(db: Tables, b: Plan, t: string)
    requires IsTarget(db, b, t)
    ensures forall u :: IsTarget(db, b, u) ==> u == t
  {
    if RentalRows(db) != {} {
      var id :| id in RentalRows(db);
      assert db.outbox[id].target == t;
    }
  }

  // ---------- what an import leaves is accepted ----------

  lemma SharedPrefixes()
    ensures TextLess("agency", "announcement_date") && TextLess("announcement_date", "application_end_date")
  {
    hide TextLess;
    SplitLess("a", "gency", "nnouncement_date");
    SplitLess("a", "nnouncement_date", "pplication_end_date");
    assert "a" + "gency" == "agency" && "a" + "nnouncement_date" == "announcement_date";
    assert "a" + "pplication_end_date" == "application_end_date";
  }

  lemma LongPrefix()
    ensures TextLess("application_end_date", "application_start_date") && TextLess("target", "title")
  {
    hide TextLess;
    SplitLess("application_", "end_date", "start_date");
    SplitLess("t", "arget", "itle");
    assert "application_" + "end_date" == "application_end_date";
    assert "application_" + "start_date" == "application_start_date";
    assert "t" + "arget" == "target" && "t" + "itle" == "title";
  }

  lemma NamesAdjacent(i: nat)
    requires i + 1 < |FIELD_NAMES|
    ensures TextLess(FIELD_NAMES[i], FIELD_NAMES[i + 1])
  {
    hide TextLess;
    if i < 2 {
      SharedPrefixes();
    } else if i == 2 || i == 7 {
      LongPrefix();
    } else {
      FirstCharLess(FIELD_NAMES[i], FIELD_NAMES[i + 1]);
    }
  }

  lemma SplitLess(p: string, x: string, y: string)
    requires x != "" && y != "" && x[0] < y[0]
    ensures TextLess(p + x, p + y)
  {
    hide TextLess;
    FirstCharLess(x, y);
    TextAfterPrefix(p, x, y);
  }

  lemma {:induction false} NamesAscend(i: nat, j: nat)
    requires i < j < |FIELD_NAMES|
    ensures TextLess(FIELD_NAMES[i], FIELD_NAMES[j])
    decreases j
  {
    hide TextLess;
    NamesAdjacent(j - 1);
    if i < j - 1 {
      NamesAscend(i, j - 1);
      TextTransitive(FIELD_NAMES[i], FIELD_NAMES[j - 1], FIELD_NAMES[j]);
    }
  }

  /** Announcement fields print to a text that reads back as the same fields. */
  lemma FieldsReadBack(fields: J.Json, floats: J.FloatReader)
    requires FieldsShape(fields)
    ensures J.Loads(J.Print(fields), floats) == Some(fields)
  {
    hide TextLess, J.Loads, J.Print;
    var ms := fields.members;
    forall i, j | 0 <= i < j < |ms| ensures TextLess(ms[i].key, ms[j].key) {
      NamesAscend(i, j);
    }
    assert J.Canonical(fields, floats);
    J.LoadsPrinted(fields, floats);
  }

  lemma {:induction false} ObservationsFrom(rows: seq<Announcement>, key: ItemKey)
    requires key in WithObservations(map[], rows)
    ensures exists i :: 0 <= i < |rows| && KeyOf(rows[i]) == key && WithObservations(map[], rows)[key] == ObservationRow(rows[i])
  {
    hide KeyOf, ObservationRow;
    if rows != [] {
      var n := |rows| - 1;
      if key != KeyOf(rows[n]) {
        ObservationsFrom(rows[..n], key);
        var i :| 0 <= i < n && KeyOf(rows[..n][i]) == key && WithObservations(map[], rows[..n])[key] == ObservationRow(rows[..n][i]);
        assert rows[i] == rows[..n][i];
        assert KeyOf(rows[i]) == key && WithObservations(map[], rows)[key] == ObservationRow(rows[i]);
      } else {
        assert KeyOf(rows[n]) == key && WithObservations(map[], rows)[key] == ObservationRow(rows[n]);
      }
    }
  }

  /** An imported observation passes. */
  lemma ImportedObservationOk(a: Announcement, b: Plan)
    requires AnnouncementOk(a, b.config) && NotAfter(a.lastSeen, b.time)
    ensures ObservationOk(ItemId(a.key), ObservationRow(a), b)
  {
    hide J.Loads, J.Print, NotAfter, Before;
    FieldsReadBack(a.fields, b.config.floats);
    assert ItemId(a.key)[..13] == "announcement:" && ItemId(a.key)[13..] == a.key;
  }

  lemma EmptyAgrees(p: Plan)
    ensures Agrees(EMPTY, p)
  {
  }

  /** The plan of an import into the empty database. */
  ghost predicate Imports(l: Legacy, r: Request, config: Config, p: Plan)
  {
    WellFormed(l, config) && ValidRequest(r, config) && NumbersAreOpaque(config)
    && Planned(EMPTY, SnapshotOf(l), r, config) == Some(p)
  }

  lemma ImportsMeans(l: Legacy, r: Request, config: Config, p: Plan)
    requires Imports(l, r, config, p)
    ensures p.owner == r.owner && p.targetId == r.targetId && p.config == config && p.time == SnapshotOf(l).evidenceTime
    ensures p.announcements == l.announcements && TelegramUserId(p.owner) == Some(p.telegramId)
    ensures config.opaqueId(p.address) && config.opaqueId(p.targetId) && p.address != LEGACY_ALIAS
    ensures DistinctKeys(p.announcements) && DistinctDeliveryKeys(p.deliveries)
    ensures RowsFrom(p.deliveries, l.deliveries, TargetRouting(EMPTY.targets, SnapshotOf(l), r, p.telegramId, config).value.source)
  {
    hide Latest, Selected, AnnouncementOk, DeliveryOk, RunOk, BaselinesOk;
    SourceKeyed(l, config);
    PlanKeyed(EMPTY, SnapshotOf(l), r, config);
    TelegramIdPositive(r.owner);
    ChatsAreOpaque(l, config);
    var route := TargetRouting(EMPTY.targets, SnapshotOf(l), r, p.telegramId, config).value;
    SelectedRows(l.deliveries, route.source);
    NumberIsNoAlias(p.telegramId);
  }

  lemma NumberIsNoAlias(n: nat)
    ensures J.Digits(n) != LEGACY_ALIAS
  {
    J.DigitsShape(n);
    assert !J.IsDigit(LEGACY_ALIAS[0]);
  }

  lemma DeliveriesSound(l: Legacy, r: Request, config: Config, p: Plan, j: nat)
    requires Imports(l, r, config, p) && j < |p.deliveries|
    ensures HasKey(p.announcements, p.deliveries[j].key) && ValidMessageId(p.deliveries[j].messageId)
    ensures NotAfter(p.deliveries[j].deliveredAt, p.time)
    ensures p.deliveries[j].messageId == LEGACY_BASELINE ==> Before(p.deliveries[j].deliveredAt, p.time)
  {
    hide Latest, Selected, AnnouncementOk, RunOk, Before, ValidMessageId, Planned, NumbersAreOpaque, ValidRequest, TargetRouting;
    ImportsMeans(l, r, config, p);
    assert p.deliveries[j] in l.deliveries;
    var i :| 0 <= i < |l.deliveries| && l.deliveries[i] == p.deliveries[j];
    assert DeliveryOk(l.deliveries[i], l.announcements, config);
    EvidenceIsLatest(l);
    if p.deliveries[j].messageId == LEGACY_BASELINE {
      BaselineBeforeEvidence(l, config, i);
    }
  }

  lemma AnnouncementsSound(l: Legacy, r: Request, config: Config, p: Plan, i: nat)
    requires Imports(l, r, config, p) && i < |p.announcements|
    ensures AnnouncementOk(p.announcements[i], config) && NotAfter(p.announcements[i].lastSeen, p.time)
  {
    hide Latest, Selected, AnnouncementOk, RunOk, Before, Planned, NumbersAreOpaque, ValidRequest, TargetRouting;
    ImportsMeans(l, r, config, p);
    EvidenceIsLatest(l);
  }

  lemma ImageObservationsOk(l: Legacy, r: Request, config: Config, p: Plan, scheduled: string)
    requires Imports(l, r, config, p)
    ensures ObservationsOk(Merged(EMPTY, p, scheduled), Base0(p))
  {
    hide Imports, ObservationOk, WithObservations, WithOutbox, WithDeliveries, KeyOf, ObservationRow;
    ImportsMeans(l, r, config, p);
    var d := Merged(EMPTY, p, scheduled);
    forall k | k in d.observations && k.0 == MONITOR_ID ensures ObservationOk(k.1, d.observations[k], Base0(p)) {
      ObservationsFrom(p.announcements, k);
      var i: nat :| i < |p.announcements| && KeyOf(p.announcements[i]) == k && d.observations[k] == ObservationRow(p.announcements[i]);
      AnnouncementsSound(l, r, config, p, i);
      ImportedObservationOk(p.announcements[i], Base0(p));
      KeyIsItem(p.announcements[i]);
    }
  }

  lemma KeyIsItem(a: Announcement)
    ensures KeyOf(a) == (MONITOR_ID, ItemId(a.key))
  {
  }

  /** The part of a plan the check recovers from the marker and the monitor. */
  function Base0(p: Plan): Plan
  {
    Plan(p.owner, p.telegramId, "", "", p.time, [], [], p.config)
  }

  lemma ImageHeader(p: Plan, scheduled: string)
    requires TelegramUserId(p.owner) == Some(p.telegramId)
    ensures var d := Merged(EMPTY, p, scheduled); HasHeader(d) && Base(d, p.config) == Base0(p) && IdentityOk(d, Base0(p))
  {
    hide WithObservations, WithOutbox, WithDeliveries;
  }

  lemma ImageTarget(p: Plan, scheduled: string)
    requires p.config.opaqueId(p.address) && p.config.opaqueId(p.targetId)
    ensures var d := Merged(EMPTY, p, scheduled);
            d.targets == map[p.targetId := TargetRow(p)] && TargetOk(d, Base0(p), p.targetId)
  {
    hide WithObservations, WithOutbox, WithDeliveries;
  }

  /** The outbox row under `id`, and its delivery, are those of the plan's `j`-th delivery. */
  ghost predicate IsRow(d: Tables, p: Plan, j: nat, id: OutboxId)
  {
    && j < |p.deliveries| && NewOutboxId(p.deliveries[j].key) == id
    && id in d.outbox && d.outbox[id] == OutboxRow(p, p.deliveries[j])
    && id in d.deliveries && d.deliveries[id] == DeliveryRow(p, p.deliveries[j])
  }

  lemma RowOfPlan(d: Tables, p: Plan, j: nat, id: OutboxId)
    requires j < |p.deliveries| && NewOutboxId(p.deliveries[j].key) == id
    requires id in d.outbox && d.outbox[id] == OutboxRow(p, p.deliveries[j])
    requires id in d.deliveries && d.deliveries[id] == DeliveryRow(p, p.deliveries[j])
    ensures IsRow(d, p, j, id)
  {
  }

  lemma EmptyParts()
    ensures EMPTY.outbox == map[] && EMPTY.deliveries == map[] && EMPTY.observations == map[]
  {
  }

  /** The outbox rows and deliveries of an image. */
  lemma ImageRows(p: Plan, scheduled: string, id: OutboxId)
    requires DistinctDeliveryKeys(p.deliveries)
    ensures var d := Merged(EMPTY, p, scheduled);
            && (id in d.outbox ==> exists j: nat :: IsRow(d, p, j, id))
            && (id in d.deliveries ==> id in d.outbox)
  {
    hide *;
    EmptyParts();
    MergedRows(EMPTY, p, scheduled);
    EmptyAgrees(p);
    AllTogether(EMPTY, p, scheduled);
    var d := Merged(EMPTY, p, scheduled);
    if id in d.outbox {
      var j := AddedRow(map[], p, p.deliveries, id);
      DeliveriesAdded(map[], p, p.deliveries, j);
      assert IsRow(d, p, j, id) by {
        RowOfPlan(d, p, j, id);
      }
    }
    if id in d.deliveries {
      DeliveriesElsewhere(map[], p, p.deliveries, id);
      var j: nat :| j < |p.deliveries| && NewOutboxId(p.deliveries[j].key) == id;
      OutboxAdded(map[], p, p.deliveries, j);
    }
  }

  lemma ImageObservationAt(p: Plan, scheduled: string, i: nat)
    requires DistinctKeys(p.announcements) && i < |p.announcements|
    ensures var d := Merged(EMPTY, p, scheduled);
            KeyOf(p.announcements[i]) in d.observations && d.observations[KeyOf(p.announcements[i])] == ObservationRow(p.announcements[i])
  {
    hide *;
    EmptyParts();
    MergedRows(EMPTY, p, scheduled);
    ObservationsAdded(map[], p.announcements, i);
  }

  /** Every outbox row of an image passes. */
  lemma ImageRowOk(l: Legacy, r: Request, config: Config, p: Plan, scheduled: string, id: OutboxId)
    requires Imports(l, r, config, p) && id in Merged(EMPTY, p, scheduled).outbox
    ensures exists key :: RowOk(Merged(EMPTY, p, scheduled), Base0(p), p.targetId, id, key)
    ensures Merged(EMPTY, p, scheduled).outbox[id].monitor == MONITOR_ID
    ensures Merged(EMPTY, p, scheduled).outbox[id].target == p.targetId
  {
    hide Imports, Merged, NewOutboxId, DedupeKey, ValidMessageId, NotAfter, KeyOf, DistinctKeys, DistinctDeliveryKeys, Planned, TargetRouting;
    ImportsMeans(l, r, config, p);
    var d := Merged(EMPTY, p, scheduled);
    ImageRows(p, scheduled, id);
    ImageTarget(p, scheduled);
    var j: nat :| IsRow(d, p, j, id);
    DeliveriesSound(l, r, config, p, j);
    var key := p.deliveries[j].key;
    var i: nat :| i < |p.announcements| && p.announcements[i].key == key;
    ImageObservationAt(p, scheduled, i);
    KeyIsItem(p.announcements[i]);
    assert RowOk(d, Base0(p), p.targetId, id, key);
  }

  /** Every import of a well-formed source into an empty database is accepted, for the
      target it was asked to deliver to. */
  lemma ImportAccepted(l: Legacy, r: Request, config: Config, p: Plan, scheduled: string)
    requires Imports(l, r, config, p)
    ensures Accepts(Merged(EMPTY, p, scheduled), config)
    ensures var d := Merged(EMPTY, p, scheduled);
            HasHeader(d) && Base(d, config) == Base0(p) && AcceptsFor(d, Base(d, config), p.targetId)
  {
    hide Imports, Merged, RowOk, ObservationsOk, IdentityOk, TargetOk, HasHeader, Base, DistinctKeys, DistinctDeliveryKeys, Planned, TargetRouting;
    ImportsMeans(l, r, config, p);
    var d := Merged(EMPTY, p, scheduled);
    ImageHeader(p, scheduled);
    ImageTarget(p, scheduled);
    ImageObservationsOk(l, r, config, p, scheduled);
    forall id | id in d.outbox
      ensures (exists key :: RowOk(d, Base0(p), p.targetId, id, key)) && d.outbox[id].monitor == MONITOR_ID
              && d.outbox[id].target == p.targetId
    {
      ImageRowOk(l, r, config, p, scheduled, id);
    }
    forall id | id in d.deliveries ensures id in d.outbox {
      ImageRows(p, scheduled, id);
    }
    assert AcceptsFor(d, Base0(p), p.targetId);
  }

  // ---------- which accepted states an import can leave ----------

  /** The monitor columns the check compares. */
  predicate SameMonitor(a: Monitor, b: Monitor)
  {
    && a.owner == b.owner && a.name == b.name && a.status == b.status && a.activeVersion == b.activeVersion
    && a.disabledAt == b.disabledAt && a.createdAt == b.createdAt
  }

  /** Two databases hold the same rental aggregate, scheduling and lease columns aside. */
  ghost predicate SameAggregate(db: Tables, d: Tables, owner: string, t: string)
  {
    && owner in db.users && owner in d.users && db.users[owner] == d.users[owner]
    && t in db.targets && t in d.targets && db.targets[t] == d.targets[t]
    && MONITOR_ID in db.monitors && MONITOR_ID in d.monitors && SameMonitor(db.monitors[MONITOR_ID], d.monitors[MONITOR_ID])
    && VERSION_ID in db.versions && VERSION_ID in d.versions && db.versions[VERSION_ID] == d.versions[VERSION_ID]
    && MARKER_ID in db.runs && MARKER_ID in d.runs && db.runs[MARKER_ID] == d.runs[MARKER_ID]
    && SameObservations(db.observations, d.observations) && SameRows(db, d)
  }

  ghost predicate SameObservations(a: map<ItemKey, StoredItem>, b: map<ItemKey, StoredItem>)
  {
    forall k: ItemKey :: k.0 == MONITOR_ID ==> (k in a <==> k in b) && (k in a ==> a[k] == b[k])
  }

  /** `d` holds exactly the rental outbox rows and import deliveries of `db`. */
  ghost predicate SameRows(db: Tables, d: Tables)
  {
    && (forall id :: id in d.outbox <==> id in db.outbox && (id in RentalRows(db) || IsRentalImport(id)))
    && (forall id :: id in d.outbox && id in db.outbox ==> d.outbox[id] == db.outbox[id])
    && (forall id :: id in d.deliveries <==> id in db.deliveries && IsRentalImport(id))
    && (forall id :: id in d.deliveries && id in db.deliveries ==> d.deliveries[id] == db.deliveries[id])
  }

  ghost predicate ImageBy(db: Tables, l: Legacy, r: Request, config: Config, p: Plan, scheduled: string)
  {
    Imports(l, r, config, p) && SameAggregate(db, Merged(EMPTY, p, scheduled), p.owner, p.targetId)
  }

  /** The aggregate is what some import into an empty database leaves. */
  ghost predicate ImageOf(db: Tables, config: Config)
  {
    exists l, r, p, scheduled :: ImageBy(db, l, r, config, p, scheduled)
  }

  /** What the check does not look at: the alias as target address, and a baseline
      delivery dated at the marker's own time. */
  ghost predicate Producible(db: Tables, b: Plan, t: string)
  {
    && t in db.targets && db.targets[t].address != LEGACY_ALIAS
    && forall id :: id in RentalRows(db) && id in db.deliveries && db.deliveries[id].messageId == LEGACY_BASELINE ==>
         db.deliveries[id].deliveredAt != At(b.time)
  }

  /** A set as a sequence without repetition. */
  ghost function Listed<T>(s: set<T>): seq<T>
  {
    if s == {} then [] else var x :| x in s; [x] + Listed(s - {x})
  }

  lemma {:induction false} ListedMeans<T>(s: set<T>)
    ensures forall x :: x in Listed(s) <==> x in s
    ensures forall i, j :: 0 <= i < j < |Listed(s)| ==> Listed(s)[i] != Listed(s)[j]
  {
    if s != {} {
      var x :| x in s && Listed(s) == [x] + Listed(s - {x});
      ListedMeans(s - {x});
    }
  }

  function RentalItems(db: Tables): set<ItemKey>
  {
    set k | k in db.observations && k.0 == MONITOR_ID
  }

  ghost function RowKey(db: Tables, b: Plan, t: string, id: OutboxId): string
    requires exists key :: RowOk(db, b, t, id, key)
  {
    var key :| RowOk(db, b, t, id, key); key
  }

  ghost function AnnouncementAt(db: Tables, b: Plan, k: ItemKey): Announcement
    requires ObservationsOk(db, b) && k in RentalItems(db)
  {
    assert ObservationOk(k.1, db.observations[k], b);
    StoredAnnouncement(k.1, db.observations[k], b.config).value
  }

  ghost function DeliveryAt(db: Tables, b: Plan, t: string, id: OutboxId): SourceDelivery
    requires RowsOk(db, b, t) && t in db.targets && id in RentalRows(db)
  {
    var key := RowKey(db, b, t, id);
    assert RowOk(db, b, t, id, key);
    StoredDelivery(db.deliveries[id], key, db.targets[t].address)
  }

  ghost predicate ItemsOf(items: seq<ItemKey>, db: Tables)
  {
    forall i :: 0 <= i < |items| ==> items[i] in RentalItems(db)
  }

  ghost predicate RowsOf(ids: seq<OutboxId>, db: Tables)
  {
    forall i :: 0 <= i < |ids| ==> ids[i] in RentalRows(db)
  }

  ghost function RebuiltAnnouncements(db: Tables, b: Plan, items: seq<ItemKey>): (r: seq<Announcement>)
    requires ObservationsOk(db, b) && ItemsOf(items, db)
    ensures |r| == |items| && forall i :: 0 <= i < |r| ==> r[i] == AnnouncementAt(db, b, items[i])
  {
    seq(|items|, i requires 0 <= i < |items| => AnnouncementAt(db, b, items[i]))
  }

  ghost function RebuiltDeliveries(db: Tables, b: Plan, t: string, ids: seq<OutboxId>): (r: seq<SourceDelivery>)
    requires RowsOk(db, b, t) && t in db.targets && RowsOf(ids, db)
    ensures |r| == |ids| && forall i :: 0 <= i < |r| ==> r[i] == DeliveryAt(db, b, t, ids[i])
  {
    seq(|ids|, i requires 0 <= i < |ids| => DeliveryAt(db, b, t, ids[i]))
  }

  lemma AnnouncementAtMeans(db: Tables, b: Plan, k: ItemKey)
    requires ObservationsOk(db, b) && k in RentalItems(db)
    ensures var a := AnnouncementAt(db, b, k);
            && AnnouncementOk(a, b.config) && NotAfter(a.lastSeen, b.time)
            && KeyOf(a) == k && k in db.observations && ObservationRow(a) == db.observations[k]
  {
    hide NotAfter, AnnouncementOk, ObservationRow, J.Loads, J.Print;
    assert ObservationOk(k.1, db.observations[k], b);
    var item := k.1;
    assert item == "announcement:" + item[13..];
  }

  lemma DeliveryAtMeans(db: Tables, b: Plan, t: string, id: OutboxId)
    requires RowsOk(db, b, t) && t in db.targets && id in RentalRows(db)
    ensures var d := DeliveryAt(db, b, t, id);
            && d.chatId == db.targets[t].address && id in db.outbox && id in db.deliveries
            && At(d.deliveredAt) == db.deliveries[id].deliveredAt && d.messageId == db.deliveries[id].messageId
            && ValidMessageId(d.messageId) && NotAfter(d.deliveredAt, b.time) && NewOutboxId(d.key) == id
            && (MONITOR_ID, ItemId(d.key)) in RentalItems(db)
            && db.outbox[id] == OutboxRow(b.(targetId := t), d) && db.deliveries[id] == DeliveryRow(b.(targetId := t), d)
  {
    hide NotAfter, ValidMessageId, NewOutboxId, ItemId, OutboxRow, DeliveryRow;
    assert RowOk(db, b, t, id, RowKey(db, b, t, id));
  }

  /** A legacy database whose import gives the accepted aggregate: one announcement per
      observation, one delivery per outbox row, and one run at the marker's time. */
  ghost function Rebuilt(db: Tables, b: Plan, t: string): Legacy
    requires ObservationsOk(db, b) && RowsOk(db, b, t) && t in db.targets
  {
    ListedMeans(RentalItems(db));
    ListedMeans(RentalRows(db));
    assert ItemsOf(Listed(RentalItems(db)), db) && RowsOf(Listed(RentalRows(db)), db);
    Legacy(RebuiltAnnouncements(db, b, Listed(RentalItems(db))), RebuiltDeliveries(db, b, t, Listed(RentalRows(db))),
      [LegacyRun(b.time, Some(b.time))])
  }

  /** Each row of the rebuilt source comes from one stored row, and each stored row from
      one of them. */
  lemma RebuiltRows(db: Tables, b: Plan, t: string)
    requires ObservationsOk(db, b) && RowsOk(db, b, t) && t in db.targets
    ensures var l, items, ids := Rebuilt(db, b, t), Listed(RentalItems(db)), Listed(RentalRows(db));
            && |l.announcements| == |items| && |l.deliveries| == |ids| && l.runs == [LegacyRun(b.time, Some(b.time))]
            && (forall i :: 0 <= i < |items| ==> items[i] in RentalItems(db) && l.announcements[i] == AnnouncementAt(db, b, items[i]))
            && (forall i :: 0 <= i < |ids| ==> ids[i] in RentalRows(db) && l.deliveries[i] == DeliveryAt(db, b, t, ids[i]))
            && (forall k :: k in RentalItems(db) ==> exists i :: 0 <= i < |items| && items[i] == k)
            && (forall id :: id in RentalRows(db) ==> exists i :: 0 <= i < |ids| && ids[i] == id)
  {
    hide ObservationsOk, RowsOk, RentalItems, RentalRows, AnnouncementAt, DeliveryAt, Listed;
    var items, ids := Listed(RentalItems(db)), Listed(RentalRows(db));
    ListedMeans(RentalItems(db));
    ListedMeans(RentalRows(db));
    assert forall i :: 0 <= i < |items| ==> items[i] in items;
    assert forall i :: 0 <= i < |ids| ==> ids[i] in ids;
    assert ItemsOf(items, db) && RowsOf(ids, db);
    assert Rebuilt(db, b, t).announcements == RebuiltAnnouncements(db, b, items);
    forall k | k in RentalItems(db) ensures exists i :: 0 <= i < |items| && items[i] == k {
      assert k in items;
    }
    forall id | id in RentalRows(db) ensures exists i :: 0 <= i < |ids| && ids[i] == id {
      assert id in ids;
    }
  }

  lemma RebuiltKeys(db: Tables, b: Plan, t: string)
    requires ObservationsOk(db, b) && RowsOk(db, b, t) && t in db.targets
    ensures DistinctKeys(Rebuilt(db, b, t).announcements) && DistinctDeliveryKeys(Rebuilt(db, b, t).deliveries)
  {
    hide ObservationsOk, RowsOk, RentalItems, RentalRows, AnnouncementAt, DeliveryAt, Listed, Rebuilt, NewOutboxId,
         ValidMessageId, NotAfter, AnnouncementOk, ObservationRow, OutboxRow, DeliveryRow;
    var l, items, ids := Rebuilt(db, b, t), Listed(RentalItems(db)), Listed(RentalRows(db));
    RebuiltRows(db, b, t);
    ListedMeans(RentalItems(db));
    ListedMeans(RentalRows(db));
    forall i, j | 0 <= i < j < |l.announcements| ensures l.announcements[i].key != l.announcements[j].key {
      AnnouncementAtMeans(db, b, items[i]);
      AnnouncementAtMeans(db, b, items[j]);
    }
    forall i, j | 0 <= i < j < |l.deliveries| ensures l.deliveries[i].key != l.deliveries[j].key {
      DeliveryAtMeans(db, b, t, ids[i]);
      DeliveryAtMeans(db, b, t, ids[j]);
    }
  }

  /** The latest evidence of the rebuilt source is the marker's time. */
  lemma RebuiltTime(db: Tables, b: Plan, t: string)
    requires ObservationsOk(db, b) && RowsOk(db, b, t) && t in db.targets
    ensures SnapshotOf(Rebuilt(db, b, t)).evidenceTime == b.time
  {
    hide ObservationsOk, RowsOk, RentalItems, RentalRows, AnnouncementAt, DeliveryAt, Listed, Rebuilt, NewOutboxId,
         ValidMessageId, Before, ObservationRow, OutboxRow, DeliveryRow, Latest, FieldsShape, KeyOf, ItemId;
    var l, items, ids := Rebuilt(db, b, t), Listed(RentalItems(db)), Listed(RentalRows(db));
    RebuiltRows(db, b, t);
    var times, n, m := Times(l), |l.announcements|, |l.deliveries|;
    forall i | 0 <= i < |times| ensures NotAfter(times[i], b.time) {
      if i < n {
        AnnouncementAtMeans(db, b, items[i]);
        NotAfterChain(l.announcements[i].firstSeen, l.announcements[i].lastSeen, b.time);
      } else if i < 2 * n {
        AnnouncementAtMeans(db, b, items[i - n]);
      } else if i < 2 * n + m {
        DeliveryAtMeans(db, b, t, ids[i - 2 * n]);
      } else {
        BeforeAsymmetric(b.time, b.time);
      }
    }
    LatestIs(times, b.time, 2 * n + m);
  }

  lemma NotAfterChain(a: Instant, b: Instant, c: Instant)
    requires !Before(b, a) && NotAfter(b, c)
    ensures NotAfter(a, c)
  {
    BeforeTotal(b, c);
    if Before(c, a) {
      BeforeTotal(a, b);
      if Before(a, b) {
        BeforeTransitive(c, a, b);
      }
    }
  }

  lemma RebuiltWellFormed(db: Tables, b: Plan, t: string)
    requires ObservationsOk(db, b) && RowsOk(db, b, t) && TargetOk(db, b, t) && Producible(db, b, t)
    ensures WellFormed(Rebuilt(db, b, t), b.config)
  {
    hide ObservationsOk, RowsOk, RentalItems, AnnouncementAt, DeliveryAt, Listed, Rebuilt, NewOutboxId, DistinctKeys,
         ValidMessageId, Before, ObservationRow, OutboxRow, DeliveryRow, Latest, FieldsShape, AnnouncementOk, KeyOf, ItemId;
    var l, items, ids := Rebuilt(db, b, t), Listed(RentalItems(db)), Listed(RentalRows(db));
    RebuiltRows(db, b, t);
    RebuiltKeys(db, b, t);
    forall i | 0 <= i < |l.announcements| ensures AnnouncementOk(l.announcements[i], b.config) {
      AnnouncementAtMeans(db, b, items[i]);
    }
    forall i | 0 <= i < |l.deliveries| ensures DeliveryOk(l.deliveries[i], l.announcements, b.config) {
      DeliveryAtMeans(db, b, t, ids[i]);
      var k := (MONITOR_ID, ItemId(l.deliveries[i].key));
      var j :| 0 <= j < |items| && items[j] == k;
      AnnouncementAtMeans(db, b, items[j]);
      SameItemSameKey(l.announcements[j], l.deliveries[i].key);
    }
    BeforeAsymmetric(b.time, b.time);
    forall d | 0 <= d < |l.deliveries| && l.deliveries[d].messageId == LEGACY_BASELINE
      ensures Before(l.deliveries[d].deliveredAt, b.time)
    {
      DeliveryAtMeans(db, b, t, ids[d]);
      assert ids[d] in RentalRows(db);
      BeforeTotal(l.deliveries[d].deliveredAt, b.time);
    }
  }

  lemma SameItemSameKey(a: Announcement, key: string)
    requires KeyOf(a) == (MONITOR_ID, ItemId(key))
    ensures a.key == key
  {
    DedupeInjective(a.key, key);
  }

  lemma {:induction false} AllSelected(rows: seq<SourceDelivery>, chat: string)
    requires forall i :: 0 <= i < |rows| ==> rows[i].chatId == chat
    ensures Selected(rows, Some(chat)) == rows
  {
    if rows != [] {
      AllSelected(rows[..|rows| - 1], chat);
    }
  }

  /** The plan the rebuilt source gives: the checked owner, target, address and time. */
  function RebuiltPlan(b: Plan, t: string, address: string, l: Legacy): Plan
  {
    b.(targetId := t, address := address, announcements := l.announcements, deliveries := l.deliveries)
  }

  lemma RebuiltImports(db: Tables, b: Plan, t: string)
    requires ObservationsOk(db, b) && RowsOk(db, b, t) && TargetOk(db, b, t) && Producible(db, b, t)
    requires NumbersAreOpaque(b.config) && TelegramUserId(b.owner) == Some(b.telegramId)
    ensures var l, address := Rebuilt(db, b, t), db.targets[t].address;
            Imports(l, Request(b.owner, t, Some(address)), b.config, RebuiltPlan(b, t, address, l))
  {
    hide ObservationsOk, RowsOk, RentalItems, RentalRows, AnnouncementAt, DeliveryAt, Listed, Rebuilt, NewOutboxId, WellFormed,
         ValidMessageId, Before, ObservationRow, OutboxRow, DeliveryRow, Latest, NumbersAreOpaque, NotAfter, Selected;
    var l, ids, address := Rebuilt(db, b, t), Listed(RentalRows(db)), db.targets[t].address;
    RebuiltRows(db, b, t);
    RebuiltWellFormed(db, b, t);
    RebuiltTime(db, b, t);
    forall i | 0 <= i < |l.deliveries| ensures l.deliveries[i].chatId == address {
      DeliveryAtMeans(db, b, t, ids[i]);
    }
    AllSelected(l.deliveries, address);
    OneAddress(l.deliveries, address);
    NothingSelected();
  }

  lemma NothingSelected()
    ensures Selected([], None) == []
  {
  }

  lemma OneAddress(rows: seq<SourceDelivery>, address: string)
    requires forall i :: 0 <= i < |rows| ==> rows[i].chatId == address
    ensures |Chats(rows)| <= 1
  {
    var chats := Chats(rows);
    assert chats <= {address};
    SubsetSize(chats, {address});
  }

  // ---------- the rebuilt import gives the state back ----------

  lemma RebuiltObservations(db: Tables, b: Plan, t: string, p: Plan, scheduled: string)
    requires ObservationsOk(db, b) && RowsOk(db, b, t) && t in db.targets && p.announcements == Rebuilt(db, b, t).announcements
    ensures SameObservations(db.observations, Merged(EMPTY, p, scheduled).observations)
  {
    hide ObservationsOk, RowsOk, RentalRows, AnnouncementAt, DeliveryAt, Listed, Rebuilt, NewOutboxId, ValidMessageId, NotAfter,
         AnnouncementOk, ObservationRow, OutboxRow, DeliveryRow, KeyOf, ItemId, WithObservations, WithOutbox, WithDeliveries;
    var items, rows := Listed(RentalItems(db)), p.announcements;
    RebuiltRows(db, b, t);
    RebuiltKeys(db, b, t);
    var d := Merged(EMPTY, p, scheduled);
    forall k: ItemKey | k.0 == MONITOR_ID && k in db.observations ensures k in d.observations && d.observations[k] == db.observations[k] {
      assert k in RentalItems(db);
      var i :| 0 <= i < |items| && items[i] == k;
      AnnouncementAtMeans(db, b, k);
      ObservationsAdded(map[], rows, i);
    }
    forall k | k in d.observations ensures k in db.observations {
      ObservationsFrom(rows, k);
      var i: nat :| i < |rows| && KeyOf(rows[i]) == k;
      AnnouncementAtMeans(db, b, items[i]);
    }
  }

  lemma RebuiltRowAt(db: Tables, b: Plan, t: string, p: Plan, scheduled: string, id: OutboxId)
    requires ObservationsOk(db, b) && RowsOk(db, b, t) && t in db.targets && id in RentalRows(db)
    requires p.deliveries == Rebuilt(db, b, t).deliveries && p.targetId == t && p.config == b.config
    ensures var d := Merged(EMPTY, p, scheduled);
            id in d.outbox && d.outbox[id] == db.outbox[id] && id in db.deliveries && id in d.deliveries
            && d.deliveries[id] == db.deliveries[id] && IsRentalImport(id)
  {
    hide ObservationsOk, RowsOk, RentalItems, AnnouncementAt, DeliveryAt, Listed, Rebuilt, NewOutboxId, ValidMessageId, NotAfter,
         AnnouncementOk, ObservationRow, KeyOf, ItemId, DedupeKey, Merged, DistinctDeliveryKeys, DistinctKeys;
    var ids := Listed(RentalRows(db));
    RebuiltRows(db, b, t);
    RebuiltKeys(db, b, t);
    var i: nat :| i < |ids| && ids[i] == id;
    DeliveryAtMeans(db, b, t, id);
    ImageRowAt(p, scheduled, i);
    ImportedId(p.deliveries[i].key);
  }

  lemma RebuiltRowsMatch(db: Tables, b: Plan, t: string, p: Plan, scheduled: string)
    requires ObservationsOk(db, b) && RowsOk(db, b, t) && t in db.targets && NoStrays(db)
    requires p.deliveries == Rebuilt(db, b, t).deliveries && p.targetId == t && p.config == b.config
    ensures SameRows(db, Merged(EMPTY, p, scheduled))
  {
    hide ObservationsOk, RowsOk, RentalItems, AnnouncementAt, DeliveryAt, Listed, Rebuilt, NewOutboxId, ValidMessageId, NotAfter,
         AnnouncementOk, ObservationRow, KeyOf, ItemId, DedupeKey, Merged, DistinctDeliveryKeys, DistinctKeys;
    var ids := Listed(RentalRows(db));
    RebuiltRows(db, b, t);
    RebuiltKeys(db, b, t);
    var d := Merged(EMPTY, p, scheduled);
    forall id | id in RentalRows(db)
      ensures id in d.outbox && d.outbox[id] == db.outbox[id] && id in db.deliveries && id in d.deliveries
              && d.deliveries[id] == db.deliveries[id] && IsRentalImport(id)
    {
      RebuiltRowAt(db, b, t, p, scheduled, id);
    }
    forall id | id in d.outbox ensures id in RentalRows(db) {
      ImageRows(p, scheduled, id);
      var j: nat :| IsRow(d, p, j, id);
      DeliveryAtMeans(db, b, t, ids[j]);
    }
    forall id | id in d.deliveries ensures id in RentalRows(db) {
      ImageRows(p, scheduled, id);
    }
  }

  lemma ImportedId(key: string)
    ensures IsRentalImport(NewOutboxId(key))
  {
  }

  lemma ImageRowAt(p: Plan, scheduled: string, i: nat)
    requires DistinctDeliveryKeys(p.deliveries) && i < |p.deliveries|
    ensures IsRow(Merged(EMPTY, p, scheduled), p, i, NewOutboxId(p.deliveries[i].key))
  {
    hide *;
    EmptyParts();
    MergedRows(EMPTY, p, scheduled);
    OutboxAdded(map[], p, p.deliveries, i);
    DeliveriesAdded(map[], p, p.deliveries, i);
    RowOfPlan(Merged(EMPTY, p, scheduled), p, i, NewOutboxId(p.deliveries[i].key));
  }

  lemma SameIdentity(db: Tables, b: Plan, t: string, p: Plan, scheduled: string)
    requires IdentityOk(db, b) && TargetOk(db, b, t)
    requires p.owner == b.owner && p.telegramId == b.telegramId && p.targetId == t && p.time == b.time && p.config == b.config
    requires p.address == db.targets[t].address
    requires SameObservations(db.observations, Merged(EMPTY, p, scheduled).observations) && SameRows(db, Merged(EMPTY, p, scheduled))
    ensures SameAggregate(db, Merged(EMPTY, p, scheduled), b.owner, t)
  {
    hide SameObservations, SameRows, WithObservations, WithOutbox, WithDeliveries;
  }

  /** An accepted state without the alias and without a baseline at the marker's time is
      the image of a well-formed source. */
  lemma ProducibleIsImage(db: Tables, config: Config, t: string)
    requires NumbersAreOpaque(config) && HasHeader(db) && AcceptsFor(db, Base(db, config), t) && Producible(db, Base(db, config), t)
    ensures ImageOf(db, config)
  {
    hide ObservationsOk, RowsOk, IdentityOk, TargetOk, NoStrays, IsTarget, Producible, NumbersAreOpaque, Imports, SameAggregate, Merged,
         SameObservations, SameRows, Rebuilt;
    var b := Base(db, config);
    TargetIn(db, b, t);
    var l, address := Rebuilt(db, b, t), db.targets[t].address;
    var p := RebuiltPlan(b, t, address, l);
    RebuiltImports(db, b, t);
    RebuiltObservations(db, b, t, p, "");
    RebuiltRowsMatch(db, b, t, p, "");
    SameIdentity(db, b, t, p, "");
    assert ImageBy(db, l, Request(b.owner, t, Some(address)), config, p, "");
  }

  /** The target of an image is the one the check finds. */
  lemma SameTarget(db: Tables, b: Plan, t: string, p: Plan, scheduled: string)
    requires IsTarget(db, b, t) && TargetOk(db, b, t) && IdentityOk(db, b) && SameAggregate(db, Merged(EMPTY, p, scheduled), p.owner, p.targetId)
    requires DistinctDeliveryKeys(p.deliveries)
    ensures p.targetId == t && p.address == db.targets[t].address && p.time == b.time
  {
    hide WithObservations, WithOutbox, WithDeliveries, SameObservations, NewOutboxId, DedupeKey, DistinctDeliveryKeys;
    var d := Merged(EMPTY, p, scheduled);
    assert d.runs[MARKER_ID] == MarkerRow(p) && d.monitors[MONITOR_ID].owner == p.owner;
    if RentalRows(db) != {} {
      var id :| id in RentalRows(db);
      ImageRows(p, scheduled, id);
      assert id in d.outbox;
      var j: nat :| IsRow(d, p, j, id);
      assert db.outbox[id].target == p.targetId;
    }
  }

  lemma ImageIsProducible(db: Tables, b: Plan, t: string, l: Legacy, r: Request, p: Plan, scheduled: string)
    requires ImageBy(db, l, r, b.config, p, scheduled)
    requires IsTarget(db, b, t) && TargetOk(db, b, t) && IdentityOk(db, b)
    ensures Producible(db, b, t)
  {
    hide IsTarget, TargetOk, IdentityOk, Imports, Merged, SameObservations, NewOutboxId, ValidMessageId, NotAfter, DistinctDeliveryKeys,
         DistinctKeys, Before, TargetRouting;
    TargetIn(db, b, t);
    ImportsMeans(l, r, b.config, p);
    SameTarget(db, b, t, p, scheduled);
    var d := Merged(EMPTY, p, scheduled);
    forall id | id in RentalRows(db) && id in db.deliveries && db.deliveries[id].messageId == LEGACY_BASELINE
      ensures db.deliveries[id].deliveredAt != At(b.time)
    {
      ImageRows(p, scheduled, id);
      var j: nat :| IsRow(d, p, j, id);
      DeliveriesSound(l, r, b.config, p, j);
      BeforeAsymmetric(b.time, b.time);
    }
  }

  /** For an accepted state: some import into an empty database leaves exactly this
      aggregate if and only if its target address is not the legacy alias and no baseline
      delivery is dated at the marker's own time. */
  lemma ImageExactly(db: Tables, config: Config, t: string)
    requires NumbersAreOpaque(config) && HasHeader(db) && AcceptsFor(db, Base(db, config), t)
    ensures ImageOf(db, config) <==> Producible(db, Base(db, config), t)
  {
    hide HasHeader, Base, IdentityOk, ObservationsOk, IsTarget, TargetOk, RowsOk, NoStrays, Producible, NumbersAreOpaque, ImageBy;
    var b := Base(db, config);
    BaseConfig(db, config);
    if Producible(db, b, t) {
      ProducibleIsImage(db, config, t);
    }
    if ImageOf(db, config) {
      var l, r, p, scheduled :| ImageBy(db, l, r, config, p, scheduled);
      ImageIsProducible(db, b, t, l, r, p, scheduled);
    }
  }

  lemma BaseConfig(db: Tables, config: Config)
    requires HasHeader(db)
    ensures Base(db, config).config == config
  {
  }

  // ---------- both exceptions are real ----------

  function WithAddress(db: Tables, t: string, address: string): Tables
    requires t in db.targets
  {
    db.(targets := db.targets[t := db.targets[t].(address := address)])
  }

  /** Replacing an accepted state's target address by the alias keeps it accepted, though
      no import into an empty database leaves it. */
  lemma AliasIsAccepted(db: Tables, config: Config, t: string)
    requires NumbersAreOpaque(config) && config.opaqueId(LEGACY_ALIAS)
    requires HasHeader(db) && AcceptsFor(db, Base(db, config), t)
    ensures t in db.targets
    ensures Accepts(WithAddress(db, t, LEGACY_ALIAS), config) && !ImageOf(WithAddress(db, t, LEGACY_ALIAS), config)
  {
    hide ObservationOk, NewOutboxId, ValidMessageId, NotAfter, OutboxRow, NumbersAreOpaque, ImageOf, MonitorFits, VersionRow, MarkerRow;
    TargetIn(db, Base(db, config), t);
    var d, b := WithAddress(db, t, LEGACY_ALIAS), Base(db, config);
    assert HasHeader(d) && Base(d, config) == b;
    assert RentalRows(d) == RentalRows(db);
    forall id | id in RentalRows(d) ensures exists key :: RowOk(d, b, t, id, key) {
      var key :| RowOk(db, b, t, id, key);
      AddressIsNotCompared(db, b, t, id, key, LEGACY_ALIAS);
    }
    assert AcceptsFor(d, b, t);
    ImageExactly(d, config, t);
  }

  lemma AddressIsNotCompared(db: Tables, b: Plan, t: string, id: OutboxId, key: string, address: string)
    requires t in db.targets && RowOk(db, b, t, id, key)
    ensures RowOk(WithAddress(db, t, address), b, t, id, key)
  {
    hide ValidMessageId, NotAfter, NewOutboxId, DedupeKey;
  }

  function AsBaseline(db: Tables, id: OutboxId): Tables
    requires id in db.deliveries
  {
    db.(deliveries := db.deliveries[id := db.deliveries[id].(messageId := LEGACY_BASELINE)])
  }

  /** Turning an accepted delivery at the marker's time into a baseline keeps the state
      accepted, though no import into an empty database leaves it. */
  lemma LateBaselineIsAccepted(db: Tables, config: Config, t: string, id: OutboxId)
    requires NumbersAreOpaque(config) && HasHeader(db) && AcceptsFor(db, Base(db, config), t)
    requires id in RentalRows(db) && id in db.deliveries && db.deliveries[id].deliveredAt == At(Base(db, config).time)
    ensures Accepts(AsBaseline(db, id), config) && !ImageOf(AsBaseline(db, id), config)
  {
    hide ObservationOk, NewOutboxId, NotAfter, OutboxRow, NumbersAreOpaque, ImageOf, MonitorFits, VersionRow, MarkerRow, RowOk;
    var d, b := AsBaseline(db, id), Base(db, config);
    assert HasHeader(d) && Base(d, config) == b;
    assert RentalRows(d) == RentalRows(db);
    forall o | o in RentalRows(d) ensures exists key :: RowOk(d, b, t, o, key) {
      var key :| RowOk(db, b, t, o, key);
      MessageIsNotCompared(db, b, t, id, o, key);
    }
    assert AcceptsFor(d, b, t);
    ImageExactly(d, config, t);
  }

  lemma MessageIsNotCompared(db: Tables, b: Plan, t: string, id: OutboxId, o: OutboxId, key: string)
    requires id in db.deliveries && RowOk(db, b, t, o, key)
    ensures RowOk(AsBaseline(db, id), b, t, o, key)
  {
    hide NotAfter, NewOutboxId, DedupeKey;
  }

  // ---------- imports into any database ----------

  /** An import leaves the alias as its target's address exactly when it was there before. */
  lemma AliasOnlyIfThere(db: Tables, l: Legacy, r: Request, config: Config, scheduled: string)
    requires WellFormed(l, config) && ValidRequest(r, config) && Accepted(db, SnapshotOf(l), r, config)
    ensures var d := Merged(db, Planned(db, SnapshotOf(l), r, config).value, scheduled);
            && r.targetId in d.targets
            && (d.targets[r.targetId].address == LEGACY_ALIAS <==>
                r.targetId in db.targets && db.targets[r.targetId].address == LEGACY_ALIAS)
  {
    hide WellFormed, Latest, Selected, WithObservations, WithOutbox, WithDeliveries, UserAgrees, MonitorAgrees, ObservationsAgree,
         OutboxAgrees, DeliveriesAgree, MarkerAgrees;
    var p := Planned(db, SnapshotOf(l), r, config).value;
    NumberIsNoAlias(p.telegramId);
  }

  ghost predicate BaselineAt(deliveries: map<OutboxId, Delivery>, id: OutboxId, time: Instant)
  {
    id in deliveries && deliveries[id].messageId == LEGACY_BASELINE && deliveries[id].deliveredAt == At(time)
  }

  /** The rows an import writes are no baselines at its marker's time. */
  lemma PlannedBaselines(l: Legacy, config: Config, p: Plan, source: Option<string>, j: nat)
    requires WellFormed(l, config) && p.deliveries == Selected(l.deliveries, source) && p.time == SnapshotOf(l).evidenceTime
    requires j < |p.deliveries|
    ensures DeliveryRow(p, p.deliveries[j]).messageId == LEGACY_BASELINE ==>
              DeliveryRow(p, p.deliveries[j]).deliveredAt != At(p.time)
  {
    hide Latest, Selected, WellFormed, Before;
    SelectedRows(l.deliveries, source);
    assert p.deliveries[j] in l.deliveries;
    var i :| 0 <= i < |l.deliveries| && l.deliveries[i] == p.deliveries[j];
    if p.deliveries[j].messageId == LEGACY_BASELINE {
      BaselineBeforeEvidence(l, config, i);
      BeforeAsymmetric(p.time, p.time);
    }
  }

  lemma PlanParts(db: Tables, l: Legacy, r: Request, config: Config) returns (source: Option<string>)
    requires Accepted(db, SnapshotOf(l), r, config)
    ensures var p := Planned(db, SnapshotOf(l), r, config).value;
            p.deliveries == Selected(l.deliveries, source) && p.time == SnapshotOf(l).evidenceTime
            && DeliveriesAgree(db.deliveries, p, p.deliveries)
  {
    hide Latest, Selected, TargetRouting, TelegramUserId, DeliveriesAgree, SnapshotOf;
    source := TargetRouting(db.targets, SnapshotOf(l), r, TelegramUserId(r.owner).value, config).value.source;
    SnapshotRows(l);
  }

  lemma SnapshotRows(l: Legacy)
    ensures SnapshotOf(l).deliveries == l.deliveries
  {
  }

  /** An import leaves a baseline dated at its marker's time exactly where one was before. */
  lemma LateBaselineOnlyIfThere(db: Tables, l: Legacy, r: Request, config: Config, scheduled: string, id: OutboxId)
    requires WellFormed(l, config) && Accepted(db, SnapshotOf(l), r, config)
    ensures var p := Planned(db, SnapshotOf(l), r, config).value;
            var d := Merged(db, p, scheduled);
            && d.runs[MARKER_ID].startedAt == At(p.time)
            && (BaselineAt(d.deliveries, id, p.time) <==> BaselineAt(db.deliveries, id, p.time))
  {
    hide WellFormed, Selected, Accepted, Planned, DeliveryRow, NewOutboxId, WithDeliveries, WithObservations, WithOutbox,
         DistinctDeliveryKeys, DistinctKeys, SnapshotOf;
    AcceptedMeans(db, SnapshotOf(l), r, config);
    var p := Planned(db, SnapshotOf(l), r, config).value;
    var source := PlanParts(db, l, r, config);
    SourceKeyed(l, config);
    PlanKeyed(db, SnapshotOf(l), r, config);
    MergedRows(db, p, scheduled);
    DeliveriesElsewhere(db.deliveries, p, p.deliveries, id);
    if exists j :: 0 <= j < |p.deliveries| && NewOutboxId(p.deliveries[j].key) == id {
      var j :| 0 <= j < |p.deliveries| && NewOutboxId(p.deliveries[j].key) == id;
      DeliveriesAdded(db.deliveries, p, p.deliveries, j);
      PlannedBaselines(l, config, p, source, j);
    }
  }

  // ---------- a state with both exceptions in reach ----------

  /** A legacy database of one announcement, delivered to the owner's own chat at the time
      of the latest evidence. */
  function SampleSource(a: Announcement, chat: string): Legacy
  {
    Legacy([a], [SourceDelivery(a.key, chat, a.lastSeen, chat)], [])
  }

  function SamplePlan(a: Announcement, r: Request, n: nat, config: Config): Plan
  {
    Plan(r.owner, n, r.targetId, J.Digits(n), a.lastSeen, [a], [SourceDelivery(a.key, J.Digits(n), a.lastSeen, J.Digits(n))], config)
  }

  lemma SampleWellFormed(a: Announcement, n: nat, config: Config)
    requires AnnouncementOk(a, config) && config.opaqueId(J.Digits(n)) && 0 < n <= MAX_MESSAGE_ID
    ensures WellFormed(SampleSource(a, J.Digits(n)), config)
  {
    hide AnnouncementOk, ValidMessageId;
    var l := SampleSource(a, J.Digits(n));
    assert StoredMessageId(n) == J.Digits(n);
    StoredMessageIds(J.Digits(n));
    NumberIsNoBaseline(n);
    assert l.announcements[0].key == a.key;
    assert DeliveryOk(l.deliveries[0], l.announcements, config);
  }

  lemma NumberIsNoBaseline(n: nat)
    ensures J.Digits(n) != LEGACY_BASELINE
  {
    J.DigitsShape(n);
    assert !J.IsDigit(LEGACY_BASELINE[0]);
  }

  lemma SampleTime(a: Announcement, chat: string)
    requires a.firstSeen == a.lastSeen
    ensures SnapshotOf(SampleSource(a, chat)).evidenceTime == a.lastSeen
  {
    var times := Times(SampleSource(a, chat));
    assert times == [a.lastSeen, a.lastSeen, a.lastSeen];
    LatestIsMember(times);
  }

  lemma SampleRoute(a: Announcement, r: Request, n: nat, config: Config)
    requires r.address.None?
    ensures TargetRouting(map[], SnapshotOf(SampleSource(a, J.Digits(n))), r, n, config) == Some(Route(J.Digits(n), Some(J.Digits(n))))
    ensures var rows := SampleSource(a, J.Digits(n)).deliveries; Selected(rows, Some(J.Digits(n))) == rows
  {
    hide Latest;
    var rows := SampleSource(a, J.Digits(n)).deliveries;
    assert rows[0].chatId in Chats(rows);
    assert Chats(rows) == {J.Digits(n)};
    NumberIsNoAlias(n);
    assert rows[..0] == [];
  }

  lemma SampleImports(a: Announcement, r: Request, n: nat, config: Config)
    requires NumbersAreOpaque(config) && AnnouncementOk(a, config) && a.firstSeen == a.lastSeen
    requires ValidRequest(r, config) && r.address.None? && TelegramUserId(r.owner) == Some(n)
    ensures Imports(SampleSource(a, J.Digits(n)), r, config, SamplePlan(a, r, n, config))
  {
    hide AnnouncementOk, TargetRouting, Selected, Latest, TelegramUserId, WellFormed;
    TelegramIdPositive(r.owner);
    SampleWellFormed(a, n, config);
    SampleTime(a, J.Digits(n));
    SampleRoute(a, r, n, config);
  }

  /** Whatever announcement and identifiers the configuration admits, there is an import
      from which either exception is one changed cell away. */
  lemma ExceptionsExist(a: Announcement, r: Request, config: Config) returns (db: Tables, id: OutboxId)
    requires NumbersAreOpaque(config) && config.opaqueId(LEGACY_ALIAS)
    requires AnnouncementOk(a, config) && a.firstSeen == a.lastSeen && ValidRequest(r, config) && r.address.None?
    ensures Accepts(db, config) && ImageOf(db, config) && r.targetId in db.targets && id in db.deliveries
    ensures Accepts(WithAddress(db, r.targetId, LEGACY_ALIAS), config) && !ImageOf(WithAddress(db, r.targetId, LEGACY_ALIAS), config)
    ensures Accepts(AsBaseline(db, id), config) && !ImageOf(AsBaseline(db, id), config)
  {
    hide *;
    var p := RequestedPlan(a, r, config);
    ImportAccepted(SampleSource(a, p.address), r, config, p, "");
    db, id := Merged(EMPTY, p, ""), NewOutboxId(a.key);
    SampleRow(p, a);
    SampleImage(SampleSource(a, p.address), r, config, p);
    AliasIsAccepted(db, config, r.targetId);
    LateBaselineIsAccepted(db, config, r.targetId, id);
  }

  lemma RequestedPlan(a: Announcement, r: Request, config: Config) returns (p: Plan)
    requires NumbersAreOpaque(config) && AnnouncementOk(a, config) && a.firstSeen == a.lastSeen
    requires ValidRequest(r, config) && r.address.None?
    ensures p.targetId == r.targetId && p.time == a.lastSeen && p.config == config
    ensures p.deliveries == [SourceDelivery(a.key, p.address, p.time, p.address)]
    ensures Imports(SampleSource(a, p.address), r, config, p)
  {
    var n := TelegramUserId(r.owner).value;
    p := SamplePlan(a, r, n, config);
    SampleImports(a, r, n, config);
  }

  lemma SampleRow(p: Plan, a: Announcement)
    requires p.deliveries == [SourceDelivery(a.key, p.address, p.time, p.address)]
    ensures var d, id := Merged(EMPTY, p, ""), NewOutboxId(a.key);
            id in RentalRows(d) && id in d.deliveries && d.deliveries[id].deliveredAt == At(Base0(p).time)
  {
    hide Merged, NewOutboxId;
    ImageRowAt(p, "", 0);
  }

  lemma SampleImage(l: Legacy, r: Request, config: Config, p: Plan)
    requires Imports(l, r, config, p)
    ensures ImageOf(Merged(EMPTY, p, ""), config)
  {
    hide Imports, Merged;
    ImportsMeans(l, r, config, p);
    var d := Merged(EMPTY, p, "");
    forall id | id in d.outbox || id in d.deliveries
      ensures id in d.outbox && id in d.deliveries && id in RentalRows(d) && IsRentalImport(id)
    {
      ImageRows(p, "", id);
      var j: nat :| IsRow(d, p, j, id);
      ImportedId(p.deliveries[j].key);
    }
    ImageHeader(p, "");
    ImageTarget(p, "");
    assert ImageBy(d, l, r, config, p, "");
  }

  /** A configuration, an announcement and a request that fit. */
  lemma SampleExists() returns (a: Announcement, r: Request, config: Config)
    ensures NumbersAreOpaque(config) && config.opaqueId(LEGACY_ALIAS)
    ensures AnnouncementOk(a, config) && a.firstSeen == a.lastSeen && ValidRequest(r, config) && r.address.None?
  {
    config := Config((key, fields) => key == "LH:1", s => s != "", "rental", owner => "{}", "{}", d => None);
    var fields := J.Obj(seq(|FIELD_NAMES|, i requires 0 <= i < |FIELD_NAMES| => J.Member(FIELD_NAMES[i], J.Null)));
    a := Announcement("LH:1", fields, FIXED_TIME, FIXED_TIME);
    r := Request("telegram-user:1", "target", None);
    BeforeAsymmetric(FIXED_TIME, FIXED_TIME);
    assert r.owner[14..] == "1" && J.DigitsValue("1") == 1 by {
      assert "1"[..0] == "";
    }
    forall n: nat | 0 < n <= MAX_TELEGRAM_ID ensures J.Digits(n) != "" {
      J.DigitsShape(n);
    }
  }
}
