/** The import of the legacy rental monitor: a source snapshot merged into the tables of
    the new database, refusing any conflict. A text cell that holds a canonical UTC
    timestamp is `At` of its instant; every other text is `Other`. */
module RentalImport {
  import opened Order
  import opened Digest
  import opened Timestamps
  import opened RentalSource
  import J = JsonText

  const MONITOR_ID := "rental-housing-seoul-gyeonggi"
  const VERSION_ID := "rental-housing-seoul-gyeonggi:v1"
  const MARKER_ID := "migration:rental-housing:v1"
  const MAX_TELEGRAM_ID := 0x7FFF_FFFF_FFFF_FFFF

  datatype Stamp = At(time: Instant) | Other(text: string)

  /** An outbox id: `rental-import:` and the digest in hex, or any other text. */
  datatype OutboxId = Imported(digest: Hash) | Native(text: string)

  datatype User = User(telegramId: int, status: string, createdAt: Stamp)
  datatype Target = Target(owner: string, kind: string, address: string, createdAt: Stamp)
  datatype Monitor = Monitor(
    owner: string, name: string, status: string, activeVersion: Option<string>, nextRunAt: string,
    leaseOwner: Option<string>, leaseGeneration: int, disabledAt: Option<Stamp>, createdAt: Stamp, updatedAt: Stamp)
  datatype Version = Version(
    monitor: string, number: int, specJson: string, createdBy: string, createdAt: Stamp,
    approvedBy: Option<string>, approvedAt: Option<Stamp>, parent: Option<string>)
  /** `contentHash` is None for a text that is no digest. */
  datatype StoredItem = StoredItem(fieldsJson: string, contentHash: Option<Hash>, firstSeen: Stamp, lastSeen: Stamp)
  datatype Outbox = Outbox(
    dedupeKey: string, monitor: string, target: string, payloadJson: string, status: string, attempts: int,
    availableAt: Stamp, lastError: Option<string>, leaseOwner: Option<string>, leaseExpires: Option<string>, createdAt: Stamp)
  datatype Delivery = Delivery(target: string, messageId: string, deliveredAt: Stamp)
  datatype RunRow = RunRow(
    monitor: string, version: string, leaseGeneration: int, stage: string, fetchStrategy: Option<string>, status: string,
    startedAt: Stamp, finishedAt: Option<Stamp>, errorClass: Option<string>, errorDetail: Option<string>)

  type ItemKey = (string, string)

  datatype Tables = Tables(
    users: map<string, User>, targets: map<string, Target>, monitors: map<string, Monitor>,
    versions: map<string, Version>, observations: map<ItemKey, StoredItem>, outbox: map<OutboxId, Outbox>,
    deliveries: map<OutboxId, Delivery>, runs: map<string, RunRow>)

  const EMPTY := Tables(map[], map[], map[], map[], map[], map[], map[], map[])

  // ---------- identities and routing ----------

  /** `telegram-user:` and a positive 63-bit number without leading zero. */
  function TelegramUserId(owner: string): Option<nat>
  {
    if |owner| > 14 && |owner| <= 33 && owner[..14] == "telegram-user:" && owner[14] != '0' && J.AllDigits(owner[14..])
       && J.DigitsValue(owner[14..]) <= MAX_TELEGRAM_ID
    then Some(J.DigitsValue(owner[14..]))
    else None
  }

  datatype Request = Request(owner: string, targetId: string, address: Option<string>)

  predicate ValidRequest(r: Request, config: Config)
  {
    && TelegramUserId(r.owner).Some? && config.opaqueId(r.targetId)
    && (r.address.Some? ==> config.opaqueId(r.address.value) && r.address.value != LEGACY_ALIAS)
  }

  /** Where to deliver, and which legacy chat's deliveries to take over. */
  datatype Route = Route(address: string, source: Option<string>)

  function Chats(deliveries: seq<SourceDelivery>): set<string>
  {
    set i | 0 <= i < |deliveries| :: deliveries[i].chatId
  }

  function RequestedAddress(r: Request, telegramId: nat): string
  {
    if r.address.Some? then r.address.value else J.Digits(telegramId)
  }

  function TargetRouting(targets: map<string, Target>, s: Snapshot, r: Request, telegramId: nat, config: Config): Option<Route>
  {
    var chats := Chats(s.deliveries);
    if r.targetId in targets then
      var existing := targets[r.targetId];
      if existing.owner != r.owner || existing.kind != "telegram" || !config.opaqueId(existing.address) then None
      else if r.address.Some? && existing.address != r.address.value then None
      else if s.deliveries == [] then
        if existing.address != RequestedAddress(r, telegramId) then None else Some(Route(existing.address, None))
      else if chats == {LEGACY_ALIAS} then Some(Route(existing.address, Some(LEGACY_ALIAS)))
      else if existing.address !in chats then None
      else Some(Route(existing.address, Some(existing.address)))
    else if |chats| > 1 then None
    else if s.deliveries == [] then Some(Route(RequestedAddress(r, telegramId), None))
    else
      var source := s.deliveries[0].chatId;
      if source == LEGACY_ALIAS then
        if r.address.None? then None else Some(Route(r.address.value, Some(source)))
      else if r.address.Some? && r.address.value != source then None
      else Some(Route(source, Some(source)))
  }

  function Selected(deliveries: seq<SourceDelivery>, source: Option<string>): seq<SourceDelivery>
  {
    if deliveries == [] then []
    else
      var last := deliveries[|deliveries| - 1];
      Selected(deliveries[..|deliveries| - 1], source) + if source == Some(last.chatId) then [last] else []
  }

  // ---------- the rows an import stands for ----------

  datatype Plan = Plan(
    owner: string, telegramId: nat, targetId: string, address: string, time: Instant,
    announcements: seq<Announcement>, deliveries: seq<SourceDelivery>, config: Config)

  function PlanOf(s: Snapshot, r: Request, telegramId: nat, route: Route, config: Config): Plan
  {
    Plan(r.owner, telegramId, r.targetId, route.address, s.evidenceTime, s.announcements, Selected(s.deliveries, route.source), config)
  }

  function ItemId(key: string): string
  {
    "announcement:" + key
  }

  function DedupeKey(key: string): string
  {
    MONITOR_ID + ":" + ItemId(key) + ":new_item"
  }

  function NewOutboxId(key: string): OutboxId
  {
    Imported(Sha256(DedupeKey(key)))
  }

  function KeyOf(a: Announcement): ItemKey
  {
    (MONITOR_ID, ItemId(a.key))
  }

  function UserRow(p: Plan): User
  {
    User(p.telegramId, "active", At(p.time))
  }

  function TargetRow(p: Plan): Target
  {
    Target(p.owner, "telegram", p.address, At(p.time))
  }

  function NewMonitor(p: Plan, scheduled: string): Monitor
  {
    Monitor(p.owner, p.config.specName, "active", Some(VERSION_ID), scheduled, None, 0, None, At(p.time), At(p.time))
  }

  function VersionRow(p: Plan): Version
  {
    Version(MONITOR_ID, 1, p.config.specJson(p.owner), p.owner, At(p.time), Some(p.owner), Some(At(p.time)), None)
  }

  function ObservationRow(a: Announcement): StoredItem
  {
    StoredItem(J.Print(a.fields), Some(Sha256(J.Print(a.fields))), At(a.firstSeen), At(a.lastSeen))
  }

  function OutboxRow(p: Plan, d: SourceDelivery): Outbox
  {
    Outbox(DedupeKey(d.key), MONITOR_ID, p.targetId, p.config.payloadJson, "delivered", 0,
      At(d.deliveredAt), None, None, None, At(d.deliveredAt))
  }

  function DeliveryRow(p: Plan, d: SourceDelivery): Delivery
  {
    Delivery(p.targetId, d.messageId, At(d.deliveredAt))
  }

  function MarkerRow(p: Plan): RunRow
  {
    RunRow(MONITOR_ID, VERSION_ID, 0, "migration_import", None, "success", At(p.time), Some(At(p.time)), None, None)
  }

  lemma DedupeInjective(a: string, b: string)
    ensures DedupeKey(a) == DedupeKey(b) ==> a == b
    ensures ItemId(a) == ItemId(b) ==> a == b
  {
    var p, s := MONITOR_ID + ":" + "announcement:", ":new_item";
    assert DedupeKey(a) == p + a + s && DedupeKey(b) == p + b + s;
    assert DedupeKey(a)[|p|..|DedupeKey(a)| - |s|] == a && DedupeKey(b)[|p|..|DedupeKey(b)| - |s|] == b;
    assert ItemId(a)[13..] == a && ItemId(b)[13..] == b;
  }

  // ---------- when the tables agree with a plan ----------

  predicate UserAgrees(users: map<string, User>, p: Plan)
  {
    if p.owner in users then users[p.owner] == UserRow(p)
    else forall u :: u in users ==> users[u].telegramId != p.telegramId
  }

  predicate TargetAgrees(targets: map<string, Target>, p: Plan)
  {
    if p.targetId in targets then targets[p.targetId] == TargetRow(p)
    else forall t :: t in targets ==> !(targets[t].owner == p.owner && targets[t].kind == "telegram" && targets[t].address == p.address)
  }

  /** The monitor columns an import compares; scheduling and leases may have moved on. */
  predicate MonitorFits(m: Monitor, p: Plan)
  {
    && m.owner == p.owner && m.name == p.config.specName && m.status == "active" && m.activeVersion == Some(VERSION_ID)
    && m.disabledAt == None && m.createdAt == At(p.time) && m.updatedAt.At?
  }

  predicate MonitorAgrees(monitors: map<string, Monitor>, versions: map<string, Version>, p: Plan)
  {
    && (MONITOR_ID in monitors <==> VERSION_ID in versions)
    && (MONITOR_ID in monitors ==> MonitorFits(monitors[MONITOR_ID], p))
    && (VERSION_ID in versions ==> versions[VERSION_ID] == VersionRow(p))
  }

  predicate ObservationAgrees(observations: map<ItemKey, StoredItem>, a: Announcement)
  {
    KeyOf(a) in observations ==> observations[KeyOf(a)] == ObservationRow(a)
  }

  predicate ObservationsAgree(observations: map<ItemKey, StoredItem>, rows: seq<Announcement>)
  {
    forall i :: 0 <= i < |rows| ==> ObservationAgrees(observations, rows[i])
  }

  /** Any row under the delivery's dedupe key, or under its outbox id, is the row itself. */
  predicate OutboxAgreesFor(outbox: map<OutboxId, Outbox>, p: Plan, d: SourceDelivery)
  {
    forall id :: id in outbox && (outbox[id].dedupeKey == DedupeKey(d.key) || id == NewOutboxId(d.key)) ==>
      id == NewOutboxId(d.key) && outbox[id] == OutboxRow(p, d)
  }

  predicate OutboxAgrees(outbox: map<OutboxId, Outbox>, p: Plan, rows: seq<SourceDelivery>)
  {
    forall i :: 0 <= i < |rows| ==> OutboxAgreesFor(outbox, p, rows[i])
  }

  predicate DeliveryAgrees(deliveries: map<OutboxId, Delivery>, p: Plan, d: SourceDelivery)
  {
    NewOutboxId(d.key) in deliveries ==> deliveries[NewOutboxId(d.key)] == DeliveryRow(p, d)
  }

  predicate DeliveriesAgree(deliveries: map<OutboxId, Delivery>, p: Plan, rows: seq<SourceDelivery>)
  {
    forall i :: 0 <= i < |rows| ==> DeliveryAgrees(deliveries, p, rows[i])
  }

  predicate MarkerAgrees(runs: map<string, RunRow>, p: Plan)
  {
    MARKER_ID in runs ==> runs[MARKER_ID] == MarkerRow(p)
  }

  /** Nothing in the tables conflicts with the plan. */
  predicate Agrees(db: Tables, p: Plan)
  {
    && UserAgrees(db.users, p) && TargetAgrees(db.targets, p) && MonitorAgrees(db.monitors, db.versions, p)
    && ObservationsAgree(db.observations, p.announcements) && OutboxAgrees(db.outbox, p, p.deliveries)
    && DeliveriesAgree(db.deliveries, p, p.deliveries) && MarkerAgrees(db.runs, p)
  }

  // ---------- the merged tables ----------

  function WithObservations(observations: map<ItemKey, StoredItem>, rows: seq<Announcement>): map<ItemKey, StoredItem>
  {
    if rows == [] then observations
    else
      var last := rows[|rows| - 1];
      WithObservations(observations, rows[..|rows| - 1])[KeyOf(last) := ObservationRow(last)]
  }

  function WithOutbox(outbox: map<OutboxId, Outbox>, p: Plan, rows: seq<SourceDelivery>): map<OutboxId, Outbox>
  {
    if rows == [] then outbox
    else
      var last := rows[|rows| - 1];
      WithOutbox(outbox, p, rows[..|rows| - 1])[NewOutboxId(last.key) := OutboxRow(p, last)]
  }

  function WithDeliveries(deliveries: map<OutboxId, Delivery>, p: Plan, rows: seq<SourceDelivery>): map<OutboxId, Delivery>
  {
    if rows == [] then deliveries
    else
      var last := rows[|rows| - 1];
      WithDeliveries(deliveries, p, rows[..|rows| - 1])[NewOutboxId(last.key) := DeliveryRow(p, last)]
  }

  /** An existing monitor keeps its row. */
  function MonitorsAfter(monitors: map<string, Monitor>, p: Plan, scheduled: string): map<string, Monitor>
  {
    if MONITOR_ID in monitors then monitors else monitors[MONITOR_ID := NewMonitor(p, scheduled)]
  }

  /** The tables after a successful import. */
  function Merged(db: Tables, p: Plan, scheduled: string): Tables
  {
    Tables(
      db.users[p.owner := UserRow(p)],
      db.targets[p.targetId := TargetRow(p)],
      MonitorsAfter(db.monitors, p, scheduled),
      db.versions[VERSION_ID := VersionRow(p)],
      WithObservations(db.observations, p.announcements),
      WithOutbox(db.outbox, p, p.deliveries),
      WithDeliveries(db.deliveries, p, p.deliveries),
      db.runs[MARKER_ID := MarkerRow(p)])
  }

  function MissingObservations(observations: map<ItemKey, StoredItem>, rows: seq<Announcement>): nat
  {
    if rows == [] then 0
    else MissingObservations(observations, rows[..|rows| - 1]) + if KeyOf(rows[|rows| - 1]) in observations then 0 else 1
  }

  function MissingOutbox<T>(outbox: map<OutboxId, T>, rows: seq<SourceDelivery>): nat
  {
    if rows == [] then 0
    else MissingOutbox(outbox, rows[..|rows| - 1]) + if NewOutboxId(rows[|rows| - 1].key) in outbox then 0 else 1
  }

  datatype Counts = Counts(
    importedObservations: nat, presentObservations: int, importedOutbox: nat, presentOutbox: int,
    importedDeliveries: nat, presentDeliveries: int,
    identityCreated: bool, targetCreated: bool, monitorCreated: bool, versionCreated: bool, complete: bool)

  /** What an import of the plan reports. */
  function CountsOf(db: Tables, p: Plan, dryRun: bool): Counts
  {
    var observations := MissingObservations(db.observations, p.announcements);
    var outbox, deliveries := MissingOutbox(db.outbox, p.deliveries), MissingOutbox(db.deliveries, p.deliveries);
    Counts(
      observations, |p.announcements| - observations, outbox, |p.deliveries| - outbox,
      deliveries, |p.deliveries| - deliveries,
      p.owner !in db.users, p.targetId !in db.targets, MONITOR_ID !in db.monitors, VERSION_ID !in db.versions,
      !dryRun || MARKER_ID in db.runs)
  }

  ghost predicate DistinctDeliveryKeys(rows: seq<SourceDelivery>)
  {
    forall i, j :: 0 <= i < j < |rows| ==> rows[i].key != rows[j].key
  }

  ghost predicate UniqueDedupe(outbox: map<OutboxId, Outbox>)
  {
    forall a, b :: a in outbox && b in outbox && outbox[a].dedupeKey == outbox[b].dedupeKey ==> a == b
  }

  // ---------- the import, step by step ----------

  /** The only row under the dedupe key decides. */
  lemma FoundByDedupe(outbox: map<OutboxId, Outbox>, p: Plan, d: SourceDelivery, id: OutboxId)
    requires UniqueDedupe(outbox) && id in outbox && outbox[id].dedupeKey == DedupeKey(d.key)
    ensures OutboxAgreesFor(outbox, p, d) <==> id == NewOutboxId(d.key) && outbox[id] == OutboxRow(p, d)
    ensures OutboxAgreesFor(outbox, p, d) ==> NewOutboxId(d.key) in outbox
  {
    hide NewOutboxId, OutboxRow, DedupeKey;
  }

  /** Without one, a row under the outbox id conflicts, and else the new row may go in. */
  lemma NotFoundByDedupe(outbox: map<OutboxId, Outbox>, p: Plan, d: SourceDelivery)
    requires UniqueDedupe(outbox) && forall id :: id in outbox ==> outbox[id].dedupeKey != DedupeKey(d.key)
    ensures OutboxAgreesFor(outbox, p, d) <==> NewOutboxId(d.key) !in outbox
    ensures UniqueDedupe(outbox[NewOutboxId(d.key) := OutboxRow(p, d)])
  {
    hide NewOutboxId, DedupeKey;
  }

  datatype Ensured = Conflict | Created | Present

  class ImportTarget {
    var db: Tables

    constructor (db: Tables)
      ensures this.db == db
    {
      this.db := db;
    }

    method EnsureUser(p: Plan, dryRun: bool) returns (r: Ensured)
      modifies this
      ensures r.Conflict? <==> !UserAgrees(old(db).users, p)
      ensures !r.Conflict? ==> (r.Created? <==> p.owner !in old(db).users)
      ensures db == if r.Conflict? || dryRun then old(db) else old(db).(users := old(db).users[p.owner := UserRow(p)])
    {
      if p.owner in db.users {
        var row := db.users[p.owner];
        if row.telegramId != p.telegramId || row.status != "active" || row.createdAt != At(p.time) {
          return Conflict;
        }
        assert db.users[p.owner := UserRow(p)] == db.users;
        return Present;
      }
      if exists u :: u in db.users && db.users[u].telegramId == p.telegramId {
        return Conflict;
      }
      if !dryRun {
        db := db.(users := db.users[p.owner := User(p.telegramId, "active", At(p.time))]);
      }
      return Created;
    }

    method EnsureTarget(p: Plan, dryRun: bool) returns (r: Ensured)
      modifies this
      ensures r.Conflict? <==> !TargetAgrees(old(db).targets, p)
      ensures !r.Conflict? ==> (r.Created? <==> p.targetId !in old(db).targets)
      ensures db == if r.Conflict? || dryRun then old(db) else old(db).(targets := old(db).targets[p.targetId := TargetRow(p)])
    {
      if p.targetId in db.targets {
        var row := db.targets[p.targetId];
        if row.owner != p.owner || row.kind != "telegram" || row.address != p.address || row.createdAt != At(p.time) {
          return Conflict;
        }
        assert db.targets[p.targetId := TargetRow(p)] == db.targets;
        return Present;
      }
      if exists t :: t in db.targets && db.targets[t].owner == p.owner && db.targets[t].kind == "telegram"
                     && db.targets[t].address == p.address {
        return Conflict;
      }
      if !dryRun {
        db := db.(targets := db.targets[p.targetId := Target(p.owner, "telegram", p.address, At(p.time))]);
      }
      return Created;
    }

    /** Monitor and first version are created together; the monitor points to its version
        only once the version is there. */
    method EnsureMonitorVersion(p: Plan, scheduled: string, dryRun: bool) returns (r: Ensured)
      modifies this
      ensures r.Conflict? <==> !MonitorAgrees(old(db).monitors, old(db).versions, p)
      ensures !r.Conflict? ==> (r.Created? <==> MONITOR_ID !in old(db).monitors)
      ensures db == if r.Conflict? || dryRun then old(db)
                    else old(db).(monitors := MonitorsAfter(old(db).monitors, p, scheduled),
                                  versions := old(db).versions[VERSION_ID := VersionRow(p)])
    {
      var specJson := p.config.specJson(p.owner);
      var monitorCreated := MONITOR_ID !in db.monitors;
      if !monitorCreated && !MonitorFits(db.monitors[MONITOR_ID], p) {
        return Conflict;
      }
      var versionCreated := VERSION_ID !in db.versions;
      if !versionCreated {
        var version := db.versions[VERSION_ID];
        if || version.monitor != MONITOR_ID || version.number != 1 || version.specJson != specJson
           || version.createdBy != p.owner || version.approvedBy != Some(p.owner) || version.parent != None
           || version.createdAt != At(p.time) || version.approvedAt != Some(At(p.time)) {
          return Conflict;
        }
      }
      if monitorCreated != versionCreated {
        return Conflict;
      }
      if monitorCreated {
        if !dryRun {
          var row := Monitor(p.owner, p.config.specName, "active", None, scheduled, None, 0, None, At(p.time), At(p.time));
          db := db.(monitors := db.monitors[MONITOR_ID := row]);
          db := db.(versions := db.versions[VERSION_ID := Version(MONITOR_ID, 1, specJson, p.owner, At(p.time), Some(p.owner), Some(At(p.time)), None)]);
          db := db.(monitors := db.monitors[MONITOR_ID := db.monitors[MONITOR_ID].(activeVersion := Some(VERSION_ID))]);
        }
        return Created;
      }
      assert db.versions[VERSION_ID := VersionRow(p)] == db.versions;
      return Present;
    }

    method EnsureObservation(a: Announcement, dryRun: bool) returns (r: Ensured)
      modifies this
      ensures r.Conflict? <==> !ObservationAgrees(old(db).observations, a)
      ensures !r.Conflict? ==> (r.Created? <==> KeyOf(a) !in old(db).observations)
      ensures db == if r.Created? && !dryRun
                    then old(db).(observations := old(db).observations[KeyOf(a) := ObservationRow(a)]) else old(db)
    {
      var itemId := ItemId(a.key);
      var fieldsJson := J.Print(a.fields);
      var expected := StoredItem(fieldsJson, Some(Sha256(fieldsJson)), At(a.firstSeen), At(a.lastSeen));
      if (MONITOR_ID, itemId) in db.observations {
        return if db.observations[(MONITOR_ID, itemId)] != expected then Conflict else Present;
      }
      if !dryRun {
        db := db.(observations := db.observations[(MONITOR_ID, itemId) := expected]);
      }
      return Created;
    }

    method EnsureOutbox(p: Plan, d: SourceDelivery, dryRun: bool) returns (r: Ensured)
      requires UniqueDedupe(db.outbox)
      modifies this
      ensures r.Conflict? <==> !OutboxAgreesFor(old(db).outbox, p, d)
      ensures !r.Conflict? ==> (r.Created? <==> NewOutboxId(d.key) !in old(db).outbox)
      ensures db == if r.Created? && !dryRun
                    then old(db).(outbox := old(db).outbox[NewOutboxId(d.key) := OutboxRow(p, d)]) else old(db)
      ensures UniqueDedupe(db.outbox)
    {
      hide *;
      var dedupeKey, outboxId, row := DedupeKey(d.key), NewOutboxId(d.key), OutboxRow(p, d);
      var found := set id | id in db.outbox && db.outbox[id].dedupeKey == dedupeKey;
      if found != {} {
        var id :| id in found;
        FoundByDedupe(db.outbox, p, d, id);
        return if id != outboxId || db.outbox[id] != row then Conflict else Present;
      }
      assert forall id :: id in db.outbox ==> db.outbox[id].dedupeKey != dedupeKey by {
        forall id | id in db.outbox ensures db.outbox[id].dedupeKey != dedupeKey {
          assert id !in found;
        }
      }
      NotFoundByDedupe(db.outbox, p, d);
      if outboxId in db.outbox {
        return Conflict;
      }
      if !dryRun {
        db := db.(outbox := db.outbox[outboxId := row]);
      }
      return Created;
    }

    method EnsureDelivery(p: Plan, d: SourceDelivery, dryRun: bool) returns (r: Ensured)
      modifies this
      ensures r.Conflict? <==> !DeliveryAgrees(old(db).deliveries, p, d)
      ensures !r.Conflict? ==> (r.Created? <==> NewOutboxId(d.key) !in old(db).deliveries)
      ensures db == if r.Created? && !dryRun
                    then old(db).(deliveries := old(db).deliveries[NewOutboxId(d.key) := DeliveryRow(p, d)]) else old(db)
    {
      hide NewOutboxId;
      var outboxId := NewOutboxId(d.key);
      var expected := Delivery(p.targetId, d.messageId, At(d.deliveredAt));
      if outboxId in db.deliveries {
        return if db.deliveries[outboxId] != expected then Conflict else Present;
      }
      if !dryRun {
        db := db.(deliveries := db.deliveries[outboxId := expected]);
      }
      return Created;
    }

    /** Whether the import is now complete, or None for a conflicting marker. */
    method EnsureMarker(p: Plan, dryRun: bool) returns (complete: Option<bool>)
      modifies this
      ensures complete.None? <==> !MarkerAgrees(old(db).runs, p)
      ensures complete.Some? ==> complete.value == (!dryRun || MARKER_ID in old(db).runs)
      ensures db == if complete.Some? && !dryRun then old(db).(runs := old(db).runs[MARKER_ID := MarkerRow(p)]) else old(db)
    {
      if MARKER_ID in db.runs {
        if db.runs[MARKER_ID] != MarkerRow(p) {
          return None;
        }
        assert db.runs[MARKER_ID := MarkerRow(p)] == db.runs;
        return Some(true);
      }
      if dryRun {
        return Some(false);
      }
      db := db.(runs := db.runs[MARKER_ID := MarkerRow(p)]);
      return Some(true);
    }

    method ImportObservations(rows: seq<Announcement>, dryRun: bool) returns (ok: bool, imported: nat, present: nat)
      requires DistinctKeys(rows)
      modifies this
      ensures ok <==> ObservationsAgree(old(db).observations, rows)
      ensures ok ==> imported == MissingObservations(old(db).observations, rows) && present == |rows| - imported
      ensures ok ==> db == if dryRun then old(db) else old(db).(observations := WithObservations(old(db).observations, rows))
    {
      hide KeyOf, ObservationRow, WithObservations, MissingObservations, ObservationAgrees;
      imported, present := 0, 0;
      ghost var before := db.observations;
      NoObservations(before);
      for i := 0 to |rows|
        invariant db == if dryRun then old(db) else old(db).(observations := WithObservations(before, rows[..i]))
        invariant imported == MissingObservations(before, rows[..i]) && present == i - imported
        invariant ObservationsAgree(before, rows[..i])
      {
        OneObservation(before, rows, i);
        var r := EnsureObservation(rows[i], dryRun);
        if r.Conflict? {
          return false, imported, present;
        }
        if r.Created? {
          imported := imported + 1;
        } else {
          present := present + 1;
        }
      }
      assert rows[..|rows|] == rows;
      return true, imported, present;
    }

    method ImportOutbox(p: Plan, rows: seq<SourceDelivery>, dryRun: bool) returns (ok: bool, imported: nat, present: nat)
      requires UniqueDedupe(db.outbox) && DistinctDeliveryKeys(rows)
      modifies this
      ensures ok <==> OutboxAgrees(old(db).outbox, p, rows)
      ensures ok ==> imported == MissingOutbox(old(db).outbox, rows) && present == |rows| - imported
      ensures ok ==> db == if dryRun then old(db) else old(db).(outbox := WithOutbox(old(db).outbox, p, rows))
    {
      hide NewOutboxId, OutboxRow, WithOutbox, MissingOutbox, OutboxAgreesFor, UniqueDedupe;
      imported, present := 0, 0;
      ghost var before := db.outbox;
      NoOutbox(before, p);
      for i := 0 to |rows|
        invariant db == if dryRun then old(db) else old(db).(outbox := WithOutbox(before, p, rows[..i]))
        invariant imported == MissingOutbox(before, rows[..i]) && present == i - imported
        invariant OutboxAgrees(before, p, rows[..i])
        invariant UniqueDedupe(db.outbox)
      {
        OneOutbox(before, p, rows, i);
        var r := EnsureOutbox(p, rows[i], dryRun);
        if r.Conflict? {
          return false, imported, present;
        }
        if r.Created? {
          imported := imported + 1;
        } else {
          present := present + 1;
        }
      }
      assert rows[..|rows|] == rows;
      return true, imported, present;
    }

    method ImportDeliveries(p: Plan, rows: seq<SourceDelivery>, dryRun: bool) returns (ok: bool, imported: nat, present: nat)
      requires DistinctDeliveryKeys(rows)
      modifies this
      ensures ok <==> DeliveriesAgree(old(db).deliveries, p, rows)
      ensures ok ==> imported == MissingOutbox(old(db).deliveries, rows) && present == |rows| - imported
      ensures ok ==> db == if dryRun then old(db) else old(db).(deliveries := WithDeliveries(old(db).deliveries, p, rows))
    {
      hide NewOutboxId, DeliveryRow, WithDeliveries, MissingOutbox, DeliveryAgrees;
      imported, present := 0, 0;
      ghost var before := db.deliveries;
      NoDeliveries(before, p);
      for i := 0 to |rows|
        invariant db == if dryRun then old(db) else old(db).(deliveries := WithDeliveries(before, p, rows[..i]))
        invariant imported == MissingOutbox(before, rows[..i]) && present == i - imported
        invariant DeliveriesAgree(before, p, rows[..i])
      {
        OneDelivery(before, p, rows, i);
        var r := EnsureDelivery(p, rows[i], dryRun);
        if r.Conflict? {
          return false, imported, present;
        }
        if r.Created? {
          imported := imported + 1;
        } else {
          present := present + 1;
        }
      }
      assert rows[..|rows|] == rows;
      return true, imported, present;
    }
  }

  // ---------- the whole import ----------

  /** What an import needs from the source rows it is given. */
  ghost predicate Keyed(s: Snapshot)
  {
    DistinctKeys(s.announcements) && DistinctDeliveries(s.deliveries)
  }

  /** The plan of an import, if its routing is accepted. */
  function Planned(db: Tables, s: Snapshot, r: Request, config: Config): Option<Plan>
  {
    match TelegramUserId(r.owner)
    case None => None
    case Some(n) =>
      match TargetRouting(db.targets, s, r, n, config)
      case None => None
      case Some(route) => Some(PlanOf(s, r, n, route, config))
  }

  /** Whether an import is accepted: the same for a dry run and a real one. */
  predicate Accepted(db: Tables, s: Snapshot, r: Request, config: Config)
  {
    Planned(db, s, r, config).Some? && Agrees(db, Planned(db, s, r, config).value)
  }

  /** One transaction: everything or, on a conflict, nothing. */
  method MapTarget(target: ImportTarget, s: Snapshot, r: Request, config: Config, scheduled: string, dryRun: bool)
    returns (counts: Option<Counts>)
    requires Keyed(s) && UniqueDedupe(target.db.outbox)
    modifies target
    ensures counts.Some? <==> Accepted(old(target.db), s, r, config)
    ensures counts.Some? ==> counts.value == CountsOf(old(target.db), Planned(old(target.db), s, r, config).value, dryRun)
    ensures target.db == if counts.Some? && !dryRun
                         then Merged(old(target.db), Planned(old(target.db), s, r, config).value, scheduled)
                         else old(target.db)
  {
    hide Merged, CountsOf, UserAgrees, TargetAgrees, MonitorAgrees, ObservationsAgree, OutboxAgrees, DeliveriesAgree, MarkerAgrees,
         UniqueDedupe, TargetRouting, TelegramUserId, PlanOf;
    var before := target.db;
    var plan := Planned(target.db, s, r, config);
    if plan.None? {
      return None;
    }
    var p := plan.value;
    PlanKeyed(before, s, r, config);
    counts := MapPlan(target, p, scheduled, dryRun);
    if counts.None? {
      target.db := before;
    }
  }

  /** The tables after the identity steps, or after the row steps. */
  function WithIdentity(db: Tables, p: Plan, scheduled: string): Tables
  {
    db.(users := db.users[p.owner := UserRow(p)], targets := db.targets[p.targetId := TargetRow(p)],
        monitors := MonitorsAfter(db.monitors, p, scheduled), versions := db.versions[VERSION_ID := VersionRow(p)])
  }

  function WithRows(db: Tables, p: Plan): Tables
  {
    db.(observations := WithObservations(db.observations, p.announcements), outbox := WithOutbox(db.outbox, p, p.deliveries),
        deliveries := WithDeliveries(db.deliveries, p, p.deliveries), runs := db.runs[MARKER_ID := MarkerRow(p)])
  }

  /** Owner, target, monitor and version; returns which of them were created. */
  method MapIdentity(target: ImportTarget, p: Plan, scheduled: string, dryRun: bool)
    returns (created: Option<(bool, bool, bool)>)
    modifies target
    ensures created.Some? <==>
            var db := old(target.db);
            UserAgrees(db.users, p) && TargetAgrees(db.targets, p) && MonitorAgrees(db.monitors, db.versions, p)
    ensures created.Some? ==>
            var db := old(target.db);
            created.value == (p.owner !in db.users, p.targetId !in db.targets, MONITOR_ID !in db.monitors)
    ensures created.Some? ==> target.db == if dryRun then old(target.db) else WithIdentity(old(target.db), p, scheduled)
  {
    hide *;
    IdentityTogether(target.db, p, scheduled);
    var user := target.EnsureUser(p, dryRun);
    if user.Conflict? {
      return None;
    }
    var destination := target.EnsureTarget(p, dryRun);
    if destination.Conflict? {
      return None;
    }
    var monitor := target.EnsureMonitorVersion(p, scheduled, dryRun);
    if monitor.Conflict? {
      return None;
    }
    return Some((user.Created?, destination.Created?, monitor.Created?));
  }

  datatype RowCounts = RowCounts(observations: nat, presentObservations: nat, outbox: nat, presentOutbox: nat,
                                 deliveries: nat, presentDeliveries: nat, complete: bool)

  lemma IdentityTogether(db: Tables, p: Plan, scheduled: string)
    ensures WithIdentity(db, p, scheduled) ==
            db.(users := db.users[p.owner := UserRow(p)]).(targets := db.targets[p.targetId := TargetRow(p)])
              .(monitors := MonitorsAfter(db.monitors, p, scheduled), versions := db.versions[VERSION_ID := VersionRow(p)])
  {
  }

  lemma RowsTogether(db: Tables, p: Plan)
    ensures WithRows(db, p) ==
            db.(observations := WithObservations(db.observations, p.announcements))
              .(outbox := WithOutbox(db.outbox, p, p.deliveries))
              .(deliveries := WithDeliveries(db.deliveries, p, p.deliveries))
              .(runs := db.runs[MARKER_ID := MarkerRow(p)])
  {
  }

  lemma AllTogether(db: Tables, p: Plan, scheduled: string)
    ensures Merged(db, p, scheduled) == WithRows(WithIdentity(db, p, scheduled), p)
    ensures var i := WithIdentity(db, p, scheduled);
            i.observations == db.observations && i.outbox == db.outbox && i.deliveries == db.deliveries && i.runs == db.runs
    ensures Agrees(db, p) <==>
            && UserAgrees(db.users, p) && TargetAgrees(db.targets, p) && MonitorAgrees(db.monitors, db.versions, p)
            && ObservationsAgree(db.observations, p.announcements) && OutboxAgrees(db.outbox, p, p.deliveries)
            && DeliveriesAgree(db.deliveries, p, p.deliveries) && MarkerAgrees(db.runs, p)
  {
    hide UserAgrees, TargetAgrees, MonitorAgrees, ObservationsAgree, OutboxAgrees, DeliveriesAgree, MarkerAgrees,
         WithObservations, WithOutbox, WithDeliveries, MonitorsAfter, UserRow, TargetRow, VersionRow, MarkerRow;
  }

  lemma CountsTogether(db: Tables, p: Plan, dryRun: bool)
    requires MonitorAgrees(db.monitors, db.versions, p)
    ensures var o, x, d := MissingObservations(db.observations, p.announcements), MissingOutbox(db.outbox, p.deliveries),
                           MissingOutbox(db.deliveries, p.deliveries);
            CountsOf(db, p, dryRun) ==
            Counts(o, |p.announcements| - o, x, |p.deliveries| - x, d, |p.deliveries| - d,
              p.owner !in db.users, p.targetId !in db.targets, MONITOR_ID !in db.monitors, MONITOR_ID !in db.monitors,
              !dryRun || MARKER_ID in db.runs)
  {
    hide MissingObservations, MissingOutbox;
  }

  /** Observations, outbox, deliveries and the marker. */
  method MapRows(target: ImportTarget, p: Plan, dryRun: bool) returns (counts: Option<RowCounts>)
    requires DistinctKeys(p.announcements) && DistinctDeliveryKeys(p.deliveries) && UniqueDedupe(target.db.outbox)
    modifies target
    ensures counts.Some? <==>
            var db := old(target.db);
            && ObservationsAgree(db.observations, p.announcements) && OutboxAgrees(db.outbox, p, p.deliveries)
            && DeliveriesAgree(db.deliveries, p, p.deliveries) && MarkerAgrees(db.runs, p)
    ensures counts.Some? ==>
            var db, c := old(target.db), counts.value;
            && c.observations == MissingObservations(db.observations, p.announcements)
            && c.outbox == MissingOutbox(db.outbox, p.deliveries) && c.deliveries == MissingOutbox(db.deliveries, p.deliveries)
            && c.presentObservations == |p.announcements| - c.observations
            && c.presentOutbox == |p.deliveries| - c.outbox && c.presentDeliveries == |p.deliveries| - c.deliveries
            && c.complete == (!dryRun || MARKER_ID in db.runs)
    ensures counts.Some? ==> target.db == if dryRun then old(target.db) else WithRows(old(target.db), p)
  {
    hide *;
    ghost var before := target.db;
    RowsTogether(before, p);
    var okObservations, observations, presentObservations := target.ImportObservations(p.announcements, dryRun);
    if !okObservations {
      return None;
    }
    var okOutbox, outbox, presentOutbox := target.ImportOutbox(p, p.deliveries, dryRun);
    if !okOutbox {
      return None;
    }
    var okDeliveries, deliveries, presentDeliveries := target.ImportDeliveries(p, p.deliveries, dryRun);
    if !okDeliveries {
      return None;
    }
    var complete := target.EnsureMarker(p, dryRun);
    if complete.None? {
      return None;
    }
    return Some(RowCounts(observations, presentObservations, outbox, presentOutbox, deliveries, presentDeliveries, complete.value));
  }

  /** The steps of an import; a conflict may leave the tables half changed. */
  method MapPlan(target: ImportTarget, p: Plan, scheduled: string, dryRun: bool) returns (counts: Option<Counts>)
    requires DistinctKeys(p.announcements) && DistinctDeliveryKeys(p.deliveries) && UniqueDedupe(target.db.outbox)
    modifies target
    ensures counts.Some? <==> Agrees(old(target.db), p)
    ensures counts.Some? ==> counts.value == CountsOf(old(target.db), p, dryRun)
    ensures counts.Some? ==> target.db == if dryRun then old(target.db) else Merged(old(target.db), p, scheduled)
  {
    hide *;
    ghost var before := target.db;
    AllTogether(before, p, scheduled);
    var created := MapIdentity(target, p, scheduled, dryRun);
    if created.None? {
      return None;
    }
    var rows := MapRows(target, p, dryRun);
    if rows.None? {
      return None;
    }
    CountsTogether(before, p, dryRun);
    var c := rows.value;
    return Some(Counts(c.observations, c.presentObservations, c.outbox, c.presentOutbox, c.deliveries, c.presentDeliveries,
      created.value.0, created.value.1, created.value.2, created.value.2, c.complete));
  }

  /** Each selected row is a row of the wanted chat. */
  ghost predicate RowsFrom(rows: seq<SourceDelivery>, deliveries: seq<SourceDelivery>, source: Option<string>)
  {
    forall i :: 0 <= i < |rows| ==> source == Some(rows[i].chatId) && rows[i] in deliveries
  }

  lemma {:induction false} SelectedRows(deliveries: seq<SourceDelivery>, source: Option<string>)
    ensures RowsFrom(Selected(deliveries, source), deliveries, source)
  {
    if deliveries != [] {
      var front := deliveries[..|deliveries| - 1];
      SelectedRows(front, source);
      var rows, earlier := Selected(deliveries, source), Selected(front, source);
      forall i | 0 <= i < |rows| ensures source == Some(rows[i].chatId) && rows[i] in deliveries {
        if i < |earlier| {
          assert rows[i] == earlier[i] && earlier[i] in front;
        }
      }
    }
  }

  lemma {:induction false} SelectedDistinct(deliveries: seq<SourceDelivery>, source: Option<string>)
    requires DistinctDeliveries(deliveries)
    ensures DistinctDeliveryKeys(Selected(deliveries, source))
  {
    if deliveries != [] {
      var n := |deliveries| - 1;
      SelectedDistinct(deliveries[..n], source);
      SelectedRows(deliveries[..n], source);
      var front := Selected(deliveries[..n], source);
      forall i | 0 <= i < |front| && source == Some(deliveries[n].chatId) ensures front[i].key != deliveries[n].key {
        assert source == Some(front[i].chatId) && front[i] in deliveries[..n];
        var j :| 0 <= j < |deliveries[..n]| && deliveries[..n][j] == front[i];
        assert deliveries[j] == front[i];
      }
    }
  }

  lemma PlanKeyed(db: Tables, s: Snapshot, r: Request, config: Config)
    requires Keyed(s) && Planned(db, s, r, config).Some?
    ensures var p := Planned(db, s, r, config).value; DistinctKeys(p.announcements) && DistinctDeliveryKeys(p.deliveries)
  {
    hide TargetRouting, TelegramUserId, Selected, DistinctKeys, DistinctDeliveries, DistinctDeliveryKeys;
    var route := TargetRouting(db.targets, s, r, TelegramUserId(r.owner).value, config).value;
    SelectedDistinct(s.deliveries, route.source);
  }

  datatype Report = Report(
    sourceAnnouncements: nat, sourceDeliveries: nat, sourceRuns: nat, counts: Counts, dryRun: bool, status: string)

  function ReportOf(s: Snapshot, counts: Counts, dryRun: bool): Report
  {
    Report(|s.announcements|, |s.deliveries|, s.runCount, counts, dryRun,
      if counts.complete then "complete" else if dryRun then "validated" else "incomplete")
  }

  /** What an import returns: None when the request is invalid or a row conflicts. */
  function ReportFor(db: Tables, l: Legacy, r: Request, config: Config, dryRun: bool): Option<Report>
  {
    var s := SnapshotOf(l);
    if ValidRequest(r, config) && Accepted(db, s, r, config)
    then Some(ReportOf(s, CountsOf(db, Planned(db, s, r, config).value, dryRun), dryRun))
    else None
  }

  function WithNoNewRows(r: Report): Report
  {
    var c := r.counts;
    r.(counts := Counts(
      0, c.presentObservations + c.importedObservations, 0, c.presentOutbox + c.importedOutbox,
      0, c.presentDeliveries + c.importedDeliveries, false, false, false, false, c.complete))
  }

  /** The tables a real import leaves: None when it is refused. */
  function TablesAfter(db: Tables, l: Legacy, r: Request, config: Config, scheduled: string): Option<Tables>
  {
    if ReportFor(db, l, r, config, false).Some?
    then Some(Merged(db, Planned(db, SnapshotOf(l), r, config).value, scheduled))
    else None
  }

  /** The import as it is called: the request and the source are validated first. */
  method ImportRentalState(target: ImportTarget, l: Legacy, r: Request, config: Config, scheduled: string, dryRun: bool)
    returns (report: Option<Report>)
    requires WellFormed(l, config) && UniqueDedupe(target.db.outbox)
    modifies target
    ensures report == ReportFor(old(target.db), l, r, config, dryRun)
    ensures report.Some? <==> TablesAfter(old(target.db), l, r, config, scheduled).Some?
    ensures target.db == if report.Some? && !dryRun
                         then TablesAfter(old(target.db), l, r, config, scheduled).value else old(target.db)
  {
    hide Accepted, Planned, CountsOf, Merged, UniqueDedupe, ValidRequest, ReportOf;
    if !ValidRequest(r, config) {
      return None;
    }
    var s := TakeSnapshot(l);
    var counts := MapTarget(target, s, r, config, scheduled, dryRun);
    if counts.None? {
      return None;
    }
    return Some(ReportOf(s, counts.value, dryRun));
  }

  // ---------- one row at a time ----------

  lemma NoObservations(before: map<ItemKey, StoredItem>)
    ensures WithObservations(before, []) == before && MissingObservations(before, []) == 0
  {
  }

  lemma {:induction false} ObservationsElsewhere(before: map<ItemKey, StoredItem>, rows: seq<Announcement>, key: ItemKey)
    requires forall i :: 0 <= i < |rows| ==> KeyOf(rows[i]) != key
    ensures key in WithObservations(before, rows) <==> key in before
    ensures key in before ==> WithObservations(before, rows)[key] == before[key]
  {
    hide KeyOf, ObservationRow;
    if rows != [] {
      ObservationsElsewhere(before, rows[..|rows| - 1], key);
    }
  }

  lemma EarlierKeysDiffer(rows: seq<Announcement>, i: nat)
    requires DistinctKeys(rows) && i < |rows|
    ensures forall j :: 0 <= j < |rows[..i]| ==> KeyOf(rows[..i][j]) != KeyOf(rows[i])
  {
    forall j | 0 <= j < i ensures KeyOf(rows[j]) != KeyOf(rows[i]) {
      DedupeInjective(rows[j].key, rows[i].key);
    }
  }

  lemma OneObservation(before: map<ItemKey, StoredItem>, rows: seq<Announcement>, i: nat)
    requires DistinctKeys(rows) && i < |rows|
    ensures var s, now := rows[..i + 1], WithObservations(before, rows[..i]);
            && WithObservations(before, s) == now[KeyOf(rows[i]) := ObservationRow(rows[i])]
            && MissingObservations(before, s) == MissingObservations(before, rows[..i]) + (if KeyOf(rows[i]) in before then 0 else 1)
            && (KeyOf(rows[i]) in now <==> KeyOf(rows[i]) in before)
            && ObservationAgrees(now, rows[i]) == ObservationAgrees(before, rows[i])
            && (KeyOf(rows[i]) in now && ObservationAgrees(now, rows[i]) ==> WithObservations(before, s) == now)
            && (ObservationsAgree(before, s) <==> ObservationsAgree(before, rows[..i]) && ObservationAgrees(before, rows[i]))
            && (ObservationsAgree(before, rows) ==> ObservationAgrees(before, rows[i]))
  {
    hide KeyOf, ObservationRow;
    assert rows[..i + 1][..i] == rows[..i] && rows[..i + 1][i] == rows[i];
    EarlierKeysDiffer(rows, i);
    ObservationsElsewhere(before, rows[..i], KeyOf(rows[i]));
    assert forall j :: 0 <= j < i ==> rows[..i][j] == rows[j] && rows[..i + 1][j] == rows[j];
  }

  lemma NoOutbox(before: map<OutboxId, Outbox>, p: Plan)
    ensures WithOutbox(before, p, []) == before && MissingOutbox(before, []) == 0
  {
  }

  lemma EarlierIdsDiffer(rows: seq<SourceDelivery>, i: nat)
    requires DistinctDeliveryKeys(rows) && i < |rows|
    ensures forall j :: 0 <= j < i ==> NewOutboxId(rows[j].key) != NewOutboxId(rows[i].key)
                                       && DedupeKey(rows[j].key) != DedupeKey(rows[i].key)
  {
    hide DedupeKey;
    forall j | 0 <= j < i ensures DedupeKey(rows[j].key) != DedupeKey(rows[i].key) {
      DedupeInjective(rows[j].key, rows[i].key);
    }
  }

  /** Where the rows agree with what is there, adding them keeps every old row; each other
      row is one of those added. */
  lemma {:induction false} OutboxGrows(before: map<OutboxId, Outbox>, p: Plan, rows: seq<SourceDelivery>, id: OutboxId)
    requires OutboxAgrees(before, p, rows)
    ensures id in before ==> id in WithOutbox(before, p, rows) && WithOutbox(before, p, rows)[id] == before[id]
    ensures id in WithOutbox(before, p, rows) ==>
              id in before || exists j :: 0 <= j < |rows| && NewOutboxId(rows[j].key) == id && WithOutbox(before, p, rows)[id] == OutboxRow(p, rows[j])
  {
    hide NewOutboxId, OutboxRow, DedupeKey;
    if rows != [] {
      var n := |rows| - 1;
      assert forall j :: 0 <= j < n ==> rows[..n][j] == rows[j];
      OutboxGrows(before, p, rows[..n], id);
      assert OutboxAgreesFor(before, p, rows[n]);
    }
  }

  /** Every added row is there. */
  lemma {:induction false} OutboxAdded(before: map<OutboxId, Outbox>, p: Plan, rows: seq<SourceDelivery>, i: nat)
    requires DistinctDeliveryKeys(rows) && i < |rows|
    ensures NewOutboxId(rows[i].key) in WithOutbox(before, p, rows)
    ensures WithOutbox(before, p, rows)[NewOutboxId(rows[i].key)] == OutboxRow(p, rows[i])
  {
    hide NewOutboxId, OutboxRow, DedupeKey;
    var n := |rows| - 1;
    if i < n {
      EarlierIdsDiffer(rows, n);
      OutboxAdded(before, p, rows[..n], i);
    }
  }

  lemma OutboxLookup(before: map<OutboxId, Outbox>, p: Plan, rows: seq<SourceDelivery>, i: nat)
    requires DistinctDeliveryKeys(rows) && i < |rows| && OutboxAgrees(before, p, rows[..i])
    ensures var now := WithOutbox(before, p, rows[..i]);
            && (NewOutboxId(rows[i].key) in now <==> NewOutboxId(rows[i].key) in before)
            && OutboxAgreesFor(now, p, rows[i]) == OutboxAgreesFor(before, p, rows[i])
  {
    hide NewOutboxId, DedupeKey, WithOutbox, OutboxAgrees;
    EarlierIdsDiffer(rows, i);
    var now := WithOutbox(before, p, rows[..i]);
    forall id
      ensures id in before ==> id in now && now[id] == before[id]
      ensures id in now && id !in before ==> id != NewOutboxId(rows[i].key) && now[id].dedupeKey != DedupeKey(rows[i].key)
    {
      OutboxGrows(before, p, rows[..i], id);
      if id in now && id !in before {
        var j :| 0 <= j < |rows[..i]| && NewOutboxId(rows[..i][j].key) == id && now[id] == OutboxRow(p, rows[..i][j]);
        assert rows[..i][j] == rows[j];
      }
    }
  }

  lemma OutboxSnoc(before: map<OutboxId, Outbox>, p: Plan, rows: seq<SourceDelivery>, i: nat)
    requires i < |rows|
    ensures WithOutbox(before, p, rows[..i + 1]) == WithOutbox(before, p, rows[..i])[NewOutboxId(rows[i].key) := OutboxRow(p, rows[i])]
    ensures OutboxAgrees(before, p, rows[..i + 1]) <==> OutboxAgrees(before, p, rows[..i]) && OutboxAgreesFor(before, p, rows[i])
  {
    hide NewOutboxId, OutboxRow, OutboxAgreesFor;
    assert rows[..i + 1][..i] == rows[..i] && rows[..i + 1][i] == rows[i];
    assert forall j :: 0 <= j < i ==> rows[..i][j] == rows[j] && rows[..i + 1][j] == rows[j];
  }

  lemma MissingSnoc<T>(before: map<OutboxId, T>, rows: seq<SourceDelivery>, i: nat)
    requires i < |rows|
    ensures MissingOutbox(before, rows[..i + 1]) == MissingOutbox(before, rows[..i]) + if NewOutboxId(rows[i].key) in before then 0 else 1
  {
    hide NewOutboxId;
    assert rows[..i + 1][..i] == rows[..i] && rows[..i + 1][i] == rows[i];
  }

  lemma OneOutbox(before: map<OutboxId, Outbox>, p: Plan, rows: seq<SourceDelivery>, i: nat)
    requires DistinctDeliveryKeys(rows) && i < |rows| && OutboxAgrees(before, p, rows[..i])
    ensures var s, now := rows[..i + 1], WithOutbox(before, p, rows[..i]);
            && WithOutbox(before, p, s) == now[NewOutboxId(rows[i].key) := OutboxRow(p, rows[i])]
            && MissingOutbox(before, s) == MissingOutbox(before, rows[..i]) + (if NewOutboxId(rows[i].key) in before then 0 else 1)
            && (NewOutboxId(rows[i].key) in now <==> NewOutboxId(rows[i].key) in before)
            && OutboxAgreesFor(now, p, rows[i]) == OutboxAgreesFor(before, p, rows[i])
            && (NewOutboxId(rows[i].key) in now && OutboxAgreesFor(now, p, rows[i]) ==> WithOutbox(before, p, s) == now)
            && (OutboxAgrees(before, p, s) <==> OutboxAgrees(before, p, rows[..i]) && OutboxAgreesFor(before, p, rows[i]))
            && (OutboxAgrees(before, p, rows) ==> OutboxAgreesFor(before, p, rows[i]))
  {
    hide NewOutboxId, OutboxRow, WithOutbox, MissingOutbox;
    OutboxLookup(before, p, rows, i);
    OutboxSnoc(before, p, rows, i);
    MissingSnoc(before, rows, i);
  }

  lemma NoDeliveries(before: map<OutboxId, Delivery>, p: Plan)
    ensures WithDeliveries(before, p, []) == before && MissingOutbox(before, []) == 0
  {
  }

  lemma {:induction false} DeliveriesElsewhere(before: map<OutboxId, Delivery>, p: Plan, rows: seq<SourceDelivery>, id: OutboxId)
    ensures id in WithDeliveries(before, p, rows) <==> id in before || exists j :: 0 <= j < |rows| && NewOutboxId(rows[j].key) == id
    ensures (forall j :: 0 <= j < |rows| ==> NewOutboxId(rows[j].key) != id) && id in before ==>
              WithDeliveries(before, p, rows)[id] == before[id]
  {
    hide NewOutboxId, DeliveryRow;
    if rows != [] {
      var n := |rows| - 1;
      DeliveriesElsewhere(before, p, rows[..n], id);
      assert forall j :: 0 <= j < n ==> rows[..n][j] == rows[j];
    }
  }

  lemma {:induction false} DeliveriesAdded(before: map<OutboxId, Delivery>, p: Plan, rows: seq<SourceDelivery>, i: nat)
    requires DistinctDeliveryKeys(rows) && i < |rows|
    ensures NewOutboxId(rows[i].key) in WithDeliveries(before, p, rows)
    ensures WithDeliveries(before, p, rows)[NewOutboxId(rows[i].key)] == DeliveryRow(p, rows[i])
  {
    hide NewOutboxId, DeliveryRow, DedupeKey;
    var n := |rows| - 1;
    if i < n {
      EarlierIdsDiffer(rows, n);
      DeliveriesAdded(before, p, rows[..n], i);
    }
  }

  lemma OneDelivery(before: map<OutboxId, Delivery>, p: Plan, rows: seq<SourceDelivery>, i: nat)
    requires DistinctDeliveryKeys(rows) && i < |rows|
    ensures var s, now := rows[..i + 1], WithDeliveries(before, p, rows[..i]);
            && WithDeliveries(before, p, s) == now[NewOutboxId(rows[i].key) := DeliveryRow(p, rows[i])]
            && MissingOutbox(before, s) == MissingOutbox(before, rows[..i]) + (if NewOutboxId(rows[i].key) in before then 0 else 1)
            && (NewOutboxId(rows[i].key) in now <==> NewOutboxId(rows[i].key) in before)
            && DeliveryAgrees(now, p, rows[i]) == DeliveryAgrees(before, p, rows[i])
            && (NewOutboxId(rows[i].key) in now && DeliveryAgrees(now, p, rows[i]) ==> WithDeliveries(before, p, s) == now)
            && (DeliveriesAgree(before, p, s) <==> DeliveriesAgree(before, p, rows[..i]) && DeliveryAgrees(before, p, rows[i]))
            && (DeliveriesAgree(before, p, rows) ==> DeliveryAgrees(before, p, rows[i]))
  {
    hide NewOutboxId, DeliveryRow, DedupeKey;
    EarlierIdsDiffer(rows, i);
    MissingSnoc(before, rows, i);
    assert rows[..i + 1][..i] == rows[..i] && rows[..i + 1][i] == rows[i];
    assert forall j :: 0 <= j < i ==> rows[..i][j] == rows[j] && rows[..i + 1][j] == rows[j];
    DeliveriesElsewhere(before, p, rows[..i], NewOutboxId(rows[i].key));
  }
}
