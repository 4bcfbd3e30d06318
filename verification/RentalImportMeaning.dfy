/** What an import does, said of the rows: when it is refused, which rows it adds with which
    columns, which rows it leaves alone, and what it reports. */
module RentalImportMeaning {
  import opened Order
  import opened Digest
  import opened Decimals
  import opened Timestamps
  import opened RentalSource
  import opened RentalImport
  import opened RentalImportLaws
  import J = JsonText

  // ---------- owners ----------

  /** An owner is accepted exactly when it is `telegram-user:` and a positive 63-bit number in
      canonical decimal form. */
  lemma OwnerNumber(owner: string, n: nat)
    ensures TelegramUserId(owner) == Some(n) <==>
            0 < n <= 0x7FFF_FFFF_FFFF_FFFF && owner == "telegram-user:" + J.Digits(n)
  {
    J.DigitsShape(n);
    if TelegramUserId(owner) == Some(n) {
      TelegramIdPositive(owner);
      DigitsOfValue(owner[14..]);
      assert owner == owner[..14] + owner[14..];
    }
    if 0 < n <= 0x7FFF_FFFF_FFFF_FFFF && owner == "telegram-user:" + J.Digits(n) {
      NineteenDigits();
      DigitsFit(n, 19);
      assert owner[..14] == "telegram-user:" && owner[14..] == J.Digits(n);
    }
  }

  // ---------- announcements ----------

  /** The object of one optional text for each announcement field. */
  function FieldsOf(texts: seq<Option<string>>): J.Json
    requires |texts| == |FIELD_NAMES|
  {
    J.Obj(seq(|texts|, i requires 0 <= i < |texts| =>
      J.Member(FIELD_NAMES[i], if texts[i].Some? then J.Str(texts[i].value) else J.Null)))
  }

  function TextOf(v: J.Json): Option<string>
  {
    if v.Str? then Some(v.s) else None
  }

  /** The announcement objects that are taken over are those of one optional text for each field. */
  lemma FieldsMean(fields: J.Json)
    ensures FieldsShape(fields) <==>
            exists texts :: |texts| == |FIELD_NAMES| && fields == FieldsOf(texts)
  {
    if FieldsShape(fields) {
      var texts := seq(|FIELD_NAMES|, i requires 0 <= i < |FIELD_NAMES| => TextOf(fields.members[i].value));
      assert fields == FieldsOf(texts) by {
        forall i | 0 <= i < |FIELD_NAMES| ensures fields.members[i] == FieldsOf(texts).members[i] {
          assert IsText(fields.members[i].value);
        }
        assert fields.members == FieldsOf(texts).members;
      }
    }
  }

  // ---------- where an import delivers ----------

  /** The only chat of the deliveries. */
  ghost predicate OnlyChat(l: Legacy, chat: string)
  {
    forall i :: 0 <= i < |l.deliveries| ==> l.deliveries[i].chatId == chat
  }

  /** The address of the target row and the legacy chat whose deliveries are taken over, for
      owner number `n`. A target already there keeps its address, which the request may only
      repeat; it takes the chat of that address, or the alias where every delivery has it, and
      without deliveries the address must be the requested one or the owner's own. A new target
      needs deliveries of one chat: an ordinary chat is the address, and the alias takes the
      requested address. */
  ghost predicate Routed(db: Tables, l: Legacy, r: Request, config: Config, n: nat, address: string, chat: Option<string>)
  {
    && (chat.None? <==> l.deliveries == [])
    && (chat.Some? ==> exists i :: 0 <= i < |l.deliveries| && l.deliveries[i].chatId == chat.value)
    && (r.address.Some? ==> r.address.value == address)
    && if r.targetId in db.targets then
         var row := db.targets[r.targetId];
         && row.owner == r.owner && row.kind == "telegram" && row.address == address && config.opaqueId(address)
         && (chat.None? && r.address.None? ==> address == J.Digits(n))
         && (chat.Some? && chat.value != address ==> chat.value == "telegram-default" && OnlyChat(l, chat.value))
       else
         && (chat.None? && r.address.None? ==> address == J.Digits(n))
         && (chat.Some? ==> OnlyChat(l, chat.value))
         && (chat.Some? && chat.value != "telegram-default" ==> chat.value == address)
         && (chat.Some? && chat.value == "telegram-default" ==> r.address.Some?)
  }

  lemma ChatsMean(l: Legacy, chat: string)
    ensures chat in Chats(l.deliveries) <==> exists i :: 0 <= i < |l.deliveries| && l.deliveries[i].chatId == chat
    ensures Chats(l.deliveries) == {chat} <==> l.deliveries != [] && OnlyChat(l, chat)
    ensures l.deliveries == [] <==> Chats(l.deliveries) == {}
  {
    if l.deliveries != [] {
      assert l.deliveries[0].chatId in Chats(l.deliveries);
      if OnlyChat(l, chat) {
        assert Chats(l.deliveries) == {chat};
      }
    }
    if Chats(l.deliveries) == {chat} {
      forall i | 0 <= i < |l.deliveries| ensures l.deliveries[i].chatId == chat {
        assert l.deliveries[i].chatId in Chats(l.deliveries);
      }
    }
  }

  /** The two shapes of a non-empty source: one chat, or several. */
  lemma ChatsOf(l: Legacy, address: string, chat: string)
    ensures address in Chats(l.deliveries) <==> exists i :: 0 <= i < |l.deliveries| && l.deliveries[i].chatId == address
    ensures Chats(l.deliveries) == {LEGACY_ALIAS} <==> l.deliveries != [] && OnlyChat(l, LEGACY_ALIAS)
    ensures l.deliveries == [] ==> |Chats(l.deliveries)| == 0
    ensures l.deliveries != [] ==> (|Chats(l.deliveries)| <= 1 <==> OnlyChat(l, l.deliveries[0].chatId))
    ensures l.deliveries != [] && OnlyChat(l, chat) ==> l.deliveries[0].chatId == chat
    ensures SnapshotOf(l).deliveries == l.deliveries
  {
    hide Latest, Times;
    ChatsMean(l, LEGACY_ALIAS);
    ChatsMean(l, address);
    if l.deliveries != [] {
      ChatsMean(l, l.deliveries[0].chatId);
      if |Chats(l.deliveries)| <= 1 {
        OneChat(l.deliveries);
      }
    }
  }

  lemma PresentRouting(db: Tables, l: Legacy, r: Request, config: Config, n: nat, address: string, chat: Option<string>)
    requires r.targetId in db.targets
    ensures TargetRouting(db.targets, SnapshotOf(l), r, n, config) == Some(Route(address, chat)) <==>
            Routed(db, l, r, config, n, address, chat)
  {
    hide Chats, SnapshotOf;
    ChatsOf(l, db.targets[r.targetId].address, if chat.Some? then chat.value else "");
    if chat.Some? {
      ChatsMean(l, chat.value);
    }
  }

  lemma AbsentRouting(db: Tables, l: Legacy, r: Request, config: Config, n: nat, address: string, chat: Option<string>)
    requires r.targetId !in db.targets
    ensures TargetRouting(db.targets, SnapshotOf(l), r, n, config) == Some(Route(address, chat)) <==>
            Routed(db, l, r, config, n, address, chat)
  {
    hide Chats, SnapshotOf;
    ChatsOf(l, address, if chat.Some? then chat.value else "");
  }

  lemma RoutingMeans(db: Tables, l: Legacy, r: Request, config: Config, n: nat, address: string, chat: Option<string>)
    ensures TargetRouting(db.targets, SnapshotOf(l), r, n, config) == Some(Route(address, chat)) <==>
            Routed(db, l, r, config, n, address, chat)
  {
    hide *;
    if r.targetId in db.targets {
      PresentRouting(db, l, r, config, n, address, chat);
    } else {
      AbsentRouting(db, l, r, config, n, address, chat);
    }
  }

  // ---------- which rows stand against an import ----------

  /** The owner, the target, the monitor with its version and the marker, where they are there
      already, have the columns an import would write; a new owner's number and a new target's
      destination are not taken. Only a monitor's scheduling, lease and update time are free. */
  ghost predicate IdentityClear(db: Tables, r: Request, config: Config, n: nat, address: string, t: Stamp)
  {
    var monitor, version := "rental-housing-seoul-gyeonggi", "rental-housing-seoul-gyeonggi:v1";
    && (if r.owner in db.users then db.users[r.owner] == User(n, "active", t)
        else forall u :: u in db.users ==> db.users[u].telegramId != n)
    && (if r.targetId in db.targets then db.targets[r.targetId] == Target(r.owner, "telegram", address, t)
        else forall x :: x in db.targets && db.targets[x].owner == r.owner && db.targets[x].kind == "telegram" ==>
               db.targets[x].address != address)
    && (monitor in db.monitors <==> version in db.versions)
    && (monitor in db.monitors ==>
          var m := db.monitors[monitor];
          && m.owner == r.owner && m.name == config.specName && m.status == "active" && m.activeVersion == Some(version)
          && m.disabledAt == None && m.createdAt == t && m.updatedAt.At?)
    && (version in db.versions ==>
          db.versions[version] == Version(monitor, 1, config.specJson(r.owner), r.owner, t, Some(r.owner), Some(t), None))
    && ("migration:rental-housing:v1" in db.runs ==>
          db.runs["migration:rental-housing:v1"] ==
          RunRow(monitor, version, 0, "migration_import", None, "success", t, Some(t), None, None))
  }

  /** Where an announcement is observed. */
  function ItemOf(key: string): ItemKey
  {
    ("rental-housing-seoul-gyeonggi", "announcement:" + key)
  }

  /** Where an announcement's observation is there already, it holds the announcement's fields,
      their hash and its times. */
  ghost predicate ObservationsClear(db: Tables, l: Legacy)
  {
    forall i :: 0 <= i < |l.announcements| ==>
      var a := l.announcements[i];
      var key := ItemOf(a.key);
      key in db.observations ==>
        db.observations[key] == StoredItem(J.Print(a.fields), Some(Sha256(J.Print(a.fields))), At(a.firstSeen), At(a.lastSeen))
  }

  /** The dedupe key of an announcement's notice. */
  function NoticeText(key: string): string
  {
    "rental-housing-seoul-gyeonggi" + ":" + ("announcement:" + key) + ":new_item"
  }

  /** A row under the dedupe key or the id of a taken delivery is the delivered notice itself. */
  ghost predicate OutboxClear(db: Tables, l: Legacy, r: Request, config: Config, chat: Option<string>)
  {
    forall i, id :: 0 <= i < |l.deliveries| && chat == Some(l.deliveries[i].chatId) && id in db.outbox ==>
      var d := l.deliveries[i];
      var text := NoticeText(d.key);
      db.outbox[id].dedupeKey == text || id == Imported(Sha256(text)) ==>
        && id == Imported(Sha256(text))
        && db.outbox[id] == Outbox(text, "rental-housing-seoul-gyeonggi", r.targetId, config.payloadJson, "delivered", 0,
                              At(d.deliveredAt), None, None, None, At(d.deliveredAt))
  }

  ghost predicate DeliveriesClear(db: Tables, l: Legacy, r: Request, chat: Option<string>)
  {
    forall i :: 0 <= i < |l.deliveries| && chat == Some(l.deliveries[i].chatId) ==>
      var d := l.deliveries[i];
      var id := Imported(Sha256(NoticeText(d.key)));
      id in db.deliveries ==> db.deliveries[id] == Delivery(r.targetId, d.messageId, At(d.deliveredAt))
  }

  /** The deliveries taken are those of the chat. */
  lemma {:induction false} SelectedAre(deliveries: seq<SourceDelivery>, chat: Option<string>, d: SourceDelivery)
    ensures d in Selected(deliveries, chat) <==> d in deliveries && chat == Some(d.chatId)
  {
    if deliveries != [] {
      var n := |deliveries| - 1;
      SelectedAre(deliveries[..n], chat, d);
      assert deliveries == deliveries[..n] + [deliveries[n]];
    }
  }

  lemma IdentityMeans(db: Tables, p: Plan, r: Request)
    requires p.owner == r.owner && p.targetId == r.targetId
    ensures UserAgrees(db.users, p) && TargetAgrees(db.targets, p) && MonitorAgrees(db.monitors, db.versions, p) && MarkerAgrees(db.runs, p)
            <==> IdentityClear(db, r, p.config, p.telegramId, p.address, At(p.time))
  {
  }

  lemma ObservationsMean(db: Tables, l: Legacy)
    ensures ObservationsAgree(db.observations, l.announcements) <==> ObservationsClear(db, l)
  {
    hide J.Print;
    if ObservationsAgree(db.observations, l.announcements) {
      forall i | 0 <= i < |l.announcements| ensures ObservationAgrees(db.observations, l.announcements[i]) {
      }
    }
    if ObservationsClear(db, l) {
      forall i | 0 <= i < |l.announcements| ensures ObservationAgrees(db.observations, l.announcements[i]) {
      }
    }
  }

  lemma NoticeTextIs(key: string)
    ensures NoticeText(key) == DedupeKey(key) && Imported(Sha256(NoticeText(key))) == NewOutboxId(key)
  {
  }

  lemma OutboxMeans(db: Tables, l: Legacy, r: Request, p: Plan, chat: Option<string>)
    requires p.deliveries == Selected(l.deliveries, chat) && p.targetId == r.targetId
    ensures OutboxAgrees(db.outbox, p, p.deliveries) <==> OutboxClear(db, l, r, p.config, chat)
    ensures DeliveriesAgree(db.deliveries, p, p.deliveries) <==> DeliveriesClear(db, l, r, chat)
  {
    hide Selected, DedupeKey, NoticeText, NewOutboxId;
    forall d: SourceDelivery
      ensures d in p.deliveries <==> d in l.deliveries && chat == Some(d.chatId)
      ensures NoticeText(d.key) == DedupeKey(d.key) && Imported(Sha256(NoticeText(d.key))) == NewOutboxId(d.key)
    {
      SelectedAre(l.deliveries, chat, d);
      NoticeTextIs(d.key);
    }
    if OutboxAgrees(db.outbox, p, p.deliveries) {
      forall i | 0 <= i < |l.deliveries| && chat == Some(l.deliveries[i].chatId) ensures OutboxAgreesFor(db.outbox, p, l.deliveries[i]) {
        assert l.deliveries[i] in p.deliveries;
      }
    }
    if OutboxClear(db, l, r, p.config, chat) {
      forall j | 0 <= j < |p.deliveries| ensures OutboxAgreesFor(db.outbox, p, p.deliveries[j]) {
        assert p.deliveries[j] in l.deliveries;
      }
    }
    if DeliveriesAgree(db.deliveries, p, p.deliveries) {
      forall i | 0 <= i < |l.deliveries| && chat == Some(l.deliveries[i].chatId) ensures DeliveryAgrees(db.deliveries, p, l.deliveries[i]) {
        assert l.deliveries[i] in p.deliveries;
      }
    }
    if DeliveriesClear(db, l, r, chat) {
      forall j | 0 <= j < |p.deliveries| ensures DeliveryAgrees(db.deliveries, p, p.deliveries[j]) {
        assert p.deliveries[j] in l.deliveries;
      }
    }
  }

  /** An import by owner number `n` that delivers to `address` and takes over `chat`: the
      request is valid, its routing leads there, and no row of the tables stands against it. */
  ghost predicate Goes(db: Tables, l: Legacy, r: Request, config: Config, n: nat, address: string, chat: Option<string>)
  {
    && 0 < n <= 0x7FFF_FFFF_FFFF_FFFF && r.owner == "telegram-user:" + J.Digits(n)
    && config.opaqueId(r.targetId)
    && (r.address.Some? ==> config.opaqueId(r.address.value) && r.address.value != "telegram-default")
    && Routed(db, l, r, config, n, address, chat)
    && IdentityClear(db, r, config, n, address, At(SnapshotOf(l).evidenceTime))
    && ObservationsClear(db, l) && OutboxClear(db, l, r, config, chat) && DeliveriesClear(db, l, r, chat)
  }

  lemma PlanMeans(db: Tables, l: Legacy, r: Request, config: Config, n: nat, address: string, chat: Option<string>)
    requires ValidRequest(r, config) && TelegramUserId(r.owner) == Some(n)
    requires TargetRouting(db.targets, SnapshotOf(l), r, n, config) == Some(Route(address, chat))
    ensures Accepted(db, SnapshotOf(l), r, config) <==>
            && IdentityClear(db, r, config, n, address, At(SnapshotOf(l).evidenceTime))
            && ObservationsClear(db, l) && OutboxClear(db, l, r, config, chat) && DeliveriesClear(db, l, r, chat)
  {
    hide *;
    var s := SnapshotOf(l);
    SnapshotParts(l);
    PlannedBy(db, s, r, config, n, address, chat);
    AcceptedMeans(db, s, r, config);
    var p := Planned(db, s, r, config).value;
    AllTogether(db, p, "");
    IdentityMeans(db, p, r);
    ObservationsMean(db, l);
    OutboxMeans(db, l, r, p, chat);
  }

  lemma SnapshotParts(l: Legacy)
    ensures SnapshotOf(l).announcements == l.announcements && SnapshotOf(l).deliveries == l.deliveries
    ensures SnapshotOf(l).runCount == |l.runs|
  {
  }

  lemma PlannedBy(db: Tables, s: Snapshot, r: Request, config: Config, n: nat, address: string, chat: Option<string>)
    requires TelegramUserId(r.owner) == Some(n) && TargetRouting(db.targets, s, r, n, config) == Some(Route(address, chat))
    ensures Planned(db, s, r, config) ==
            Some(Plan(r.owner, n, r.targetId, address, s.evidenceTime, s.announcements, Selected(s.deliveries, chat), config))
  {
    hide TelegramUserId, TargetRouting, Selected;
  }

  lemma TablesAfterMeans(db: Tables, l: Legacy, r: Request, config: Config, scheduled: string)
    ensures TablesAfter(db, l, r, config, scheduled).Some? <==> ValidRequest(r, config) && Accepted(db, SnapshotOf(l), r, config)
    ensures TablesAfter(db, l, r, config, scheduled).Some? ==>
              && Planned(db, SnapshotOf(l), r, config).Some?
              && TablesAfter(db, l, r, config, scheduled).value ==
                 Merged(db, Planned(db, SnapshotOf(l), r, config).value, scheduled)
  {
    hide ValidRequest, Planned, Merged, SnapshotOf, CountsOf, ReportOf, Agrees;
  }

  lemma ValidMeans(r: Request, config: Config)
    ensures ValidRequest(r, config) <==>
            && TelegramUserId(r.owner).Some? && config.opaqueId(r.targetId)
            && (r.address.Some? ==> config.opaqueId(r.address.value) && r.address.value != "telegram-default")
  {
    hide TelegramUserId;
  }

  /** An import is accepted exactly when it goes to some address with some chat. */
  lemma AcceptedExactly(db: Tables, l: Legacy, r: Request, config: Config, scheduled: string)
    ensures TablesAfter(db, l, r, config, scheduled).Some? <==> exists n, address, chat :: Goes(db, l, r, config, n, address, chat)
  {
    hide *;
    TablesAfterMeans(db, l, r, config, scheduled);
    ValidMeans(r, config);
    if TablesAfter(db, l, r, config, scheduled).Some? {
      var n := TelegramUserId(r.owner).value;
      var route := RouteTaken(db, l, r, config);
      OwnerNumber(r.owner, n);
      RoutingMeans(db, l, r, config, n, route.address, route.source);
      PlanMeans(db, l, r, config, n, route.address, route.source);
      GoesMeans(db, l, r, config, n, route.address, route.source);
    }
    forall n, address, chat | Goes(db, l, r, config, n, address, chat) ensures TablesAfter(db, l, r, config, scheduled).Some? {
      GoesIsPlanned(db, l, r, config, n, address, chat);
    }
  }

  lemma GoesMeans(db: Tables, l: Legacy, r: Request, config: Config, n: nat, address: string, chat: Option<string>)
    ensures Goes(db, l, r, config, n, address, chat) <==>
            && 0 < n <= 0x7FFF_FFFF_FFFF_FFFF && r.owner == "telegram-user:" + J.Digits(n)
            && config.opaqueId(r.targetId)
            && (r.address.Some? ==> config.opaqueId(r.address.value) && r.address.value != "telegram-default")
            && Routed(db, l, r, config, n, address, chat)
            && IdentityClear(db, r, config, n, address, At(SnapshotOf(l).evidenceTime))
            && ObservationsClear(db, l) && OutboxClear(db, l, r, config, chat) && DeliveriesClear(db, l, r, chat)
  {
  }

  lemma RouteTaken(db: Tables, l: Legacy, r: Request, config: Config) returns (route: Route)
    requires ValidRequest(r, config) && Accepted(db, SnapshotOf(l), r, config)
    ensures TelegramUserId(r.owner).Some?
    ensures TargetRouting(db.targets, SnapshotOf(l), r, TelegramUserId(r.owner).value, config) == Some(route)
    ensures route == Route(route.address, route.source)
  {
    hide TelegramUserId, TargetRouting, SnapshotOf, Agrees;
    route := TargetRouting(db.targets, SnapshotOf(l), r, TelegramUserId(r.owner).value, config).value;
  }

  lemma GoesIsPlanned(db: Tables, l: Legacy, r: Request, config: Config, n: nat, address: string, chat: Option<string>)
    requires Goes(db, l, r, config, n, address, chat)
    ensures ValidRequest(r, config) && Accepted(db, SnapshotOf(l), r, config) && TelegramUserId(r.owner) == Some(n)
    ensures TargetRouting(db.targets, SnapshotOf(l), r, n, config) == Some(Route(address, chat))
  {
    hide *;
    GoesMeans(db, l, r, config, n, address, chat);
    OwnerNumber(r.owner, n);
    ValidMeans(r, config);
    RoutingMeans(db, l, r, config, n, address, chat);
    PlanMeans(db, l, r, config, n, address, chat);
  }

  /** With a new target, deliveries of two chats are refused, whatever the request and mode. */
  lemma AmbiguousSourceRefused(db: Tables, l: Legacy, r: Request, config: Config, scheduled: string, dryRun: bool, i: nat, j: nat)
    requires r.targetId !in db.targets
    requires i < |l.deliveries| && j < |l.deliveries| && l.deliveries[i].chatId != l.deliveries[j].chatId
    ensures ReportFor(db, l, r, config, dryRun).None? && TablesAfter(db, l, r, config, scheduled).None?
  {
    hide IdentityClear, ObservationsClear, OutboxClear, DeliveriesClear, SnapshotOf, ReportFor, TablesAfter;
    AcceptedExactly(db, l, r, config, scheduled);
    SameAcceptance(db, l, r, config, scheduled, dryRun);
  }

  /** The other routes that are refused: a source chat that is neither the requested address nor
      the alias, the alias without a requested address, a target of another owner, kind or
      address, and a target that no delivery names though one names an ordinary chat. */
  lemma MismatchRefused(db: Tables, l: Legacy, r: Request, config: Config, scheduled: string, i: nat)
    requires i < |l.deliveries|
    requires var chat := l.deliveries[i].chatId;
             if r.targetId !in db.targets then
               if chat == "telegram-default" then r.address.None? else r.address.Some? && r.address.value != chat
             else
               var row := db.targets[r.targetId];
               || row.owner != r.owner || row.kind != "telegram" || !config.opaqueId(row.address)
               || (r.address.Some? && r.address.value != row.address)
               || (chat != "telegram-default" && forall j :: 0 <= j < |l.deliveries| ==> l.deliveries[j].chatId != row.address)
    ensures TablesAfter(db, l, r, config, scheduled).None?
  {
    hide IdentityClear, ObservationsClear, OutboxClear, DeliveriesClear, SnapshotOf, TablesAfter;
    AcceptedExactly(db, l, r, config, scheduled);
  }

  /** The address an accepted import delivers to: the requested one where there is one, the one
      there before for a target already there, and for a new target without a request the only
      chat of the source, or the owner's own number. */
  lemma AddressMeans(db: Tables, l: Legacy, r: Request, config: Config, scheduled: string, n: nat)
    requires TablesAfter(db, l, r, config, scheduled).Some? && r.owner == "telegram-user:" + J.Digits(n)
    ensures var targets := TablesAfter(db, l, r, config, scheduled).value.targets;
            && r.targetId in targets
            && targets[r.targetId].address ==
               if r.address.Some? then r.address.value
               else if r.targetId in db.targets then db.targets[r.targetId].address
               else if l.deliveries != [] then l.deliveries[0].chatId
               else J.Digits(n)
  {
    hide IdentityClear, ObservationsClear, OutboxClear, DeliveriesClear, SnapshotOf, TablesAfter;
    AcceptedExactly(db, l, r, config, scheduled);
    var m, address, chat :| Goes(db, l, r, config, m, address, chat);
    IdentityLeft(db, l, r, config, scheduled, m, address, chat);
    SameOwner(m, n);
    var row := Target(r.owner, "telegram", address, At(SnapshotOf(l).evidenceTime));
    assert TablesAfter(db, l, r, config, scheduled).value.targets == db.targets[r.targetId := row];
  }

  lemma SameOwner(m: nat, n: nat)
    ensures "telegram-user:" + J.Digits(m) == "telegram-user:" + J.Digits(n) ==> m == n
  {
    hide J.Digits;
    var a, b := "telegram-user:" + J.Digits(m), "telegram-user:" + J.Digits(n);
    J.DigitsShape(m);
    J.DigitsShape(n);
    if a == b {
      assert a[14..] == J.Digits(m) && b[14..] == J.Digits(n);
    }
  }

  lemma SameAcceptance(db: Tables, l: Legacy, r: Request, config: Config, scheduled: string, dryRun: bool)
    ensures ReportFor(db, l, r, config, dryRun).Some? <==> TablesAfter(db, l, r, config, scheduled).Some?
  {
    hide ValidRequest, Accepted, Planned, SnapshotOf, CountsOf, ReportOf, Merged;
  }

  // ---------- the rows an import leaves ----------

  /** The owner, target, monitor, version and marker after an import. */
  lemma IdentityLeft(db: Tables, l: Legacy, r: Request, config: Config, scheduled: string, n: nat, address: string, chat: Option<string>)
    requires Goes(db, l, r, config, n, address, chat)
    ensures var after := TablesAfter(db, l, r, config, scheduled);
            var t := At(SnapshotOf(l).evidenceTime);
            var monitor, version := "rental-housing-seoul-gyeonggi", "rental-housing-seoul-gyeonggi:v1";
            && after.Some?
            && after.value.users == db.users[r.owner := User(n, "active", t)]
            && after.value.targets == db.targets[r.targetId := Target(r.owner, "telegram", address, t)]
            && after.value.monitors == (if monitor in db.monitors then db.monitors else
                 db.monitors[monitor := Monitor(r.owner, config.specName, "active", Some(version), scheduled, None, 0, None, t, t)])
            && after.value.versions == db.versions[
                 version := Version(monitor, 1, config.specJson(r.owner), r.owner, t, Some(r.owner), Some(t), None)]
            && after.value.runs == db.runs["migration:rental-housing:v1" :=
                 RunRow(monitor, version, 0, "migration_import", None, "success", t, Some(t), None, None)]
  {
    hide Goes, Planned, TablesAfter, SnapshotOf, Accepted, ValidRequest, TelegramUserId, TargetRouting, Selected,
         WithObservations, WithOutbox, WithDeliveries;
    GoesIsPlanned(db, l, r, config, n, address, chat);
    TablesAfterMeans(db, l, r, config, scheduled);
    PlannedBy(db, SnapshotOf(l), r, config, n, address, chat);
  }

  /** The rows after an import are those of its plan added to the rows before. */
  lemma RowsOfPlan(db: Tables, l: Legacy, r: Request, config: Config, scheduled: string, n: nat, address: string, chat: Option<string>)
    returns (p: Plan)
    requires WellFormed(l, config) && Goes(db, l, r, config, n, address, chat)
    ensures p.targetId == r.targetId && p.config == config
    ensures p.announcements == l.announcements && p.deliveries == Selected(l.deliveries, chat)
    ensures DistinctKeys(p.announcements) && DistinctDeliveryKeys(p.deliveries) && OutboxAgrees(db.outbox, p, p.deliveries)
    ensures DeliveriesAgree(db.deliveries, p, p.deliveries) && ObservationsAgree(db.observations, p.announcements)
    ensures TablesAfter(db, l, r, config, scheduled).Some? && Planned(db, SnapshotOf(l), r, config) == Some(p)
    ensures var after := TablesAfter(db, l, r, config, scheduled).value;
            && after.observations == WithObservations(db.observations, p.announcements)
            && after.outbox == WithOutbox(db.outbox, p, p.deliveries)
            && after.deliveries == WithDeliveries(db.deliveries, p, p.deliveries)
  {
    hide *;
    var s := SnapshotOf(l);
    GoesIsPlanned(db, l, r, config, n, address, chat);
    TablesAfterMeans(db, l, r, config, scheduled);
    SnapshotParts(l);
    PlannedBy(db, s, r, config, n, address, chat);
    p := Planned(db, s, r, config).value;
    SourceKeyed(l, config);
    PlanKeyed(db, s, r, config);
    AcceptedMeans(db, s, r, config);
    AllTogether(db, p, scheduled);
    MergedRows(db, p, scheduled);
  }

  /** An import adds the observation of every announcement and no other, and changes none. */
  lemma ObservationsLeft(db: Tables, l: Legacy, r: Request, config: Config, scheduled: string, n: nat, address: string, chat: Option<string>)
    returns (after: map<ItemKey, StoredItem>)
    requires WellFormed(l, config) && Goes(db, l, r, config, n, address, chat)
    ensures TablesAfter(db, l, r, config, scheduled).Some? && TablesAfter(db, l, r, config, scheduled).value.observations == after
    ensures forall k :: k in after <==> k in db.observations || exists i ::
              0 <= i < |l.announcements| && k == ItemOf(l.announcements[i].key)
    ensures forall k :: k in db.observations ==> k in after && after[k] == db.observations[k]
    ensures forall i :: 0 <= i < |l.announcements| ==>
              var a := l.announcements[i];
              && ItemOf(a.key) in after
              && after[ItemOf(a.key)] ==
                 StoredItem(J.Print(a.fields), Some(Sha256(J.Print(a.fields))), At(a.firstSeen), At(a.lastSeen))
  {
    hide *;
    var p := RowsOfPlan(db, l, r, config, scheduled, n, address, chat);
    var rows := l.announcements;
    after := WithObservations(db.observations, rows);
    forall i | 0 <= i < |rows|
      ensures ObservationAgrees(db.observations, rows[i])
      ensures KeyOf(rows[i]) == ItemOf(rows[i].key)
      ensures KeyOf(rows[i]) in after
      ensures after[KeyOf(rows[i])] ==
              StoredItem(J.Print(rows[i].fields), Some(Sha256(J.Print(rows[i].fields))), At(rows[i].firstSeen), At(rows[i].lastSeen))
    {
      EachAgrees(db.observations, rows, i);
      ObservationsAdded(db.observations, rows, i);
      ObservationOf(rows[i]);
    }
    forall k ensures k in after <==> k in db.observations || exists i :: 0 <= i < |rows| && k == KeyOf(rows[i])
             ensures k in db.observations ==> k in after && after[k] == db.observations[k]
    {
      ObservationKept(db.observations, rows, k);
    }
  }

  lemma ObservationOf(a: Announcement)
    ensures KeyOf(a) == ItemOf(a.key)
    ensures ObservationRow(a) == StoredItem(J.Print(a.fields), Some(Sha256(J.Print(a.fields))), At(a.firstSeen), At(a.lastSeen))
  {
  }

  lemma EachAgrees(observations: map<ItemKey, StoredItem>, rows: seq<Announcement>, i: nat)
    requires ObservationsAgree(observations, rows) && i < |rows|
    ensures ObservationAgrees(observations, rows[i])
  {
    hide ObservationAgrees;
  }

  lemma {:induction false} ObservationKept(before: map<ItemKey, StoredItem>, rows: seq<Announcement>, k: ItemKey)
    requires forall i :: 0 <= i < |rows| ==> ObservationAgrees(before, rows[i])
    ensures k in WithObservations(before, rows) <==> k in before || exists i :: 0 <= i < |rows| && k == KeyOf(rows[i])
    ensures k in before ==> WithObservations(before, rows)[k] == before[k]
  {
    hide KeyOf, ObservationRow;
    if rows != [] {
      var n := |rows| - 1;
      assert forall i :: 0 <= i < n ==> rows[..n][i] == rows[i];
      ObservationKept(before, rows[..n], k);
    }
  }

  /** An import adds a notice for every delivery of the chat and no other, and changes none:
      each is delivered, was never retried, carries its delivery's time and has its delivery. */
  lemma NoticesLeft(db: Tables, l: Legacy, r: Request, config: Config, scheduled: string, n: nat, address: string, chat: Option<string>)
    returns (after: Tables)
    requires WellFormed(l, config) && Goes(db, l, r, config, n, address, chat)
    ensures TablesAfter(db, l, r, config, scheduled) == Some(after)
    ensures forall id :: id in after.outbox <==> id in db.outbox || exists i ::
              0 <= i < |l.deliveries| && chat == Some(l.deliveries[i].chatId)
              && id == Imported(Sha256(NoticeText(l.deliveries[i].key)))
    ensures forall id :: id in after.deliveries <==> id in db.deliveries || exists i ::
              0 <= i < |l.deliveries| && chat == Some(l.deliveries[i].chatId)
              && id == Imported(Sha256(NoticeText(l.deliveries[i].key)))
    ensures forall id :: id in db.outbox ==> id in after.outbox && after.outbox[id] == db.outbox[id]
    ensures forall id :: id in db.deliveries ==> id in after.deliveries && after.deliveries[id] == db.deliveries[id]
    ensures forall i :: 0 <= i < |l.deliveries| && chat == Some(l.deliveries[i].chatId) ==>
              var d := l.deliveries[i];
              var text := NoticeText(d.key);
              var id := Imported(Sha256(text));
              && id in after.outbox && id in after.deliveries
              && after.outbox[id] ==
                 Outbox(text, "rental-housing-seoul-gyeonggi", r.targetId, config.payloadJson, "delivered", 0,
                   At(d.deliveredAt), None, None, None, At(d.deliveredAt))
              && after.deliveries[id] == Delivery(r.targetId, d.messageId, At(d.deliveredAt))
  {
    hide *;
    var p := RowsOfPlan(db, l, r, config, scheduled, n, address, chat);
    after := TablesAfter(db, l, r, config, scheduled).value;
    forall d: SourceDelivery
      ensures d in p.deliveries <==> d in l.deliveries && chat == Some(d.chatId)
    {
      SelectedAre(l.deliveries, chat, d);
    }
    forall i | 0 <= i < |l.deliveries| && chat == Some(l.deliveries[i].chatId)
      ensures Imported(Sha256(NoticeText(l.deliveries[i].key))) in WithOutbox(db.outbox, p, p.deliveries)
      ensures WithOutbox(db.outbox, p, p.deliveries)[Imported(Sha256(NoticeText(l.deliveries[i].key)))] ==
              Outbox(NoticeText(l.deliveries[i].key), "rental-housing-seoul-gyeonggi", r.targetId, config.payloadJson, "delivered", 0,
                At(l.deliveries[i].deliveredAt), None, None, None, At(l.deliveries[i].deliveredAt))
      ensures Imported(Sha256(NoticeText(l.deliveries[i].key))) in WithDeliveries(db.deliveries, p, p.deliveries)
      ensures WithDeliveries(db.deliveries, p, p.deliveries)[Imported(Sha256(NoticeText(l.deliveries[i].key)))] ==
              Delivery(r.targetId, l.deliveries[i].messageId, At(l.deliveries[i].deliveredAt))
    {
      assert l.deliveries[i] in p.deliveries;
      var j: nat :| j < |p.deliveries| && p.deliveries[j] == l.deliveries[i];
      OutboxAdded(db.outbox, p, p.deliveries, j);
      DeliveriesAdded(db.deliveries, p, p.deliveries, j);
      NoticeOf(p, l.deliveries[i]);
    }
    forall id
      ensures id in WithOutbox(db.outbox, p, p.deliveries) ==> id in db.outbox || exists i ::
                0 <= i < |l.deliveries| && chat == Some(l.deliveries[i].chatId) && id == Imported(Sha256(NoticeText(l.deliveries[i].key)))
      ensures id in WithDeliveries(db.deliveries, p, p.deliveries) ==> id in db.deliveries || exists i ::
                0 <= i < |l.deliveries| && chat == Some(l.deliveries[i].chatId) && id == Imported(Sha256(NoticeText(l.deliveries[i].key)))
      ensures id in db.outbox ==> id in WithOutbox(db.outbox, p, p.deliveries) && WithOutbox(db.outbox, p, p.deliveries)[id] == db.outbox[id]
      ensures id in db.deliveries ==>
                id in WithDeliveries(db.deliveries, p, p.deliveries) && WithDeliveries(db.deliveries, p, p.deliveries)[id] == db.deliveries[id]
    {
      NoticeKept(db, l, p, chat, id);
    }
  }

  lemma NoticeOf(p: Plan, d: SourceDelivery)
    ensures NewOutboxId(d.key) == Imported(Sha256(NoticeText(d.key)))
    ensures OutboxRow(p, d) == Outbox(NoticeText(d.key), "rental-housing-seoul-gyeonggi", p.targetId, p.config.payloadJson,
              "delivered", 0, At(d.deliveredAt), None, None, None, At(d.deliveredAt))
    ensures DeliveryRow(p, d) == Delivery(p.targetId, d.messageId, At(d.deliveredAt))
  {
  }

  lemma NoticeKept(db: Tables, l: Legacy, p: Plan, chat: Option<string>, id: OutboxId)
    requires p.deliveries == Selected(l.deliveries, chat)
    requires OutboxAgrees(db.outbox, p, p.deliveries) && DeliveriesAgree(db.deliveries, p, p.deliveries)
    requires DistinctDeliveryKeys(p.deliveries)
    ensures var outbox, deliveries := WithOutbox(db.outbox, p, p.deliveries), WithDeliveries(db.deliveries, p, p.deliveries);
            && (id in outbox ==> id in db.outbox || exists i ::
                  0 <= i < |l.deliveries| && chat == Some(l.deliveries[i].chatId) && id == Imported(Sha256(NoticeText(l.deliveries[i].key))))
            && (id in deliveries ==> id in db.deliveries || exists i ::
                  0 <= i < |l.deliveries| && chat == Some(l.deliveries[i].chatId) && id == Imported(Sha256(NoticeText(l.deliveries[i].key))))
            && (id in db.outbox ==> id in outbox && outbox[id] == db.outbox[id])
            && (id in db.deliveries ==> id in deliveries && deliveries[id] == db.deliveries[id])
  {
    hide Selected, WithOutbox, WithDeliveries, NewOutboxId, NoticeText, DedupeKey, DistinctDeliveryKeys, OutboxAgrees, DeliveryRow;
    var rows := p.deliveries;
    OutboxGrows(db.outbox, p, rows, id);
    DeliveriesElsewhere(db.deliveries, p, rows, id);
    if exists j :: 0 <= j < |rows| && NewOutboxId(rows[j].key) == id {
      var j: nat :| j < |rows| && NewOutboxId(rows[j].key) == id;
      SelectedAre(l.deliveries, chat, rows[j]);
      NoticeOf(p, rows[j]);
      DeliveriesAdded(db.deliveries, p, rows, j);
      assert DeliveryAgrees(db.deliveries, p, rows[j]);
      var i: nat :| i < |l.deliveries| && l.deliveries[i] == rows[j];
      assert chat == Some(l.deliveries[i].chatId) && id == Imported(Sha256(NoticeText(l.deliveries[i].key)));
    }
  }

  // ---------- what an import reports ----------

  lemma {:induction false} MissingObservationsAre(before: map<ItemKey, StoredItem>, rows: seq<Announcement>)
    requires DistinctKeys(rows)
    ensures |WithObservations(before, rows)| == |before| + MissingObservations(before, rows)
  {
    hide KeyOf, ObservationRow;
    if rows != [] {
      var n := |rows| - 1;
      EarlierKeysDiffer(rows, n);
      ObservationsElsewhere(before, rows[..n], KeyOf(rows[n]));
      MissingObservationsAre(before, rows[..n]);
      GrowsBy(WithObservations(before, rows[..n]), KeyOf(rows[n]), ObservationRow(rows[n]));
    }
  }

  lemma GrowsBy<K, V>(m: map<K, V>, k: K, v: V)
    ensures |m[k := v]| == |m| + if k in m then 0 else 1
  {
    assert m[k := v].Keys == m.Keys + {k};
  }

  lemma {:induction false} MissingOutboxAre(before: map<OutboxId, Outbox>, p: Plan, rows: seq<SourceDelivery>)
    requires DistinctDeliveryKeys(rows) && OutboxAgrees(before, p, rows)
    ensures |WithOutbox(before, p, rows)| == |before| + MissingOutbox(before, rows)
  {
    hide NewOutboxId, OutboxRow, OutboxAgreesFor;
    if rows != [] {
      var n := |rows| - 1;
      assert forall j :: 0 <= j < n ==> rows[..n][j] == rows[j];
      OutboxLookup(before, p, rows, n);
      MissingOutboxAre(before, p, rows[..n]);
      GrowsBy(WithOutbox(before, p, rows[..n]), NewOutboxId(rows[n].key), OutboxRow(p, rows[n]));
    }
  }

  lemma {:induction false} MissingDeliveriesAre(before: map<OutboxId, Delivery>, p: Plan, rows: seq<SourceDelivery>)
    requires DistinctDeliveryKeys(rows)
    ensures |WithDeliveries(before, p, rows)| == |before| + MissingOutbox(before, rows)
  {
    hide NewOutboxId, DeliveryRow, DedupeKey;
    if rows != [] {
      var n := |rows| - 1;
      EarlierIdsDiffer(rows, n);
      DeliveriesElsewhere(before, p, rows[..n], NewOutboxId(rows[n].key));
      MissingDeliveriesAre(before, p, rows[..n]);
      GrowsBy(WithDeliveries(before, p, rows[..n]), NewOutboxId(rows[n].key), DeliveryRow(p, rows[n]));
    }
  }

  /** How many deliveries the chat has. */
  lemma {:induction false} SelectedSize(deliveries: seq<SourceDelivery>, chat: Option<string>)
    ensures |Selected(deliveries, chat)| == |set i | 0 <= i < |deliveries| && chat == Some(deliveries[i].chatId)|
  {
    var all := set i | 0 <= i < |deliveries| && chat == Some(deliveries[i].chatId);
    if deliveries == [] {
      assert all == {};
    } else {
      SelectedSize(deliveries[..|deliveries| - 1], chat);
      PlacesGrow(deliveries, chat);
    }
  }

  lemma PlacesGrow(deliveries: seq<SourceDelivery>, chat: Option<string>)
    requires deliveries != []
    ensures var n := |deliveries| - 1;
            |set i | 0 <= i < |deliveries| && chat == Some(deliveries[i].chatId)|
            == |set i | 0 <= i < |deliveries[..n]| && chat == Some(deliveries[..n][i].chatId)|
               + if chat == Some(deliveries[n].chatId) then 1 else 0
  {
    hide *;
    var n := |deliveries| - 1;
    var front := set i | 0 <= i < |deliveries[..n]| && chat == Some(deliveries[..n][i].chatId);
    var all := set i | 0 <= i < |deliveries| && chat == Some(deliveries[i].chatId);
    assert n !in front;
    assert all == front + if chat == Some(deliveries[n].chatId) then {n} else {};
  }

  /** A report counts the source's rows and the rows a real import adds; the rest of those it
      stands for were present. It flags what was not there before, and is complete unless a dry
      run finds no marker. */
  lemma ReportMeans(db: Tables, l: Legacy, r: Request, config: Config, dryRun: bool, scheduled: string,
                    n: nat, address: string, chat: Option<string>)
    returns (x: Report, d: Tables)
    requires WellFormed(l, config) && Goes(db, l, r, config, n, address, chat)
    ensures ReportFor(db, l, r, config, dryRun) == Some(x) && TablesAfter(db, l, r, config, scheduled) == Some(d)
    ensures var c, taken := x.counts, set i | 0 <= i < |l.deliveries| && chat == Some(l.deliveries[i].chatId);
            && x.sourceAnnouncements == |l.announcements| && x.sourceDeliveries == |l.deliveries| && x.sourceRuns == |l.runs|
            && c.importedObservations == |d.observations| - |db.observations|
            && c.importedOutbox == |d.outbox| - |db.outbox| && c.importedDeliveries == |d.deliveries| - |db.deliveries|
            && c.importedObservations + c.presentObservations == |l.announcements|
            && c.importedOutbox + c.presentOutbox == |taken| && c.importedDeliveries + c.presentDeliveries == |taken|
            && c.identityCreated == (r.owner !in db.users) && c.targetCreated == (r.targetId !in db.targets)
            && c.monitorCreated == c.versionCreated == ("rental-housing-seoul-gyeonggi" !in db.monitors)
            && c.complete == (dryRun ==> "migration:rental-housing:v1" in db.runs)
            && x.dryRun == dryRun && x.status == (if c.complete then "complete" else "validated")
  {
    hide *;
    var p := RowsOfPlan(db, l, r, config, scheduled, n, address, chat);
    MissingObservationsAre(db.observations, p.announcements);
    MissingOutboxAre(db.outbox, p, p.deliveries);
    MissingDeliveriesAre(db.deliveries, p, p.deliveries);
    SelectedSize(l.deliveries, chat);
    SameAcceptance(db, l, r, config, scheduled, dryRun);
    x, d := ReportFor(db, l, r, config, dryRun).value, TablesAfter(db, l, r, config, scheduled).value;
    ReportParts(db, l, r, config, dryRun, p);
    GoesIsPlanned(db, l, r, config, n, address, chat);
    PlannedBy(db, SnapshotOf(l), r, config, n, address, chat);
    AcceptedMeans(db, SnapshotOf(l), r, config);
    AllTogether(db, p, scheduled);
    VersionWithMonitor(db, p);
  }

  lemma VersionWithMonitor(db: Tables, p: Plan)
    requires MonitorAgrees(db.monitors, db.versions, p)
    ensures "rental-housing-seoul-gyeonggi" in db.monitors <==> "rental-housing-seoul-gyeonggi:v1" in db.versions
  {
  }

  lemma ReportParts(db: Tables, l: Legacy, r: Request, config: Config, dryRun: bool, p: Plan)
    requires ReportFor(db, l, r, config, dryRun).Some? && Planned(db, SnapshotOf(l), r, config) == Some(p)
    ensures var x := ReportFor(db, l, r, config, dryRun).value;
            var c := x.counts;
            && x.sourceAnnouncements == |l.announcements| && x.sourceDeliveries == |l.deliveries| && x.sourceRuns == |l.runs|
            && c.importedObservations == MissingObservations(db.observations, p.announcements)
            && c.importedOutbox == MissingOutbox(db.outbox, p.deliveries)
            && c.importedDeliveries == MissingOutbox(db.deliveries, p.deliveries)
            && c.importedObservations + c.presentObservations == |p.announcements|
            && c.importedOutbox + c.presentOutbox == |p.deliveries| && c.importedDeliveries + c.presentDeliveries == |p.deliveries|
            && c.identityCreated == (p.owner !in db.users) && c.targetCreated == (p.targetId !in db.targets)
            && c.monitorCreated == ("rental-housing-seoul-gyeonggi" !in db.monitors)
            && c.versionCreated == ("rental-housing-seoul-gyeonggi:v1" !in db.versions)
            && c.complete == (dryRun ==> "migration:rental-housing:v1" in db.runs)
            && x.dryRun == dryRun && x.status == (if c.complete then "complete" else "validated")
  {
    hide Accepted, Planned, ValidRequest, MissingObservations, MissingOutbox, Latest, Times;
  }

  /** The evidence time is the latest time in the source: one of its rows has it and none is
      later. An empty source has the fixed time. */
  lemma EvidenceMeans(l: Legacy)
    ensures var t := SnapshotOf(l).evidenceTime;
            || (l.announcements == [] && l.deliveries == [] && l.runs == [] && t == Moment(2000, 1, 1, 0, 0, 0, 0))
            || (exists i :: 0 <= i < |l.announcements| && (l.announcements[i].firstSeen == t || l.announcements[i].lastSeen == t))
            || (exists i :: 0 <= i < |l.deliveries| && l.deliveries[i].deliveredAt == t)
            || (exists i :: 0 <= i < |l.runs| && l.runs[i].finishedAt == Some(t))
            || (exists i :: 0 <= i < |l.runs| && l.runs[i].finishedAt == None && l.runs[i].startedAt == t)
    ensures forall i :: 0 <= i < |l.announcements| ==>
              !Before(SnapshotOf(l).evidenceTime, l.announcements[i].firstSeen)
              && !Before(SnapshotOf(l).evidenceTime, l.announcements[i].lastSeen)
    ensures forall i :: 0 <= i < |l.deliveries| ==> !Before(SnapshotOf(l).evidenceTime, l.deliveries[i].deliveredAt)
    ensures forall i :: 0 <= i < |l.runs| && l.runs[i].finishedAt.Some? ==>
              !Before(SnapshotOf(l).evidenceTime, l.runs[i].finishedAt.value)
    ensures forall i :: 0 <= i < |l.runs| && l.runs[i].finishedAt.None? ==>
              !Before(SnapshotOf(l).evidenceTime, l.runs[i].startedAt)
  {
    hide Before, Latest;
    EvidenceIsLatest(l);
    assert forall i :: 0 <= i < |l.runs| ==> NotAfter(RunEvidence(l.runs[i]), SnapshotOf(l).evidenceTime);
    var times, n, m := Times(l), |l.announcements|, |l.deliveries|;
    if times == [] {
      assert |times| == 2 * n + m + |l.runs|;
      NoTimes();
    } else {
      LatestIsMember(times);
      var j: nat :| j < |times| && times[j] == Latest(times);
      TimeAt(l, j);
    }
  }

  lemma NoTimes()
    ensures Latest([]) == Moment(2000, 1, 1, 0, 0, 0, 0)
  {
  }

  lemma TimeAt(l: Legacy, j: nat)
    requires j < |Times(l)|
    ensures var t := Times(l)[j];
            || (exists i :: 0 <= i < |l.announcements| && (l.announcements[i].firstSeen == t || l.announcements[i].lastSeen == t))
            || (exists i :: 0 <= i < |l.deliveries| && l.deliveries[i].deliveredAt == t)
            || (exists i :: 0 <= i < |l.runs| && l.runs[i].finishedAt == Some(t))
            || (exists i :: 0 <= i < |l.runs| && l.runs[i].finishedAt == None && l.runs[i].startedAt == t)
  {
    var n, m, t := |l.announcements|, |l.deliveries|, Times(l)[j];
    if j < n {
      assert t == l.announcements[j].firstSeen;
    } else if j < 2 * n {
      assert t == l.announcements[j - n].lastSeen;
    } else if j < 2 * n + m {
      assert t == l.deliveries[j - 2 * n].deliveredAt;
    } else {
      assert t == RunEvidence(l.runs[j - 2 * n - m]);
      assert l.runs[j - 2 * n - m].finishedAt == Some(t) || (l.runs[j - 2 * n - m].finishedAt == None && l.runs[j - 2 * n - m].startedAt == t);
    }
  }
}
