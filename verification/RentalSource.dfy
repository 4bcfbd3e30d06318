/** The legacy rental database as the importer reads it: validated rows, and the time of
    the latest evidence in them. */
module RentalSource {
  import opened Order
  import opened Timestamps
  import J = JsonText

  const LEGACY_BASELINE := "legacy-baseline"
  const LEGACY_ALIAS := "telegram-default"
  const MAX_MESSAGE_ID := 0x7FFF_FFFF_FFFF_FFFF

  /** The announcement fields in key order. */
  const FIELD_NAMES: seq<string> := [
    "agency", "announcement_date", "application_end_date", "application_start_date", "housing_type",
    "region", "source_id", "target", "title", "url"]

  /** What the importer takes from elsewhere: whether an announcement's fields are accepted
      under its key, whether a text is an opaque identifier, the monitor's fixed name,
      specification and delivery payload, and how JSON numbers are read. */
  datatype Config = Config(
    announcement: (string, J.Json) -> bool, opaqueId: string -> bool,
    specName: string, specJson: string -> string, payloadJson: string, floats: J.FloatReader)

  datatype Announcement = Announcement(key: string, fields: J.Json, firstSeen: Instant, lastSeen: Instant)
  datatype SourceDelivery = SourceDelivery(key: string, chatId: string, deliveredAt: Instant, messageId: string)
  datatype LegacyRun = LegacyRun(startedAt: Instant, finishedAt: Option<Instant>)

  /** The rows of a legacy database, timestamps already in UTC. */
  datatype Legacy = Legacy(announcements: seq<Announcement>, deliveries: seq<SourceDelivery>, runs: seq<LegacyRun>)

  datatype Snapshot = Snapshot(
    announcements: seq<Announcement>, deliveries: seq<SourceDelivery>, runCount: nat, evidenceTime: Instant)

  // ---------- rows ----------

  predicate IsText(v: J.Json)
  {
    v.Str? || v.Null?
  }

  /** An object with exactly the announcement fields, each a text or null. */
  predicate FieldsShape(fields: J.Json)
  {
    && fields.Obj? && |fields.members| == |FIELD_NAMES|
    && forall i :: 0 <= i < |FIELD_NAMES| ==> fields.members[i].key == FIELD_NAMES[i] && IsText(fields.members[i].value)
  }

  predicate AnnouncementOk(a: Announcement, config: Config)
  {
    FieldsShape(a.fields) && config.announcement(a.key, a.fields) && !Before(a.lastSeen, a.firstSeen)
  }

  /** How a legacy message number is stored: zero marks a baseline. */
  function StoredMessageId(n: nat): string
  {
    if n == 0 then LEGACY_BASELINE else J.Digits(n)
  }

  /** The check on a stored message id: the baseline text, or a positive 63-bit number in
      its canonical decimal form. */
  predicate ValidMessageId(s: string)
  {
    || s == LEGACY_BASELINE
    || (s != "" && J.AllDigits(s) && J.Digits(J.DigitsValue(s)) == s && 0 < J.DigitsValue(s) <= MAX_MESSAGE_ID)
  }

  /** The accepted stored ids are exactly those of legacy message numbers. */
  lemma StoredMessageIds(s: string)
    ensures ValidMessageId(s) <==> exists n: nat :: n <= MAX_MESSAGE_ID && StoredMessageId(n) == s
  {
    forall n: nat | n <= MAX_MESSAGE_ID && StoredMessageId(n) == s ensures ValidMessageId(s) {
      J.DigitsShape(n);
    }
    if ValidMessageId(s) {
      if s == LEGACY_BASELINE {
        assert StoredMessageId(0) == s;
      } else {
        assert StoredMessageId(J.DigitsValue(s)) == s;
      }
    }
  }

  predicate HasKey(announcements: seq<Announcement>, key: string)
  {
    exists i :: 0 <= i < |announcements| && announcements[i].key == key
  }

  predicate DeliveryOk(d: SourceDelivery, announcements: seq<Announcement>, config: Config)
  {
    HasKey(announcements, d.key) && config.opaqueId(d.chatId) && ValidMessageId(d.messageId)
  }

  predicate RunOk(r: LegacyRun)
  {
    r.finishedAt.Some? ==> !Before(r.finishedAt.value, r.startedAt)
  }

  /** Baseline deliveries precede every recorded run, and there is one. */
  ghost predicate BaselinesOk(l: Legacy)
  {
    forall d :: 0 <= d < |l.deliveries| && l.deliveries[d].messageId == LEGACY_BASELINE ==>
      l.runs != [] && forall r :: 0 <= r < |l.runs| ==> Before(l.deliveries[d].deliveredAt, l.runs[r].startedAt)
  }

  ghost predicate DistinctKeys(announcements: seq<Announcement>)
  {
    forall i, j :: 0 <= i < j < |announcements| ==> announcements[i].key != announcements[j].key
  }

  ghost predicate DistinctDeliveries(deliveries: seq<SourceDelivery>)
  {
    forall i, j :: 0 <= i < j < |deliveries| ==>
      deliveries[i].key != deliveries[j].key || deliveries[i].chatId != deliveries[j].chatId
  }

  /** What the reader accepts. */
  ghost predicate WellFormed(l: Legacy, config: Config)
  {
    && DistinctKeys(l.announcements) && DistinctDeliveries(l.deliveries)
    && (forall i :: 0 <= i < |l.announcements| ==> AnnouncementOk(l.announcements[i], config))
    && (forall i :: 0 <= i < |l.deliveries| ==> DeliveryOk(l.deliveries[i], l.announcements, config))
    && (forall i :: 0 <= i < |l.runs| ==> RunOk(l.runs[i]))
    && BaselinesOk(l)
  }

  // ---------- evidence ----------

  function FirstTimes(rows: seq<Announcement>): seq<Instant>
  {
    seq(|rows|, i requires 0 <= i < |rows| => rows[i].firstSeen)
  }

  function LastTimes(rows: seq<Announcement>): seq<Instant>
  {
    seq(|rows|, i requires 0 <= i < |rows| => rows[i].lastSeen)
  }

  function DeliveryTimes(rows: seq<SourceDelivery>): seq<Instant>
  {
    seq(|rows|, i requires 0 <= i < |rows| => rows[i].deliveredAt)
  }

  /** The evidence of a run: when it finished, or else when it started. */
  function RunEvidence(r: LegacyRun): Instant
  {
    if r.finishedAt.Some? then r.finishedAt.value else r.startedAt
  }

  function RunTimes(rows: seq<LegacyRun>): seq<Instant>
  {
    seq(|rows|, i requires 0 <= i < |rows| => RunEvidence(rows[i]))
  }

  function Times(l: Legacy): seq<Instant>
  {
    FirstTimes(l.announcements) + LastTimes(l.announcements) + DeliveryTimes(l.deliveries) + RunTimes(l.runs)
  }

  function SnapshotOf(l: Legacy): Snapshot
  {
    Snapshot(l.announcements, l.deliveries, |l.runs|, Latest(Times(l)))
  }

  /** The snapshot's evidence time is taken as a maximum of texts. */
  method TakeSnapshot(l: Legacy) returns (s: Snapshot)
    ensures s == SnapshotOf(l)
  {
    var evidenceTime := MaxText(Times(l));
    return Snapshot(l.announcements, l.deliveries, |l.runs|, evidenceTime);
  }

  /** No row of the source is later than the evidence time. */
  lemma EvidenceIsLatest(l: Legacy)
    ensures forall i :: 0 <= i < |l.announcements| ==>
              NotAfter(l.announcements[i].firstSeen, SnapshotOf(l).evidenceTime)
              && NotAfter(l.announcements[i].lastSeen, SnapshotOf(l).evidenceTime)
    ensures forall i :: 0 <= i < |l.deliveries| ==> NotAfter(l.deliveries[i].deliveredAt, SnapshotOf(l).evidenceTime)
    ensures forall i :: 0 <= i < |l.runs| ==> NotAfter(RunEvidence(l.runs[i]), SnapshotOf(l).evidenceTime)
  {
    hide Before, Latest;
    var times, n, m := Times(l), |l.announcements|, |l.deliveries|;
    forall i | 0 <= i < n
      ensures NotAfter(l.announcements[i].firstSeen, Latest(times)) && NotAfter(l.announcements[i].lastSeen, Latest(times))
    {
      assert times[i] == l.announcements[i].firstSeen && times[n + i] == l.announcements[i].lastSeen;
      LatestBounds(times, i);
      LatestBounds(times, n + i);
    }
    forall i | 0 <= i < m ensures NotAfter(l.deliveries[i].deliveredAt, Latest(times)) {
      assert times[2 * n + i] == l.deliveries[i].deliveredAt;
      LatestBounds(times, 2 * n + i);
    }
    forall i | 0 <= i < |l.runs| ensures NotAfter(RunEvidence(l.runs[i]), Latest(times)) {
      assert times[2 * n + m + i] == RunEvidence(l.runs[i]);
      LatestBounds(times, 2 * n + m + i);
    }
  }

  /** A baseline is strictly before the evidence time. */
  lemma BaselineBeforeEvidence(l: Legacy, config: Config, d: nat)
    requires WellFormed(l, config) && d < |l.deliveries| && l.deliveries[d].messageId == LEGACY_BASELINE
    ensures Before(l.deliveries[d].deliveredAt, SnapshotOf(l).evidenceTime)
  {
    hide Before, Latest, AnnouncementOk, DeliveryOk;
    EvidenceIsLatest(l);
    var t, start, evidence := l.deliveries[d].deliveredAt, l.runs[0].startedAt, RunEvidence(l.runs[0]);
    assert RunOk(l.runs[0]) && Before(t, start);
    BeforeAsymmetric(start, start);
    BeforeChain(t, start, evidence);
    BeforeChain(t, evidence, SnapshotOf(l).evidenceTime);
  }

  lemma BeforeChain(a: Instant, b: Instant, c: Instant)
    requires Before(a, b) && NotAfter(b, c)
    ensures Before(a, c)
  {
    BeforeTotal(b, c);
    if Before(b, c) {
      BeforeTransitive(a, b, c);
    }
  }
}
