/** One-time actions: stored tokens that expire and are consumed once, and in-memory
    receipts that are claimed once. Instants are microseconds; a transaction may fail at
    any of its points. */
module PendingActions {
  import opened Order
  import opened Digest
  import opened ActionPayload

  const TEN_MINUTES := 600_000_000
  const ONE_DAY := 86_400_000_000
  /** The last instant a `datetime` can hold. */
  const LAST_INSTANT := 315_537_897_599_999_999
  const ACTIONS: set<string> := {
    "create", "delete", "pause", "repair_activation", "resume", "schedule_change", "select_url", "update"
  }

  /** A stored expiry text. `Readable` is the canonical UTC text of an instant. Any other text
      is `Unreadable`: one that is no timestamp, names no zone or another than UTC, or spells
      the instant differently, as with a `Z`. The maintenance delete compares texts, and since
      canonical texts are in the order of their instants, an unreadable one sorts before those
      of exactly the instants after some `at`. */
  datatype Expiry = Readable(at: int) | Unreadable(at: int)

  /** A row of `pending_actions`. */
  datatype Row = Row(owner: string, action: string, payloadJson: string, expires: Expiry, consumedAt: Option<int>)

  datatype PendingAction = PendingAction(token: string, expiresAt: int)

  /** A consumed action; `id` is the identity of the object. */
  datatype Receipt = Receipt(id: nat, action: string, payload: PyValue, owner: string, operation: string)

  datatype Fingerprint = Fingerprint(action: string, payloadJson: string, owner: string, operation: string)

  datatype Record = Record(receipt: Receipt, fingerprint: Fingerprint)

  /** `nextId` is the identity the next receipt object gets. */
  datatype State = State(pending: map<Hash, Row>, records: map<nat, Record>, nextId: nat)

  predicate IsDigit(c: char)
  {
    '0' <= c <= '9'
  }

  predicate ValidOwner(s: string)
  {
    && |s| > 14 && s[..14] == "telegram-user:"
    && '1' <= s[14] <= '9' && |s| <= 33
    && forall i :: 15 <= i < |s| ==> IsDigit(s[i])
  }

  predicate ValidToken(s: string)
  {
    && |s| == 32
    && forall i :: 0 <= i < 32 ==> 'A' <= s[i] <= 'Z' || 'a' <= s[i] <= 'z' || IsDigit(s[i]) || s[i] == '_' || s[i] == '-'
  }

  predicate ValidOperation(s: string)
  {
    s == "confirm" || s == "edit"
  }

  /** Where a transaction raises, if it does: as it begins, at its statement, after the
      statement (for a consume, while the receipt is made), or as it commits. Before the commit
      the program rolls back; a failed commit the database rolls back by itself. */
  datatype Failure = Nowhere | AtBegin | AtStatement | AfterStatement | AtCommit

  /** What can happen. `ready` is false when the service's seals are broken or, but for a
      create, its connection is already inside a transaction. */
  datatype Event =
    | Create(owner: string, action: string, payload: PyValue, now: int, token: string, ready: bool, failure: Failure)
    | Consume(token: string, owner: string, now: int, operation: string, ready: bool, failure: Failure)
    | Claim(receipt: Receipt, ready: bool)
    | Discard(receipt: Receipt, ready: bool)
    | Revoke(token: string, owner: string, ready: bool, failure: Failure)
    | Maintain(now: int, failure: Failure)

  datatype Outcome =
    | Denied
    | Issued(pending: PendingAction)
    | Consumed(receipt: Receipt)
    | Claimed
    | Done

  // ---------- one step ----------

  /** The transaction ended before its statement changed anything. */
  predicate FailsEarly(f: Failure)
  {
    f == AtBegin || f == AtStatement
  }

  /** What a failed transaction leaves: the table as it was when it began, whoever rolled it
      back, and, by the exception handler, the records without the receipt made, if that very
      receipt is there. */
  function Abort(s: State, saved: map<Hash, Row>, made: Option<Receipt>): State
  {
    var restored := s.(pending := saved);
    if made.Some? && Holds(s, made.value) then Drop(restored, made.value.id) else restored
  }

  /** Whether the service holds this very receipt. */
  predicate Holds(s: State, receipt: Receipt)
  {
    receipt.id in s.records && s.records[receipt.id].receipt == receipt
  }

  function Drop(s: State, id: nat): State
  {
    s.(records := s.records - {id})
  }

  function CreateStep(s: State, e: Event, lib: Library): (State, Outcome)
    requires e.Create?
  {
    var p := ValidatedPayload(e.payload, lib);
    if !e.ready || !ValidOwner(e.owner) || e.action !in ACTIONS || p.None? || !ValidToken(e.token) then (s, Denied)
    else if e.now + TEN_MINUTES > LAST_INSTANT then (s, Denied)
    else if Sha256(e.token) in s.pending || FailsEarly(e.failure) then (Abort(s, s.pending, None), Denied)
    else
      var row := Row(e.owner, e.action, p.value.text, Readable(e.now + TEN_MINUTES), None);
      var inserted := s.(pending := s.pending[Sha256(e.token) := row]);
      if e.failure == Nowhere then (inserted, Issued(PendingAction(e.token, e.now + TEN_MINUTES)))
      else (Abort(inserted, s.pending, None), Denied)
  }

  /** The row a consume may turn into a receipt. */
  predicate Consumable(s: State, e: Event, lib: Library)
    requires e.Consume?
  {
    && e.ready && ValidToken(e.token) && ValidOwner(e.owner) && ValidOperation(e.operation)
    && Sha256(e.token) in s.pending
    && var row := s.pending[Sha256(e.token)];
       row.owner == e.owner && row.consumedAt.None? && row.expires.Readable? && e.now < row.expires.at && row.action in ACTIONS
       && StoredPayload(row.payloadJson, lib).Some?
  }

  function ConsumeStep(s: State, e: Event, lib: Library): (State, Outcome)
    requires e.Consume?
  {
    if !Consumable(s, e, lib) || FailsEarly(e.failure) then (Abort(s, s.pending, None), Denied)
    else
      var row := s.pending[Sha256(e.token)];
      var p := StoredPayload(row.payloadJson, lib).value;
      var updated := State(s.pending[Sha256(e.token) := row.(consumedAt := Some(e.now))], s.records, s.nextId + 1);
      var receipt := Receipt(s.nextId, row.action, p.frozen, e.owner, e.operation);
      if e.failure == AfterStatement then (Abort(updated, s.pending, Some(receipt)), Denied)
      else
        var record := Record(receipt, Fingerprint(row.action, p.text, e.owner, e.operation));
        var registered := updated.(records := s.records[s.nextId := record]);
        if e.failure == AtCommit then (Abort(registered, s.pending, Some(receipt)), Denied)
        else (registered, Consumed(receipt))
  }

  function FingerprintOf(receipt: Receipt, lib: Library): Option<Fingerprint>
  {
    match ValidatedPayload(receipt.payload, lib)
    case None => None
    case Some(p) => Some(Fingerprint(receipt.action, p.text, receipt.owner, receipt.operation))
  }

  function ClaimStep(s: State, e: Event, lib: Library): (State, Outcome)
    requires e.Claim?
  {
    if e.ready && Holds(s, e.receipt) && FingerprintOf(e.receipt, lib) == Some(s.records[e.receipt.id].fingerprint)
    then (Drop(s, e.receipt.id), Claimed)
    else (s, Denied)
  }

  function DiscardStep(s: State, e: Event): (State, Outcome)
    requires e.Discard?
  {
    if e.ready && Holds(s, e.receipt) then (Drop(s, e.receipt.id), Claimed) else (s, Denied)
  }

  function RevokeStep(s: State, e: Event): (State, Outcome)
    requires e.Revoke?
  {
    if !e.ready || !ValidToken(e.token) || !ValidOwner(e.owner) then (s, Denied)
    else if FailsEarly(e.failure) then (Abort(s, s.pending, None), Denied)
    else
      var hash := Sha256(e.token);
      var deleted :=
        if hash in s.pending && s.pending[hash].owner == e.owner && s.pending[hash].consumedAt.None?
        then s.(pending := s.pending - {hash})
        else s;
      if e.failure == Nowhere then (deleted, Done) else (Abort(deleted, s.pending, None), Denied)
  }

  /** The rows a maintenance run at `now` deletes: consumed, or expired, more than a day ago. */
  predicate Stale(row: Row, now: int)
  {
    (row.consumedAt.Some? && row.consumedAt.value < now - ONE_DAY) || row.expires.at < now - ONE_DAY
  }

  function MaintainStep(s: State, e: Event): (State, Outcome)
    requires e.Maintain?
  {
    if FailsEarly(e.failure) then (Abort(s, s.pending, None), Denied)
    else
      var trimmed := s.(pending := map h | h in s.pending && !Stale(s.pending[h], e.now) :: s.pending[h]);
      if e.failure == Nowhere then (trimmed, Done) else (Abort(trimmed, s.pending, None), Denied)
  }

  function Step(s: State, e: Event, lib: Library): (State, Outcome)
  {
    match e
    case Create(_, _, _, _, _, _, _) => CreateStep(s, e, lib)
    case Consume(_, _, _, _, _, _) => ConsumeStep(s, e, lib)
    case Claim(_, _) => ClaimStep(s, e, lib)
    case Discard(_, _) => DiscardStep(s, e)
    case Revoke(_, _, _, _) => RevokeStep(s, e)
    case Maintain(_, _) => MaintainStep(s, e)
  }

  // ---------- the service ----------

  /** The table and the receipts are changed as the source changes them, one after the other,
      and taken back when the transaction raises. */
  class PendingActionService {
    var pending: map<Hash, Row>
    var records: map<nat, Record>
    var nextId: nat
    const lib: Library

    constructor (lib: Library)
      ensures this.lib == lib && Now() == State(map[], map[], 0)
    {
      this.lib := lib;
      pending, records, nextId := map[], map[], 0;
    }

    function Now(): State
      reads this
    {
      State(pending, records, nextId)
    }

    /** The rollback of the transaction and the removal of the receipt made in it. */
    method RollBack(saved: map<Hash, Row>, made: Option<Receipt>)
      modifies this`pending, this`records
      ensures Now() == Abort(old(Now()), saved, made)
    {
      pending := saved;
      if made.Some? && made.value.id in records && records[made.value.id].receipt == made.value {
        records := records - {made.value.id};
      }
    }

    method CreateAction(e: Event) returns (r: Outcome)
      requires e.Create?
      modifies this`pending, this`records
      ensures (Now(), r) == Step(old(Now()), e, lib)
    {
      hide ValidatedPayload, StoredPayload, ValidOwner, ValidToken;
      var payload := ValidatedPayload(e.payload, lib);
      if !e.ready || !ValidOwner(e.owner) || e.action !in ACTIONS || payload.None? {
        return Denied;
      }
      if !ValidToken(e.token) {
        return Denied;
      }
      if e.now + TEN_MINUTES > LAST_INSTANT {
        return Denied;
      }
      var before := pending;
      var hash := Sha256(e.token);
      if FailsEarly(e.failure) || hash in pending {
        RollBack(before, None);
        return Denied;
      }
      pending := pending[hash := Row(e.owner, e.action, payload.value.text, Readable(e.now + TEN_MINUTES), None)];
      if e.failure != Nowhere {
        RollBack(before, None);
        return Denied;
      }
      r := Issued(PendingAction(e.token, e.now + TEN_MINUTES));
    }

    method ConsumeAction(e: Event) returns (r: Outcome)
      requires e.Consume?
      modifies this
      ensures (Now(), r) == Step(old(Now()), e, lib)
    {
      hide ValidatedPayload, StoredPayload, ValidOwner, ValidToken;
      if !e.ready || !ValidToken(e.token) || !ValidOwner(e.owner) || !ValidOperation(e.operation) {
        return Denied;
      }
      var before := pending;
      var hash := Sha256(e.token);
      if e.failure == AtBegin || hash !in pending {
        RollBack(before, None);
        return Denied;
      }
      var row := pending[hash];
      var stored := StoredPayload(row.payloadJson, lib);
      if row.owner != e.owner || row.consumedAt.Some? || row.expires.Unreadable? || row.expires.at <= e.now
         || row.action !in ACTIONS || stored.None? {
        RollBack(before, None);
        return Denied;
      }
      if e.failure == AtStatement {
        RollBack(before, None);
        return Denied;
      }
      pending := pending[hash := row.(consumedAt := Some(e.now))];
      var result := Receipt(nextId, row.action, stored.value.frozen, e.owner, e.operation);
      nextId := nextId + 1;
      if e.failure == AfterStatement {
        RollBack(before, Some(result));
        return Denied;
      }
      records := records[result.id := Record(result, Fingerprint(row.action, stored.value.text, e.owner, e.operation))];
      if e.failure == AtCommit {
        RollBack(before, Some(result));
        return Denied;
      }
      r := Consumed(result);
    }

    method ClaimReceipt(e: Event) returns (r: Outcome)
      requires e.Claim?
      modifies this`records
      ensures (Now(), r) == Step(old(Now()), e, lib)
    {
      hide ValidatedPayload, StoredPayload, ValidOwner, ValidToken;
      if !e.ready {
        return Denied;
      }
      var fingerprint := FingerprintOf(e.receipt, lib);
      if fingerprint.None? || e.receipt.id !in records {
        return Denied;
      }
      var record := records[e.receipt.id];
      if record.receipt != e.receipt || record.fingerprint != fingerprint.value {
        return Denied;
      }
      records := records - {e.receipt.id};
      return Claimed;
    }

    method DiscardReceipt(e: Event) returns (r: Outcome)
      requires e.Discard?
      modifies this`records
      ensures (Now(), r) == Step(old(Now()), e, lib)
    {
      hide ValidatedPayload, StoredPayload, ValidOwner, ValidToken;
      if !e.ready || e.receipt.id !in records || records[e.receipt.id].receipt != e.receipt {
        return Denied;
      }
      records := records - {e.receipt.id};
      return Claimed;
    }

    method RevokeAction(e: Event) returns (r: Outcome)
      requires e.Revoke?
      modifies this`pending, this`records
      ensures (Now(), r) == Step(old(Now()), e, lib)
    {
      hide ValidatedPayload, StoredPayload, ValidOwner, ValidToken;
      if !e.ready || !ValidToken(e.token) || !ValidOwner(e.owner) {
        return Denied;
      }
      var before := pending;
      if FailsEarly(e.failure) {
        RollBack(before, None);
        return Denied;
      }
      var hash := Sha256(e.token);
      if hash in pending && pending[hash].owner == e.owner && pending[hash].consumedAt.None? {
        pending := pending - {hash};
      }
      if e.failure != Nowhere {
        RollBack(before, None);
        return Denied;
      }
      return Done;
    }
  }

  // ---------- runs ----------

  const EMPTY := State(map[], map[], 0)

  /** The state a run from the empty service reaches. */
  function After(run: seq<Event>, lib: Library): State
  {
    if run == [] then EMPTY else Step(After(run[..|run| - 1], lib), run[|run| - 1], lib).0
  }

  function OutcomeAt(run: seq<Event>, i: nat, lib: Library): Outcome
    requires i < |run|
  {
    Step(After(run[..i], lib), run[i], lib).1
  }

  lemma RunSnoc(run: seq<Event>, e: Event, lib: Library)
    ensures After(run + [e], lib) == Step(After(run, lib), e, lib).0
    ensures OutcomeAt(run + [e], |run|, lib) == Step(After(run, lib), e, lib).1
    ensures forall i :: 0 <= i < |run| ==> OutcomeAt(run + [e], i, lib) == OutcomeAt(run, i, lib)
  {
    hide Step;
    assert (run + [e])[..|run|] == run;
    forall i | 0 <= i < |run| ensures OutcomeAt(run + [e], i, lib) == OutcomeAt(run, i, lib) {
      assert (run + [e])[..i] == run[..i];
    }
  }

  // ---------- counting over a run ----------

  /** Times `create` issued a token. */
  ghost function Issues(run: seq<Event>, token: string, lib: Library): nat
  {
    if run == [] then 0
    else
      var i := |run| - 1;
      Issues(run[..i], token, lib) +
      if run[i].Create? && run[i].token == token && OutcomeAt(run, i, lib).Issued? then 1 else 0
  }

  /** Receipts a token was turned into. */
  ghost function Yields(run: seq<Event>, token: string, lib: Library): nat
  {
    if run == [] then 0
    else
      var i := |run| - 1;
      Yields(run[..i], token, lib) +
      if run[i].Consume? && run[i].token == token && OutcomeAt(run, i, lib).Consumed? then 1 else 0
  }

  /** Times a receipt object was made. */
  ghost function Mints(run: seq<Event>, id: nat, lib: Library): nat
  {
    if run == [] then 0
    else
      var i := |run| - 1;
      Mints(run[..i], id, lib) +
      if OutcomeAt(run, i, lib).Consumed? && OutcomeAt(run, i, lib).receipt.id == id then 1 else 0
  }

  /** Times a receipt was claimed or discarded. */
  ghost function Spends(run: seq<Event>, id: nat, lib: Library): nat
  {
    if run == [] then 0
    else
      var i := |run| - 1;
      Spends(run[..i], id, lib) +
      if (run[i].Claim? || run[i].Discard?) && run[i].receipt.id == id && OutcomeAt(run, i, lib).Claimed? then 1 else 0
  }

  ghost predicate Live(s: State, token: string)
  {
    Sha256(token) in s.pending && s.pending[Sha256(token)].consumedAt.None?
  }

  function Unit(b: bool): nat
  {
    if b then 1 else 0
  }

  lemma EmptyRun(lib: Library)
    ensures After([], lib) == EMPTY
  {
  }

  lemma LastStep(run: seq<Event>, lib: Library)
    requires run != []
    ensures var i := |run| - 1;
            (After(run, lib), OutcomeAt(run, i, lib)) == Step(After(run[..i], lib), run[i], lib)
  {
  }

  /** A token never yields more receipts than `create` issued it, whatever else happens. */
  lemma {:induction false} YieldsWithinIssues(run: seq<Event>, token: string, lib: Library)
    ensures Yields(run, token, lib) + Unit(Live(After(run, lib), token)) <= Issues(run, token, lib)
  {
    hide After, OutcomeAt, ValidatedPayload, StoredPayload, ValidOwner, ValidToken;
    if run == [] {
      EmptyRun(lib);
    } else {
      LastStep(run, lib);
      YieldsWithinIssues(run[..|run| - 1], token, lib);
    }
  }

  /** How one step changes which receipts are held. */
  lemma HeldAfterStep(s: State, e: Event, id: nat, lib: Library)
    ensures var t, r := Step(s, e, lib).0, Step(s, e, lib).1;
            if r.Consumed? then
              r.receipt.id == s.nextId && t.nextId == s.nextId + 1 && (id in t.records <==> id in s.records || id == s.nextId)
            else if r.Claimed? then
              && (e.Claim? || e.Discard?) && e.receipt.id in s.records && t.nextId == s.nextId
              && (id in t.records <==> id in s.records && id != e.receipt.id)
            else
              t.nextId >= s.nextId && (id != s.nextId || id !in s.records ==> (id in t.records <==> id in s.records))
  {
    hide ValidatedPayload, StoredPayload, ValidOwner, ValidToken, Stale;
  }

  /** A receipt is claimed or discarded at most once, and only after it was handed out. */
  lemma {:induction false} SpendsAtMostOnce(run: seq<Event>, id: nat, lib: Library)
    ensures Spends(run, id, lib) + Unit(id in After(run, lib).records) == Mints(run, id, lib) <= 1
    ensures id >= After(run, lib).nextId ==> Mints(run, id, lib) == 0
  {
    hide After, OutcomeAt, Step;
    if run == [] {
      EmptyRun(lib);
    } else {
      LastStep(run, lib);
      HeldAfterStep(After(run[..|run| - 1], lib), run[|run| - 1], id, lib);
      SpendsAtMostOnce(run[..|run| - 1], id, lib);
    }
  }

  /** Tokens drawn afresh each time. */
  ghost predicate FreshTokens(run: seq<Event>)
  {
    forall i, j :: 0 <= i < j < |run| && run[i].Create? && run[j].Create? ==> run[i].token != run[j].token
  }

  lemma {:induction false} IssuedOnce(run: seq<Event>, token: string, lib: Library)
    requires FreshTokens(run)
    ensures Issues(run, token, lib) <= 1
    ensures Issues(run, token, lib) == 1 ==> exists i :: 0 <= i < |run| && run[i].Create? && run[i].token == token
  {
    hide OutcomeAt;
    if run != [] {
      var n := |run| - 1;
      IssuedOnce(run[..n], token, lib);
      assert Issues(run, token, lib) > Issues(run[..n], token, lib) ==> run[n].Create? && run[n].token == token;
    }
  }

  /** With fresh tokens, each token yields at most one receipt. */
  lemma OneReceiptPerToken(run: seq<Event>, token: string, lib: Library)
    requires FreshTokens(run)
    ensures Yields(run, token, lib) <= 1
  {
    YieldsWithinIssues(run, token, lib);
    IssuedOnce(run, token, lib);
  }

  // ---------- where receipts come from ----------

  /** Every payload handed to `create` is a value a Python program can hold. */
  ghost predicate RealPayloads(run: seq<Event>, lib: Library)
  {
    forall i :: 0 <= i < |run| && run[i].Create? ==> Real(run[i].payload, lib)
  }

  /** Step `k` created the row. */
  ghost predicate CreatedAt(run: seq<Event>, k: nat, h: Hash, row: Row, lib: Library)
  {
    && k < |run| && run[k].Create? && OutcomeAt(run, k, lib).Issued?
    && h == Sha256(run[k].token) && row.owner == run[k].owner && row.action == run[k].action
    && row.action in ACTIONS && row.expires == Readable(run[k].now + TEN_MINUTES)
    && ValidatedPayload(run[k].payload, lib).Some?
    && row.payloadJson == ValidatedPayload(run[k].payload, lib).value.text
  }

  /** Step `i` turned the token created at `k` into the receipt: the same owner, strictly
      before the expiry, with the created action and payload. */
  ghost predicate Origin(run: seq<Event>, k: nat, i: nat, receipt: Receipt, lib: Library)
  {
    && k < i < |run| && run[k].Create? && run[i].Consume? && run[k].token == run[i].token
    && OutcomeAt(run, k, lib).Issued? && OutcomeAt(run, i, lib) == Consumed(receipt)
    && run[k].owner == run[i].owner == receipt.owner
    && run[i].now < run[k].now + TEN_MINUTES
    && receipt.action == run[k].action && receipt.operation == run[i].operation
    && ValidatedPayload(run[k].payload, lib).Some?
    && receipt.payload == ValidatedPayload(run[k].payload, lib).value.frozen
  }

  ghost predicate RowsBacked(run: seq<Event>, lib: Library)
  {
    forall h :: h in After(run, lib).pending ==> exists k: nat :: CreatedAt(run, k, h, After(run, lib).pending[h], lib)
  }

  ghost predicate RecordBacked(run: seq<Event>, record: Record, lib: Library)
  {
    && (exists k: nat, i: nat :: Origin(run, k, i, record.receipt, lib))
    && FingerprintOf(record.receipt, lib) == Some(record.fingerprint)
  }

  ghost predicate RecordsBacked(run: seq<Event>, lib: Library)
  {
    forall id :: id in After(run, lib).records ==> RecordBacked(run, After(run, lib).records[id], lib)
  }

  lemma CreatedStays(run: seq<Event>, e: Event, k: nat, h: Hash, row: Row, consumedAt: Option<int>, lib: Library)
    requires CreatedAt(run, k, h, row, lib)
    ensures CreatedAt(run + [e], k, h, row.(consumedAt := consumedAt), lib)
  {
    hide ValidatedPayload, Step;
    RunSnoc(run, e, lib);
  }

  lemma OriginStays(run: seq<Event>, e: Event, k: nat, i: nat, receipt: Receipt, lib: Library)
    requires Origin(run, k, i, receipt, lib)
    ensures Origin(run + [e], k, i, receipt, lib)
  {
    hide ValidatedPayload, Step;
    RunSnoc(run, e, lib);
  }

  /** A row after a step is one that was there, perhaps consumed now, or a new one. */
  lemma RowAfterStep(s: State, e: Event, h: Hash, lib: Library)
    requires h in Step(s, e, lib).0.pending
    ensures var row := Step(s, e, lib).0.pending[h];
            || (h in s.pending && row == s.pending[h].(consumedAt := row.consumedAt))
            || (e.Create? && CreateStep(s, e, lib).1.Issued? && h == Sha256(e.token))
  {
    hide ValidatedPayload, StoredPayload, ValidOwner, ValidToken, Stale;
  }

  lemma IssuedRow(s: State, e: Event, lib: Library)
    requires e.Create? && CreateStep(s, e, lib).1.Issued?
    ensures Sha256(e.token) in CreateStep(s, e, lib).0.pending && ValidatedPayload(e.payload, lib).Some?
    ensures CreateStep(s, e, lib).0.pending[Sha256(e.token)] ==
            Row(e.owner, e.action, ValidatedPayload(e.payload, lib).value.text, Readable(e.now + TEN_MINUTES), None)
    ensures e.action in ACTIONS
  {
    hide ValidatedPayload, ValidOwner, ValidToken;
  }

  lemma {:induction false} RowsHaveCreators(run: seq<Event>, lib: Library)
    ensures RowsBacked(run, lib)
  {
    hide ValidatedPayload, Step, CreateStep, CreatedAt;
    if run == [] {
      EmptyRun(lib);
    } else {
      var n := |run| - 1;
      var front, e := run[..n], run[n];
      RowsHaveCreators(front, lib);
      var s := After(front, lib);
      assert run == front + [e];
      RunSnoc(front, e, lib);
      forall h | h in After(run, lib).pending
        ensures exists k: nat :: CreatedAt(run, k, h, After(run, lib).pending[h], lib)
      {
        RowAfterStep(s, e, h, lib);
        var row := After(run, lib).pending[h];
        if e.Create? && CreateStep(s, e, lib).1.Issued? && h == Sha256(e.token) {
          NewRowBacked(front, e, lib);
          assert CreatedAt(run, n, h, row, lib);
        } else {
          var k: nat :| CreatedAt(front, k, h, s.pending[h], lib);
          CreatedStays(front, e, k, h, s.pending[h], row.consumedAt, lib);
          assert CreatedAt(run, k, h, row, lib);
        }
      }
    }
  }

  lemma NewRowBacked(front: seq<Event>, e: Event, lib: Library)
    requires e.Create? && CreateStep(After(front, lib), e, lib).1.Issued?
    ensures var h, run := Sha256(e.token), front + [e];
            h in After(run, lib).pending && CreatedAt(run, |front|, h, After(run, lib).pending[h], lib)
  {
    hide ValidatedPayload, CreateStep;
    RunSnoc(front, e, lib);
    IssuedRow(After(front, lib), e, lib);
  }

  lemma ConsumedReceipt(s: State, e: Event, lib: Library)
    requires e.Consume? && ConsumeStep(s, e, lib).1.Consumed?
    ensures Sha256(e.token) in s.pending
    ensures var row, receipt := s.pending[Sha256(e.token)], ConsumeStep(s, e, lib).1.receipt;
            && row.owner == e.owner && row.expires.Readable? && e.now < row.expires.at
            && StoredPayload(row.payloadJson, lib).Some?
            && receipt == Receipt(s.nextId, row.action, StoredPayload(row.payloadJson, lib).value.frozen, e.owner, e.operation)
            && ConsumeStep(s, e, lib).0.records == s.records[s.nextId :=
                 Record(receipt, Fingerprint(row.action, StoredPayload(row.payloadJson, lib).value.text, e.owner, e.operation))]
  {
    hide StoredPayload, ValidOwner, ValidToken;
  }

  /** The receipt made from the row created at `k`. */
  lemma NewReceiptOrigin(front: seq<Event>, e: Event, k: nat, lib: Library)
    requires RealPayloads(front, lib)
    requires e.Consume? && ConsumeStep(After(front, lib), e, lib).1.Consumed?
    requires Sha256(e.token) in After(front, lib).pending
    requires CreatedAt(front, k, Sha256(e.token), After(front, lib).pending[Sha256(e.token)], lib)
    ensures Origin(front + [e], k, |front|, ConsumeStep(After(front, lib), e, lib).1.receipt, lib)
  {
    hide ValidatedPayload, StoredPayload, ConsumeStep, After, OutcomeAt, Real;
    ConsumedReceipt(After(front, lib), e, lib);
    RunSnoc(front, e, lib);
    StoredIsReread(front[k].payload, lib);
  }

  lemma NewReceiptFingerprint(s: State, e: Event, v: PyValue, lib: Library)
    requires e.Consume? && ConsumeStep(s, e, lib).1.Consumed? && Sha256(e.token) in s.pending
    requires Real(v, lib) && ValidatedPayload(v, lib).Some?
    requires s.pending[Sha256(e.token)].payloadJson == ValidatedPayload(v, lib).value.text
    ensures var s1, receipt := ConsumeStep(s, e, lib).0, ConsumeStep(s, e, lib).1.receipt;
            && s.nextId in s1.records && s1.records[s.nextId].receipt == receipt
            && FingerprintOf(receipt, lib) == Some(s1.records[s.nextId].fingerprint)
  {
    hide ValidatedPayload, StoredPayload, ConsumeStep, Real;
    ConsumedReceipt(s, e, lib);
    StoredIsReread(v, lib);
  }

  lemma NewReceiptBacked(front: seq<Event>, e: Event, lib: Library)
    requires RealPayloads(front, lib)
    requires e.Consume? && ConsumeStep(After(front, lib), e, lib).1.Consumed?
    ensures var s := After(front, lib);
            s.nextId in After(front + [e], lib).records && RecordBacked(front + [e], After(front + [e], lib).records[s.nextId], lib)
  {
    hide ValidatedPayload, StoredPayload, ConsumeStep, Origin, FingerprintOf, Real, OutcomeAt, After;
    var s := After(front, lib);
    RunSnoc(front, e, lib);
    ConsumedReceipt(s, e, lib);
    RowsHaveCreators(front, lib);
    var k: nat :| CreatedAt(front, k, Sha256(e.token), s.pending[Sha256(e.token)], lib);
    NewReceiptOrigin(front, e, k, lib);
    NewReceiptFingerprint(s, e, front[k].payload, lib);
  }

  /** A receipt held after a step was held before it, or is the one the step made. */
  lemma RecordAfterStep(s: State, e: Event, id: nat, lib: Library)
    requires id in Step(s, e, lib).0.records
    ensures || (id in s.records && s.records[id] == Step(s, e, lib).0.records[id])
            || (e.Consume? && ConsumeStep(s, e, lib).1.Consumed? && id == s.nextId)
  {
    hide ValidatedPayload, StoredPayload, ValidOwner, ValidToken, Stale;
  }

  lemma {:induction false} ReceiptsHaveOrigins(run: seq<Event>, lib: Library)
    requires RealPayloads(run, lib)
    ensures RecordsBacked(run, lib)
  {
    hide ValidatedPayload, Step, ConsumeStep, Origin, FingerprintOf;
    if run == [] {
      EmptyRun(lib);
    } else {
      var n := |run| - 1;
      var front, e := run[..n], run[n];
      ReceiptsHaveOrigins(front, lib);
      assert run == front + [e];
      RunSnoc(front, e, lib);
      forall id | id in After(run, lib).records ensures RecordBacked(run, After(run, lib).records[id], lib) {
        RecordAfterStep(After(front, lib), e, id, lib);
        if e.Consume? && ConsumeStep(After(front, lib), e, lib).1.Consumed? && id == After(front, lib).nextId {
          NewReceiptBacked(front, e, lib);
        } else {
          var record := After(front, lib).records[id];
          var k: nat, i: nat :| Origin(front, k, i, record.receipt, lib);
          OriginStays(front, e, k, i, record.receipt, lib);
        }
      }
    }
  }

  lemma PrefixOutcome(run: seq<Event>, j: nat, i: nat, lib: Library)
    requires i < j <= |run|
    ensures OutcomeAt(run[..j], i, lib) == OutcomeAt(run, i, lib)
  {
    hide Step;
    assert run[..j][..i] == run[..i];
  }

  /** A claim succeeds only on a receipt that the owner of an issued token obtained
      earlier, strictly before the token expired, for the action and payload created. */
  lemma ClaimHasOrigin(run: seq<Event>, j: nat, lib: Library)
    requires RealPayloads(run, lib)
    requires j < |run| && run[j].Claim? && OutcomeAt(run, j, lib).Claimed?
    ensures exists k: nat, i: nat ::
              && k < i < j && run[k].Create? && run[i].Consume? && run[k].token == run[i].token
              && OutcomeAt(run, k, lib).Issued? && OutcomeAt(run, i, lib) == Consumed(run[j].receipt)
              && run[k].owner == run[i].owner == run[j].receipt.owner && run[i].now < run[k].now + 600_000_000
              && run[j].receipt.action == run[k].action && run[j].receipt.operation == run[i].operation
              && ValidatedPayload(run[k].payload, lib).Some?
              && run[j].receipt.payload == ValidatedPayload(run[k].payload, lib).value.frozen
  {
    hide ValidatedPayload, OutcomeAt, FingerprintOf;
    ReceiptsHaveOrigins(run[..j], lib);
    var receipt := run[j].receipt;
    assert Holds(After(run[..j], lib), receipt) by {
      ClaimedWasHeld(After(run[..j], lib), run[j], lib);
      ClaimOutcome(run, j, lib);
    }
    var k: nat, i: nat :| Origin(run[..j], k, i, receipt, lib);
    PrefixOutcome(run, j, k, lib);
    PrefixOutcome(run, j, i, lib);
    assert Origin(run, k, i, receipt, lib);
  }

  lemma ClaimOutcome(run: seq<Event>, j: nat, lib: Library)
    requires j < |run| && run[j].Claim?
    ensures OutcomeAt(run, j, lib) == ClaimStep(After(run[..j], lib), run[j], lib).1
  {
  }

  lemma ClaimedWasHeld(s: State, e: Event, lib: Library)
    requires e.Claim?
    ensures ClaimStep(s, e, lib).1.Claimed? ==> Holds(s, e.receipt)
  {
  }

  /** In every reachable state a claim succeeds exactly on a receipt the service holds:
      recomputing the fingerprint never refuses a genuine one. */
  lemma ClaimExactly(run: seq<Event>, e: Event, lib: Library)
    requires RealPayloads(run, lib) && e.Claim?
    ensures ClaimStep(After(run, lib), e, lib).1.Claimed? <==> e.ready && Holds(After(run, lib), e.receipt)
  {
    hide FingerprintOf, After;
    ReceiptsHaveOrigins(run, lib);
  }

  /** In every reachable state a well-formed consume succeeds exactly on an unconsumed,
      unexpired row of the caller: the stored payload, action and expiry text are never
      refused. */
  lemma ConsumeExactly(run: seq<Event>, e: Event, lib: Library)
    requires RealPayloads(run, lib) && e.Consume?
    requires e.ready && ValidToken(e.token) && ValidOwner(e.owner) && ValidOperation(e.operation) && e.failure == Nowhere
    ensures ConsumeStep(After(run, lib), e, lib).1.Consumed? <==>
            && Sha256(e.token) in After(run, lib).pending
            && var row := After(run, lib).pending[Sha256(e.token)];
               row.owner == e.owner && row.consumedAt.None? && e.now < row.expires.at
  {
    hide StoredPayload, ValidatedPayload, ValidToken, ValidOwner, ValidOperation, After, OutcomeAt, Real;
    RowsHaveCreators(run, lib);
    var h := Sha256(e.token);
    if h in After(run, lib).pending {
      var k: nat :| CreatedAt(run, k, h, After(run, lib).pending[h], lib);
      StoredIsReread(run[k].payload, lib);
    }
  }

  lemma NextIdIsFree(run: seq<Event>, lib: Library)
    ensures After(run, lib).nextId !in After(run, lib).records
  {
    SpendsAtMostOnce(run, After(run, lib).nextId, lib);
  }

  /** In every reachable state, wherever the transaction raises, no row is changed and no
      receipt is left behind; before the statement there was not even an identity used up. */
  lemma FailedTransactionLeavesNothing(run: seq<Event>, e: Event, lib: Library)
    requires (e.Create? || e.Consume? || e.Revoke? || e.Maintain?) && e.failure != Nowhere
    ensures var s := After(run, lib);
            && Step(s, e, lib).1 == Denied
            && Step(s, e, lib).0.pending == s.pending && Step(s, e, lib).0.records == s.records
            && (FailsEarly(e.failure) ==> Step(s, e, lib).0 == s)
  {
    hide ValidatedPayload, StoredPayload, ValidOwner, ValidToken, Stale, After;
    NextIdIsFree(run, lib);
  }

  // ---------- maintenance is invisible ----------

  /** The run with its maintenance steps left out. */
  function WithoutMaintenance(run: seq<Event>): (r: seq<Event>)
    ensures |r| <= |run|
  {
    if run == [] then []
    else
      var front, e := run[..|run| - 1], run[|run| - 1];
      WithoutMaintenance(front) + if e.Maintain? then [] else [e]
  }

  predicate Timed(e: Event)
  {
    e.Create? || e.Consume? || e.Maintain?
  }

  ghost predicate MonotoneClock(run: seq<Event>)
  {
    forall i, j :: 0 <= i < j < |run| && Timed(run[i]) && Timed(run[j]) ==> run[i].now <= run[j].now
  }

  /** A row no later consume can use: consumed, or expired by a maintenance run so far. */
  ghost predicate Dead(run: seq<Event>, row: Row)
  {
    row.consumedAt.Some? || exists m :: 0 <= m < |run| && run[m].Maintain? && row.expires.at <= run[m].now
  }

  /** `s` comes from `run`, `t` from the same run without maintenance: they differ only in
      dead rows that maintenance deleted. */
  ghost predicate Simulates(s: State, t: State, run: seq<Event>)
  {
    && s.records == t.records && s.nextId == t.nextId
    && (forall h :: h in s.pending ==> h in t.pending && t.pending[h] == s.pending[h])
    && (forall h :: h in t.pending && h !in s.pending ==> Dead(run, t.pending[h]))
  }

  ghost predicate TokensSeen(t: State, run: seq<Event>)
  {
    forall h :: h in t.pending ==> exists i :: 0 <= i < |run| && run[i].Create? && h == Sha256(run[i].token)
  }

  lemma DeadStays(run: seq<Event>, e: Event, row: Row)
    requires Dead(run, row)
    ensures Dead(run + [e], row)
  {
    if row.consumedAt.None? {
      var m :| 0 <= m < |run| && run[m].Maintain? && row.expires.at <= run[m].now;
      assert (run + [e])[m] == run[m];
    }
  }

  lemma MaintainSimulates(s: State, t: State, run: seq<Event>, e: Event, lib: Library)
    requires Simulates(s, t, run) && e.Maintain?
    ensures Simulates(Step(s, e, lib).0, t, run + [e])
  {
    var s1 := MaintainStep(s, e).0;
    forall h | h in t.pending && h !in s1.pending ensures Dead(run + [e], t.pending[h]) {
      if h in s.pending {
        assert Stale(s.pending[h], e.now);
        assert (run + [e])[|run|] == e;
      } else {
        DeadStays(run, e, t.pending[h]);
      }
    }
  }

  /** A consume sees a dead row as it sees no row. */
  lemma DeadIsRefused(t: State, run: seq<Event>, e: Event, lib: Library)
    requires e.Consume? && MonotoneClock(run + [e])
    requires Sha256(e.token) in t.pending && Dead(run, t.pending[Sha256(e.token)])
    ensures !Consumable(t, e, lib)
  {
    hide StoredPayload, ValidToken, ValidOwner;
    var row := t.pending[Sha256(e.token)];
    if row.consumedAt.None? {
      var m :| 0 <= m < |run| && run[m].Maintain? && row.expires.at <= run[m].now;
      assert (run + [e])[m] == run[m] && (run + [e])[|run|] == e;
      assert run[m].now <= e.now;
    }
  }

  lemma ConsumeSimulates(s: State, t: State, run: seq<Event>, e: Event, lib: Library)
    requires Simulates(s, t, run) && e.Consume? && MonotoneClock(run + [e])
    ensures ConsumeStep(s, e, lib).1 == ConsumeStep(t, e, lib).1
    ensures Simulates(ConsumeStep(s, e, lib).0, ConsumeStep(t, e, lib).0, run)
  {
    hide ConsumeStep, ValidToken, ValidOwner, MonotoneClock, Dead, Consumable;
    SameConsumable(s, t, run, e, lib);
    SameConsume(s, t, e, lib);
  }

  /** Two tables that agree on the token's row are changed alike. */
  lemma SameConsume(s: State, t: State, e: Event, lib: Library)
    requires e.Consume? && s.records == t.records && s.nextId == t.nextId
    requires Consumable(s, e, lib) <==> Consumable(t, e, lib)
    requires var h := Sha256(e.token);
             Consumable(s, e, lib) ==> h in s.pending && h in t.pending && s.pending[h] == t.pending[h]
    ensures var h, a, b := Sha256(e.token), ConsumeStep(s, e, lib), ConsumeStep(t, e, lib);
            && a.1 == b.1 && a.0.records == b.0.records && a.0.nextId == b.0.nextId
            && ((a.0.pending == s.pending && b.0.pending == t.pending)
                || (h in s.pending && h in t.pending && s.pending[h] == t.pending[h]
                    && var row := s.pending[h].(consumedAt := Some(e.now));
                       a.0.pending == s.pending[h := row] && b.0.pending == t.pending[h := row]))
  {
    hide StoredPayload, ValidToken, ValidOwner;
  }

  lemma SameConsumable(s: State, t: State, run: seq<Event>, e: Event, lib: Library)
    requires Simulates(s, t, run) && e.Consume? && MonotoneClock(run + [e])
    ensures Consumable(s, e, lib) <==> Consumable(t, e, lib)
    ensures Consumable(s, e, lib) ==> Sha256(e.token) in s.pending && StoredPayload(s.pending[Sha256(e.token)].payloadJson, lib).Some?
  {
    hide StoredPayload, ValidToken, ValidOwner, MonotoneClock, Dead;
    var h := Sha256(e.token);
    if h in t.pending && h !in s.pending {
      DeadIsRefused(t, run, e, lib);
    }
  }

  lemma OtherSimulates(s: State, t: State, run: seq<Event>, e: Event, lib: Library)
    requires Simulates(s, t, run) && (e.Create? || e.Claim? || e.Discard? || e.Revoke?)
    requires e.Create? ==> Sha256(e.token) !in t.pending
    ensures Step(s, e, lib).1 == Step(t, e, lib).1
    ensures Simulates(Step(s, e, lib).0, Step(t, e, lib).0, run)
  {
    hide ValidatedPayload, ValidToken, ValidOwner, Dead, FingerprintOf;
  }

  lemma SimulatesLonger(s: State, t: State, run: seq<Event>, e: Event)
    requires Simulates(s, t, run)
    ensures Simulates(s, t, run + [e])
  {
    hide Dead;
    forall h | h in t.pending && h !in s.pending ensures Dead(run + [e], t.pending[h]) {
      DeadStays(run, e, t.pending[h]);
    }
  }

  lemma StepSimulates(s: State, t: State, run: seq<Event>, e: Event, lib: Library)
    requires Simulates(s, t, run) && TokensSeen(t, run)
    requires MonotoneClock(run + [e]) && FreshTokens(run + [e])
    ensures e.Maintain? ==> Simulates(Step(s, e, lib).0, t, run + [e])
    ensures !e.Maintain? ==> Step(s, e, lib).1 == Step(t, e, lib).1
                             && Simulates(Step(s, e, lib).0, Step(t, e, lib).0, run + [e])
  {
    hide ConsumeStep, CreateStep, ClaimStep, DiscardStep, RevokeStep, MaintainStep, Simulates, MonotoneClock;
    if e.Maintain? {
      MaintainSimulates(s, t, run, e, lib);
    } else {
      if e.Consume? {
        ConsumeSimulates(s, t, run, e, lib);
      } else {
        forall i | 0 <= i < |run| && run[i].Create? && e.Create? ensures run[i].token != e.token {
          assert (run + [e])[i] == run[i] && (run + [e])[|run|] == e;
        }
        OtherSimulates(s, t, run, e, lib);
      }
      SimulatesLonger(Step(s, e, lib).0, Step(t, e, lib).0, run, e);
    }
  }

  lemma TokensSeenStep(t: State, run: seq<Event>, e: Event, lib: Library)
    requires TokensSeen(t, run)
    ensures TokensSeen(t, run + [e]) && TokensSeen(Step(t, e, lib).0, run + [e])
  {
    hide Step;
    assert forall i :: 0 <= i < |run| ==> (run + [e])[i] == run[i];
    assert (run + [e])[|run|] == e;
    forall h | h in Step(t, e, lib).0.pending
      ensures exists i :: 0 <= i < |run + [e]| && (run + [e])[i].Create? && h == Sha256((run + [e])[i].token)
    {
      RowAfterStep(t, e, h, lib);
    }
  }

  lemma {:induction false} RunsSimulate(run: seq<Event>, lib: Library)
    requires MonotoneClock(run) && FreshTokens(run)
    ensures Simulates(After(run, lib), After(WithoutMaintenance(run), lib), run)
    ensures TokensSeen(After(WithoutMaintenance(run), lib), run)
  {
    hide Step, Simulates, TokensSeen;
    if run == [] {
      EmptyRun(lib);
      EmptySimulates();
    } else {
      var n := |run| - 1;
      var front, e := run[..n], run[n];
      RunsSimulate(front, lib);
      assert run == front + [e];
      var s, t := After(front, lib), After(WithoutMaintenance(front), lib);
      StepSimulates(s, t, front, e, lib);
      TokensSeenStep(t, front, e, lib);
      RunSnoc(front, e, lib);
      if !e.Maintain? {
        RunSnoc(WithoutMaintenance(front), e, lib);
      } else {
        assert WithoutMaintenance(run) == WithoutMaintenance(front);
      }
    }
  }

  lemma EmptySimulates()
    ensures Simulates(EMPTY, EMPTY, []) && TokensSeen(EMPTY, [])
  {
  }

  /** With a clock that never runs back and fresh tokens, interleaved maintenance never
      changes what any other operation returns. */
  lemma MaintenanceIsInvisible(run: seq<Event>, i: nat, lib: Library)
    requires MonotoneClock(run) && FreshTokens(run)
    requires i < |run| && !run[i].Maintain?
    ensures var j := |WithoutMaintenance(run[..i])|;
            && j < |WithoutMaintenance(run[..i + 1])| && WithoutMaintenance(run[..i + 1])[j] == run[i]
            && OutcomeAt(run, i, lib) == OutcomeAt(WithoutMaintenance(run[..i + 1]), j, lib)
  {
    hide Step, Simulates, TokensSeen, After;
    var front, e := run[..i], run[i];
    assert run[..i + 1] == front + [e] && run[..i + 1][..i] == front;
    RunsSimulate(front, lib);
    StepSimulates(After(front, lib), After(WithoutMaintenance(front), lib), front, e, lib);
    var kept := WithoutMaintenance(front);
    assert WithoutMaintenance(run[..i + 1]) == kept + [e];
    assert (kept + [e])[..|kept|] == kept;
  }
}
