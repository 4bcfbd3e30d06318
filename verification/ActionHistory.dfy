/** One-time actions seen from outside: which rows and receipts there are, and which operations
    succeed, is said by what was called before and what it returned. */
module ActionHistory {
  import opened Order
  import opened Digest
  import opened Decimals
  import opened ActionPayload
  import opened PendingActions
  import J = JsonText

  // ---------- texts ----------

  /** An owner is `telegram-user:` and a positive number of at most nineteen digits. */
  lemma OwnerMeans(s: string)
    ensures ValidOwner(s) <==>
            exists n: nat :: 0 < n < 10_000_000_000_000_000_000 && s == "telegram-user:" + J.Digits(n)
  {
    var p := "telegram-user:";
    if |s| > 14 {
      assert s == s[..14] + s[14..];
      PositiveNumber(s[14..]);
    }
    if ValidOwner(s) {
      assert forall i :: 0 <= i < |s[14..]| ==> s[14..][i] == s[14 + i];
      assert J.AllDigits(s[14..]);
      var n: nat :| 0 < n < 10_000_000_000_000_000_000 && s[14..] == J.Digits(n);
      assert s == p + J.Digits(n);
    }
    forall n: nat | 0 < n < 10_000_000_000_000_000_000 && s == p + J.Digits(n) ensures ValidOwner(s) {
      J.DigitsShape(n);
      assert s[..14] == p && s[14..] == J.Digits(n);
      assert forall i :: 14 <= i < |s| ==> s[i] == s[14..][i - 14];
    }
  }

  /** A token is 32 letters, digits, underscores or dashes; an operation is one of two. */
  lemma TokenMeans(s: string)
    ensures ValidToken(s) <==>
            |s| == 32 && forall i :: 0 <= i < |s| ==>
              'A' <= s[i] <= 'Z' || 'a' <= s[i] <= 'z' || '0' <= s[i] <= '9' || s[i] in {'_', '-'}
    ensures ValidOperation(s) <==> s in {"confirm", "edit"}
  {
  }

  // ---------- one step, seen from one row ----------

  /** A step changes the row of a token in four ways only, each told by its outcome: it is
      issued, where it was not; it is consumed; its owner revokes it unconsumed; or maintenance
      finds it consumed or expired more than a day ago. */
  lemma RowStep(s: State, e: Event, token: string, lib: Library)
    ensures var h, after, r := Sha256(token), Step(s, e, lib).0.pending, Step(s, e, lib).1;
            if e.Create? && e.token == token && r.Issued? then
              h !in s.pending && h in after && ValidatedPayload(e.payload, lib).Some?
              && after[h] == Row(e.owner, e.action, ValidatedPayload(e.payload, lib).value.text, Readable(e.now + 600_000_000), None)
            else if e.Consume? && e.token == token && r.Consumed? then
              h in s.pending && s.pending[h].consumedAt == None && h in after && after[h] == s.pending[h].(consumedAt := Some(e.now))
            else if e.Revoke? && e.token == token && r.Done? && h in s.pending
                    && s.pending[h].owner == e.owner && s.pending[h].consumedAt == None then
              h !in after
            else if e.Maintain? && r.Done? && h in s.pending
                    && ((s.pending[h].consumedAt.Some? && s.pending[h].consumedAt.value < e.now - 86_400_000_000)
                        || s.pending[h].expires.at < e.now - 86_400_000_000) then
              h !in after
            else
              (h in after <==> h in s.pending) && (h in after ==> after[h] == s.pending[h])
  {
    hide ValidatedPayload, StoredPayload, ValidOwner, ValidToken, FingerprintOf;
  }

  /** Which calls succeed, said of the table they find. */
  lemma CreateSucceeds(s: State, e: Event, lib: Library)
    requires e.Create?
    ensures Step(s, e, lib).1.Issued? <==>
            && e.ready && ValidOwner(e.owner) && ValidToken(e.token) && ValidatedPayload(e.payload, lib).Some?
            && e.action in {"create", "delete", "pause", "repair_activation", "resume", "schedule_change", "select_url", "update"}
            && e.now + 600_000_000 <= 315_537_897_599_999_999
            && Sha256(e.token) !in s.pending && e.failure == Nowhere
    ensures Step(s, e, lib).1.Issued? ==> Step(s, e, lib).1 == Issued(PendingAction(e.token, e.now + 600_000_000))
    ensures !Step(s, e, lib).1.Issued? ==> Step(s, e, lib).1 == Denied
  {
    hide ValidatedPayload, ValidOwner, ValidToken;
  }

  lemma RevokeSucceeds(s: State, e: Event, lib: Library)
    requires e.Revoke?
    ensures Step(s, e, lib).1 ==
            if e.ready && ValidOwner(e.owner) && ValidToken(e.token) && e.failure == Nowhere then Done else Denied
    ensures Step(s, e, lib).0.records == s.records
  {
    hide ValidOwner, ValidToken;
  }

  lemma MaintainSucceeds(s: State, e: Event, lib: Library)
    requires e.Maintain?
    ensures Step(s, e, lib).1 == if e.failure == Nowhere then Done else Denied
    ensures Step(s, e, lib).0.records == s.records
  {
  }

  /** A revoke by another owner, of a consumed row or of none, or one that fails, leaves every
      row as it was, and no revoke touches the row of another token. */
  lemma RevokeLeaves(s: State, e: Event, token: string, lib: Library)
    requires e.Revoke?
    requires || e.token != token || !Step(s, e, lib).1.Done?
             || Sha256(token) !in s.pending || s.pending[Sha256(token)].owner != e.owner || s.pending[Sha256(token)].consumedAt.Some?
    ensures var h, after := Sha256(token), Step(s, e, lib).0.pending;
            (h in after <==> h in s.pending) && (h in after ==> after[h] == s.pending[h])
  {
    hide Step;
    RowStep(s, e, token, lib);
  }

  // ---------- rows are what the history says ----------

  /** Step `j` ends what step `k` issued: the token is consumed, or revoked by its owner, or
      maintenance runs more than a day after its expiry. */
  ghost predicate Ended(run: seq<Event>, k: nat, j: nat, lib: Library)
    requires k < |run| && j < |run| && run[k].Create?
  {
    || (run[j].Consume? && run[j].token == run[k].token && OutcomeAt(run, j, lib).Consumed?)
    || (run[j].Revoke? && run[j].token == run[k].token && run[j].owner == run[k].owner && OutcomeAt(run, j, lib).Done?)
    || (run[j].Maintain? && OutcomeAt(run, j, lib).Done? && run[k].now + 600_000_000 < run[j].now - 86_400_000_000)
  }

  /** Step `k` issued the token, and nothing has ended it since. */
  ghost predicate Open(run: seq<Event>, k: nat, token: string, lib: Library)
  {
    && k < |run| && run[k].Create? && run[k].token == token && OutcomeAt(run, k, lib).Issued?
    && forall j :: k < j < |run| ==> !Ended(run, k, j, lib)
  }

  /** Maintenance that found the row consumed at `j` old enough to go. */
  ghost predicate Forgotten(run: seq<Event>, k: nat, j: nat, m: nat, lib: Library)
    requires k < |run| && j < |run| && m < |run| && run[k].Create? && run[j].Consume?
  {
    && run[m].Maintain? && OutcomeAt(run, m, lib).Done?
    && (run[j].now < run[m].now - 86_400_000_000 || run[k].now + 600_000_000 < run[m].now - 86_400_000_000)
  }

  /** Step `j` consumed what step `k` issued, and its row is still there. */
  ghost predicate Spent(run: seq<Event>, k: nat, j: nat, token: string, lib: Library)
  {
    && k < j < |run| && Open(run[..j], k, token, lib)
    && run[j].Consume? && run[j].token == token && OutcomeAt(run, j, lib).Consumed?
    && forall m :: j < m < |run| ==> !Forgotten(run, k, j, m, lib)
  }

  /** The row that step `k` wrote. */
  ghost predicate Written(run: seq<Event>, k: nat, row: Row, lib: Library)
    requires k < |run| && run[k].Create?
  {
    && ValidatedPayload(run[k].payload, lib).Some?
    && row == Row(run[k].owner, run[k].action, ValidatedPayload(run[k].payload, lib).value.text,
                  Readable(run[k].now + 600_000_000), row.consumedAt)
  }

  ghost predicate RowsTold(run: seq<Event>, token: string, lib: Library)
  {
    var h, rows := Sha256(token), After(run, lib).pending;
    && (h in rows && rows[h].consumedAt == None ==> exists k: nat :: Open(run, k, token, lib))
    && (h in rows && rows[h].consumedAt != None ==> exists k: nat, j: nat :: Spent(run, k, j, token, lib))
    && (forall k: nat :: Open(run, k, token, lib) ==>
          h in rows && rows[h].consumedAt == None && Written(run, k, rows[h], lib))
    && (forall k: nat, j: nat :: Spent(run, k, j, token, lib) ==>
          h in rows && rows[h].consumedAt == Some(run[j].now) && Written(run, k, rows[h], lib))
  }

  lemma OpenSnoc(run: seq<Event>, e: Event, k: nat, token: string, lib: Library)
    ensures var more := run + [e];
            Open(more, k, token, lib) <==>
            if k < |run| then Open(run, k, token, lib) && !Ended(more, k, |run|, lib)
            else k == |run| && e.Create? && e.token == token && Step(After(run, lib), e, lib).1.Issued?
  {
    hide Step, After;
    var more := run + [e];
    RunSnoc(run, e, lib);
    assert forall i :: 0 <= i < |run| ==> more[i] == run[i];
    if k < |run| && run[k].Create? {
      forall j | k < j < |run| ensures Ended(more, k, j, lib) <==> Ended(run, k, j, lib) {
      }
    }
  }

  lemma SpentSnoc(run: seq<Event>, e: Event, k: nat, j: nat, token: string, lib: Library)
    requires k < j
    ensures var more := run + [e];
            Spent(more, k, j, token, lib) <==>
            if j < |run| then Spent(run, k, j, token, lib) && !Forgotten(more, k, j, |run|, lib)
            else j == |run| && Open(run, k, token, lib) && e.Consume? && e.token == token && Step(After(run, lib), e, lib).1.Consumed?
  {
    hide Step, After, Open;
    var more := run + [e];
    RunSnoc(run, e, lib);
    assert forall i :: 0 <= i < |run| ==> more[i] == run[i];
    if j < |run| {
      assert more[..j] == run[..j];
      OpenMeans(run[..j], k, token, lib);
      if Open(run[..j], k, token, lib) && run[j].Consume? {
        assert run[..j][k] == run[k];
        forall m | j < m < |run| ensures Forgotten(more, k, j, m, lib) <==> Forgotten(run, k, j, m, lib) {
        }
      }
    } else if j == |run| {
      assert more[..j] == run;
    }
  }

  lemma OpenMeans(run: seq<Event>, k: nat, token: string, lib: Library)
    ensures Open(run, k, token, lib) ==> k < |run| && run[k].Create? && run[k].token == token
  {
  }

  /** The row of a token after a run, from its row before the last step. */
  lemma {:induction false} RowsAreHistory(run: seq<Event>, token: string, lib: Library)
    ensures RowsTold(run, token, lib)
  {
    hide Step, OutcomeAt, RowsTold;
    if run == [] {
      NoRows(token, lib);
    } else {
      var n := |run| - 1;
      RowsAreHistory(run[..n], token, lib);
      assert run == run[..n] + [run[n]];
      RowsToldLonger(run[..n], run[n], token, lib);
    }
  }

  lemma NoRows(token: string, lib: Library)
    ensures RowsTold([], token, lib)
  {
    hide Step, OutcomeAt;
    EmptyRun(lib);
  }

  /** The step in terms of the run. */
  lemma RowAfter(run: seq<Event>, e: Event, token: string, lib: Library)
    ensures var h, before, after, r := Sha256(token), After(run, lib).pending, After(run + [e], lib).pending, OutcomeAt(run + [e], |run|, lib);
            if e.Create? && e.token == token && r.Issued? then
              h !in before && h in after && after[h].consumedAt == None && Written(run + [e], |run|, after[h], lib)
            else if e.Consume? && e.token == token && r.Consumed? then
              h in before && before[h].consumedAt == None && h in after && after[h] == before[h].(consumedAt := Some(e.now))
            else if e.Revoke? && e.token == token && r.Done? && h in before && before[h].owner == e.owner && before[h].consumedAt == None then
              h !in after
            else if e.Maintain? && r.Done? && h in before
                    && ((before[h].consumedAt.Some? && before[h].consumedAt.value < e.now - 86_400_000_000)
                        || before[h].expires.at < e.now - 86_400_000_000) then
              h !in after
            else
              (h in after <==> h in before) && (h in after ==> after[h] == before[h])
  {
    hide Step, After, OutcomeAt, ValidatedPayload;
    RunSnoc(run, e, lib);
    RowStep(After(run, lib), e, token, lib);
  }

  lemma OpenLonger(run: seq<Event>, e: Event, k: nat, token: string, lib: Library)
    requires RowsTold(run, token, lib)
    ensures var h, rows := Sha256(token), After(run + [e], lib).pending;
            Open(run + [e], k, token, lib) ==> h in rows && rows[h].consumedAt == None && Written(run + [e], k, rows[h], lib)
  {
    hide Step, After, OutcomeAt, ValidatedPayload, Spent;
    RunSnoc(run, e, lib);
    OpenSnoc(run, e, k, token, lib);
    RowAfter(run, e, token, lib);
    if k < |run| && Open(run + [e], k, token, lib) {
      assert (run + [e])[k] == run[k] && (run + [e])[|run|] == e;
      assert Written(run, k, After(run, lib).pending[Sha256(token)], lib);
    }
  }

  lemma SpentLonger(run: seq<Event>, e: Event, k: nat, j: nat, token: string, lib: Library)
    requires RowsTold(run, token, lib) && k < j
    ensures var h, rows := Sha256(token), After(run + [e], lib).pending;
            Spent(run + [e], k, j, token, lib) ==>
              h in rows && rows[h].consumedAt == Some((run + [e])[j].now) && Written(run + [e], k, rows[h], lib)
  {
    hide Step, After, OutcomeAt, ValidatedPayload;
    RunSnoc(run, e, lib);
    SpentSnoc(run, e, k, j, token, lib);
    RowAfter(run, e, token, lib);
    if Spent(run + [e], k, j, token, lib) {
      assert (run + [e])[k] == run[k] && (run + [e])[|run|] == e;
      assert Written(run, k, After(run, lib).pending[Sha256(token)], lib);
    }
  }

  /** A row there after the step was there before, or has just been written or consumed. */
  lemma RowsLonger(run: seq<Event>, e: Event, token: string, lib: Library)
    requires RowsTold(run, token, lib)
    ensures var h, rows, more := Sha256(token), After(run + [e], lib).pending, run + [e];
            && (h in rows && rows[h].consumedAt == None ==> exists k: nat :: Open(more, k, token, lib))
            && (h in rows && rows[h].consumedAt != None ==> exists k: nat, j: nat :: Spent(more, k, j, token, lib))
  {
    hide Step, After, OutcomeAt, ValidatedPayload, Open, Spent;
    var h, more := Sha256(token), run + [e];
    var before, after := After(run, lib).pending, After(more, lib).pending;
    RunSnoc(run, e, lib);
    RowAfter(run, e, token, lib);
    if h in after {
      if h !in before {
        OpenSnoc(run, e, |run|, token, lib);
      } else if before[h].consumedAt == None {
        var k: nat :| Open(run, k, token, lib);
        OpenMeans(run, k, token, lib);
        OpenSnoc(run, e, k, token, lib);
        SpentSnoc(run, e, k, |run|, token, lib);
        assert Written(run, k, before[h], lib);
        assert more[|run|] == e && more[k] == run[k];
      } else {
        var k: nat, j: nat :| Spent(run, k, j, token, lib);
        SpentMeans(run, k, j, token, lib);
        SpentSnoc(run, e, k, j, token, lib);
        assert Written(run, k, before[h], lib);
        assert more[|run|] == e && more[k] == run[k] && more[j] == run[j];
      }
    }
  }

  lemma SpentMeans(run: seq<Event>, k: nat, j: nat, token: string, lib: Library)
    ensures Spent(run, k, j, token, lib) ==> k < j < |run| && run[k].Create? && run[k].token == token && run[j].Consume?
  {
  }

  lemma RowsToldLonger(run: seq<Event>, e: Event, token: string, lib: Library)
    requires RowsTold(run, token, lib)
    ensures RowsTold(run + [e], token, lib)
  {
    hide Step, After, OutcomeAt, ValidatedPayload, Open, Spent;
    var more := run + [e];
    RowsLonger(run, e, token, lib);
    forall k: nat | Open(more, k, token, lib)
      ensures k < |more| && more[k].Create?
      ensures Sha256(token) in After(more, lib).pending
      ensures After(more, lib).pending[Sha256(token)].consumedAt == None && Written(more, k, After(more, lib).pending[Sha256(token)], lib)
    {
      OpenMeans(more, k, token, lib);
      OpenLonger(run, e, k, token, lib);
    }
    forall k: nat, j: nat | Spent(more, k, j, token, lib)
      ensures k < j < |more| && more[k].Create? && more[j].Consume?
      ensures Sha256(token) in After(more, lib).pending
      ensures After(more, lib).pending[Sha256(token)].consumedAt == Some(more[j].now)
      ensures Written(more, k, After(more, lib).pending[Sha256(token)], lib)
    {
      SpentMeans(more, k, j, token, lib);
      SpentLonger(run, e, k, j, token, lib);
    }
  }

  // ---------- what succeeds, by the history ----------

  /** A consume succeeds exactly when it is well formed and its transaction goes through, and
      the caller was issued the token less than ten minutes before and nothing has ended it
      since: it was not consumed, not revoked by its owner, and not cleared away. The receipt
      is for the action and payload then created. */
  lemma ConsumeByHistory(run: seq<Event>, e: Event, lib: Library)
    requires RealPayloads(run, lib) && e.Consume?
    ensures Step(After(run, lib), e, lib).1.Consumed? <==>
            && e.ready && e.failure == Nowhere && ValidToken(e.token) && ValidOwner(e.owner) && e.operation in {"confirm", "edit"}
            && exists k: nat :: Open(run, k, e.token, lib) && run[k].owner == e.owner && e.now < run[k].now + 600_000_000
    ensures forall k: nat :: Open(run, k, e.token, lib) && Step(After(run, lib), e, lib).1.Consumed? ==>
              && ValidatedPayload(run[k].payload, lib).Some?
              && Step(After(run, lib), e, lib).1 == Consumed(Receipt(
                   After(run, lib).nextId, run[k].action, ValidatedPayload(run[k].payload, lib).value.frozen, e.owner, e.operation))
  {
    hide StoredPayload, ValidatedPayload, ValidToken, ValidOwner, After, OutcomeAt, Real, Open, ConsumeStep;
    var s, h := After(run, lib), Sha256(e.token);
    RowsAreHistory(run, e.token, lib);
    ConsumeSucceeds(s, e, lib);
    if e.ready && e.failure == Nowhere && ValidToken(e.token) && ValidOwner(e.owner) && ValidOperation(e.operation) {
      ConsumeExactly(run, e, lib);
    }
    forall k: nat | Open(run, k, e.token, lib)
      ensures k < |run| && run[k].Create?
      ensures h in s.pending && s.pending[h].consumedAt == None && Written(run, k, s.pending[h], lib)
      ensures StoredPayload(s.pending[h].payloadJson, lib) == ValidatedPayload(run[k].payload, lib)
    {
      OpenMeans(run, k, e.token, lib);
      StoredIsReread(run[k].payload, lib);
    }
  }

  lemma ConsumeSucceeds(s: State, e: Event, lib: Library)
    requires e.Consume?
    ensures Step(s, e, lib).1.Consumed? ==>
              && e.ready && e.failure == Nowhere && ValidToken(e.token) && ValidOwner(e.owner) && ValidOperation(e.operation)
              && Sha256(e.token) in s.pending
              && var row := s.pending[Sha256(e.token)];
                 && StoredPayload(row.payloadJson, lib).Some?
                 && Step(s, e, lib).1 == Consumed(Receipt(
                      s.nextId, row.action, StoredPayload(row.payloadJson, lib).value.frozen, e.owner, e.operation))
    ensures Step(s, e, lib).1 == ConsumeStep(s, e, lib).1
    ensures !Step(s, e, lib).1.Consumed? ==> Step(s, e, lib).1 == Denied
  {
    hide StoredPayload, ValidToken, ValidOwner;
  }

  /** After its owner's revoke is done a token is not handed out again until it is issued
      again, whatever else happens. */
  lemma RevokedIsDenied(run: seq<Event>, i: nat, e: Event, lib: Library)
    requires RealPayloads(run, lib) && i < |run| && run[i].Revoke? && OutcomeAt(run, i, lib) == Done
    requires var h, rows := Sha256(run[i].token), After(run[..i], lib).pending; h in rows ==> rows[h].owner == run[i].owner
    requires forall j :: i < j < |run| && run[j].Create? && run[j].token == run[i].token ==> OutcomeAt(run, j, lib) == Denied
    requires e.Consume? && e.token == run[i].token
    ensures Step(After(run, lib), e, lib).1 == Denied
  {
    hide Step, After, OutcomeAt, Open, ValidToken, ValidOwner;
    ConsumeByHistory(run, e, lib);
    ConsumeSucceeds(After(run, lib), e, lib);
    forall k: nat ensures !Open(run, k, e.token, lib) {
      if Open(run, k, e.token, lib) {
        RevokeEnds(run, k, i, lib);
      }
    }
  }

  lemma RevokeEnds(run: seq<Event>, k: nat, i: nat, lib: Library)
    requires i < |run| && run[i].Revoke? && OutcomeAt(run, i, lib) == Done
    requires var h, rows := Sha256(run[i].token), After(run[..i], lib).pending; h in rows ==> rows[h].owner == run[i].owner
    requires forall j :: i < j < |run| && run[j].Create? && run[j].token == run[i].token ==> OutcomeAt(run, j, lib) == Denied
    ensures !Open(run, k, run[i].token, lib)
  {
    hide Step, After, OutcomeAt;
    var token := run[i].token;
    if Open(run, k, token, lib) {
      assert k < i;
      OpenEarlier(run, k, i, token, lib);
      OwnerEnds(run, k, i, lib);
    }
  }

  lemma OwnerEnds(run: seq<Event>, k: nat, i: nat, lib: Library)
    requires k < i < |run| && run[i].Revoke? && OutcomeAt(run, i, lib) == Done && Open(run[..i], k, run[i].token, lib)
    requires var h, rows := Sha256(run[i].token), After(run[..i], lib).pending; h in rows ==> rows[h].owner == run[i].owner
    ensures run[k].Create? && Ended(run, k, i, lib)
  {
    hide Step, After, OutcomeAt;
    RowsAreHistory(run[..i], run[i].token, lib);
    assert run[..i][k] == run[k];
  }

  lemma OpenEarlier(run: seq<Event>, k: nat, i: nat, token: string, lib: Library)
    requires k < i <= |run| && Open(run, k, token, lib)
    ensures Open(run[..i], k, token, lib)
  {
    hide Step, After, OutcomeAt;
    var front := run[..i];
    PrefixOutcome(run, i, k, lib);
    forall j | k < j < i ensures !Ended(front, k, j, lib) {
      PrefixOutcome(run, i, j, lib);
      assert front[j] == run[j] && front[k] == run[k] && !Ended(run, k, j, lib);
    }
  }

  /** A token its creator revokes unconsumed could be consumed until then. */
  lemma RevokeTakesAway(run: seq<Event>, k: nat, revoke: Event, e: Event, lib: Library)
    requires RealPayloads(run, lib) && e.Consume?
    requires Open(run, k, e.token, lib) && run[k].owner == e.owner && e.now < run[k].now + 600_000_000
    requires e.ready && e.failure == Nowhere && ValidToken(e.token) && ValidOwner(e.owner) && ValidOperation(e.operation)
    requires revoke == Revoke(e.token, e.owner, true, Nowhere)
    ensures Step(After(run, lib), e, lib).1.Consumed?
    ensures Step(After(run, lib), revoke, lib).1 == Done && Step(After(run + [revoke], lib), e, lib).1 == Denied
  {
    hide Step, After, OutcomeAt, Open, ValidToken, ValidOwner;
    ConsumeByHistory(run, e, lib);
    RevokeSucceeds(After(run, lib), revoke, lib);
    RunSnoc(run, revoke, lib);
    RowsAreHistory(run, e.token, lib);
    OpenMeans(run, k, e.token, lib);
    assert (run + [revoke])[..|run|] == run;
    RevokedIsDenied(run + [revoke], |run|, e, lib);
  }

  // ---------- receipts, by the history ----------

  /** Step `i` handed out the receipt, and it was not claimed or discarded since. */
  ghost predicate Held(run: seq<Event>, i: nat, receipt: Receipt, lib: Library)
  {
    && i < |run| && OutcomeAt(run, i, lib) == Consumed(receipt)
    && forall j :: i < j < |run| && (run[j].Claim? || run[j].Discard?) && run[j].receipt == receipt ==> OutcomeAt(run, j, lib) == Denied
  }

  /** A receipt comes in by the consume that returns it and goes by the call that succeeds on it. */
  lemma HeldStep(s: State, e: Event, receipt: Receipt, lib: Library)
    requires s.nextId !in s.records
    ensures var t, r := Step(s, e, lib).0, Step(s, e, lib).1;
            Holds(t, receipt) <==>
            r == Consumed(receipt) || (Holds(s, receipt) && !((e.Claim? || e.Discard?) && e.receipt == receipt && r.Claimed?))
    ensures e.Claim? || e.Discard? ==> Step(s, e, lib).1 == Claimed || Step(s, e, lib).1 == Denied
  {
    hide ValidatedPayload, StoredPayload, ValidOwner, ValidToken, Stale, FingerprintOf;
  }

  lemma HeldSnoc(run: seq<Event>, e: Event, i: nat, receipt: Receipt, lib: Library)
    ensures var more, r := run + [e], Step(After(run, lib), e, lib).1;
            Held(more, i, receipt, lib) <==>
            if i < |run| then Held(run, i, receipt, lib) && ((e.Claim? || e.Discard?) && e.receipt == receipt ==> r == Denied)
            else i == |run| && r == Consumed(receipt)
  {
    hide Step, After;
    var more := run + [e];
    RunSnoc(run, e, lib);
    assert more[|run|] == e && forall j :: 0 <= j < |run| ==> more[j] == run[j];
  }

  lemma {:induction false} ReceiptsAreHistory(run: seq<Event>, receipt: Receipt, lib: Library)
    ensures Holds(After(run, lib), receipt) <==> exists i: nat :: Held(run, i, receipt, lib)
  {
    hide Step, After, OutcomeAt, Held, Holds;
    if run == [] {
      NothingHeld(receipt, lib);
    } else {
      var n := |run| - 1;
      var front, e := run[..n], run[n];
      ReceiptsAreHistory(front, receipt, lib);
      assert run == front + [e];
      RunSnoc(front, e, lib);
      NextIdIsFree(front, lib);
      HeldStep(After(front, lib), e, receipt, lib);
      HeldSnoc(front, e, n, receipt, lib);
      if Holds(After(run, lib), receipt) && !Held(run, n, receipt, lib) {
        var i: nat :| Held(front, i, receipt, lib);
        HeldIndex(front, i, receipt, lib);
        HeldSnoc(front, e, i, receipt, lib);
      }
      forall i: nat | Held(run, i, receipt, lib) ensures Holds(After(run, lib), receipt) {
        HeldSnoc(front, e, i, receipt, lib);
      }
    }
  }

  lemma HeldIndex(run: seq<Event>, i: nat, receipt: Receipt, lib: Library)
    ensures Held(run, i, receipt, lib) ==> i < |run|
  {
  }

  lemma NothingHeld(receipt: Receipt, lib: Library)
    ensures !Holds(After([], lib), receipt) && forall i: nat :: !Held([], i, receipt, lib)
  {
    hide Step;
    EmptyRun(lib);
  }

  /** A claim or a discard succeeds exactly on a receipt that a consume handed out and that was
      neither claimed nor discarded since; in either case its next use fails. */
  lemma ClaimByHistory(run: seq<Event>, e: Event, lib: Library)
    requires RealPayloads(run, lib) && (e.Claim? || e.Discard?)
    ensures Step(After(run, lib), e, lib).1 ==
            if e.ready && exists i: nat :: Held(run, i, e.receipt, lib) then Claimed else Denied
    ensures Step(After(run, lib), e, lib).0.pending == After(run, lib).pending
  {
    hide After, Held, FingerprintOf, Holds, Drop, OutcomeAt;
    ReceiptsAreHistory(run, e.receipt, lib);
    if e.Claim? {
      ClaimExactly(run, e, lib);
      ClaimKeepsRows(After(run, lib), e, lib);
    } else {
      ClaimKeepsRows(After(run, lib), e, lib);
    }
  }

  lemma ClaimKeepsRows(s: State, e: Event, lib: Library)
    requires e.Claim? || e.Discard?
    ensures Step(s, e, lib).0.pending == s.pending
    ensures Step(s, e, lib).1 == Claimed || Step(s, e, lib).1 == Denied
    ensures e.Claim? ==> Step(s, e, lib) == ClaimStep(s, e, lib)
    ensures e.Discard? ==> (Step(s, e, lib).1.Claimed? <==> e.ready && Holds(s, e.receipt))
  {
    hide FingerprintOf;
  }
}
