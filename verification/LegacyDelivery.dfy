/** The legacy monitor: collect, remember, and send each notice to a chat until it is
    marked delivered. Every write of a run is a statement and a commit on one connection, and
    any of them, like any send, may be done, raise, or see the process stop. */
module LegacyDelivery {
  import opened Order

  const RETENTION := 90 * 86_400_000_000

  /** An announcement with its canonical key. */
  datatype Notice = Notice(key: string, content: string)

  /** What one collector yielded before it finished or failed. */
  datatype Collected = Collected(agency: string, notices: seq<Notice>, failed: bool)

  datatype Row = Row(content: string, firstSeen: int, lastSeen: int)
  datatype Delivery = Delivery(at: int, messageId: int)
  datatype RunRow = RunRow(startedAt: int, status: string, newCount: nat, agencyStatus: map<string, bool>)

  type DeliveryKey = (string, string)

  datatype Tables = Tables(
    announcements: map<string, Row>, deliveries: map<DeliveryKey, Delivery>, runs: map<nat, RunRow>, nextRun: nat)

  datatype Message = NoticeText(key: string) | FailureReport | NothingNew

  /** What left the process, in order: messages Telegram accepted, and marks committed. */
  datatype Act = Sent(chat: string, message: Message) | Marked(chat: string, key: string)

  /** What is on disk, and what has left the process so far. */
  datatype State = State(tables: Tables, acts: seq<Act>)

  const EMPTY := State(Tables(map[], map[], map[], 1), [])

  /** The fate of a send or a write. `applied`: Telegram accepted the message all the same; of
      a write that raises, that its statement took effect and the commit raised; of one that
      sees the process stop, that the commit was done. `rolledBack`: the database ended the
      transaction, as it does for a full disk but not for a lock that a reader holds. `caught`:
      an `Exception`, which the runner handles. */
  datatype Fate = Done | Raises(caught: bool, applied: bool, rolledBack: bool) | Stops(applied: bool)

  /** The outside of one process: what collectors yield, the clocks, the fate of each write in
      turn and of the i-th send and mark, and how many rows an upsert that raises had executed.
      Collecting and selecting write nothing; one collector's exceptions are in `collected`. */
  datatype World = World(
    collected: seq<Collected>, chat: string, startedAt: int, now: int, closedAt: int,
    start: Fate, collect: Fate, upsert: Fate, upserted: nat, select: Fate,
    send: nat -> Fate, mark: nat -> Fate, deliveredAt: nat -> int, messageId: nat -> int, finish: Fate, close: Fate)

  datatype Outcome = Completed(status: string, newCount: nat) | TelegramFailure(newCount: nat) | Errored | Stopped

  // ---------- one connection ----------

  /** The tables on disk, the tables as the connection sees them in its open transaction, and
      the deliveries inserted in that transaction. */
  datatype Session = Session(stored: Tables, live: Tables, open: seq<DeliveryKey>, acts: seq<Act>)

  function Opened(s: State): Session
  {
    Session(s.tables, s.tables, [], s.acts)
  }

  function Marks(open: seq<DeliveryKey>): seq<Act>
  {
    seq(|open|, i requires 0 <= i < |open| => Marked(open[i].1, open[i].0))
  }

  function Commit(c: Session): Session
  {
    Session(c.live, c.live, [], c.acts + Marks(c.open))
  }

  function RollBack(c: Session): Session
  {
    Session(c.stored, c.stored, [], c.acts)
  }

  /** A statement that makes the tables `after`, with the deliveries it inserts, and the commit
      that follows it. What a commit that raises does not roll back stays in the transaction. */
  function Write(c: Session, after: Tables, inserted: seq<DeliveryKey>, f: Fate): Session
  {
    var executed := Session(c.stored, after, c.open + inserted, c.acts);
    match f
    case Done => Commit(executed)
    case Raises(_, applied, rolledBack) => if rolledBack then RollBack(c) else if applied then executed else c
    case Stops(applied) => if applied then Commit(executed) else RollBack(c)
  }

  // ---------- collecting ----------

  predicate HasKey(notices: seq<Notice>, key: string)
  {
    exists i :: 0 <= i < |notices| && notices[i].key == key
  }

  /** `d[key] = notice` on an ordered dict: an existing key keeps its place. */
  function Put(notices: seq<Notice>, n: Notice): seq<Notice>
  {
    if notices == [] then [n]
    else if notices[0].key == n.key then [n] + notices[1..]
    else [notices[0]] + Put(notices[1..], n)
  }

  function PutAll(notices: seq<Notice>, more: seq<Notice>): seq<Notice>
  {
    if more == [] then notices else Put(PutAll(notices, more[..|more| - 1]), more[|more| - 1])
  }

  /** The notices of all collectors, failed ones included up to their failure. */
  function AllNotices(collected: seq<Collected>): seq<Notice>
  {
    if collected == [] then []
    else PutAll(AllNotices(collected[..|collected| - 1]), collected[|collected| - 1].notices)
  }

  function AgencyStatus(collected: seq<Collected>): map<string, bool>
  {
    if collected == [] then map[]
    else
      var last := collected[|collected| - 1];
      AgencyStatus(collected[..|collected| - 1])[last.agency := !last.failed]
  }

  predicate AnyFailed(collected: seq<Collected>)
  {
    exists i :: 0 <= i < |collected| && collected[i].failed
  }

  ghost predicate UniqueKeys(notices: seq<Notice>)
  {
    forall i, j :: 0 <= i < j < |notices| ==> notices[i].key != notices[j].key
  }

  lemma {:induction false} PutKeys(notices: seq<Notice>, n: Notice)
    requires UniqueKeys(notices)
    ensures UniqueKeys(Put(notices, n))
    ensures forall key :: HasKey(Put(notices, n), key) <==> HasKey(notices, key) || key == n.key
  {
    if notices == [] {
      assert [n][0].key == n.key;
    } else {
      var put := Put(notices, n);
      if notices[0].key == n.key {
        assert put[0].key == n.key && put[1..] == notices[1..];
        HasKeySplit(put);
        HasKeySplit(notices);
      } else {
        PutKeys(notices[1..], n);
        assert put[0] == notices[0] && put[1..] == Put(notices[1..], n);
        HasKeySplit(put);
        HasKeySplit(notices);
        forall j | 1 <= j < |put| ensures put[0].key != put[j].key {
          assert HasKey(put[1..], put[j].key) by {
            assert put[1..][j - 1] == put[j];
          }
          if HasKey(notices[1..], put[j].key) {
            var i :| 0 <= i < |notices[1..]| && notices[1..][i].key == put[j].key;
            assert notices[i + 1].key == put[j].key;
          }
        }
      }
    }
  }

  lemma HasKeySplit(notices: seq<Notice>)
    requires notices != []
    ensures forall key :: HasKey(notices, key) <==> notices[0].key == key || HasKey(notices[1..], key)
  {
    forall key ensures HasKey(notices, key) <==> notices[0].key == key || HasKey(notices[1..], key) {
      if HasKey(notices[1..], key) {
        var i :| 0 <= i < |notices[1..]| && notices[1..][i].key == key;
        assert notices[i + 1].key == key;
      }
      if HasKey(notices, key) && notices[0].key != key {
        var i :| 0 <= i < |notices| && notices[i].key == key;
        assert notices[1..][i - 1].key == key;
      }
    }
  }

  lemma {:induction false} PutAllKeys(notices: seq<Notice>, more: seq<Notice>)
    requires UniqueKeys(notices)
    ensures UniqueKeys(PutAll(notices, more))
    ensures forall key :: HasKey(PutAll(notices, more), key) <==> HasKey(notices, key) || HasKey(more, key)
  {
    if more != [] {
      var front, last := more[..|more| - 1], more[|more| - 1];
      PutAllKeys(notices, front);
      PutKeys(PutAll(notices, front), last);
      forall key ensures HasKey(more, key) <==> HasKey(front, key) || last.key == key {
        assert more == front + [last];
        if HasKey(front, key) {
          var i :| 0 <= i < |front| && front[i].key == key;
          assert more[i].key == key;
        }
        assert more[|more| - 1].key == last.key;
      }
    }
  }

  lemma {:induction false} AllNoticesKeys(collected: seq<Collected>)
    ensures UniqueKeys(AllNotices(collected))
    ensures forall c, i :: 0 <= c < |collected| && 0 <= i < |collected[c].notices| ==>
              HasKey(AllNotices(collected), collected[c].notices[i].key)
  {
    if collected != [] {
      var n := |collected| - 1;
      AllNoticesKeys(collected[..n]);
      PutAllKeys(AllNotices(collected[..n]), collected[n].notices);
      forall c, i | 0 <= c < |collected| && 0 <= i < |collected[c].notices|
        ensures HasKey(AllNotices(collected), collected[c].notices[i].key)
      {
        if c < n {
          assert collected[..n][c] == collected[c];
        } else {
          assert HasKey(collected[n].notices, collected[n].notices[i].key);
        }
      }
    }
  }

  // ---------- storing and selecting ----------

  function UpsertSeen(rows: map<string, Row>, notices: seq<Notice>, now: int): map<string, Row>
  {
    if notices == [] then rows
    else
      var n := notices[|notices| - 1];
      var before := UpsertSeen(rows, notices[..|notices| - 1], now);
      before[n.key := Row(n.content, if n.key in before then before[n.key].firstSeen else now, now)]
  }

  /** The keys of the notices not yet delivered to the chat, in order. */
  function Pending(notices: seq<Notice>, chat: string, deliveries: map<DeliveryKey, Delivery>): seq<string>
  {
    if notices == [] then []
    else
      var n := notices[|notices| - 1];
      Pending(notices[..|notices| - 1], chat, deliveries) + if (n.key, chat) in deliveries then [] else [n.key]
  }

  ghost predicate Distinct(keys: seq<string>)
  {
    forall i, j :: 0 <= i < j < |keys| ==> keys[i] != keys[j]
  }

  lemma {:induction false} PendingMeans(notices: seq<Notice>, chat: string, deliveries: map<DeliveryKey, Delivery>)
    requires UniqueKeys(notices)
    ensures Distinct(Pending(notices, chat, deliveries))
    ensures forall key :: key in Pending(notices, chat, deliveries) <==> HasKey(notices, key) && (key, chat) !in deliveries
  {
    if notices != [] {
      var front, last := notices[..|notices| - 1], notices[|notices| - 1];
      PendingMeans(front, chat, deliveries);
      forall key ensures HasKey(notices, key) <==> HasKey(front, key) || last.key == key {
        assert notices[|notices| - 1] == last;
        if HasKey(front, key) {
          var i :| 0 <= i < |front| && front[i].key == key;
          assert notices[i].key == key;
        }
      }
      assert !HasKey(front, last.key);
    }
  }

  // ---------- the statements ----------

  function Began(c: Session, w: World): Session
  {
    var t := c.live;
    var row := RunRow(w.startedAt, "running", 0, map[]);
    Write(c, t.(runs := t.runs[t.nextRun := row], nextRun := t.nextRun + 1), [], w.start)
  }

  /** The rows `executemany` got through: all of them unless it raised among them. */
  function Executed(notices: seq<Notice>, w: World): seq<Notice>
  {
    if w.upsert.Raises? && w.upserted < |notices| then notices[..w.upserted] else notices
  }

  function Seen(c: Session, notices: seq<Notice>, w: World): Session
  {
    Write(c, c.live.(announcements := UpsertSeen(c.live.announcements, Executed(notices, w), w.now)), [], w.upsert)
  }

  /** `INSERT ... ON CONFLICT DO NOTHING`. */
  function MarkedAt(c: Session, key: DeliveryKey, d: Delivery, f: Fate): Session
  {
    if key in c.live.deliveries then Write(c, c.live, [], f)
    else Write(c, c.live.(deliveries := c.live.deliveries[key := d]), [key], f)
  }

  function Ended(c: Session, id: nat, status: string, count: nat, agencies: map<string, bool>, f: Fate): Session
  {
    var runs := c.live.runs;
    var after := if id in runs then runs[id := RunRow(runs[id].startedAt, status, count, agencies)] else runs;
    Write(c, c.live.(runs := after), [], f)
  }

  /** `compact`; a `VACUUM` that raises comes after its commit and changes nothing. */
  function Compacted(c: Session, w: World): Session
  {
    var t := c.live;
    Write(c, t.(runs := map r | r in t.runs && t.runs[r].startedAt >= w.closedAt - RETENTION :: t.runs[r]), [], w.close)
  }

  // ---------- the send loop ----------

  /** How a step ends: it goes on, an exception leaves it, or the process is gone. */
  datatype Cut = Through | Raised(caught: bool) | Dead

  function CutOf(f: Fate): Cut
  {
    match f
    case Done => Through
    case Raises(caught, _, _) => Raised(caught)
    case Stops(_) => Dead
  }

  predicate Accepted(f: Fate)
  {
    f.Done? || f.applied
  }

  function Say(c: Session, chat: string, message: Message, f: Fate): Session
  {
    if Accepted(f) then c.(acts := c.acts + [Sent(chat, message)]) else c
  }

  /** Where the loop stands: the connection, the deliveries counted, and how it ended. */
  datatype Loop = Loop(session: Session, count: nat, cut: Cut)

  /** Send what is pending from the n-th notice on, marking each at once. */
  function Deliver(c: Session, pending: seq<string>, n: nat, w: World): Loop
    requires n <= |pending|
    decreases |pending| - n
  {
    if n == |pending| then Loop(c, n, Through)
    else
      var said := Say(c, w.chat, NoticeText(pending[n]), w.send(n));
      if !w.send(n).Done? then Loop(said, n, CutOf(w.send(n)))
      else
        var marked := MarkedAt(said, (pending[n], w.chat), Delivery(w.deliveredAt(n), w.messageId(n)), w.mark(n));
        if !w.mark(n).Done? then Loop(marked, n, CutOf(w.mark(n))) else Deliver(marked, pending, n + 1, w)
  }

  /** The report after the loop; `w.send(n)` decides its send, `n` being the number sent. */
  function Report(l: Loop, w: World): Loop
  {
    if !l.cut.Through? || !(AnyFailed(w.collected) || l.count == 0) then l
    else
      var message := if AnyFailed(w.collected) then FailureReport else NothingNew;
      Loop(Say(l.session, w.chat, message, w.send(l.count)), l.count, CutOf(w.send(l.count)))
  }

  // ---------- one run ----------

  function Broken(f: Fate): Outcome
  {
    if f.Stops? then Stopped else Errored
  }

  /** The end of the run: the row is finished unless the exception is not one the runner
      handles, or the process is gone. */
  function Finish(l: Loop, id: nat, w: World): (Session, Outcome)
  {
    match l.cut
    case Dead => (l.session, Stopped)
    case Raised(caught) =>
      if !caught then (l.session, Errored)
      else
        var ended := Ended(l.session, id, "telegram_failure", l.count, AgencyStatus(w.collected), w.finish);
        (ended, if w.finish.Done? then TelegramFailure(l.count) else Broken(w.finish))
    case Through =>
      var status := if AnyFailed(w.collected) then "partial_failure" else "success";
      var ended := Ended(l.session, id, status, l.count, AgencyStatus(w.collected), w.finish);
      (ended, if w.finish.Done? then Completed(status, l.count) else Broken(w.finish))
  }

  /** `MonitorRunner.run`. */
  function RunOf(c: Session, w: World): (Session, Outcome)
  {
    var began := Began(c, w);
    var notices := AllNotices(w.collected);
    var seen := Seen(began, notices, w);
    if !w.start.Done? then (began, Broken(w.start))
    else if !w.collect.Done? then (began, Broken(w.collect))
    else if !w.upsert.Done? then (seen, Broken(w.upsert))
    else if !w.select.Done? then (seen, Broken(w.select))
    else
      Finish(Report(Deliver(seen, Pending(notices, w.chat, seen.live.deliveries), 0, w), w), c.live.nextRun, w)
  }

  /** One process: a run, then the closing of the connection, which compacts first whatever
      the run did and forgets what is not committed. */
  function ProcessOf(s: State, w: World): (State, Outcome)
  {
    var (c, r) := RunOf(Opened(s), w);
    var closed := if r.Stopped? then c else Compacted(c, w);
    (State(closed.stored, closed.acts), r)
  }

  class AnnouncementRepository {
    var session: Session

    constructor (s: State)
      ensures session == Opened(s)
    {
      session := Opened(s);
    }

    /** Execute a statement and commit. */
    method Execute(after: Tables, inserted: seq<DeliveryKey>, f: Fate)
      modifies this
      ensures session == Write(old(session), after, inserted, f)
    {
      if !Accepted(f) {
        if f.Stops? || f.rolledBack {
          session := RollBack(session);
        }
        return;
      }
      var before := session;
      session := session.(live := after, open := session.open + inserted);
      if f.Raises? {
        if f.rolledBack {
          session := RollBack(before);
        }
        return;
      }
      session := Commit(session);
    }

    method StartRun(w: World) returns (id: nat)
      modifies this
      ensures id == old(session).live.nextRun && session == Began(old(session), w)
    {
      var t := session.live;
      id := t.nextRun;
      Execute(t.(runs := t.runs[id := RunRow(w.startedAt, "running", 0, map[])], nextRun := id + 1), [], w.start);
    }

    method UpsertAll(notices: seq<Notice>, w: World)
      modifies this
      ensures session == Seen(old(session), notices, w)
    {
      var rows, i := session.live.announcements, 0;
      var executed := Executed(notices, w);
      while i < |executed|
        invariant 0 <= i <= |executed|
        invariant rows == UpsertSeen(session.live.announcements, executed[..i], w.now)
      {
        var n := executed[i];
        assert executed[..i + 1][..i] == executed[..i];
        rows := rows[n.key := Row(n.content, if n.key in rows then rows[n.key].firstSeen else w.now, w.now)];
        i := i + 1;
      }
      assert executed[..i] == executed;
      Execute(session.live.(announcements := rows), [], w.upsert);
    }

    method PendingForChat(notices: seq<Notice>, chat: string) returns (pending: seq<string>)
      ensures pending == Pending(notices, chat, session.live.deliveries)
    {
      pending := [];
      for i := 0 to |notices|
        invariant pending == Pending(notices[..i], chat, session.live.deliveries)
      {
        assert notices[..i + 1][..i] == notices[..i];
        if (notices[i].key, chat) !in session.live.deliveries {
          pending := pending + [notices[i].key];
        }
      }
      assert notices[..|notices|] == notices;
    }

    method Mark(key: DeliveryKey, d: Delivery, f: Fate)
      modifies this
      ensures session == MarkedAt(old(session), key, d, f)
    {
      if key in session.live.deliveries {
        Execute(session.live, [], f);
      } else {
        Execute(session.live.(deliveries := session.live.deliveries[key := d]), [key], f);
      }
    }

    method FinishRun(id: nat, status: string, count: nat, agencies: map<string, bool>, f: Fate)
      modifies this
      ensures session == Ended(old(session), id, status, count, agencies, f)
    {
      var runs := session.live.runs;
      if id in runs {
        runs := runs[id := RunRow(runs[id].startedAt, status, count, agencies)];
      }
      Execute(session.live.(runs := runs), [], f);
    }

    method Close(w: World)
      modifies this
      ensures session == Compacted(old(session), w)
    {
      var t := session.live;
      Execute(t.(runs := map r | r in t.runs && t.runs[r].startedAt >= w.closedAt - RETENTION :: t.runs[r]), [], w.close);
    }

    /** `w.send(i)`, recorded when Telegram accepted the message. */
    method Send(chat: string, message: Message, f: Fate)
      modifies this
      ensures session == Say(old(session), chat, message, f)
    {
      if Accepted(f) {
        session := session.(acts := session.acts + [Sent(chat, message)]);
      }
    }
  }

  class MonitorRunner {
    const repository: AnnouncementRepository

    constructor (repository: AnnouncementRepository)
      ensures this.repository == repository
    {
      this.repository := repository;
    }

    /** The loop over the collectors, one failed or not after another. */
    method Collect(collected: seq<Collected>) returns (notices: seq<Notice>, status: map<string, bool>, failures: bool)
      ensures notices == AllNotices(collected) && status == AgencyStatus(collected) && failures == AnyFailed(collected)
    {
      notices, status, failures := [], map[], false;
      for i := 0 to |collected|
        invariant notices == AllNotices(collected[..i]) && status == AgencyStatus(collected[..i])
        invariant failures <==> exists k :: 0 <= k < i && collected[k].failed
      {
        assert collected[..i + 1][..i] == collected[..i];
        ghost var before := notices;
        var yielded := collected[i].notices;
        for j := 0 to |yielded|
          invariant notices == PutAll(before, yielded[..j])
        {
          assert yielded[..j + 1][..j] == yielded[..j];
          notices := Put(notices, yielded[j]);
        }
        assert yielded[..|yielded|] == yielded;
        status := status[collected[i].agency := !collected[i].failed];
        failures := failures || collected[i].failed;
      }
      assert collected[..|collected|] == collected;
    }

    /** Send what is pending, marking each at once, then report. */
    method SendPending(w: World, pending: seq<string>, failures: bool) returns (count: nat, cut: Cut)
      requires failures == AnyFailed(w.collected)
      modifies repository
      ensures Loop(repository.session, count, cut) == Report(Deliver(old(repository.session), pending, 0, w), w)
    {
      hide Say, MarkedAt;
      count := 0;
      while count < |pending|
        invariant 0 <= count <= |pending|
        invariant Deliver(repository.session, pending, count, w) == Deliver(old(repository.session), pending, 0, w)
      {
        repository.Send(w.chat, NoticeText(pending[count]), w.send(count));
        if !w.send(count).Done? {
          return count, CutOf(w.send(count));
        }
        repository.Mark((pending[count], w.chat), Delivery(w.deliveredAt(count), w.messageId(count)), w.mark(count));
        if !w.mark(count).Done? {
          return count, CutOf(w.mark(count));
        }
        count := count + 1;
      }
      if failures || count == 0 {
        repository.Send(w.chat, if failures then FailureReport else NothingNew, w.send(count));
        return count, CutOf(w.send(count));
      }
      return count, Through;
    }

    method Run(w: World) returns (r: Outcome)
      modifies repository
      ensures (repository.session, r) == RunOf(old(repository.session), w)
    {
      hide Began, Seen, Ended, Deliver, Report, Pending, AllNotices, AgencyStatus, AnyFailed;
      var id := repository.StartRun(w);
      if !w.start.Done? {
        return Broken(w.start);
      }
      var notices, agencies, failures := Collect(w.collected);
      if !w.collect.Done? {
        return Broken(w.collect);
      }
      repository.UpsertAll(notices, w);
      if !w.upsert.Done? {
        return Broken(w.upsert);
      }
      var pending := repository.PendingForChat(notices, w.chat);
      if !w.select.Done? {
        return Broken(w.select);
      }
      var count, cut := SendPending(w, pending, failures);
      if cut.Dead? {
        return Stopped;
      }
      if cut.Raised? {
        if !cut.caught {
          return Errored;
        }
        repository.FinishRun(id, "telegram_failure", count, agencies, w.finish);
        return if w.finish.Done? then TelegramFailure(count) else Broken(w.finish);
      }
      var status := if failures then "partial_failure" else "success";
      repository.FinishRun(id, status, count, agencies, w.finish);
      return if w.finish.Done? then Completed(status, count) else Broken(w.finish);
    }
  }

  /** The program: open, run, close. */
  method Process(s: State, w: World) returns (t: State, r: Outcome)
    ensures (t, r) == ProcessOf(s, w)
  {
    hide RunOf, Compacted;
    var repository := new AnnouncementRepository(s);
    var runner := new MonitorRunner(repository);
    r := runner.Run(w);
    if !r.Stopped? {
      repository.Close(w);
    }
    t := State(repository.session.stored, repository.session.acts);
  }

  // ---------- acts ----------

  predicate IsSend(a: Act, chat: string, key: string)
  {
    a == Sent(chat, NoticeText(key))
  }

  /** Sends of a key to a chat that Telegram accepted. */
  function Sends(acts: seq<Act>, chat: string, key: string): nat
  {
    if acts == [] then 0
    else Sends(acts[..|acts| - 1], chat, key) + if IsSend(acts[|acts| - 1], chat, key) then 1 else 0
  }

  /** The sends that no mark follows next. */
  function Unmarked(acts: seq<Act>, chat: string, key: string): nat
  {
    if acts == [] then 0
    else if |acts| > 1 && acts[|acts| - 1] == Marked(chat, key) && IsSend(acts[|acts| - 2], chat, key) then
      Unmarked(acts[..|acts| - 2], chat, key)
    else Unmarked(acts[..|acts| - 1], chat, key) + if IsSend(acts[|acts| - 1], chat, key) then 1 else 0
  }

  function Unit(b: bool): nat
  {
    if b then 1 else 0
  }

  /** Sends of every key are its unmarked sends, plus one if it is delivered. */
  ghost predicate Balanced(acts: seq<Act>, deliveries: map<DeliveryKey, Delivery>)
  {
    forall chat, key :: Sends(acts, chat, key) == Unmarked(acts, chat, key) + Unit((key, chat) in deliveries)
  }

  lemma AppendSend(acts: seq<Act>, chat: string, m: Message, c: string, k: string)
    ensures Sends(acts + [Sent(chat, m)], c, k) == Sends(acts, c, k) + Unit(chat == c && m == NoticeText(k))
    ensures Unmarked(acts + [Sent(chat, m)], c, k) == Unmarked(acts, c, k) + Unit(chat == c && m == NoticeText(k))
  {
    assert (acts + [Sent(chat, m)])[..|acts|] == acts;
  }

  lemma AppendMark(acts: seq<Act>, chat: string, key: string, c: string, k: string)
    requires acts != [] && acts[|acts| - 1] == Sent(chat, NoticeText(key))
    ensures Sends(acts + [Marked(chat, key)], c, k) == Sends(acts, c, k)
    ensures Unmarked(acts + [Marked(chat, key)], c, k) + Unit(chat == c && key == k) == Unmarked(acts, c, k)
  {
    var more := acts + [Marked(chat, key)];
    assert more[..|acts|] == acts && more[|acts| - 1] == acts[|acts| - 1] && more[..|acts| - 1] == acts[..|acts| - 1];
  }

  lemma SayBalanced(acts: seq<Act>, deliveries: map<DeliveryKey, Delivery>, chat: string, m: Message)
    requires Balanced(acts, deliveries)
    ensures Balanced(acts + [Sent(chat, m)], deliveries)
  {
    hide Sends, Unmarked;
    forall c, k ensures Sends(acts + [Sent(chat, m)], c, k) ==
      Unmarked(acts + [Sent(chat, m)], c, k) + Unit((k, c) in deliveries)
    {
      AppendSend(acts, chat, m, c, k);
    }
  }

  lemma MarkBalanced(acts: seq<Act>, deliveries: map<DeliveryKey, Delivery>, chat: string, key: string, d: Delivery)
    requires Balanced(acts, deliveries) && (key, chat) !in deliveries
    requires acts != [] && acts[|acts| - 1] == Sent(chat, NoticeText(key))
    ensures Balanced(acts + [Marked(chat, key)], deliveries[(key, chat) := d])
  {
    hide Sends, Unmarked;
    forall c, k ensures Sends(acts + [Marked(chat, key)], c, k) ==
      Unmarked(acts + [Marked(chat, key)], c, k) + Unit((k, c) in deliveries[(key, chat) := d])
    {
      AppendMark(acts, chat, key, c, k);
    }
  }

  // ---------- what every step keeps ----------

  /** The open transaction holds at most one delivery; it is not on disk yet, and its send was
      the last thing to happen. */
  ghost predicate Sound(c: Session)
  {
    if c.open == [] then c.live.deliveries == c.stored.deliveries
    else
      && |c.open| == 1 && c.open[0] !in c.stored.deliveries && c.open[0] in c.live.deliveries
      && c.live.deliveries == c.stored.deliveries[c.open[0] := c.live.deliveries[c.open[0]]]
      && c.acts != [] && c.acts[|c.acts| - 1] == Sent(c.open[0].1, NoticeText(c.open[0].0))
  }

  ghost predicate Kept(before: map<DeliveryKey, Delivery>, after: map<DeliveryKey, Delivery>)
  {
    forall k :: k in before ==> k in after && after[k] == before[k]
  }

  /** Acts were only added, and no notice was sent but those listed. */
  ghost predicate Addressed(before: seq<Act>, after: seq<Act>, chat: string, keys: seq<string>)
  {
    && |before| <= |after| && after[..|before|] == before
    && forall i :: |before| <= i < |after| && after[i].Sent? && after[i].message.NoticeText? ==>
         after[i].chat == chat && after[i].message.key in keys
  }

  /** `d` is the connection `c` some steps later. */
  ghost predicate Later(c: Session, d: Session, chat: string, keys: seq<string>)
  {
    && Sound(d) && Kept(c.stored.deliveries, d.stored.deliveries) && Addressed(c.acts, d.acts, chat, keys)
    && (Balanced(c.acts, c.stored.deliveries) ==> Balanced(d.acts, d.stored.deliveries))
  }

  lemma LaterTwice(c: Session, d: Session, e: Session, chat: string, keys: seq<string>)
    requires Later(c, d, chat, keys) && Later(d, e, chat, keys)
    ensures Later(c, e, chat, keys)
  {
    hide Sound, Balanced;
    assert e.acts[..|c.acts|] == e.acts[..|d.acts|][..|c.acts|];
    forall i | |c.acts| <= i < |e.acts| && e.acts[i].Sent? && e.acts[i].message.NoticeText?
      ensures e.acts[i].chat == chat && e.acts[i].message.key in keys
    {
      if i < |d.acts| {
        assert d.acts[i] == e.acts[i];
      }
    }
  }

  predicate Committed(f: Fate)
  {
    f.Done? || (f.Stops? && f.applied)
  }

  lemma CommitKeeps(c: Session, chat: string, keys: seq<string>)
    requires Sound(c)
    ensures Later(c, Commit(c), chat, keys) && |Commit(c).stored.deliveries| == |c.stored.deliveries| + |c.open|
  {
    hide Balanced;
    if c.open == [] {
      assert c.acts + Marks(c.open) == c.acts;
    } else {
      var key := c.open[0];
      assert Marks(c.open) == [Marked(key.1, key.0)];
      if Balanced(c.acts, c.stored.deliveries) {
        MarkBalanced(c.acts, c.stored.deliveries, key.1, key.0, c.live.deliveries[key]);
      }
      InsertFresh(c.stored.deliveries, key, c.live.deliveries[key]);
    }
  }

  lemma InsertFresh(d: map<DeliveryKey, Delivery>, k: DeliveryKey, v: Delivery)
    requires k !in d
    ensures |d[k := v]| == |d| + 1
  {
    assert d[k := v].Keys == d.Keys + {k};
  }

  lemma SameLater(c: Session, d: Session, chat: string, keys: seq<string>)
    requires Sound(d) && d.stored.deliveries == c.stored.deliveries && d.acts == c.acts
    ensures Later(c, d, chat, keys)
  {
  }

  /** A write to another table. */
  lemma WriteKeeps(c: Session, after: Tables, f: Fate, chat: string, keys: seq<string>)
    requires Sound(c) && after.deliveries == c.live.deliveries
    ensures var d := Write(c, after, [], f);
            && Later(c, d, chat, keys)
            && d.open == (if f.Raises? && !f.rolledBack then c.open else [])
            && |d.stored.deliveries| == |c.stored.deliveries| + (if Committed(f) then |c.open| else 0)
  {
    hide Later;
    var executed := Session(c.stored, after, c.open + [], c.acts);
    assert c.open + [] == c.open;
    SameLater(c, executed, chat, keys);
    SameLater(c, c, chat, keys);
    SameLater(c, RollBack(c), chat, keys);
    CommitKeeps(executed, chat, keys);
    LaterTwice(c, executed, Commit(executed), chat, keys);
  }

  /** The commit raised and left the insert in the transaction. */
  predicate LeavesPending(f: Fate)
  {
    f.Raises? && f.applied && !f.rolledBack
  }

  /** The mark of a notice just sent. */
  lemma MarkKeeps(c: Session, key: DeliveryKey, d: Delivery, f: Fate, chat: string, keys: seq<string>)
    requires Sound(c) && c.open == [] && key !in c.stored.deliveries
    requires c.acts != [] && c.acts[|c.acts| - 1] == Sent(key.1, NoticeText(key.0))
    ensures var e := MarkedAt(c, key, d, f);
            && Later(c, e, chat, keys)
            && e.open == (if LeavesPending(f) then [key] else [])
            && |e.stored.deliveries| == |c.stored.deliveries| + Unit(Committed(f))
            && (Committed(f) ==> e.stored.deliveries == c.stored.deliveries[key := d])
  {
    hide Later;
    var executed := Session(c.stored, c.live.(deliveries := c.live.deliveries[key := d]), [key], c.acts);
    assert c.open + [key] == [key];
    SameLater(c, executed, chat, keys);
    SameLater(c, c, chat, keys);
    SameLater(c, RollBack(c), chat, keys);
    CommitKeeps(executed, chat, keys);
    LaterTwice(c, executed, Commit(executed), chat, keys);
  }

  lemma SayKeeps(c: Session, chat: string, m: Message, f: Fate, keys: seq<string>)
    requires Sound(c) && c.open == [] && (m.NoticeText? ==> m.key in keys)
    ensures Later(c, Say(c, chat, m, f), chat, keys)
  {
    hide Balanced;
    if Balanced(c.acts, c.stored.deliveries) {
      SayBalanced(c.acts, c.stored.deliveries, chat, m);
    }
  }

  // ---------- the send loop ----------

  /** How many sends and marks in a row were done, from the n-th on. */
  function Smooth(w: World, n: nat, total: nat): (count: nat)
    requires n <= total
    ensures n <= count <= total
    ensures count < total ==> !(w.send(count).Done? && w.mark(count).Done?)
    decreases total - n
  {
    if n < total && w.send(n).Done? && w.mark(n).Done? then Smooth(w, n + 1, total) else n
  }

  /** The loop ended at a mark whose commit raised and left its insert pending. */
  predicate MarkLeftPending(w: World, n: nat, total: nat)
  {
    n < total && w.send(n).Done? && LeavesPending(w.mark(n))
  }

  /** The exception that ended the loop, if one did. */
  function LoopCut(w: World, n: nat, total: nat): Cut
  {
    if n == total then Through else if !w.send(n).Done? then CutOf(w.send(n)) else CutOf(w.mark(n))
  }

  ghost predicate AllNew(deliveries: map<DeliveryKey, Delivery>, pending: seq<string>, n: nat, chat: string)
  {
    Distinct(pending) && forall i :: n <= i < |pending| ==> (pending[i], chat) !in deliveries
  }

  /** What the loop leaves, started at the n-th notice. */
  ghost predicate LoopLeaves(c: Session, pending: seq<string>, n: nat, w: World, l: Loop)
    requires n <= |pending|
  {
    && Later(c, l.session, w.chat, pending) && l.count == Smooth(w, n, |pending|) && l.cut == LoopCut(w, l.count, |pending|)
    && l.session.open == (if MarkLeftPending(w, l.count, |pending|) then [(pending[l.count], w.chat)] else [])
    && (!l.cut.Dead? ==> |l.session.stored.deliveries| == |c.stored.deliveries| + l.count - n)
    && (forall i :: n <= i < l.count ==> (pending[i], w.chat) in l.session.stored.deliveries)
  }

  lemma SmoothStep(w: World, n: nat, total: nat)
    requires n < total
    ensures Smooth(w, n, total) == if w.send(n).Done? && w.mark(n).Done? then Smooth(w, n + 1, total) else n
  {
  }

  lemma {:induction false} DeliverLeaves(c: Session, pending: seq<string>, n: nat, w: World)
    requires n <= |pending| && Sound(c) && c.open == [] && AllNew(c.stored.deliveries, pending, n, w.chat)
    ensures LoopLeaves(c, pending, n, w, Deliver(c, pending, n, w))
    decreases |pending| - n
  {
    hide Later, MarkedAt;
    if n == |pending| {
      SameLater(c, c, w.chat, pending);
    } else {
      var said := Say(c, w.chat, NoticeText(pending[n]), w.send(n));
      SayKeeps(c, w.chat, NoticeText(pending[n]), w.send(n), pending);
      if w.send(n).Done? {
        var key, d := (pending[n], w.chat), Delivery(w.deliveredAt(n), w.messageId(n));
        var marked := MarkedAt(said, key, d, w.mark(n));
        MarkKeeps(said, key, d, w.mark(n), w.chat, pending);
        LaterTwice(c, said, marked, w.chat, pending);
        if w.mark(n).Done? {
          MarkedIsSound(said, marked, w.chat, pending);
          DeliverLeaves(marked, pending, n + 1, w);
          OneMore(c, marked, pending, n, w, Deliver(marked, pending, n + 1, w));
        }
      }
    }
  }

  lemma MarkedIsSound(c: Session, d: Session, chat: string, keys: seq<string>)
    requires Later(c, d, chat, keys)
    ensures Sound(d)
  {
  }

  lemma OneMore(c: Session, d: Session, pending: seq<string>, n: nat, w: World, l: Loop)
    requires n < |pending| && w.send(n).Done? && w.mark(n).Done? && LoopLeaves(d, pending, n + 1, w, l)
    requires Later(c, d, w.chat, pending) && |d.stored.deliveries| == |c.stored.deliveries| + 1
    requires (pending[n], w.chat) in d.stored.deliveries
    ensures LoopLeaves(c, pending, n, w, l)
  {
    hide Later, Smooth, LoopCut, MarkLeftPending;
    SmoothStep(w, n, |pending|);
    LaterTwice(c, d, l.session, w.chat, pending);
    StillThere(d, l.session, (pending[n], w.chat), w.chat, pending);
  }

  lemma StillThere(c: Session, d: Session, key: DeliveryKey, chat: string, keys: seq<string>)
    requires Later(c, d, chat, keys) && key in c.stored.deliveries
    ensures key in d.stored.deliveries
  {
  }

  // ---------- one run and one process ----------

  /** The keys a process has to send. */
  function PendingOf(s: State, w: World): seq<string>
  {
    Pending(AllNotices(w.collected), w.chat, s.tables.deliveries)
  }

  predicate ReachesLoop(w: World)
  {
    w.start.Done? && w.collect.Done? && w.upsert.Done? && w.select.Done?
  }

  /** The notices the run counts as delivered. */
  function Counted(s: State, w: World): nat
  {
    if ReachesLoop(w) then Smooth(w, 0, |PendingOf(s, w)|) else 0
  }

  /** A mark's commit raised and left its insert pending in this run. */
  predicate InsertPending(s: State, w: World)
  {
    ReachesLoop(w) && MarkLeftPending(w, Counted(s, w), |PendingOf(s, w)|)
  }

  /** An insert left pending is not rolled back, nor committed, before the connection closes. */
  predicate PendingAtClose(s: State, w: World)
  {
    InsertPending(s, w) && (w.mark(Counted(s, w)).caught ==> w.finish.Raises? && !w.finish.rolledBack)
  }

  /** A commit of the run's row, or of the compaction, takes the pending insert with it. */
  predicate LateMark(s: State, w: World)
  {
    && InsertPending(s, w)
    && ((w.mark(Counted(s, w)).caught && w.finish.Done?) || (PendingAtClose(s, w) && Committed(w.close)))
  }

  lemma PendingAllNew(s: State, w: World)
    ensures AllNew(s.tables.deliveries, PendingOf(s, w), 0, w.chat)
    ensures forall key :: key in PendingOf(s, w) <==> HasKey(AllNotices(w.collected), key) && (key, w.chat) !in s.tables.deliveries
  {
    hide AllNotices, Pending;
    AllNoticesKeys(w.collected);
    PendingMeans(AllNotices(w.collected), w.chat, s.tables.deliveries);
    var pending := PendingOf(s, w);
    assert forall i :: 0 <= i < |pending| ==> pending[i] in pending;
  }

  /** What a run leaves on its connection. */
  ghost predicate RunLeaves(s: State, w: World, c: Session, r: Outcome)
  {
    var before, pending := s.tables.deliveries, PendingOf(s, w);
    && Later(Opened(s), c, w.chat, pending)
    && (r.Completed? || r.TelegramFailure? ==>
          && ReachesLoop(w) && r.newCount == Counted(s, w) && c.open == []
          && (InsertPending(s, w) ==> w.mark(Counted(s, w)).caught && w.finish.Done?)
          && |c.stored.deliveries| == |before| + r.newCount + Unit(InsertPending(s, w)))
    && (r.Completed? ==> forall key :: key in pending ==> (key, w.chat) in c.stored.deliveries)
    && (r.Errored? ==>
          && (InsertPending(s, w) && w.mark(Counted(s, w)).caught ==> w.finish.Raises?)
          && |c.stored.deliveries| == |before| + Counted(s, w) && |c.open| == Unit(PendingAtClose(s, w)))
  }

  /** The report sends no notice and writes nothing. */
  lemma ReportLeaves(c: Session, pending: seq<string>, w: World, l: Loop)
    requires LoopLeaves(c, pending, 0, w, l)
    ensures var m := Report(l, w);
            && Later(c, m.session, w.chat, pending) && m.count == l.count && m.session.open == l.session.open
            && m.session.stored == l.session.stored && m.session.live == l.session.live
            && (l.cut.Through? || m.cut == l.cut)
  {
    hide Later, Smooth, AnyFailed;
    var failed := AnyFailed(w.collected);
    if l.cut.Through? && (failed || l.count == 0) {
      MarkedIsSound(c, l.session, w.chat, pending);
      SayKeeps(l.session, w.chat, if failed then FailureReport else NothingNew, w.send(l.count), pending);
      LaterTwice(c, l.session, Report(l, w).session, w.chat, pending);
    }
  }

  lemma EndedKeeps(c: Session, id: nat, status: string, count: nat, agencies: map<string, bool>, f: Fate, chat: string,
                   keys: seq<string>)
    requires Sound(c)
    ensures var d := Ended(c, id, status, count, agencies, f);
            && Later(c, d, chat, keys) && d.open == (if f.Raises? && !f.rolledBack then c.open else [])
            && |d.stored.deliveries| == |c.stored.deliveries| + (if Committed(f) then |c.open| else 0)
  {
    var runs := c.live.runs;
    var after := if id in runs then runs[id := RunRow(runs[id].startedAt, status, count, agencies)] else runs;
    WriteKeeps(c, c.live.(runs := after), f, chat, keys);
  }

  /** The loop's end, the report and the finishing of the run's row. */
  lemma FinishLeaves(s: State, c: Session, w: World, l: Loop, id: nat)
    requires ReachesLoop(w) && LoopLeaves(c, PendingOf(s, w), 0, w, l) && Later(Opened(s), c, w.chat, PendingOf(s, w))
    requires |c.stored.deliveries| == |s.tables.deliveries|
    ensures var (d, r) := Finish(Report(l, w), id, w); RunLeaves(s, w, d, r)
  {
    hide Later, Smooth, Ended, AnyFailed, AgencyStatus, AllNotices, Pending, Report;
    var pending := PendingOf(s, w);
    var m := Report(l, w);
    ReportLeaves(c, pending, w, l);
    LaterTwice(Opened(s), c, m.session, w.chat, pending);
    var (d, r) := Finish(m, id, w);
    MarkedIsSound(c, m.session, w.chat, pending);
    if m.cut.Through? || (m.cut.Raised? && m.cut.caught) {
      var status := if m.cut.Raised? then "telegram_failure" else if AnyFailed(w.collected) then "partial_failure" else "success";
      EndedKeeps(m.session, id, status, m.count, AgencyStatus(w.collected), w.finish, w.chat, pending);
      LaterTwice(Opened(s), m.session, d, w.chat, pending);
      if m.cut.Through? {
        forall key | key in pending ensures (key, w.chat) in d.stored.deliveries {
          var i :| 0 <= i < |pending| && pending[i] == key;
          StillThere(m.session, d, (key, w.chat), w.chat, pending);
        }
      }
    }
  }

  lemma BeganKeeps(c: Session, w: World, chat: string, keys: seq<string>)
    requires Sound(c) && c.open == []
    ensures var d := Began(c, w);
            Later(c, d, chat, keys) && d.open == [] && d.live.deliveries == d.stored.deliveries == c.stored.deliveries
  {
    hide Later;
    var t := c.live;
    var after := t.(runs := t.runs[t.nextRun := RunRow(w.startedAt, "running", 0, map[])], nextRun := t.nextRun + 1);
    WriteKeeps(c, after, w.start, chat, keys);
  }

  lemma SeenKeeps(c: Session, notices: seq<Notice>, w: World, chat: string, keys: seq<string>)
    requires Sound(c) && c.open == []
    ensures var d := Seen(c, notices, w);
            Later(c, d, chat, keys) && d.open == [] && d.live.deliveries == d.stored.deliveries == c.stored.deliveries
  {
    hide Later, UpsertSeen;
    var rows := UpsertSeen(c.live.announcements, Executed(notices, w), w.now);
    WriteKeeps(c, c.live.(announcements := rows), w.upsert, chat, keys);
  }

  /** The writes before the loop leave the deliveries alone. */
  lemma StartLeaves(s: State, w: World)
    ensures var c := Opened(s);
            var began := Began(c, w);
            var seen := Seen(began, AllNotices(w.collected), w);
            && Later(c, began, w.chat, PendingOf(s, w)) && Later(c, seen, w.chat, PendingOf(s, w))
            && began.open == [] && seen.open == [] && seen.live.deliveries == s.tables.deliveries
            && began.stored.deliveries == s.tables.deliveries && seen.stored.deliveries == s.tables.deliveries
  {
    hide Later, AllNotices, PendingOf, Began, Seen;
    var c, keys := Opened(s), PendingOf(s, w);
    BeganKeeps(c, w, w.chat, keys);
    var began := Began(c, w);
    MarkedIsSound(c, began, w.chat, keys);
    SeenKeeps(began, AllNotices(w.collected), w, w.chat, keys);
    LaterTwice(c, began, Seen(began, AllNotices(w.collected), w), w.chat, keys);
  }

  lemma RunMeans(s: State, w: World)
    ensures var (c, r) := RunOf(Opened(s), w); RunLeaves(s, w, c, r)
  {
    hide Later, Smooth, Began, Seen, Deliver, Report, Finish, AllNotices, Pending, AllNew, RunLeaves, LoopLeaves;
    StartLeaves(s, w);
    var seen := Seen(Began(Opened(s), w), AllNotices(w.collected), w);
    if ReachesLoop(w) {
      PendingAllNew(s, w);
      MarkedIsSound(Opened(s), seen, w.chat, PendingOf(s, w));
      var l := Deliver(seen, PendingOf(s, w), 0, w);
      DeliverLeaves(seen, PendingOf(s, w), 0, w);
      FinishLeaves(s, seen, w, l, s.tables.nextRun);
    } else {
      var (c, r) := RunOf(Opened(s), w);
      BrokenLeaves(s, w, c, r);
    }
  }

  lemma BrokenLeaves(s: State, w: World, c: Session, r: Outcome)
    requires !ReachesLoop(w) && (r.Errored? || r.Stopped?) && Later(Opened(s), c, w.chat, PendingOf(s, w))
    requires c.open == [] && c.stored.deliveries == s.tables.deliveries
    ensures RunLeaves(s, w, c, r)
  {
    hide Later, Smooth;
  }

  /** What a process leaves: nothing is lost or changed among the deliveries, only pending
      notices were sent, and the rows added are counted exactly. */
  lemma ProcessMeans(s: State, w: World)
    ensures var (t, r) := ProcessOf(s, w);
            var pending := PendingOf(s, w);
            && Kept(s.tables.deliveries, t.tables.deliveries) && Addressed(s.acts, t.acts, w.chat, pending)
            && (Balanced(s.acts, s.tables.deliveries) ==> Balanced(t.acts, t.tables.deliveries))
            && (!r.Stopped? ==> |t.tables.deliveries| == |s.tables.deliveries| + Counted(s, w) + Unit(LateMark(s, w)))
            && (r.Completed? || r.TelegramFailure? ==>
                  ReachesLoop(w) && r.newCount == Counted(s, w) && (LateMark(s, w) <==> InsertPending(s, w)))
            && (r.Completed? ==> forall key :: key in pending ==> (key, w.chat) in t.tables.deliveries)
  {
    hide RunOf, PendingOf, Sound, Balanced, Counted, Kept, Addressed;
    RunMeans(s, w);
    var (c, r) := RunOf(Opened(s), w);
    var pending := PendingOf(s, w);
    if !r.Stopped? {
      var kept := map k | k in c.live.runs && c.live.runs[k].startedAt >= w.closedAt - RETENTION :: c.live.runs[k];
      WriteKeeps(c, c.live.(runs := kept), w.close, w.chat, pending);
      var d := Compacted(c, w);
      LaterTwice(Opened(s), c, d, w.chat, pending);
      if r.Completed? {
        forall key | key in pending ensures (key, w.chat) in d.stored.deliveries {
          StillThere(c, d, (key, w.chat), w.chat, pending);
        }
      }
    }
  }

  // ---------- the laws ----------

  /** The delivered set only grows, and nothing in it changes. */
  lemma DeliveredOnlyGrows(s: State, w: World)
    ensures var t := ProcessOf(s, w).0.tables;
            forall k :: k in s.tables.deliveries ==> k in t.deliveries && t.deliveries[k] == s.tables.deliveries[k]
  {
    hide ProcessOf, PendingOf;
    ProcessMeans(s, w);
  }

  /** A delivered key is never sent to its chat again. */
  lemma DeliveredIsNotResent(s: State, w: World, key: string)
    requires (key, w.chat) in s.tables.deliveries
    ensures var t := ProcessOf(s, w).0;
            && |s.acts| <= |t.acts| && t.acts[..|s.acts|] == s.acts
            && forall i :: |s.acts| <= i < |t.acts| ==> t.acts[i] != Sent(w.chat, NoticeText(key))
  {
    hide ProcessOf, PendingOf, Balanced, AllNew;
    ProcessMeans(s, w);
    PendingAllNew(s, w);
  }

  /** A run that completes leaves every collected notice delivered, even those of a
      collector that failed after yielding them. */
  lemma CompletedDeliversAll(s: State, w: World, c: nat, i: nat)
    requires ProcessOf(s, w).1.Completed? && c < |w.collected| && i < |w.collected[c].notices|
    ensures (w.collected[c].notices[i].key, w.chat) in ProcessOf(s, w).0.tables.deliveries
  {
    hide ProcessOf, PendingOf, Balanced, AllNew, AllNotices;
    ProcessMeans(s, w);
    PendingAllNew(s, w);
    AllNoticesKeys(w.collected);
  }

  /** The delivery rows a process that is not stopped adds are the notices it counts, and one
      more exactly when a mark's insert was left pending and a later commit took it along. */
  lemma RowsAdded(s: State, w: World)
    requires !ProcessOf(s, w).1.Stopped?
    ensures |ProcessOf(s, w).0.tables.deliveries| == |s.tables.deliveries| + Counted(s, w) + Unit(LateMark(s, w))
  {
    hide ProcessOf, PendingOf, Balanced, Counted;
    ProcessMeans(s, w);
  }

  // ---------- the count a run stores ----------

  /** The runs are the same on disk and in the transaction. */
  ghost predicate SameRuns(c: Session, runs: map<nat, RunRow>)
  {
    c.stored.runs == runs && c.live.runs == runs
  }

  lemma {:induction false} DeliverKeepsRuns(c: Session, pending: seq<string>, n: nat, w: World, runs: map<nat, RunRow>)
    requires n <= |pending| && SameRuns(c, runs)
    ensures SameRuns(Deliver(c, pending, n, w).session, runs)
    decreases |pending| - n
  {
    if n < |pending| && w.send(n).Done? && w.mark(n).Done? {
      var said := Say(c, w.chat, NoticeText(pending[n]), w.send(n));
      var marked := MarkedAt(said, (pending[n], w.chat), Delivery(w.deliveredAt(n), w.messageId(n)), w.mark(n));
      DeliverKeepsRuns(marked, pending, n + 1, w, runs);
    }
  }

  lemma RunStored(s: State, w: World)
    ensures var (c, r) := RunOf(Opened(s), w);
            r.Completed? || r.TelegramFailure? ==>
              && s.tables.nextRun in c.stored.runs && c.live.runs == c.stored.runs
              && c.stored.runs[s.tables.nextRun].newCount == r.newCount
              && c.stored.runs[s.tables.nextRun].startedAt == w.startedAt
  {
    hide AllNotices, Pending, UpsertSeen, Deliver, AgencyStatus, AnyFailed;
    var c := Opened(s);
    if ReachesLoop(w) {
      var seen := Seen(Began(c, w), AllNotices(w.collected), w);
      var pending := Pending(AllNotices(w.collected), w.chat, seen.live.deliveries);
      var runs := s.tables.runs[s.tables.nextRun := RunRow(w.startedAt, "running", 0, map[])];
      DeliverKeepsRuns(seen, pending, 0, w, runs);
    }
  }

  /** A run that returns, or fails in its sends, reports and stores as its count the number of
      delivery rows the process adds, if and only if no mark's commit raised and left its
      insert pending; otherwise one row more was added. The compaction of the same process
      removes the row only by a clock three months on. */
  lemma NewCountIsRowsAdded(s: State, w: World)
    requires ProcessOf(s, w).1.Completed? || ProcessOf(s, w).1.TelegramFailure?
    ensures var (t, r) := ProcessOf(s, w);
            && (|t.tables.deliveries| == |s.tables.deliveries| + r.newCount <==>
                !MarkLeftPending(w, r.newCount, |PendingOf(s, w)|))
            && (MarkLeftPending(w, r.newCount, |PendingOf(s, w)|) ==>
                |t.tables.deliveries| == |s.tables.deliveries| + r.newCount + 1)
            && (s.tables.nextRun in t.tables.runs ==> t.tables.runs[s.tables.nextRun].newCount == r.newCount)
            && (w.closedAt - RETENTION <= w.startedAt ==> s.tables.nextRun in t.tables.runs)
  {
    hide RunOf, PendingOf, Balanced, MarkLeftPending, Smooth;
    ProcessMeans(s, w);
    RunStored(s, w);
  }

  /** Such a run exists: a reader's lock makes the commit of the one mark raise, and when it is
      gone the commit of the run's row takes the insert along. One row is added, none counted. */
  lemma UncountedRow(n: Notice, chat: string) returns (w: World)
    ensures var (t, r) := ProcessOf(EMPTY, w);
            && r == TelegramFailure(0) && 1 in t.tables.runs && t.tables.runs[1].newCount == 0
            && t.tables.deliveries.Keys == {(n.key, chat)}
            && t.acts == [Sent(chat, NoticeText(n.key)), Marked(chat, n.key)]
  {
    w := World([Collected("LH", [n], false)], chat, 0, 0, 0, Done, Done, Done, 0, Done,
      i => Done, i => Raises(true, true, false), i => 0, i => 0, Done, Done);
    OneNotice(n, chat, w);
    NewCountIsRowsAdded(EMPTY, w);
  }

  lemma OneNotice(n: Notice, chat: string, w: World)
    requires w.collected == [Collected("LH", [n], false)] && w.chat == chat
    ensures AllNotices(w.collected) == [n] && Pending([n], chat, map[]) == [n.key]
  {
    assert w.collected[..0] == [] && [n][..0] == [];
    assert PutAll([], [n]) == Put(PutAll([], []), n);
  }

  // ---------- whole histories ----------

  /** The states a history of processes passes through, from the empty database. */
  ghost predicate History(states: seq<State>, worlds: seq<World>)
  {
    && |states| == |worlds| + 1 && states[0] == EMPTY
    && forall i :: 0 <= i < |worlds| ==> states[i + 1] == ProcessOf(states[i], worlds[i]).0
  }

  /** Over any history, the sends of a key to a chat that Telegram accepted are its unmarked
      sends, plus one if it is delivered. */
  lemma {:induction false} SendsAccountedFor(states: seq<State>, worlds: seq<World>)
    requires History(states, worlds)
    ensures Balanced(states[|worlds|].acts, states[|worlds|].tables.deliveries)
  {
    hide ProcessOf, Balanced, PendingOf;
    if worlds == [] {
      EmptyBalanced();
    } else {
      var n := |worlds| - 1;
      assert forall i :: 0 <= i < n ==> states[i + 1] == ProcessOf(states[i], worlds[i]).0;
      SendsAccountedFor(states[..|states| - 1], worlds[..n]);
      ProcessMeans(states[n], worlds[n]);
    }
  }

  lemma EmptyBalanced()
    ensures Balanced(EMPTY.acts, EMPTY.tables.deliveries)
  {
  }

  /** A notice is sent twice only if a send of it was not marked. */
  lemma SentTwiceOnlyIfUnmarked(states: seq<State>, worlds: seq<World>, chat: string, key: string)
    requires History(states, worlds)
    ensures var acts := states[|worlds|].acts; Sends(acts, chat, key) <= 1 + Unmarked(acts, chat, key)
  {
    SendsAccountedFor(states, worlds);
  }
}
