/** What a process of the legacy monitor returns, sends and stores, said of what its collectors
    yielded and how its sends and writes went. */
module LegacyDeliveryMeaning {
  import opened Order
  import opened LegacyDelivery

  // ---------- which notices, in which order ----------

  /** Everything yielded, one collector after another. */
  function Yielded(collected: seq<Collected>): seq<Notice>
  {
    if collected == [] then [] else Yielded(collected[..|collected| - 1]) + collected[|collected| - 1].notices
  }

  lemma {:induction false} PutAllConcat(notices: seq<Notice>, a: seq<Notice>, b: seq<Notice>)
    ensures PutAll(notices, a + b) == PutAll(PutAll(notices, a), b)
  {
    if b == [] {
      assert a + b == a;
    } else {
      var n := |b| - 1;
      PutAllConcat(notices, a, b[..n]);
      assert (a + b)[..|a + b| - 1] == a + b[..n];
    }
  }

  lemma {:induction false} AllArePut(collected: seq<Collected>)
    ensures AllNotices(collected) == PutAll([], Yielded(collected))
  {
    if collected != [] {
      var n := |collected| - 1;
      AllArePut(collected[..n]);
      PutAllConcat([], Yielded(collected[..n]), collected[n].notices);
    }
  }

  /** Each key once, with its last content, in the order of the first appearances. */
  ghost predicate Lists(u: seq<Notice>, f: seq<Notice>)
  {
    && UniqueKeys(u)
    && (forall q :: 0 <= q < |f| ==> HasKey(u, f[q].key))
    && (forall i :: 0 <= i < |u| ==> LastContent(f, u[i]))
    && (forall i, j :: 0 <= i < j < |u| ==> Before(f, u[i].key, u[j].key))
  }

  /** No later notice has the same key. */
  ghost predicate LastContent(f: seq<Notice>, n: Notice)
  {
    exists q :: 0 <= q < |f| && f[q] == n && forall p :: q < p < |f| ==> f[p].key != n.key
  }

  /** The first key appears before any appearance of the second. */
  ghost predicate Before(f: seq<Notice>, a: string, b: string)
  {
    exists p :: 0 <= p < |f| && f[p].key == a && forall q :: 0 <= q <= p ==> f[q].key != b
  }

  lemma {:induction false} PutNew(u: seq<Notice>, n: Notice)
    requires forall i :: 0 <= i < |u| ==> u[i].key != n.key
    ensures Put(u, n) == u + [n]
  {
    if u != [] {
      PutNew(u[1..], n);
      assert u == [u[0]] + u[1..];
    }
  }

  lemma {:induction false} PutOld(u: seq<Notice>, n: Notice, i: nat)
    requires i < |u| && u[i].key == n.key && forall j :: 0 <= j < i ==> u[j].key != n.key
    ensures Put(u, n) == u[i := n]
  {
    if i > 0 {
      PutOld(u[1..], n, i - 1);
      assert u[i := n] == [u[0]] + u[1..][i - 1 := n];
    } else {
      assert u[0 := n] == [n] + u[1..];
    }
  }

  lemma BeforeLater(f: seq<Notice>, n: Notice, a: string, b: string)
    requires Before(f, a, b)
    ensures Before(f + [n], a, b)
  {
    var p :| 0 <= p < |f| && f[p].key == a && forall q :: 0 <= q <= p ==> f[q].key != b;
    var g := f + [n];
    assert forall q :: 0 <= q < |f| ==> g[q] == f[q];
    assert g[p].key == a;
  }

  lemma LastLater(f: seq<Notice>, n: Notice, m: Notice)
    requires LastContent(f, m) && m.key != n.key
    ensures LastContent(f + [n], m)
  {
    var q :| 0 <= q < |f| && f[q] == m && forall p :: q < p < |f| ==> f[p].key != m.key;
    assert (f + [n])[q] == m;
  }

  lemma LastNow(f: seq<Notice>, n: Notice)
    ensures LastContent(f + [n], n)
  {
    assert (f + [n])[|f|] == n;
  }

  /** What a new key follows. */
  lemma BeforeNew(u: seq<Notice>, f: seq<Notice>, n: Notice, m: Notice)
    requires (forall q :: 0 <= q < |f| ==> HasKey(u, f[q].key)) && !HasKey(u, n.key) && LastContent(f, m)
    ensures Before(f + [n], m.key, n.key)
  {
    var g := f + [n];
    var q :| 0 <= q < |f| && f[q] == m && forall p :: q < p < |f| ==> f[p].key != m.key;
    assert forall p :: 0 <= p <= q ==> HasKey(u, f[p].key) && g[p] == f[p];
    assert g[q].key == m.key;
  }

  lemma ListsReplace(u: seq<Notice>, f: seq<Notice>, n: Notice, i: nat)
    requires Lists(u, f) && i < |u| && u[i].key == n.key
    ensures Lists(u[i := n], f + [n])
  {
    hide Before, LastContent, HasKey;
    var v, g := u[i := n], f + [n];
    assert forall q :: 0 <= q < |f| ==> g[q] == f[q];
    assert forall k :: 0 <= k < |u| ==> v[k].key == u[k].key;
    SameKeys(u, v);
    HasAt(v, i);
    forall k | 0 <= k < |v| ensures LastContent(g, v[k]) {
      if k == i {
        LastNow(f, n);
      } else {
        LastLater(f, n, u[k]);
      }
    }
    forall a, b | 0 <= a < b < |v| ensures Before(g, v[a].key, v[b].key) {
      BeforeLater(f, n, u[a].key, u[b].key);
    }
  }

  lemma HasAt(u: seq<Notice>, i: nat)
    requires i < |u|
    ensures HasKey(u, u[i].key)
  {
  }

  lemma KeysSnoc(u: seq<Notice>, n: Notice)
    ensures forall key :: HasKey(u + [n], key) <==> HasKey(u, key) || key == n.key
  {
    var v := u + [n];
    assert v[|u|] == n && forall i :: 0 <= i < |u| ==> v[i] == u[i];
    forall key | HasKey(u, key) ensures HasKey(v, key) {
      var i :| 0 <= i < |u| && u[i].key == key;
      assert v[i].key == key;
    }
  }

  lemma SameKeys(u: seq<Notice>, v: seq<Notice>)
    requires |u| == |v| && forall k :: 0 <= k < |u| ==> v[k].key == u[k].key
    ensures forall key :: HasKey(u, key) <==> HasKey(v, key)
  {
    forall key ensures HasKey(u, key) <==> HasKey(v, key) {
      if HasKey(u, key) {
        var i :| 0 <= i < |u| && u[i].key == key;
        assert v[i].key == key;
      }
      if HasKey(v, key) {
        var i :| 0 <= i < |v| && v[i].key == key;
        assert u[i].key == key;
      }
    }
  }

  lemma ListsAppend(u: seq<Notice>, f: seq<Notice>, n: Notice)
    requires Lists(u, f) && !HasKey(u, n.key)
    ensures Lists(u + [n], f + [n])
  {
    hide Before, LastContent, HasKey;
    var v, g := u + [n], f + [n];
    assert forall q :: 0 <= q < |f| ==> g[q] == f[q];
    KeysSnoc(u, n);
    forall k | 0 <= k < |u| ensures v[k] == u[k] && u[k].key != n.key {
      HasAt(u, k);
    }
    forall k | 0 <= k < |v| ensures LastContent(g, v[k]) {
      if k == |u| {
        LastNow(f, n);
      } else {
        LastLater(f, n, u[k]);
      }
    }
    forall a, b | 0 <= a < b < |v| ensures Before(g, v[a].key, v[b].key) {
      if b < |u| {
        BeforeLater(f, n, u[a].key, u[b].key);
      } else {
        BeforeNew(u, f, n, u[a]);
      }
    }
  }

  lemma {:induction false} PutAllLists(f: seq<Notice>)
    ensures Lists(PutAll([], f), f)
  {
    if f != [] {
      var m, n := |f| - 1, f[|f| - 1];
      PutAllLists(f[..m]);
      var u := PutAll([], f[..m]);
      assert f == f[..m] + [n];
      if HasKey(u, n.key) {
        var i: nat :| i < |u| && u[i].key == n.key;
        PutOld(u, n, i);
        ListsReplace(u, f[..m], n, i);
      } else {
        PutNew(u, n);
        ListsAppend(u, f[..m], n);
      }
    }
  }

  /** The notices of a run: every key yielded once, with the content yielded last, in the order
      in which the keys first appeared, failed collectors included. */
  lemma NoticesMean(collected: seq<Collected>)
    ensures Lists(AllNotices(collected), Yielded(collected))
  {
    hide Lists;
    AllArePut(collected);
    PutAllLists(Yielded(collected));
  }

  /** A notice with the first key stands before one with the second. */
  ghost predicate InOrder(notices: seq<Notice>, a: string, b: string)
  {
    exists i, j :: 0 <= i < j < |notices| && notices[i].key == a && notices[j].key == b
  }

  lemma InOrderLater(notices: seq<Notice>, n: Notice, a: string, b: string)
    requires InOrder(notices, a, b)
    ensures InOrder(notices + [n], a, b)
  {
    var i, j :| 0 <= i < j < |notices| && notices[i].key == a && notices[j].key == b;
    assert (notices + [n])[i] == notices[i] && (notices + [n])[j] == notices[j];
  }

  lemma InOrderLast(notices: seq<Notice>, n: Notice, a: string)
    requires HasKey(notices, a)
    ensures InOrder(notices + [n], a, n.key)
  {
    var i :| 0 <= i < |notices| && notices[i].key == a;
    assert (notices + [n])[i] == notices[i] && (notices + [n])[|notices|] == n;
  }

  /** The keys to send are those of the notices without a delivery to the chat, in their order. */
  lemma {:induction false} PendingInOrder(notices: seq<Notice>, chat: string, deliveries: map<DeliveryKey, Delivery>)
    requires UniqueKeys(notices)
    ensures var pending := Pending(notices, chat, deliveries);
            && (forall key :: key in pending <==> HasKey(notices, key) && (key, chat) !in deliveries)
            && (forall i, j :: 0 <= i < j < |pending| ==> InOrder(notices, pending[i], pending[j]))
  {
    hide InOrder, HasKey, Distinct, UniqueKeys;
    PendingMeans(notices, chat, deliveries);
    if notices != [] {
      FrontUnique(notices);
      var n := |notices| - 1;
      var rest, front, pending := notices[..n], Pending(notices[..n], chat, deliveries), Pending(notices, chat, deliveries);
      PendingInOrder(rest, chat, deliveries);
      assert notices == rest + [notices[n]];
      forall i, j | 0 <= i < j < |pending| ensures InOrder(notices, pending[i], pending[j]) {
        assert pending[i] == front[i] && front[i] in front;
        if j < |front| {
          InOrderLater(rest, notices[n], front[i], front[j]);
        } else {
          InOrderLast(rest, notices[n], front[i]);
        }
      }
    }
  }

  lemma FrontUnique(notices: seq<Notice>)
    requires UniqueKeys(notices) && notices != []
    ensures UniqueKeys(notices[..|notices| - 1])
  {
  }

  // ---------- the agencies ----------

  /** The agency's last collector finished, or failed. */
  ghost predicate LastSays(collected: seq<Collected>, agency: string, finished: bool)
  {
    exists i :: 0 <= i < |collected| && collected[i].agency == agency && finished == !collected[i].failed
                && forall j :: i < j < |collected| ==> collected[j].agency != agency
  }

  lemma LastSaysLater(collected: seq<Collected>, c: Collected, agency: string, finished: bool)
    requires LastSays(collected, agency, finished) && c.agency != agency
    ensures LastSays(collected + [c], agency, finished)
  {
    var i :| 0 <= i < |collected| && collected[i].agency == agency && finished == !collected[i].failed
             && forall j :: i < j < |collected| ==> collected[j].agency != agency;
    assert (collected + [c])[i] == collected[i];
  }

  lemma LastSaysNow(collected: seq<Collected>, c: Collected)
    ensures LastSays(collected + [c], c.agency, !c.failed)
  {
    assert (collected + [c])[|collected|] == c;
  }

  /** Each agency's status is whether its last collector finished. */
  lemma {:induction false} AgenciesMean(collected: seq<Collected>)
    ensures forall i :: 0 <= i < |collected| ==> collected[i].agency in AgencyStatus(collected)
    ensures forall a :: a in AgencyStatus(collected) ==> LastSays(collected, a, AgencyStatus(collected)[a])
  {
    hide LastSays;
    if collected != [] {
      var n := |collected| - 1;
      var rest, last := collected[..n], collected[n];
      AgenciesMean(rest);
      assert collected == rest + [last];
      forall i | 0 <= i < |collected| ensures collected[i].agency in AgencyStatus(collected) {
        if i < n {
          assert rest[i].agency in AgencyStatus(rest);
        }
      }
      LastSaysNow(rest, last);
      forall a | a in AgencyStatus(collected) ensures LastSays(collected, a, AgencyStatus(collected)[a]) {
        if a != last.agency {
          LastSaysLater(rest, last, a, AgencyStatus(rest)[a]);
        }
      }
    }
  }

  // ---------- how a process ends ----------

  /** What is to be sent: keys yielded and not delivered to the chat before, each once, in the
      order in which they first appeared. */
  lemma PendingOfMeans(s: State, w: World)
    ensures var pending, f := PendingOf(s, w), Yielded(w.collected);
            && (forall i, j :: 0 <= i < j < |pending| ==> pending[i] != pending[j] && Before(f, pending[i], pending[j]))
            && (forall key :: key in pending <==> HasKey(f, key) && (key, w.chat) !in s.tables.deliveries)
  {
    hide Before, LastContent, HasKey;
    var u, f, pending := AllNotices(w.collected), Yielded(w.collected), PendingOf(s, w);
    NoticesMean(w.collected);
    PendingMeans(u, w.chat, s.tables.deliveries);
    PendingInOrder(u, w.chat, s.tables.deliveries);
    ListedKeys(u, f);
    forall i, j | 0 <= i < j < |pending| ensures Before(f, pending[i], pending[j]) {
      assert InOrder(u, pending[i], pending[j]);
      var a, b :| 0 <= a < b < |u| && u[a].key == pending[i] && u[b].key == pending[j];
      assert Before(f, u[a].key, u[b].key);
    }
  }

  lemma ListedKeys(u: seq<Notice>, f: seq<Notice>)
    requires Lists(u, f)
    ensures forall key :: HasKey(u, key) <==> HasKey(f, key)
  {
    hide Before;
    forall key ensures HasKey(u, key) <==> HasKey(f, key) {
      if HasKey(u, key) {
        var i :| 0 <= i < |u| && u[i].key == key;
        assert LastContent(f, u[i]);
      }
    }
  }

  /** The loop sends and marks up to the first of its sends and marks that is not done. */
  lemma {:induction false} LoopEnds(c: Session, pending: seq<string>, n: nat, w: World)
    requires n <= |pending|
    ensures var l := Deliver(c, pending, n, w);
            && n <= l.count <= |pending| && (forall i :: n <= i < l.count ==> w.send(i).Done? && w.mark(i).Done?)
            && if l.count == |pending| then l.cut == Through
               else
                 var fate := if w.send(l.count).Done? then w.mark(l.count) else w.send(l.count);
                 !fate.Done? && l.cut == if fate.Stops? then Dead else Raised(fate.caught)
    decreases |pending| - n
  {
    hide MarkedAt, Say;
    if n < |pending| && w.send(n).Done? && w.mark(n).Done? {
      var said := Say(c, w.chat, NoticeText(pending[n]), w.send(n));
      LoopEnds(MarkedAt(said, (pending[n], w.chat), Delivery(w.deliveredAt(n), w.messageId(n)), w.mark(n)), pending, n + 1, w);
    }
  }

  /** The end of a run that sent and marked `n` of `total` notices. What decides it is the first
      send or mark that was not done; then, with a failed collector or nothing to send, the
      send of the report; and then the finishing of the run's row. */
  ghost predicate Ends(w: World, total: nat, n: nat, r: Outcome)
  {
    var failed := exists i :: 0 <= i < |w.collected| && w.collected[i].failed;
    var fate := if n < total then (if w.send(n).Done? then w.mark(n) else w.send(n))
                else if failed || n == 0 then w.send(n) else Done;
    && n <= total && (forall i :: 0 <= i < n ==> w.send(i).Done? && w.mark(i).Done?) && (n < total ==> !fate.Done?)
    && match fate
       case Stops(_) => r == Stopped
       case Raises(caught, _, _) =>
         if !caught then r == Errored
         else if w.finish.Done? then r == TelegramFailure(n) else r == if w.finish.Stops? then Stopped else Errored
       case Done =>
         if w.finish.Done? then r == Completed(if failed then "partial_failure" else "success", n)
         else r == if w.finish.Stops? then Stopped else Errored
  }

  /** What a process returns. A write before the loop that is not done ends it. */
  lemma OutcomeMeans(s: State, w: World)
    ensures var r := ProcessOf(s, w).1;
            if !w.start.Done? then r == (if w.start.Stops? then Stopped else Errored)
            else if !w.collect.Done? then r == (if w.collect.Stops? then Stopped else Errored)
            else if !w.upsert.Done? then r == (if w.upsert.Stops? then Stopped else Errored)
            else if !w.select.Done? then r == (if w.select.Stops? then Stopped else Errored)
            else exists n :: Ends(w, |PendingOf(s, w)|, n, r)
  {
    hide Began, Seen, Deliver, AllNotices, Pending, Compacted, Ended, Say, AgencyStatus;
    var began, notices := Began(Opened(s), w), AllNotices(w.collected);
    var seen := Seen(began, notices, w);
    if ReachesLoop(w) {
      StartLeaves(s, w);
      var pending := PendingOf(s, w);
      LoopEnds(seen, pending, 0, w);
      assert Ends(w, |pending|, Deliver(seen, pending, 0, w).count, ProcessOf(s, w).1);
    }
  }

  // ---------- reports ----------

  predicate IsReport(a: Act)
  {
    a.Sent? && !a.message.NoticeText?
  }

  /** Acts were added, none of them a report. */
  ghost predicate Quiet(before: seq<Act>, after: seq<Act>)
  {
    |before| <= |after| && after[..|before|] == before && forall i :: |before| <= i < |after| ==> !IsReport(after[i])
  }

  lemma QuietTwice(a: seq<Act>, b: seq<Act>, c: seq<Act>)
    requires Quiet(a, b) && Quiet(b, c)
    ensures Quiet(a, c)
  {
    assert c[..|a|] == c[..|b|][..|a|];
    assert forall i :: 0 <= i < |b| ==> c[i] == c[..|b|][i];
  }

  lemma WriteIsQuiet(c: Session, after: Tables, inserted: seq<DeliveryKey>, f: Fate)
    ensures Quiet(c.acts, Write(c, after, inserted, f).acts)
  {
  }

  lemma {:induction false} LoopIsQuiet(c: Session, pending: seq<string>, n: nat, w: World)
    requires n <= |pending|
    ensures Quiet(c.acts, Deliver(c, pending, n, w).session.acts)
    decreases |pending| - n
  {
    hide Write;
    if n < |pending| {
      var said := Say(c, w.chat, NoticeText(pending[n]), w.send(n));
      assert Quiet(c.acts, said.acts);
      if w.send(n).Done? {
        var key, d := (pending[n], w.chat), Delivery(w.deliveredAt(n), w.messageId(n));
        var marked := MarkedAt(said, key, d, w.mark(n));
        MarkIsQuiet(said, key, d, w.mark(n));
        QuietTwice(c.acts, said.acts, marked.acts);
        if w.mark(n).Done? {
          LoopIsQuiet(marked, pending, n + 1, w);
          QuietTwice(c.acts, marked.acts, Deliver(marked, pending, n + 1, w).session.acts);
        }
      }
    }
  }

  lemma MarkIsQuiet(c: Session, key: DeliveryKey, d: Delivery, f: Fate)
    ensures Quiet(c.acts, MarkedAt(c, key, d, f).acts)
  {
    hide Write;
    WriteIsQuiet(c, c.live, [], f);
    WriteIsQuiet(c, c.live.(deliveries := c.live.deliveries[key := d]), [key], f);
  }

  /** The message was sent between the two. */
  ghost predicate Says(before: seq<Act>, after: seq<Act>, chat: string, m: Message)
  {
    exists i :: |before| <= i < |after| && after[i] == Sent(chat, m)
  }

  /** Quiet steps around one message. */
  lemma SaysOnce(a: seq<Act>, b: seq<Act>, chat: string, m: Message, c: seq<Act>)
    requires Quiet(a, b) && !m.NoticeText? && Quiet(b + [Sent(chat, m)], c)
    ensures forall other: Message :: !other.NoticeText? ==> (Says(a, c, chat, other) <==> other == m)
  {
    var d := b + [Sent(chat, m)];
    assert forall i :: 0 <= i < |d| ==> c[i] == c[..|d|][i];
    assert forall i :: 0 <= i < |b| ==> c[i] == b[i];
    assert c[|b|] == Sent(chat, m);
    forall other: Message | !other.NoticeText? ensures Says(a, c, chat, other) <==> other == m {
      if other == m {
        assert c[|b|] == Sent(chat, other);
      }
    }
  }

  lemma SaysNone(a: seq<Act>, c: seq<Act>, chat: string)
    requires Quiet(a, c)
    ensures forall other: Message :: !other.NoticeText? ==> !Says(a, c, chat, other)
  {
  }

  lemma EndIsQuiet(c: Session, id: nat, status: string, count: nat, agencies: map<string, bool>, f: Fate)
    ensures Quiet(c.acts, Ended(c, id, status, count, agencies, f).acts)
  {
    hide Write;
    var runs := c.live.runs;
    var after := if id in runs then runs[id := RunRow(runs[id].startedAt, status, count, agencies)] else runs;
    WriteIsQuiet(c, c.live.(runs := after), [], f);
  }

  lemma FinishIsQuiet(l: Loop, id: nat, w: World)
    ensures Quiet(l.session.acts, Finish(l, id, w).0.acts)
  {
    hide Ended;
    var status := if l.cut.Raised? then "telegram_failure" else if AnyFailed(w.collected) then "partial_failure" else "success";
    EndIsQuiet(l.session, id, status, l.count, AgencyStatus(w.collected), w.finish);
  }

  lemma CloseIsQuiet(c: Session, w: World)
    ensures Quiet(c.acts, Compacted(c, w).acts)
  {
    hide Write;
    var t := c.live;
    WriteIsQuiet(c, t.(runs := map r | r in t.runs && t.runs[r].startedAt >= w.closedAt - RETENTION :: t.runs[r]), [], w.close);
  }

  /** The report after a loop that ended like this, if there is one. */
  ghost function ReportSaid(l: Loop, w: World): Option<Message>
  {
    if !l.cut.Through? || !(w.send(l.count).Done? || w.send(l.count).applied) then None
    else if exists i :: 0 <= i < |w.collected| && w.collected[i].failed then Some(FailureReport)
    else if l.count == 0 then Some(NothingNew) else None
  }

  lemma ReportActs(l: Loop, w: World)
    ensures Report(l, w).session.acts ==
            l.session.acts + if ReportSaid(l, w).Some? then [Sent(w.chat, ReportSaid(l, w).value)] else []
  {
    assert l.session.acts + [] == l.session.acts;
  }

  /** What the rest of a process leaves of the acts after its loop. */
  lemma RestIsQuiet(s: State, w: World)
    requires ReachesLoop(w)
    ensures var seen := Seen(Began(Opened(s), w), AllNotices(w.collected), w);
            var l := Deliver(seen, PendingOf(s, w), 0, w);
            Quiet(s.acts, l.session.acts) && Quiet(Report(l, w).session.acts, ProcessOf(s, w).0.acts)
  {
    hide Began, Seen, Deliver, AllNotices, Pending, Compacted, Report, Finish, Quiet;
    var began := Began(Opened(s), w);
    var seen := Seen(began, AllNotices(w.collected), w);
    var l := Deliver(seen, PendingOf(s, w), 0, w);
    StartLeaves(s, w);
    StartIsQuiet(s, w);
    LoopIsQuiet(seen, PendingOf(s, w), 0, w);
    QuietTwice(s.acts, seen.acts, l.session.acts);
    FinishIsQuiet(Report(l, w), s.tables.nextRun, w);
    var c := Finish(Report(l, w), s.tables.nextRun, w).0;
    CloseIsQuiet(c, w);
    QuietTwice(Report(l, w).session.acts, c.acts, Compacted(c, w).acts);
  }

  lemma StartIsQuiet(s: State, w: World)
    ensures var began := Began(Opened(s), w);
            && Quiet(s.acts, began.acts) && Quiet(s.acts, Seen(began, AllNotices(w.collected), w).acts)
  {
    hide Write, UpsertSeen, Executed, AllNotices;
    var c := Opened(s);
    var t := c.live;
    WriteIsQuiet(c, t.(runs := t.runs[t.nextRun := RunRow(w.startedAt, "running", 0, map[])], nextRun := t.nextRun + 1), [], w.start);
    var began, notices := Began(c, w), AllNotices(w.collected);
    var rows := UpsertSeen(began.live.announcements, Executed(notices, w), w.now);
    WriteIsQuiet(began, began.live.(announcements := rows), [], w.upsert);
    QuietTwice(s.acts, began.acts, Seen(began, notices, w).acts);
  }

  /** Without the loop there is no report. */
  lemma BrokenIsQuiet(s: State, w: World)
    requires !ReachesLoop(w)
    ensures Quiet(s.acts, ProcessOf(s, w).0.acts)
  {
    hide Began, Seen, AllNotices, Pending, Compacted, Quiet;
    StartIsQuiet(s, w);
    var (c, r) := RunOf(Opened(s), w);
    CloseIsQuiet(c, w);
    QuietTwice(s.acts, c.acts, Compacted(c, w).acts);
  }

  /** A failure report goes out exactly when the loop sent and marked everything, some
      collector failed, and Telegram accepted the report; `nothing new` exactly when there was
      nothing to send, no collector failed, and Telegram accepted it. */
  lemma ReportsMean(s: State, w: World)
    ensures var acts, total := ProcessOf(s, w).0.acts, |PendingOf(s, w)|;
            var through := w.start.Done? && w.collect.Done? && w.upsert.Done? && w.select.Done?
                           && forall i :: 0 <= i < total ==> w.send(i).Done? && w.mark(i).Done?;
            var failed := exists i :: 0 <= i < |w.collected| && w.collected[i].failed;
            var accepted := w.send(total).Done? || w.send(total).applied;
            && (Says(s.acts, acts, w.chat, FailureReport) <==> through && failed && accepted)
            && (Says(s.acts, acts, w.chat, NothingNew) <==> through && !failed && total == 0 && accepted)
  {
    hide Began, Seen, Deliver, AllNotices, Pending, PendingOf, ProcessOf, Report, Says, Quiet;
    if ReachesLoop(w) {
      var seen := Seen(Began(Opened(s), w), AllNotices(w.collected), w);
      var l := Deliver(seen, PendingOf(s, w), 0, w);
      LoopEnds(seen, PendingOf(s, w), 0, w);
      RestIsQuiet(s, w);
      ReportActs(l, w);
      match ReportSaid(l, w) {
        case Some(m) => SaysOnce(s.acts, l.session.acts, w.chat, m, ProcessOf(s, w).0.acts);
        case None =>
          assert l.session.acts + [] == l.session.acts;
          QuietTwice(s.acts, l.session.acts, ProcessOf(s, w).0.acts);
          SaysNone(s.acts, ProcessOf(s, w).0.acts, w.chat);
      }
    } else {
      BrokenIsQuiet(s, w);
      SaysNone(s.acts, ProcessOf(s, w).0.acts, w.chat);
    }
  }

  // ---------- what is stored ----------

  /** Each notice's row holds its content, the time it was first seen, and now; no other row
      changes. */
  lemma {:induction false} SeenMeans(rows: map<string, Row>, notices: seq<Notice>, now: int)
    requires UniqueKeys(notices)
    ensures var after := UpsertSeen(rows, notices, now);
            && (forall key :: key in after <==> key in rows || HasKey(notices, key))
            && (forall key :: key in rows && !HasKey(notices, key) ==> after[key] == rows[key])
            && (forall i :: 0 <= i < |notices| ==>
                  var key := notices[i].key;
                  key in after && after[key] == Row(notices[i].content, if key in rows then rows[key].firstSeen else now, now))
  {
    if notices != [] {
      var n := |notices| - 1;
      SeenMeans(rows, notices[..n], now);
      assert notices == notices[..n] + [notices[n]];
      KeysSnoc(notices[..n], notices[n]);
      assert !HasKey(notices[..n], notices[n].key);
    }
  }

  lemma MarkKeepsOthers(c: Session, key: DeliveryKey, d: Delivery, f: Fate, t: Tables)
    requires c.stored == t.(deliveries := c.stored.deliveries) && c.live == t.(deliveries := c.live.deliveries)
    ensures var e := MarkedAt(c, key, d, f);
            e.stored == t.(deliveries := e.stored.deliveries) && e.live == t.(deliveries := e.live.deliveries)
  {
  }

  /** The loop leaves the other tables alone. */
  lemma {:induction false} LoopKeepsOthers(c: Session, pending: seq<string>, n: nat, w: World, t: Tables)
    requires n <= |pending|
    requires c.stored == t.(deliveries := c.stored.deliveries) && c.live == t.(deliveries := c.live.deliveries)
    ensures var d := Deliver(c, pending, n, w).session;
            d.stored == t.(deliveries := d.stored.deliveries) && d.live == t.(deliveries := d.live.deliveries)
    decreases |pending| - n
  {
    hide MarkedAt;
    if n < |pending| {
      var said := Say(c, w.chat, NoticeText(pending[n]), w.send(n));
      MarkKeepsOthers(said, (pending[n], w.chat), Delivery(w.deliveredAt(n), w.messageId(n)), w.mark(n), t);
    }
    if n < |pending| && w.send(n).Done? && w.mark(n).Done? {
      var said := Say(c, w.chat, NoticeText(pending[n]), w.send(n));
      LoopKeepsOthers(MarkedAt(said, (pending[n], w.chat), Delivery(w.deliveredAt(n), w.messageId(n)), w.mark(n)),
        pending, n + 1, w, t);
    }
  }

  /** The tables the loop starts from. */
  function Started(s: State, w: World): Tables
  {
    Tables(
      UpsertSeen(s.tables.announcements, AllNotices(w.collected), w.now), s.tables.deliveries,
      s.tables.runs[s.tables.nextRun := RunRow(w.startedAt, "running", 0, map[])], s.tables.nextRun + 1)
  }

  lemma StartedRun(s: State, w: World)
    requires ReachesLoop(w)
    ensures Seen(Began(Opened(s), w), AllNotices(w.collected), w) == Session(Started(s, w), Started(s, w), [], s.acts)
  {
    hide AllNotices, UpsertSeen;
    assert s.acts + Marks([]) == s.acts;
    var began := Began(Opened(s), w);
    var t := s.tables;
    assert began == Session(
        t.(runs := t.runs[t.nextRun := RunRow(w.startedAt, "running", 0, map[])], nextRun := t.nextRun + 1),
        t.(runs := t.runs[t.nextRun := RunRow(w.startedAt, "running", 0, map[])], nextRun := t.nextRun + 1), [], s.acts);
  }

  /** The row is finished and everything committed. */
  lemma FinishedRow(l: Loop, id: nat, w: World, t: Tables)
    requires w.finish.Done? && (l.cut.Through? || (l.cut.Raised? && l.cut.caught))
    requires l.session.live == t.(deliveries := l.session.live.deliveries) && id in t.runs
    ensures var (c, r) := Finish(l, id, w);
            var status := if l.cut.Raised? then "telegram_failure"
                          else if exists i :: 0 <= i < |w.collected| && w.collected[i].failed then "partial_failure" else "success";
            && c == Session(c.stored, c.stored, [], l.session.acts + Marks(l.session.open))
            && c.stored == t.(deliveries := l.session.live.deliveries,
                              runs := t.runs[id := RunRow(t.runs[id].startedAt, status, l.count, AgencyStatus(w.collected))])
            && r == (if l.cut.Raised? then TelegramFailure(l.count) else Completed(status, l.count))
  {
    hide AgencyStatus, Marks;
    assert l.session.open + [] == l.session.open;
  }

  lemma ReportKeepsSession(l: Loop, w: World)
    ensures var m := Report(l, w);
            m.session.stored == l.session.stored && m.session.live == l.session.live && m.session.open == l.session.open
            && m.count == l.count && (l.cut.Through? || m == l)
  {
  }

  /** A run that returns, or fails in its sends, leaves nothing in a transaction; its tables are
      those the loop started from with its deliveries and the finished row. */
  lemma FinishedRun(s: State, w: World)
    requires var r := RunOf(Opened(s), w).1; r.Completed? || r.TelegramFailure?
    ensures var (c, r) := RunOf(Opened(s), w);
            var status := if r.TelegramFailure? then "telegram_failure"
                          else if exists i :: 0 <= i < |w.collected| && w.collected[i].failed then "partial_failure" else "success";
            && c.stored == c.live && c.open == []
            && c.stored == Started(s, w).(deliveries := c.stored.deliveries, runs := s.tables.runs[s.tables.nextRun :=
                             RunRow(w.startedAt, status, r.newCount, AgencyStatus(w.collected))])
            && (r.Completed? ==> r.status == status)
  {
    hide AllNotices, Pending, UpsertSeen, Deliver, AgencyStatus, Report, Began, Seen, Marks, Ended;
    FinishedMeansLoop(s, w);
    StartedRun(s, w);
    var seen := Seen(Began(Opened(s), w), AllNotices(w.collected), w);
    var l := Deliver(seen, PendingOf(s, w), 0, w);
    LoopKeepsOthers(seen, PendingOf(s, w), 0, w, Started(s, w));
    ReportKeepsSession(l, w);
    FinishedRow(Report(l, w), s.tables.nextRun, w, Started(s, w));
    RowReplaced(s.tables.runs, s.tables.nextRun, RunRow(w.startedAt, "running", 0, map[]),
      RunOf(Opened(s), w).0.stored.runs[s.tables.nextRun]);
  }

  lemma RowReplaced(runs: map<nat, RunRow>, id: nat, row: RunRow, other: RunRow)
    ensures runs[id := row][id := other] == runs[id := other]
  {
  }

  lemma FinishedMeansLoop(s: State, w: World)
    requires var r := RunOf(Opened(s), w).1; r.Completed? || r.TelegramFailure?
    ensures ReachesLoop(w) && w.finish.Done?
    ensures var seen := Seen(Began(Opened(s), w), AllNotices(w.collected), w);
            var m := Report(Deliver(seen, PendingOf(s, w), 0, w), w);
            && RunOf(Opened(s), w) == Finish(m, s.tables.nextRun, w)
            && (m.cut.Through? || (m.cut.Raised? && m.cut.caught))
  {
    hide AllNotices, Pending, Deliver, AgencyStatus, Report, Began, Seen, Ended;
    if ReachesLoop(w) {
      StartLeaves(s, w);
    }
  }

  /** Closing a connection with nothing in a transaction deletes the run rows started over
      ninety days before, if its commit is done, and nothing else. */
  lemma ClosedMeans(c: Session, w: World)
    requires c.stored == c.live && c.open == []
    ensures var d := Compacted(c, w);
            && d.acts == c.acts && d.stored == c.stored.(runs := d.stored.runs)
            && (forall id :: id in d.stored.runs <==>
                  && id in c.stored.runs
                  && (w.close.Done? || (w.close.Stops? && w.close.applied) ==>
                        c.stored.runs[id].startedAt >= w.closedAt - 7_776_000_000_000))
            && (forall id :: id in d.stored.runs ==> d.stored.runs[id] == c.stored.runs[id])
  {
    assert c.acts + Marks([]) == c.acts && c.open + [] == [];
  }

  /** What a run that returns, or fails in its sends, stores. Its row has the status, the count
      it reports and whether each agency's last collector finished; every notice is remembered;
      the other runs stay. Rows of runs started over ninety days before go with the compaction. */
  lemma StoredMeans(s: State, w: World)
    requires var r := ProcessOf(s, w).1; r.Completed? || r.TelegramFailure?
    ensures var (t, r) := ProcessOf(s, w);
            var failed := exists i :: 0 <= i < |w.collected| && w.collected[i].failed;
            var cutoff := w.closedAt - 7_776_000_000_000;
            var committed := w.close.Done? || (w.close.Stops? && w.close.applied);
            var id, runs := s.tables.nextRun, t.tables.runs;
            && t.tables.nextRun == id + 1
            && (id in runs <==> (committed ==> w.startedAt >= cutoff))
            && (id in runs ==>
                  && runs[id].startedAt == w.startedAt && runs[id].newCount == r.newCount
                  && runs[id].agencyStatus == AgencyStatus(w.collected)
                  && runs[id].status == if r.TelegramFailure? then "telegram_failure" else if failed then "partial_failure" else "success")
            && (r.Completed? ==> r.status == if failed then "partial_failure" else "success")
            && (forall other :: other != id ==>
                  (other in runs <==> other in s.tables.runs && (committed ==> s.tables.runs[other].startedAt >= cutoff)))
            && (forall other :: other != id && other in runs ==> runs[other] == s.tables.runs[other])
    ensures ProcessOf(s, w).0.tables.announcements == UpsertSeen(s.tables.announcements, AllNotices(w.collected), w.now)
  {
    hide RunOf, AllNotices, UpsertSeen, AgencyStatus, Compacted;
    FinishedRun(s, w);
    ClosedMeans(RunOf(Opened(s), w).0, w);
  }

  // ---------- what a completed run sends ----------

  /** From the n-th notice on: sent and marked in turn. */
  ghost predicate ActsInTurn(before: seq<Act>, after: seq<Act>, pending: seq<string>, n: nat, chat: string)
    requires n <= |pending|
  {
    && |after| == |before| + 2 * (|pending| - n) && after[..|before|] == before
    && forall i :: n <= i < |pending| ==>
         && after[|before| + 2 * (i - n)] == Sent(chat, NoticeText(pending[i]))
         && after[|before| + 2 * (i - n) + 1] == Marked(chat, pending[i])
  }

  /** The deliveries of those notices, each with its time and message id, are what was added. */
  ghost predicate RowsAddedFrom(before: map<DeliveryKey, Delivery>, after: map<DeliveryKey, Delivery>, pending: seq<string>, n: nat,
                                w: World)
  {
    && (forall i :: n <= i < |pending| ==>
          && (pending[i], w.chat) in after
          && after[(pending[i], w.chat)] == Delivery(w.deliveredAt(i), w.messageId(i)))
    && (forall k :: k in after ==> k in before || exists i :: n <= i < |pending| && k == (pending[i], w.chat))
    && (forall k :: k in before ==> k in after && after[k] == before[k])
  }

  ghost predicate AllSent(c: Session, d: Session, pending: seq<string>, n: nat, w: World)
    requires n <= |pending|
  {
    && ActsInTurn(c.acts, d.acts, pending, n, w.chat) && RowsAddedFrom(c.stored.deliveries, d.stored.deliveries, pending, n, w)
    && d.live == d.stored && d.open == []
  }

  lemma NoneToSend(c: Session, pending: seq<string>, w: World)
    requires c.live == c.stored && c.open == []
    ensures AllSent(c, c, pending, |pending|, w)
  {
  }

  lemma OneSent(c: Session, pending: seq<string>, n: nat, w: World) returns (d: Session)
    requires n < |pending| && c.live == c.stored && c.open == [] && (pending[n], w.chat) !in c.stored.deliveries
    requires w.send(n).Done? && w.mark(n).Done?
    ensures d == MarkedAt(Say(c, w.chat, NoticeText(pending[n]), w.send(n)), (pending[n], w.chat),
                          Delivery(w.deliveredAt(n), w.messageId(n)), w.mark(n))
    ensures d.acts == c.acts + [Sent(w.chat, NoticeText(pending[n])), Marked(w.chat, pending[n])]
    ensures d.stored.deliveries == c.stored.deliveries[(pending[n], w.chat) := Delivery(w.deliveredAt(n), w.messageId(n))]
    ensures d.live == d.stored && d.open == []
  {
    var key := (pending[n], w.chat);
    d := MarkedAt(Say(c, w.chat, NoticeText(pending[n]), w.send(n)), key, Delivery(w.deliveredAt(n), w.messageId(n)), w.mark(n));
    assert [] + [key] == [key] && Marks([key]) == [Marked(w.chat, pending[n])];
    assert c.acts + [Sent(w.chat, NoticeText(pending[n]))] + [Marked(w.chat, pending[n])] ==
           c.acts + [Sent(w.chat, NoticeText(pending[n])), Marked(w.chat, pending[n])];
  }

  lemma MoreActs(a: seq<Act>, b: seq<Act>, pending: seq<string>, n: nat, chat: string)
    requires n < |pending|
    requires ActsInTurn(a + [Sent(chat, NoticeText(pending[n])), Marked(chat, pending[n])], b, pending, n + 1, chat)
    ensures ActsInTurn(a, b, pending, n, chat)
  {
    var d := a + [Sent(chat, NoticeText(pending[n])), Marked(chat, pending[n])];
    assert forall i :: 0 <= i < |d| ==> b[i] == b[..|d|][i];
    assert b[..|a|] == a;
    forall i | n <= i < |pending|
      ensures b[|a| + 2 * (i - n)] == Sent(chat, NoticeText(pending[i])) && b[|a| + 2 * (i - n) + 1] == Marked(chat, pending[i])
    {
      if i > n {
        assert |a| + 2 * (i - n) == |d| + 2 * (i - (n + 1));
      }
    }
  }

  lemma MoreRows(before: map<DeliveryKey, Delivery>, after: map<DeliveryKey, Delivery>, pending: seq<string>, n: nat, w: World)
    requires n < |pending| && (pending[n], w.chat) !in before
    requires RowsAddedFrom(before[(pending[n], w.chat) := Delivery(w.deliveredAt(n), w.messageId(n))], after, pending, n + 1, w)
    ensures RowsAddedFrom(before, after, pending, n, w)
  {
  }

  lemma {:induction false} LoopSendsAll(c: Session, pending: seq<string>, n: nat, w: World)
    requires n <= |pending| && c.live == c.stored && c.open == [] && AllNew(c.stored.deliveries, pending, n, w.chat)
    requires forall i :: n <= i < |pending| ==> w.send(i).Done? && w.mark(i).Done?
    ensures Deliver(c, pending, n, w) == Loop(Deliver(c, pending, n, w).session, |pending|, Through)
    ensures AllSent(c, Deliver(c, pending, n, w).session, pending, n, w)
    decreases |pending| - n
  {
    hide ActsInTurn, RowsAddedFrom, MarkedAt;
    if n == |pending| {
      NoneToSend(c, pending, w);
    } else {
      var d := OneSent(c, pending, n, w);
      LoopSendsAll(d, pending, n + 1, w);
      var e := Deliver(d, pending, n + 1, w).session;
      MoreActs(c.acts, e.acts, pending, n, w.chat);
      MoreRows(c.stored.deliveries, e.stored.deliveries, pending, n, w);
    }
  }

  /** What a completed run does: it sends the pending notices in order and marks each at once
      with its time and message id, reports if a collector failed or there was nothing to send,
      and does nothing else. */
  lemma CompletedMeans(s: State, w: World) returns (sent: seq<Act>)
    requires ProcessOf(s, w).1.Completed?
    ensures var (t, r) := ProcessOf(s, w);
            var pending := PendingOf(s, w);
            var failed := exists i :: 0 <= i < |w.collected| && w.collected[i].failed;
            && r.newCount == |pending| && ActsInTurn(s.acts, sent, pending, 0, w.chat)
            && t.acts == sent + (if failed then [Sent(w.chat, FailureReport)]
                                 else if |pending| == 0 then [Sent(w.chat, NothingNew)] else [])
            && RowsAddedFrom(s.tables.deliveries, t.tables.deliveries, pending, 0, w)
  {
    hide RunOf, AllNotices, Pending, PendingOf, Started, Compacted, AllSent, ActsInTurn, RowsAddedFrom;
    var d := CompletedLoop(s, w);
    FinishedRun(s, w);
    ClosedMeans(RunOf(Opened(s), w).0, w);
    AllSentMeans(Session(Started(s, w), Started(s, w), [], s.acts), d, PendingOf(s, w), w);
    StartedDeliveries(s, w);
    sent := d.acts;
  }

  lemma AllSentMeans(c: Session, d: Session, pending: seq<string>, w: World)
    requires AllSent(c, d, pending, 0, w)
    ensures ActsInTurn(c.acts, d.acts, pending, 0, w.chat) && RowsAddedFrom(c.stored.deliveries, d.stored.deliveries, pending, 0, w)
    ensures d.live == d.stored && d.open == []
  {
  }

  lemma StartedDeliveries(s: State, w: World)
    ensures Started(s, w).deliveries == s.tables.deliveries
  {
  }

  /** The connection of a completed run: what the loop sent, and the report. */
  lemma CompletedLoop(s: State, w: World) returns (d: Session)
    requires RunOf(Opened(s), w).1.Completed?
    ensures var pending, (c, r) := PendingOf(s, w), RunOf(Opened(s), w);
            var failed := exists i :: 0 <= i < |w.collected| && w.collected[i].failed;
            var report := if failed then [Sent(w.chat, FailureReport)] else if |pending| == 0 then [Sent(w.chat, NothingNew)] else [];
            && r.newCount == |pending|
            && AllSent(Session(Started(s, w), Started(s, w), [], s.acts), d, pending, 0, w)
            && c.acts == d.acts + report && c.stored.deliveries == d.stored.deliveries
  {
    hide AllNotices, Pending, UpsertSeen, Deliver, AgencyStatus, Report, Began, Seen, Marks, Ended, AllSent;
    FinishedMeansLoop(s, w);
    StartedRun(s, w);
    var seen := Session(Started(s, w), Started(s, w), [], s.acts);
    var pending := PendingOf(s, w);
    PendingAllNew(s, w);
    LoopEnds(seen, pending, 0, w);
    var l := Deliver(seen, pending, 0, w);
    ReportKeepsSession(l, w);
    CompletedIsThrough(l, s.tables.nextRun, w);
    LoopSendsAll(seen, pending, 0, w);
    LoopKeepsOthers(seen, pending, 0, w, Started(s, w));
    ReportActs(l, w);
    AllSentMeans(seen, l.session, pending, w);
    d := l.session;
    FinishedRow(Report(l, w), s.tables.nextRun, w, Started(s, w));
    assert Marks([]) == [] by { NoMarks(); }
  }

  lemma NoMarks()
    ensures Marks([]) == []
  {
  }

  lemma CompletedIsThrough(l: Loop, id: nat, w: World)
    requires Finish(Report(l, w), id, w).1.Completed?
    ensures l.cut.Through? && Report(l, w).cut.Through?
    ensures (exists i :: 0 <= i < |w.collected| && w.collected[i].failed) || l.count == 0 ==> w.send(l.count).Done?
  {
  }
}
