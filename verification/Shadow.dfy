/** The shadow comparison of the legacy and the new monitor, and the cutover gate over its
    dated history. Dates are day numbers and instants are integers. */
module Shadow {
  import opened Order
  import opened Digest
  import Observation
  import J = JsonText

  const MAX_STORED_ROWS := 4000

  datatype Agency = LH | SH | GH

  /** `sorted(_AGENCIES)`. */
  const SORTED_AGENCIES: seq<Agency> := [GH, LH, SH]

  function AgencyText(a: Agency): string
  {
    match a case LH => "LH" case SH => "SH" case GH => "GH"
  }

  datatype SourceStatus = Okay | Failed

  datatype Statuses = Statuses(lh: SourceStatus, sh: SourceStatus, gh: SourceStatus)

  /** `announcement:<agency>:<rest>` with a rest. */
  function RawId(a: Agency, rest: string): string
  {
    "announcement:" + AgencyText(a) + ":" + rest
  }

  predicate ValidId(id: string, a: Agency)
  {
    |id| > 16 && id == RawId(a, id[16..])
  }

  /** An item of a snapshot; its filter outcome is always "included". */
  datatype Item = Item(agency: Agency, id: string)

  /** `(agency, item_id)` order. */
  predicate ItemLess(x: Item, y: Item)
  {
    TextLess(AgencyText(x.agency), AgencyText(y.agency)) || (x.agency == y.agency && TextLess(x.id, y.id))
  }

  /** What the constructor establishes: valid ids, in order. */
  datatype Snapshot = Snapshot(items: seq<Item>, statuses: Statuses)

  ghost predicate ValidSnapshot(s: Snapshot)
  {
    && (forall i :: 0 <= i < |s.items| ==> ValidId(s.items[i].id, s.items[i].agency))
    && (forall i, j :: 0 <= i < j < |s.items| ==> ItemLess(s.items[i], s.items[j]))
  }

  function Ids(items: seq<Item>): seq<string>
  {
    seq(|items|, i requires 0 <= i < |items| => items[i].id)
  }

  function IdSet(items: seq<Item>): set<string>
  {
    set i | 0 <= i < |items| :: items[i].id
  }

  function AgencyIds(items: seq<Item>, a: Agency): set<string>
  {
    set i | 0 <= i < |items| && items[i].agency == a :: items[i].id
  }

  /** An item id as it may be shown: its agency and the digest of the raw id. */
  datatype Opaque = Opaque(agency: Agency, digest: Hash)

  function OpaqueIds(ids: set<string>, a: Agency): set<Opaque>
  {
    set id | id in ids :: Opaque(a, Sha256(id))
  }

  /** The sorted tuples of distinct opaque ids are sets here. */
  datatype Difference = Difference(agency: Agency, missing: set<Opaque>, extra: set<Opaque>)

  datatype Result = Result(
    runDate: int, oldHash: Hash, newHash: Hash, matched: bool, differences: seq<Difference>,
    oldStatus: Statuses, newStatus: Statuses, recordedAt: int)

  /** The consistency check of the result's constructor. */
  predicate ConsistentResult(r: Result)
  {
    && r.matched == (r.oldHash == r.newHash && r.differences == [] && r.oldStatus == r.newStatus)
    && forall i :: 0 <= i < |r.differences| ==>
         var d := r.differences[i];
         (d.missing != {} || d.extra != {}) && d.missing !! d.extra
  }

  // ---------- the hashed form ----------

  function StatusJson(s: SourceStatus): J.Json
  {
    J.Str(if s == Okay then "ok" else "failed")
  }

  function ItemJson(x: Item): J.Json
  {
    J.Arr([J.Str(AgencyText(x.agency)), J.Str(x.id), J.Str("included")])
  }

  function ItemsJson(items: seq<Item>): seq<J.Json>
  {
    seq(|items|, i requires 0 <= i < |items| => ItemJson(items[i]))
  }

  /** The safe snapshot as JSON, keys in order. */
  function SafeJson(s: Snapshot): J.Json
  {
    J.Obj([
      J.Member("items", J.Arr(ItemsJson(s.items))),
      J.Member("source_status", J.Obj([
        J.Member("GH", StatusJson(s.statuses.gh)),
        J.Member("LH", StatusJson(s.statuses.lh)),
        J.Member("SH", StatusJson(s.statuses.sh))]))])
  }

  function ContentHash(v: J.Json): Hash
  {
    Sha256(J.Print(v))
  }

  /** The hashed text is that of the items in order, each with its agency and outcome, and of
      the statuses by agency. */
  lemma SafeJsonMeans(s: Snapshot)
    ensures var items := seq(|s.items|, i requires 0 <= i < |s.items| =>
              var agency := match s.items[i].agency case LH => "LH" case SH => "SH" case GH => "GH";
              J.Arr([J.Str(agency), J.Str(s.items[i].id), J.Str("included")]));
            SafeJson(s) == J.Obj([
              J.Member("items", J.Arr(items)),
              J.Member("source_status", J.Obj([
                J.Member("GH", J.Str(if s.statuses.gh == Okay then "ok" else "failed")),
                J.Member("LH", J.Str(if s.statuses.lh == Okay then "ok" else "failed")),
                J.Member("SH", J.Str(if s.statuses.sh == Okay then "ok" else "failed"))]))])
  {
    var items := seq(|s.items|, i requires 0 <= i < |s.items| =>
        var agency := match s.items[i].agency case LH => "LH" case SH => "SH" case GH => "GH";
        J.Arr([J.Str(agency), J.Str(s.items[i].id), J.Str("included")]));
    assert ItemsJson(s.items) == items;
  }

  /** An id is `announcement:`, its agency, a colon and something. */
  lemma ValidIdMeans(id: string, a: Agency)
    ensures ValidId(id, a) <==>
            |id| > 16 && id[..16] == (match a case LH => "announcement:LH:" case SH => "announcement:SH:" case GH => "announcement:GH:")
  {
    var p := "announcement:" + AgencyText(a) + ":";
    assert p == match a case LH => "announcement:LH:" case SH => "announcement:SH:" case GH => "announcement:GH:";
    if |id| > 16 {
      assert id == id[..16] + id[16..];
      assert RawId(a, id[16..])[..16] == p;
    }
  }

  // ---------- comparing ----------

  method Compare(old_: Snapshot, new_: Snapshot, runDate: int, clock: int) returns (r: Result)
    requires ValidSnapshot(old_) && ValidSnapshot(new_)
    ensures r.runDate == runDate && r.recordedAt == clock
    ensures r.oldStatus == old_.statuses && r.newStatus == new_.statuses
    ensures r.oldHash == ContentHash(SafeJson(old_)) && r.newHash == ContentHash(SafeJson(new_))
    ensures r.matched <==> IdSet(old_.items) == IdSet(new_.items) && old_.statuses == new_.statuses
    ensures ConsistentResult(r)
    ensures forall d :: d in r.differences <==>
      && AgencyIds(old_.items, d.agency) != AgencyIds(new_.items, d.agency)
      && d == DifferenceOf(old_.items, new_.items, d.agency)
    ensures forall i, j :: 0 <= i < j < |r.differences| ==>
      TextLess(AgencyText(r.differences[i].agency), AgencyText(r.differences[j].agency))
    ensures r.differences == [] <==> IdSet(old_.items) == IdSet(new_.items)
  {
    hide ValidSnapshot, SafeJson, ContentHash, DifferenceOf, TextLess, AgencyText;
    var differences: seq<Difference> := [];
    for i := 0 to |SORTED_AGENCIES|
      invariant DifferencesOf(differences, old_.items, new_.items, SORTED_AGENCIES[..i])
      invariant InAgencyOrder(differences)
    {
      var a := SORTED_AGENCIES[i];
      LaterAgency(differences, old_.items, new_.items, i);
      assert SORTED_AGENCIES[..i + 1] == SORTED_AGENCIES[..i] + [a];
      if AgencyIds(old_.items, a) != AgencyIds(new_.items, a) {
        DifferenceIsValid(old_.items, new_.items, a);
        differences := differences + [DifferenceOf(old_.items, new_.items, a)];
      }
    }
    var oldHash, newHash := ContentHash(SafeJson(old_)), ContentHash(SafeJson(new_));
    var statusesMatch := old_.statuses == new_.statuses;
    HashesAgree(old_, new_);
    SetsAgree(old_, new_);
    AllAgencies();
    assert SORTED_AGENCIES[..3] == SORTED_AGENCIES;
    assert differences == [] <==> IdSet(old_.items) == IdSet(new_.items) by {
      forall a: Agency | AgencyIds(old_.items, a) != AgencyIds(new_.items, a) ensures differences != [] {
        DifferenceIsValid(old_.items, new_.items, a);
        assert DifferenceOf(old_.items, new_.items, a) in differences;
      }
      if differences != [] {
        assert differences[0] in differences;
      }
    }
    r := Result(runDate, oldHash, newHash, oldHash == newHash && differences == [] && statusesMatch, differences,
      old_.statuses, new_.statuses, clock);
  }

  function DifferenceOf(before: seq<Item>, after: seq<Item>, a: Agency): Difference
  {
    Difference(a, OpaqueIds(AgencyIds(before, a) - AgencyIds(after, a), a), OpaqueIds(AgencyIds(after, a) - AgencyIds(before, a), a))
  }

  /** `ds` lists the differences of exactly the given agencies that differ. */
  ghost predicate DifferencesOf(ds: seq<Difference>, before: seq<Item>, after: seq<Item>, agencies: seq<Agency>)
  {
    && (forall d :: d in ds <==> d.agency in agencies && AgencyIds(before, d.agency) != AgencyIds(after, d.agency)
                                 && d == DifferenceOf(before, after, d.agency))
    && (forall i :: 0 <= i < |ds| ==> (ds[i].missing != {} || ds[i].extra != {}) && ds[i].missing !! ds[i].extra)
  }

  /** `sorted`: the agencies in text order, each once. */
  ghost predicate InAgencyOrder(ds: seq<Difference>)
  {
    forall i, j :: 0 <= i < j < |ds| ==> TextLess(AgencyText(ds[i].agency), AgencyText(ds[j].agency))
  }

  lemma LaterAgency(ds: seq<Difference>, before: seq<Item>, after: seq<Item>, i: nat)
    requires i < 3 && DifferencesOf(ds, before, after, SORTED_AGENCIES[..i])
    ensures forall k :: 0 <= k < |ds| ==> TextLess(AgencyText(ds[k].agency), AgencyText(SORTED_AGENCIES[i]))
  {
    hide TextLess, DifferenceOf, AgencyText;
    forall k | 0 <= k < |ds| ensures TextLess(AgencyText(ds[k].agency), AgencyText(SORTED_AGENCIES[i])) {
      assert ds[k] in ds;
      AgenciesSorted();
    }
  }

  lemma AgenciesSorted()
    ensures SORTED_AGENCIES[0] == GH && SORTED_AGENCIES[1] == LH && SORTED_AGENCIES[2] == SH
    ensures TextLess(AgencyText(GH), AgencyText(LH)) && TextLess(AgencyText(GH), AgencyText(SH))
    ensures TextLess(AgencyText(LH), AgencyText(SH))
  {
    FirstCharLess("GH", "LH");
    FirstCharLess("GH", "SH");
    FirstCharLess("LH", "SH");
  }

  /** What a difference shows: as missing, the digests of exactly the ids that the old snapshot
      has for the agency and the new one has not; as extra, the reverse. */
  lemma DifferenceMeans(before: seq<Item>, after: seq<Item>, a: Agency, id: string)
    ensures var d := DifferenceOf(before, after, a);
            var was := exists i :: 0 <= i < |before| && before[i].agency == a && before[i].id == id;
            var now := exists i :: 0 <= i < |after| && after[i].agency == a && after[i].id == id;
            && d.agency == a
            && (Opaque(a, Sha256(id)) in d.missing <==> was && !now) && (Opaque(a, Sha256(id)) in d.extra <==> now && !was)
            && (forall x :: x in d.missing + d.extra ==> x.agency == a)
  {
    var x, y := AgencyIds(before, a), AgencyIds(after, a);
    assert id in x <==> exists i :: 0 <= i < |before| && before[i].agency == a && before[i].id == id;
    assert id in y <==> exists i :: 0 <= i < |after| && after[i].agency == a && after[i].id == id;
    OpaqueMeans(x - y, a, id);
    OpaqueMeans(y - x, a, id);
  }

  lemma OpaqueMeans(ids: set<string>, a: Agency, id: string)
    ensures Opaque(a, Sha256(id)) in OpaqueIds(ids, a) <==> id in ids
    ensures forall x :: x in OpaqueIds(ids, a) ==> x.agency == a
  {
  }

  lemma OneSideDiffers(x: set<string>, y: set<string>)
    ensures x - y == {} && y - x == {} ==> x == y
  {
    forall id ensures id in x - y <==> id in x && id !in y {
    }
  }

  /** A difference of an agency whose items differ is non-empty and its parts disjoint. */
  lemma DifferenceIsValid(before: seq<Item>, after: seq<Item>, a: Agency)
    requires AgencyIds(before, a) != AgencyIds(after, a)
    ensures var d := DifferenceOf(before, after, a);
            d.agency == a && (d.missing != {} || d.extra != {}) && d.missing !! d.extra
  {
    var x, y := AgencyIds(before, a), AgencyIds(after, a);
    OneSideDiffers(x, y);
    if x - y != {} {
      var id :| id in x - y;
      assert Opaque(a, Sha256(id)) in OpaqueIds(x - y, a);
    } else {
      var id :| id in y - x;
      assert Opaque(a, Sha256(id)) in OpaqueIds(y - x, a);
    }
  }

  lemma AllAgencies()
    ensures forall a: Agency :: a in SORTED_AGENCIES
  {
    assert SORTED_AGENCIES[0] == GH && SORTED_AGENCIES[1] == LH && SORTED_AGENCIES[2] == SH;
    forall a: Agency ensures a in SORTED_AGENCIES {
      match a case LH => case SH => case GH =>
    }
  }

  lemma AgencyFromId(id: string, a: Agency, b: Agency)
    requires ValidId(id, a) && ValidId(id, b)
    ensures a == b
  {
    assert id[13] == AgencyText(a)[0] && id[13] == AgencyText(b)[0];
  }

  /** Item sets agree exactly when they agree agency by agency. */
  lemma SetsAgree(x: Snapshot, y: Snapshot)
    requires ValidSnapshot(x) && ValidSnapshot(y)
    ensures IdSet(x.items) == IdSet(y.items) <==> forall a :: AgencyIds(x.items, a) == AgencyIds(y.items, a)
  {
    hide ItemLess, ValidId;
    if IdSet(x.items) == IdSet(y.items) {
      forall a: Agency ensures AgencyIds(x.items, a) == AgencyIds(y.items, a) {
        AgencySubset(x, y, a);
        AgencySubset(y, x, a);
      }
    }
    if forall a :: AgencyIds(x.items, a) == AgencyIds(y.items, a) {
      forall id ensures id in IdSet(x.items) <==> id in IdSet(y.items) {
        IdHasAgency(x, id);
        IdHasAgency(y, id);
      }
    }
  }

  lemma IdHasAgency(x: Snapshot, id: string)
    ensures id in IdSet(x.items) <==> exists a :: id in AgencyIds(x.items, a)
  {
    if id in IdSet(x.items) {
      var i :| 0 <= i < |x.items| && x.items[i].id == id;
      assert id in AgencyIds(x.items, x.items[i].agency);
    }
  }

  lemma AgencySubset(x: Snapshot, y: Snapshot, a: Agency)
    requires ValidSnapshot(x) && ValidSnapshot(y) && IdSet(x.items) <= IdSet(y.items)
    ensures AgencyIds(x.items, a) <= AgencyIds(y.items, a)
  {
    hide ItemLess, ValidId;
    forall id | id in AgencyIds(x.items, a) ensures id in AgencyIds(y.items, a) {
      var i :| 0 <= i < |x.items| && x.items[i].agency == a && x.items[i].id == id;
      assert id in IdSet(x.items);
      var j :| 0 <= j < |y.items| && y.items[j].id == id;
      AgencyFromId(id, a, y.items[j].agency);
    }
  }

  // ---------- hashes ----------

  lemma AfterPrefix(id: string, a: Agency)
    requires ValidId(id, a)
    ensures Codes(id) == Codes("announcement:") + Codes(id[13..])
    ensures Codes(id[13..])[0] == AgencyText(a)[0] as int
  {
    assert id[13] == AgencyText(a)[0];
    assert forall i :: 0 <= i < 13 ==> id[i] == "announcement:"[i];
  }

  lemma FirstLess(a: seq<int>, b: seq<int>)
    requires a != [] && b != [] && a[0] < b[0]
    ensures Less(a, b)
  {
  }

  /** Items in `(agency, id)` order have their ids in text order. */
  lemma ItemOrderIsIdOrder(x: Item, y: Item)
    requires ValidId(x.id, x.agency) && ValidId(y.id, y.agency) && ItemLess(x, y)
    ensures TextLess(x.id, y.id)
  {
    hide Less;
    if x.agency != y.agency {
      var p := Codes("announcement:");
      var a, b := Codes(x.id[13..]), Codes(y.id[13..]);
      AfterPrefix(x.id, x.agency);
      AfterPrefix(y.id, y.agency);
      LessAfterPrefix(p, a, b);
      AgencyFirstLetters(x.agency, y.agency);
      FirstLess(a, b);
    } else {
      LessIrreflexive(Codes(AgencyText(x.agency)));
    }
  }

  lemma AgencyFirstLetters(a: Agency, b: Agency)
    requires TextLess(AgencyText(a), AgencyText(b)) && a != b
    ensures AgencyText(a)[0] < AgencyText(b)[0]
  {
    assert Codes(AgencyText(a))[0] == AgencyText(a)[0] as int && Codes(AgencyText(b))[0] == AgencyText(b)[0] as int;
  }

  lemma IdsSorted(s: Snapshot)
    requires ValidSnapshot(s)
    ensures Observation.IsSorted(Ids(s.items), IdSet(s.items))
  {
    hide ItemLess, ValidId, TextLess;
    var ids := Ids(s.items);
    forall i, j | 0 <= i < j < |ids| ensures TextLess(ids[i], ids[j]) {
      ItemOrderIsIdOrder(s.items[i], s.items[j]);
    }
    forall id ensures id in ids <==> id in IdSet(s.items) {
      if id in ids {
        var i :| 0 <= i < |ids| && ids[i] == id;
        assert s.items[i].id == id;
      }
      if id in IdSet(s.items) {
        var i :| 0 <= i < |s.items| && s.items[i].id == id;
        assert ids[i] == id;
      }
    }
  }

  /** The same set of ids means the same list of items. */
  lemma SameSetSameItems(x: Snapshot, y: Snapshot)
    requires ValidSnapshot(x) && ValidSnapshot(y) && IdSet(x.items) == IdSet(y.items)
    ensures x.items == y.items
  {
    hide ItemLess, ValidId, Observation.IsSorted;
    IdsSorted(x);
    IdsSorted(y);
    Observation.SortedUnique(Ids(x.items), Ids(y.items), IdSet(x.items));
    forall i | 0 <= i < |x.items| ensures i < |y.items| && x.items[i] == y.items[i] {
      assert Ids(x.items)[i] == Ids(y.items)[i];
      AgencyFromId(x.items[i].id, x.items[i].agency, y.items[i].agency);
    }
    assert |Ids(x.items)| == |Ids(y.items)|;
  }

  lemma SafeJsonCanonical(s: Snapshot, floats: J.FloatReader)
    ensures J.Canonical(SafeJson(s), floats)
  {
    hide TextLess;
    FirstCharLess("items", "source_status");
    FirstCharLess("GH", "LH");
    FirstCharLess("LH", "SH");
    FirstCharLess("GH", "SH");
    var items := ItemsJson(s.items);
    forall i | 0 <= i < |items| ensures J.Canonical(items[i], floats) {
      assert items[i] == ItemJson(s.items[i]);
    }
    var status := SafeJson(s).members[1].value;
    assert J.Canonical(status, floats);
    assert J.Canonical(J.Arr(items), floats);
  }

  lemma SafeJsonInjective(x: Snapshot, y: Snapshot)
    requires SafeJson(x) == SafeJson(y)
    ensures x == y
  {
    assert SafeJson(x).members[0].value == SafeJson(y).members[0].value;
    var a, b := ItemsJson(x.items), ItemsJson(y.items);
    assert a == b;
    forall i | 0 <= i < |x.items| ensures i < |y.items| && x.items[i] == y.items[i] {
      assert ItemJson(x.items[i]) == a[i] && ItemJson(y.items[i]) == b[i];
      assert ItemJson(x.items[i]).items[0] == ItemJson(y.items[i]).items[0];
      assert ItemJson(x.items[i]).items[1] == ItemJson(y.items[i]).items[1];
      AgencyTextInjective(x.items[i].agency, y.items[i].agency);
    }
    var s, t := SafeJson(x).members[1].value, SafeJson(y).members[1].value;
    assert s.members[0] == t.members[0] && s.members[1] == t.members[1] && s.members[2] == t.members[2];
    StatusJsonInjective(x.statuses.gh, y.statuses.gh);
    StatusJsonInjective(x.statuses.lh, y.statuses.lh);
    StatusJsonInjective(x.statuses.sh, y.statuses.sh);
  }

  lemma StatusJsonInjective(a: SourceStatus, b: SourceStatus)
    ensures StatusJson(a) == StatusJson(b) ==> a == b
  {
    assert |"ok"| != |"failed"|;
  }

  lemma AgencyTextInjective(a: Agency, b: Agency)
    requires AgencyText(a) == AgencyText(b)
    ensures a == b
  {
    assert AgencyText(a)[0] == AgencyText(b)[0];
  }

  /** The content hashes agree exactly when item sets and statuses do. */
  lemma HashesAgree(x: Snapshot, y: Snapshot)
    requires ValidSnapshot(x) && ValidSnapshot(y)
    ensures ContentHash(SafeJson(x)) == ContentHash(SafeJson(y)) <==>
            IdSet(x.items) == IdSet(y.items) && x.statuses == y.statuses
  {
    hide ValidSnapshot, SafeJson, J.Print, J.Canonical;
    if J.Print(SafeJson(x)) == J.Print(SafeJson(y)) {
      var floats: J.FloatReader := d => None;
      SafeJsonCanonical(x, floats);
      SafeJsonCanonical(y, floats);
      J.PrintInjective(SafeJson(x), SafeJson(y), floats);
      SafeJsonInjective(x, y);
    }
    if IdSet(x.items) == IdSet(y.items) && x.statuses == y.statuses {
      SameSetSameItems(x, y);
    }
  }

  // ---------- the gate ----------

  datatype Probe = Probe(runDate: int, passed: bool, recordedAt: int)

  datatype Status = Status(
    consecutive: nat, lastMatch: Option<int>, unresolved: nat, imported: bool, probePassed: bool, ready: bool)

  type History = map<int, Result>

  ghost predicate ValidHistory(h: History)
  {
    forall d :: d in h ==> h[d].runDate == d && ConsistentResult(h[d])
  }

  ghost predicate HasDay(rows: seq<Result>, d: int)
  {
    exists i :: 0 <= i < |rows| && rows[i].runDate == d
  }

  ghost predicate Descending(rows: seq<Result>)
  {
    forall i, j :: 0 <= i < j < |rows| ==> rows[i].runDate > rows[j].runDate
  }

  ghost predicate StoredRows(rows: seq<Result>, h: History, limit: int)
  {
    forall i :: 0 <= i < |rows| ==> rows[i].runDate in h && h[rows[i].runDate] == rows[i] && rows[i].runDate <= limit
  }

  ghost predicate Covers(rows: seq<Result>, h: History, limit: int)
  {
    forall d :: d in h && d <= limit ==> HasDay(rows, d)
  }

  /** The stored days up to `limit`, newest first. */
  ghost predicate NewestFirst(rows: seq<Result>, h: History, limit: int)
  {
    Descending(rows) && StoredRows(rows, h, limit) && Covers(rows, h, limit)
  }

  function CountDifferences(ds: seq<Difference>): nat
  {
    if ds == [] then 0
    else CountDifferences(ds[..|ds| - 1]) + |ds[|ds| - 1].missing| + |ds[|ds| - 1].extra|
  }

  function StatusDifferences(x: Statuses, y: Statuses): nat
  {
    (if x.lh != y.lh then 1 else 0) + (if x.sh != y.sh then 1 else 0) + if x.gh != y.gh then 1 else 0
  }

  function Unresolved(r: Result): nat
  {
    CountDifferences(r.differences) + StatusDifferences(r.oldStatus, r.newStatus)
  }

  /** The newest stored day up to the requested one. */
  ghost predicate IsNewest(h: History, requested: int, newest: int)
  {
    newest in h && newest <= requested && forall d :: d in h && d <= requested ==> d <= newest
  }

  predicate MatchedOn(h: History, d: int)
  {
    d in h && h[d].matched
  }

  /** The `n` days ending at `newest` all matched. */
  ghost predicate DaysMatched(h: History, newest: int, n: int)
  {
    forall d :: newest - n < d <= newest ==> MatchedOn(h, d)
  }

  /** The longest run of matched days without a gap that ends at `newest` has `n` days. */
  ghost predicate IsStreak(h: History, newest: int, n: nat)
  {
    DaysMatched(h, newest, n) && !MatchedOn(h, newest - n)
  }

  /** Nothing stored is from the future. */
  ghost predicate NotFromFuture(h: History, probe: Option<Probe>, today: int, evidence: int)
  {
    && (forall d :: d in h ==> d <= today && h[d].recordedAt <= evidence)
    && (probe.Some? ==> probe.value.runDate <= today && probe.value.recordedAt <= evidence)
  }

  predicate Recent(day: int, requested: int)
  {
    day == requested || day == requested - 1
  }

  /** What the gate demands. */
  ghost predicate MayCutOver(h: History, requested: int, imported: bool, probe: Option<Probe>)
  {
    imported && probe.Some? && probe.value.passed && Recent(probe.value.runDate, requested)
    && exists newest :: GateDay(h, requested, newest, probe.value)
  }

  ghost predicate GateDay(h: History, requested: int, newest: int, probe: Probe)
  {
    && IsNewest(h, requested, newest) && Recent(newest, requested) && probe.runDate >= newest
    && DaysMatched(h, newest, 7)
  }

  /** The first index whose row is not newer than requested. */
  method SkipNewer(rows: seq<Result>, requested: int) returns (first: nat)
    ensures first <= |rows| && forall k :: 0 <= k < first ==> rows[k].runDate > requested
    ensures first < |rows| ==> rows[first].runDate <= requested
  {
    first := 0;
    while first < |rows| && rows[first].runDate > requested
      invariant 0 <= first <= |rows|
      invariant forall k :: 0 <= k < first ==> rows[k].runDate > requested
    {
      first := first + 1;
    }
  }

  /** Whether any row is dated or recorded in the future. */
  method AnyFromFuture(rows: seq<Result>, today: int, evidence: int) returns (found: bool)
    ensures found <==> exists i :: 0 <= i < |rows| && (rows[i].runDate > today || rows[i].recordedAt > evidence)
  {
    for i := 0 to |rows|
      invariant forall k :: 0 <= k < i ==> rows[k].runDate <= today && rows[k].recordedAt <= evidence
    {
      if rows[i].runDate > today || rows[i].recordedAt > evidence {
        return true;
      }
    }
    return false;
  }

  method StatusFromSnapshot(h: History, rows: seq<Result>, ghost limit: int, requested: int, today: int, evidence: int,
                            imported: bool, probe: Option<Probe>)
    returns (r: Option<Status>)
    requires ValidHistory(h) && NewestFirst(rows, h, limit) && (forall d :: d in h ==> d <= limit) && requested <= today
    ensures r.Some? <==> |rows| <= 4000 && NotFromFuture(h, probe, today, evidence)
    ensures r.Some? ==> forall newest :: IsNewest(h, requested, newest) ==>
      && IsStreak(h, newest, r.value.consecutive)
      && r.value.unresolved == Unresolved(h[newest])
      && r.value.lastMatch == if h[newest].matched then Some(newest) else None
    ensures r.Some? && (forall d :: d in h ==> d > requested) ==>
      r.value.consecutive == 0 && r.value.unresolved == 0 && r.value.lastMatch == None
    ensures r.Some? ==> (r.value.ready <==> MayCutOver(h, requested, imported, probe))
    ensures r.Some? ==> r.value.imported == imported
    ensures r.Some? ==> (r.value.probePassed <==> probe.Some? && probe.value.runDate <= requested && probe.value.passed)
  {
    hide ConsistentResult, Unresolved, NewestFirst, IsNewest, IsStreak, ValidHistory, MayCutOver, NotFromFuture;
    FutureIsInRows(h, rows, limit, probe, today, evidence);
    if |rows| > MAX_STORED_ROWS {
      return None;
    }
    var future := AnyFromFuture(rows, today, evidence);
    if future {
      return None;
    }
    var first := SkipNewer(rows, requested);
    var eligible := rows[first..];
    EligibleAreNewest(h, rows, limit, first, requested);
    var newest := if eligible != [] then Some(eligible[0]) else None;
    var consecutive := CountStreak(h, eligible, requested);
    var unresolved := if newest.Some? then Unresolved(newest.value) else 0;
    if probe.Some? && (probe.value.runDate > today || probe.value.recordedAt > evidence) {
      return None;
    }
    var probePassed := probe.Some? && probe.value.runDate <= requested && probe.value.passed;
    var recentShadow := newest.Some? && Recent(newest.value.runDate, requested);
    var probeFresh := && probe.Some? && newest.Some? && probe.value.runDate >= newest.value.runDate
                      && Recent(probe.value.runDate, requested);
    var ready := recentShadow && consecutive >= 7 && unresolved == 0 && imported && probePassed && probeFresh;
    var lastMatch := if newest.Some? && newest.value.matched then Some(newest.value.runDate) else None;
    r := Some(Status(consecutive, lastMatch, unresolved, imported, probePassed, ready));
    if newest.Some? {
      StreakResolved(h, newest.value.runDate, consecutive);
      GateMeans(h, requested, newest.value.runDate, consecutive, imported, probe);
      NewestUnique(h, requested, newest.value.runDate);
      SomeDayIsOld(h, requested, newest.value.runDate);
    } else {
      NoDayNoGate(h, requested, imported, probe);
    }
  }

  lemma SomeDayIsOld(h: History, requested: int, newest: int)
    requires IsNewest(h, requested, newest)
    ensures !forall d :: d in h ==> d > requested
  {
  }

  lemma FutureIsInRows(h: History, rows: seq<Result>, limit: int, probe: Option<Probe>, today: int, evidence: int)
    requires NewestFirst(rows, h, limit) && forall d :: d in h ==> d <= limit
    ensures NotFromFuture(h, probe, today, evidence) <==>
            && (forall i :: 0 <= i < |rows| ==> rows[i].runDate <= today && rows[i].recordedAt <= evidence)
            && (probe.Some? ==> probe.value.runDate <= today && probe.value.recordedAt <= evidence)
  {
    if forall i :: 0 <= i < |rows| ==> rows[i].runDate <= today && rows[i].recordedAt <= evidence {
      forall d | d in h ensures d <= today && h[d].recordedAt <= evidence {
        assert HasDay(rows, d);
      }
    }
  }

  lemma EligibleAreNewest(h: History, rows: seq<Result>, limit: int, first: nat, requested: int)
    requires NewestFirst(rows, h, limit) && first <= |rows| && forall d :: d in h ==> d <= limit
    requires forall k :: 0 <= k < first ==> rows[k].runDate > requested
    requires first < |rows| ==> rows[first].runDate <= requested
    ensures NewestFirst(rows[first..], h, requested)
    ensures rows[first..] != [] ==>
              IsNewest(h, requested, rows[first].runDate) && rows[first].runDate in h && h[rows[first].runDate] == rows[first]
    ensures rows[first..] == [] ==> forall d :: d in h ==> d > requested
  {
    hide Descending, StoredRows, HasDay;
    forall d | d in h && d <= requested ensures HasDay(rows[first..], d) && first < |rows| && d <= rows[first].runDate {
      DayIsEligible(h, rows, limit, first, requested, d);
    }
    SuffixRows(h, rows, limit, first, requested);
  }

  lemma SuffixRows(h: History, rows: seq<Result>, limit: int, first: nat, requested: int)
    requires Descending(rows) && StoredRows(rows, h, limit) && first <= |rows|
    requires first < |rows| ==> rows[first].runDate <= requested
    ensures Descending(rows[first..]) && StoredRows(rows[first..], h, requested)
    ensures first < |rows| ==> rows[first].runDate in h && h[rows[first].runDate] == rows[first]
  {
  }

  lemma DayIsEligible(h: History, rows: seq<Result>, limit: int, first: nat, requested: int, d: int)
    requires NewestFirst(rows, h, limit) && first <= |rows| && d in h && d <= limit && d <= requested
    requires forall k :: 0 <= k < first ==> rows[k].runDate > requested
    ensures HasDay(rows[first..], d) && first < |rows| && d <= rows[first].runDate
  {
    assert HasDay(rows, d);
    var i :| 0 <= i < |rows| && rows[i].runDate == d;
    assert rows[first..][i - first] == rows[i];
  }

  /** The counting loop. */
  method CountStreak(h: History, eligible: seq<Result>, requested: int) returns (consecutive: nat)
    requires NewestFirst(eligible, h, requested)
    ensures eligible == [] ==> consecutive == 0
    ensures eligible != [] ==> IsStreak(h, eligible[0].runDate, consecutive)
  {
    hide NewestFirst, IsStreak, DaysMatched;
    consecutive := 0;
    if eligible == [] {
      return;
    }
    var expected := eligible[0].runDate;
    var i := 0;
    NoDaysMatched(h, expected);
    while i < |eligible|
      invariant 0 <= i <= |eligible| && consecutive == i && expected == eligible[0].runDate - i
      invariant DaysMatched(h, eligible[0].runDate, i)
      invariant 0 < i ==> eligible[i - 1].runDate == expected + 1
    {
      if eligible[i].runDate != expected || !eligible[i].matched {
        StopsHere(h, eligible, i, requested);
        return;
      }
      OneMoreDay(h, eligible, i, requested);
      consecutive := consecutive + 1;
      expected := expected - 1;
      i := i + 1;
    }
    StopsHere(h, eligible, i, requested);
  }

  lemma NoDaysMatched(h: History, newest: int)
    ensures DaysMatched(h, newest, 0)
  {
  }

  lemma OneMoreDay(h: History, eligible: seq<Result>, i: nat, requested: int)
    requires NewestFirst(eligible, h, requested) && i < |eligible| && eligible[i].matched
    requires DaysMatched(h, eligible[0].runDate, i) && eligible[i].runDate == eligible[0].runDate - i
    ensures DaysMatched(h, eligible[0].runDate, i + 1)
  {
    forall d | eligible[0].runDate - (i + 1) < d <= eligible[0].runDate ensures MatchedOn(h, d) {
      if d == eligible[0].runDate - i {
        assert h[d] == eligible[i];
      }
    }
  }

  lemma {:induction false} DatesDrop(rows: seq<Result>, k: nat, j: nat)
    requires forall x, y :: 0 <= x < y < |rows| ==> rows[x].runDate > rows[y].runDate
    requires k <= j < |rows|
    ensures rows[j].runDate <= rows[k].runDate - (j - k)
    decreases j
  {
    if k < j {
      DatesDrop(rows, k, j - 1);
    }
  }

  /** Where the loop stops, the next day is missing or unmatched. */
  lemma StopsHere(h: History, eligible: seq<Result>, i: nat, requested: int)
    requires NewestFirst(eligible, h, requested) && i <= |eligible| && eligible != []
    requires DaysMatched(h, eligible[0].runDate, i)
    requires 0 < i ==> eligible[i - 1].runDate == eligible[0].runDate - i + 1
    requires i < |eligible| ==> eligible[i].runDate != eligible[0].runDate - i || !eligible[i].matched
    ensures IsStreak(h, eligible[0].runDate, i)
  {
    hide DaysMatched;
    var d := eligible[0].runDate - i;
    if d in h {
      assert d <= requested;
      assert HasDay(eligible, d);
      var j :| 0 <= j < |eligible| && eligible[j].runDate == d;
      assert h[d] == eligible[j];
      DatesDrop(eligible, if i == 0 then 0 else if j < i then j else i - 1, if 0 < i && j < i then i - 1 else j);
    }
  }

  /** A counted newest day has nothing unresolved: the gate's separate test is implied. */
  lemma StreakResolved(h: History, newest: int, n: nat)
    requires ValidHistory(h) && newest in h && IsStreak(h, newest, n)
    ensures n >= 1 ==> Unresolved(h[newest]) == 0
  {
    hide Unresolved;
    if n >= 1 {
      assert MatchedOn(h, newest);
      MatchedIsResolved(h[newest]);
    }
  }

  lemma NewestUnique(h: History, requested: int, newest: int)
    requires IsNewest(h, requested, newest)
    ensures forall other :: IsNewest(h, requested, other) ==> other == newest
  {
  }

  lemma NoDayNoGate(h: History, requested: int, imported: bool, probe: Option<Probe>)
    requires forall d :: d in h ==> d > requested
    ensures !MayCutOver(h, requested, imported, probe)
    ensures forall newest :: !IsNewest(h, requested, newest)
  {
  }

  lemma GateMeans(h: History, requested: int, newest: int, n: nat, imported: bool, probe: Option<Probe>)
    requires IsNewest(h, requested, newest) && IsStreak(h, newest, n)
    ensures MayCutOver(h, requested, imported, probe) <==>
            && imported && probe.Some? && probe.value.passed && Recent(probe.value.runDate, requested)
            && Recent(newest, requested) && probe.value.runDate >= newest && n >= 7
  {
    hide IsNewest;
    NewestUnique(h, requested, newest);
    assert DaysMatched(h, newest, 7) <==> n >= 7;
    if probe.Some? && Recent(newest, requested) && probe.value.runDate >= newest && n >= 7 {
      assert GateDay(h, requested, newest, probe.value);
    }
  }

  /** The gate is open exactly when the state is imported, a probe of today or yesterday passed,
      and the newest stored day up to the requested one, which is today or yesterday and no
      later than the probe, ends seven matched days in a row. */
  lemma GateExactly(h: History, requested: int, imported: bool, probe: Option<Probe>)
    ensures MayCutOver(h, requested, imported, probe) <==>
            && imported && probe.Some? && probe.value.passed && requested - 1 <= probe.value.runDate <= requested
            && exists newest ::
                 && newest in h && requested - 1 <= newest <= probe.value.runDate
                 && (forall d :: d in h ==> d <= newest || d > requested)
                 && forall d :: newest - 7 < d <= newest ==> d in h && h[d].matched
  {
    if MayCutOver(h, requested, imported, probe) {
      var newest :| GateDay(h, requested, newest, probe.value);
      forall d | newest - 7 < d <= newest ensures d in h && h[d].matched {
        assert MatchedOn(h, d);
      }
    }
    if probe.Some? && probe.value.runDate <= requested {
      forall newest |
        && newest in h && requested - 1 <= newest <= probe.value.runDate
        && (forall d :: d in h ==> d <= newest || d > requested)
        && forall d :: newest - 7 < d <= newest ==> d in h && h[d].matched
        ensures exists day :: GateDay(h, requested, day, probe.value)
      {
        assert GateDay(h, requested, newest, probe.value);
      }
    }
  }

  /** Unresolved counts every id shown in some difference and every agency whose statuses
      differ. */
  lemma UnresolvedMeans(r: Result)
    requires ConsistentResult(r)
    ensures Unresolved(r) ==
            |Shown(r.differences)| + (if r.oldStatus.lh == r.newStatus.lh then 0 else 1)
            + (if r.oldStatus.sh == r.newStatus.sh then 0 else 1) + (if r.oldStatus.gh == r.newStatus.gh then 0 else 1)
  {
    hide CountDifferences, Shown;
    ShownIds(r.differences);
  }

  /** Every id shown, with the place of its difference. */
  function Shown(ds: seq<Difference>): set<(int, Opaque)>
  {
    set i, x | 0 <= i < |ds| && x in ds[i].missing + ds[i].extra :: (i, x)
  }

  lemma ShownSnoc(ds: seq<Difference>)
    requires ds != []
    ensures var n := |ds| - 1;
            var last := set x | x in ds[n].missing + ds[n].extra :: (n, x);
            Shown(ds) == Shown(ds[..n]) + last && Shown(ds[..n]) !! last
  {
    var n := |ds| - 1;
    var last := set x | x in ds[n].missing + ds[n].extra :: (n, x);
    forall p: (int, Opaque) ensures p in Shown(ds) <==> p in Shown(ds[..n]) || p in last {
      if p in Shown(ds[..n]) {
        assert ds[..n][p.0] == ds[p.0];
      }
    }
  }

  lemma {:induction false} ShownIds(ds: seq<Difference>)
    requires forall i :: 0 <= i < |ds| ==> ds[i].missing !! ds[i].extra
    ensures CountDifferences(ds) == |Shown(ds)|
    decreases |ds|, 1
  {
    if ds == [] {
      assert Shown(ds) == {};
    } else {
      var n := |ds| - 1;
      ShownFront(ds);
      var shown := ds[n].missing + ds[n].extra;
      Paired(shown, n);
      assert |shown| == |ds[n].missing| + |ds[n].extra|;
    }
  }

  lemma {:induction false} ShownFront(ds: seq<Difference>)
    requires ds != [] && forall i :: 0 <= i < |ds| ==> ds[i].missing !! ds[i].extra
    ensures var n := |ds| - 1;
            |Shown(ds)| == CountDifferences(ds[..n]) + |set x | x in ds[n].missing + ds[n].extra :: (n, x)|
    decreases |ds|, 0
  {
    hide Shown, CountDifferences;
    var n := |ds| - 1;
    ShownIds(ds[..n]);
    ShownSnoc(ds);
  }

  lemma {:induction false} Paired(s: set<Opaque>, n: nat)
    ensures |set x | x in s :: (n, x)| == |s|
  {
    if s != {} {
      var y :| y in s;
      Paired(s - {y}, n);
      assert (set x | x in s :: (n, x)) == (set x | x in s - {y} :: (n, x)) + {(n, y)};
    }
  }

  // ---------- the history ----------

  /** `record`: insert, or replace the day's result. */
  function Record(h: History, r: Result): History
  {
    h[r.runDate := r]
  }

  lemma RecordKeepsNewest(h: History, r: Result, requested: int, newest: int)
    requires r.runDate in h
    ensures IsNewest(Record(h, r), requested, newest) <==> IsNewest(h, requested, newest)
  {
    assert forall d :: d in Record(h, r) <==> d in h;
  }

  /** Re-recording any of the seven counted days as unmatched closes the gate, whatever
      the probe and the import say. */
  lemma UnmatchedClosesGate(h: History, requested: int, newest: int, r: Result, imported: bool, probe: Option<Probe>)
    requires IsNewest(h, requested, newest)
    requires newest - 7 < r.runDate <= newest && r.runDate in h && !r.matched
    ensures !MayCutOver(Record(h, r), requested, imported, probe)
  {
    hide IsNewest;
    NewestUnique(h, requested, newest);
    forall top ensures IsNewest(Record(h, r), requested, top) ==> top == newest {
      RecordKeepsNewest(h, r, requested, top);
    }
    assert !MatchedOn(Record(h, r), r.runDate);
  }

  /** An open gate shows seven matched days in a row ending today or yesterday, with equal
      hashes and nothing unresolved on any of them, and a passing probe as fresh. */
  lemma OpenGateEvidence(h: History, requested: int, imported: bool, probe: Option<Probe>)
    requires ValidHistory(h) && MayCutOver(h, requested, imported, probe)
    ensures probe.Some? && probe.value.passed
    ensures exists newest ::
      && IsNewest(h, requested, newest)
      && requested - 1 <= newest <= probe.value.runDate <= requested
      && forall d :: newest - 7 < d <= newest ==> d in h && Unresolved(h[d]) == 0 && h[d].oldHash == h[d].newHash
  {
    hide Unresolved, IsNewest;
    var newest :| GateDay(h, requested, newest, probe.value);
    forall d | newest - 7 < d <= newest ensures d in h && Unresolved(h[d]) == 0 && h[d].oldHash == h[d].newHash {
      assert MatchedOn(h, d);
      MatchedIsResolved(h[d]);
    }
  }

  lemma MatchedIsResolved(r: Result)
    requires ConsistentResult(r) && r.matched
    ensures Unresolved(r) == 0 && r.oldHash == r.newHash
  {
  }
}
