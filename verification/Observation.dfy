/** Observed items, Python's equality on their field values, and the diff of two
    snapshots. */
module Observation {
  import opened Order

  /** A float: a finite one stands for its exact value. */
  datatype Real = Finite(r: real) | PlusInfinity | MinusInfinity | NaN

  datatype Scalar = Absent | Str(s: string) | Bool(b: bool) | Int(n: int) | Float(x: Real)

  /** The numeric value Python compares by; a bool is 0 or 1. */
  function Numeric(v: Scalar): Option<Real>
  {
    match v
    case Bool(b) => Some(Finite(if b then 1.0 else 0.0))
    case Int(n) => Some(Finite(n as real))
    case Float(x) => Some(x)
    case _ => None
  }

  /** Python's `a == b`; NaN equals nothing. */
  predicate PyEqual(a: Scalar, b: Scalar)
  {
    match (Numeric(a), Numeric(b))
    case (Some(x), Some(y)) => x == y && !x.NaN?
    case (None, None) => a == b
    case _ => false
  }

  /** Python's equality, constructor by constructor: None and texts equal only themselves, the
      bools are 1 and 0, an int and a float are equal as numbers, an infinity equals itself
      and a NaN nothing. */
  lemma PyEqualMeans(a: Scalar, b: Scalar)
    ensures PyEqual(a, b) == PyEqual(b, a)
    ensures a.Absent? ==> (PyEqual(a, b) <==> b.Absent?)
    ensures a.Str? ==> (PyEqual(a, b) <==> b.Str? && b.s == a.s)
    ensures a.Bool? && b.Bool? ==> (PyEqual(a, b) <==> a.b == b.b)
    ensures a.Bool? && b.Int? ==> (PyEqual(a, b) <==> (a.b && b.n == 1) || (!a.b && b.n == 0))
    ensures a.Bool? && b.Float? ==> (PyEqual(a, b) <==> (a.b && b.x == Finite(1.0)) || (!a.b && b.x == Finite(0.0)))
    ensures a.Int? && b.Int? ==> (PyEqual(a, b) <==> a.n == b.n)
    ensures a.Int? && b.Float? ==> (PyEqual(a, b) <==> b.x.Finite? && b.x.r == a.n as real)
    ensures a.Float? && b.Float? ==> (PyEqual(a, b) <==>
              (a.x.Finite? && b.x.Finite? && a.x.r == b.x.r) || a.x == b.x == PlusInfinity || a.x == b.x == MinusInfinity)
  {
  }

  type Fields = map<string, Scalar>

  datatype Item = Item(id: string, fields: Fields)

  /** `fields.get(key)`: a missing field reads as None. */
  function Get(fields: Fields, key: string): Scalar
  {
    if key in fields then fields[key] else Absent
  }

  datatype Change = Change(id: string, isNew: bool, removed: bool, changed: map<string, (Scalar, Scalar)>)

  type Snapshot = map<string, Item>

  ghost predicate WellFormed(m: Snapshot)
  {
    forall id :: id in m ==> m[id].id == id
  }

  /** `{item.item_id: item for item in items}`: the last item of an id stays. */
  function ById(items: seq<Item>): (m: Snapshot)
    ensures WellFormed(m)
  {
    if items == [] then map[]
    else ById(items[..|items| - 1])[items[|items| - 1].id := items[|items| - 1]]
  }

  // ---------- sorted ids ----------

  ghost predicate Ascending(ids: seq<string>)
  {
    forall i, j :: 0 <= i < j < |ids| ==> TextLess(ids[i], ids[j])
  }

  ghost predicate IsSorted(ids: seq<string>, s: set<string>)
  {
    Ascending(ids) && forall id :: id in ids <==> id in s
  }

  /** `sorted(s)`. */
  method Sort(s: set<string>) returns (ids: seq<string>)
    ensures IsSorted(ids, s)
  {
    ids := [];
    var rest := s;
    while rest != {}
      invariant rest <= s && IsSorted(ids, s - rest)
      decreases |rest|
    {
      var id :| id in rest;
      var at := 0;
      while at < |ids| && TextLess(ids[at], id)
        invariant at <= |ids| && forall i :: 0 <= i < at ==> TextLess(ids[i], id)
      {
        at := at + 1;
      }
      InsertSorted(ids, s - rest, at, id);
      ids := ids[..at] + [id] + ids[at..];
      assert s - rest + {id} == s - (rest - {id});
      rest := rest - {id};
    }
    assert s - rest == s;
  }

  lemma InsertSorted(ids: seq<string>, s: set<string>, at: nat, id: string)
    requires IsSorted(ids, s) && id !in s && at <= |ids|
    requires forall i :: 0 <= i < at ==> TextLess(ids[i], id)
    requires at < |ids| ==> !TextLess(ids[at], id)
    ensures IsSorted(ids[..at] + [id] + ids[at..], s + {id})
  {
    hide TextLess;
    var r := ids[..at] + [id] + ids[at..];
    forall i | at <= i < |ids| ensures TextLess(id, ids[i]) {
      TextTotal(ids[at], id);
      assert ids[at] in s;
      if at < i {
        TextTransitive(id, ids[at], ids[i]);
      }
    }
    forall x ensures x in r <==> x in s + {id} {
      assert ids == ids[..at] + ids[at..];
    }
  }

  lemma {:induction false} SortedUnique(a: seq<string>, b: seq<string>, s: set<string>)
    requires IsSorted(a, s) && IsSorted(b, s)
    ensures a == b
    decreases |a|
  {
    hide TextLess;
    SortedEmpty(a, s);
    SortedEmpty(b, s);
    if s != {} {
      assert a[0] in a && b[0] in b;
      var i :| 0 <= i < |b| && b[i] == a[0];
      var j :| 0 <= j < |a| && a[j] == b[0];
      FirstsAgree(a, b, i, j);
      SortedTail(a, s);
      SortedTail(b, s);
      SortedUnique(a[1..], b[1..], s - {a[0]});
      assert a == [a[0]] + a[1..] && b == [b[0]] + b[1..];
    }
  }

  lemma SortedEmpty(a: seq<string>, s: set<string>)
    requires IsSorted(a, s)
    ensures a == [] <==> s == {}
  {
    hide TextLess;
    if a != [] {
      assert a[0] in a;
    } else {
      forall id ensures id !in s {
        assert id !in a;
      }
    }
  }

  lemma FirstsAgree(a: seq<string>, b: seq<string>, i: nat, j: nat)
    requires Ascending(a) && Ascending(b) && i < |b| && j < |a| && b[i] == a[0] && a[j] == b[0]
    ensures a[0] == b[0]
  {
    hide TextLess;
    if 0 < i && 0 < j {
      TextAsymmetric(b[0], a[0]);
    }
  }

  lemma SortedTail(a: seq<string>, s: set<string>)
    requires IsSorted(a, s) && a != []
    ensures IsSorted(a[1..], s - {a[0]})
  {
    hide TextLess;
    forall id ensures id in a[1..] <==> id in s - {a[0]} {
      if id in a[1..] {
        var i :| 0 <= i < |a[1..]| && a[1..][i] == id;
        assert a[i + 1] == id;
        TextAsymmetric(a[0], id);
      }
      if id in s - {a[0]} {
        var i :| 0 <= i < |a| && a[i] == id;
        assert a[1..][i - 1] == id;
      }
    }
  }

  // ---------- the diff ----------

  function ChangedFields(was: Fields, now: Fields): map<string, (Scalar, Scalar)>
  {
    map key | key in was.Keys + now.Keys && !PyEqual(Get(was, key), Get(now, key)) :: (Get(was, key), Get(now, key))
  }

  /** The change of one id, if any. */
  function ChangeOf(id: string, previous: Snapshot, current: Snapshot): Option<Change>
    requires id in previous || id in current
  {
    if id !in previous then
      Some(Change(id, true, false, map key | key in current[id].fields :: (Absent, current[id].fields[key])))
    else if id !in current then
      Some(Change(id, false, true, map key | key in previous[id].fields :: (previous[id].fields[key], Absent)))
    else
      var changed := ChangedFields(previous[id].fields, current[id].fields);
      if changed == map[] then None else Some(Change(id, false, false, changed))
  }

  ghost predicate Covered(ids: seq<string>, previous: Snapshot, current: Snapshot)
  {
    forall i :: 0 <= i < |ids| ==> ids[i] in previous || ids[i] in current
  }

  /** The changes of the given ids, in their order. */
  ghost function ChangesOf(ids: seq<string>, previous: Snapshot, current: Snapshot): seq<Change>
    requires Covered(ids, previous, current)
  {
    if ids == [] then []
    else
      var n := |ids| - 1;
      ChangesOf(ids[..n], previous, current) +
      match ChangeOf(ids[n], previous, current) case None => [] case Some(c) => [c]
  }

  /** `changes` is the diff: the changes of all ids of both snapshots, in id order. */
  ghost predicate IsDiff(changes: seq<Change>, previous: Snapshot, current: Snapshot)
  {
    exists ids :: IsSorted(ids, previous.Keys + current.Keys) && Covered(ids, previous, current)
                  && changes == ChangesOf(ids, previous, current)
  }

  method DiffItems(previous: seq<Item>, current: seq<Item>) returns (changes: seq<Change>)
    ensures IsDiff(changes, ById(previous), ById(current))
  {
    hide IsSorted, ChangeOf;
    var previousById := ById(previous);
    var currentById := ById(current);
    var ids := Sort(previousById.Keys + currentById.Keys);
    SortedCovers(ids, previousById, currentById);
    changes := [];
    var i := 0;
    while i < |ids|
      invariant 0 <= i <= |ids|
      invariant changes == ChangesOf(ids[..i], previousById, currentById)
    {
      var change := ChangeOf(ids[i], previousById, currentById);
      if change.Some? {
        changes := changes + [change.value];
      }
      assert ids[..i + 1][..i] == ids[..i];
      i := i + 1;
    }
    assert ids[..i] == ids;
  }

  lemma SortedCovers(ids: seq<string>, previous: Snapshot, current: Snapshot)
    requires IsSorted(ids, previous.Keys + current.Keys)
    ensures Covered(ids, previous, current)
  {
    forall i | 0 <= i < |ids| ensures ids[i] in previous || ids[i] in current {
      assert ids[i] in ids;
    }
  }

  // ---------- what the diff means ----------

  /** A change of the list, by position. */
  lemma {:induction false} ChangesHave(ids: seq<string>, previous: Snapshot, current: Snapshot, change: Change)
    requires Covered(ids, previous, current)
    ensures change in ChangesOf(ids, previous, current) <==>
            exists i :: 0 <= i < |ids| && ChangeOf(ids[i], previous, current) == Some(change)
  {
    hide ChangeOf;
    if ids != [] {
      var n := |ids| - 1;
      ChangesHave(ids[..n], previous, current, change);
      if exists i :: 0 <= i < |ids| && ChangeOf(ids[i], previous, current) == Some(change) {
        var i :| 0 <= i < |ids| && ChangeOf(ids[i], previous, current) == Some(change);
        assert i < n ==> ids[..n][i] == ids[i];
      }
    }
  }

  lemma ChangeKeepsId(id: string, previous: Snapshot, current: Snapshot)
    requires id in previous || id in current
    ensures ChangeOf(id, previous, current).Some? ==> ChangeOf(id, previous, current).value.id == id
  {
  }

  /** A change is listed exactly when it is the change of its id. */
  lemma DiffListsChanges(changes: seq<Change>, previous: Snapshot, current: Snapshot, change: Change)
    requires IsDiff(changes, previous, current)
    ensures change in changes <==>
            (change.id in previous || change.id in current) && ChangeOf(change.id, previous, current) == Some(change)
  {
    hide ChangeOf, ChangesOf;
    var ids :| IsSorted(ids, previous.Keys + current.Keys) && Covered(ids, previous, current)
               && changes == ChangesOf(ids, previous, current);
    ChangesHave(ids, previous, current, change);
    forall i | 0 <= i < |ids| ensures ChangeOf(ids[i], previous, current).Some? ==> ChangeOf(ids[i], previous, current).value.id == ids[i] {
      ChangeKeepsId(ids[i], previous, current);
    }
    if change.id in previous || change.id in current {
      assert change.id in ids;
    }
  }

  ghost predicate IdsAscend(changes: seq<Change>)
  {
    forall i, j :: 0 <= i < j < |changes| ==> TextLess(changes[i].id, changes[j].id)
  }

  /** Ids are strictly ascending, so each id is listed at most once. */
  lemma DiffIdsAscend(changes: seq<Change>, previous: Snapshot, current: Snapshot)
    requires IsDiff(changes, previous, current)
    ensures IdsAscend(changes)
  {
    hide ChangesOf, TextLess;
    var ids :| IsSorted(ids, previous.Keys + current.Keys) && Covered(ids, previous, current)
               && changes == ChangesOf(ids, previous, current);
    ChangesAscend(ids, previous, current);
  }

  lemma {:induction false} ChangesAscend(ids: seq<string>, previous: Snapshot, current: Snapshot)
    requires Covered(ids, previous, current) && Ascending(ids)
    ensures IdsAscend(ChangesOf(ids, previous, current))
  {
    hide ChangeOf, TextLess;
    if ids != [] {
      var n := |ids| - 1;
      ChangesAscend(ids[..n], previous, current);
      var front := ChangesOf(ids[..n], previous, current);
      forall i | 0 <= i < |front| ensures TextLess(front[i].id, ids[n]) {
        ChangesHave(ids[..n], previous, current, front[i]);
        var k :| 0 <= k < |ids[..n]| && ChangeOf(ids[..n][k], previous, current) == Some(front[i]);
        ChangeKeepsId(ids[k], previous, current);
      }
      ChangeKeepsId(ids[n], previous, current);
    }
  }

  /** Two snapshots agree: the same ids, and equal values field by field, a missing field
      counting as None. */
  ghost predicate Agree(previous: Snapshot, current: Snapshot)
  {
    && previous.Keys == current.Keys
    && forall id, key :: id in previous ==> PyEqual(Get(previous[id].fields, key), Get(current[id].fields, key))
  }

  lemma UnchangedMeans(id: string, previous: Snapshot, current: Snapshot)
    requires id in previous || id in current
    ensures ChangeOf(id, previous, current).None? <==>
            && id in previous && id in current
            && forall key :: PyEqual(Get(previous[id].fields, key), Get(current[id].fields, key))
  {
    if id in previous && id in current {
      var was, now := previous[id].fields, current[id].fields;
      var changed := ChangedFields(was, now);
      assert changed.Keys == {} <==> changed == map[];
      forall key ensures key in changed.Keys <==> !PyEqual(Get(was, key), Get(now, key)) {
      }
      assert (forall key :: PyEqual(Get(was, key), Get(now, key))) <==> changed.Keys == {};
    }
  }

  /** The diff is empty exactly when the snapshots agree. */
  lemma DiffEmptyIffAgree(changes: seq<Change>, previous: Snapshot, current: Snapshot)
    requires IsDiff(changes, previous, current)
    ensures changes == [] <==> Agree(previous, current)
  {
    hide ChangeOf, IsDiff, PyEqual;
    forall id | id in previous || id in current
      ensures ChangeOf(id, previous, current).Some? ==> ChangeOf(id, previous, current).value in changes
    {
      ChangeKeepsId(id, previous, current);
      if ChangeOf(id, previous, current).Some? {
        DiffListsChanges(changes, previous, current, ChangeOf(id, previous, current).value);
      }
    }
    forall id | id in previous || id in current
      ensures changes == [] ==> ChangeOf(id, previous, current).None?
      ensures ChangeOf(id, previous, current).None? <==>
              && id in previous && id in current
              && forall key :: PyEqual(Get(previous[id].fields, key), Get(current[id].fields, key))
    {
      UnchangedMeans(id, previous, current);
    }
    if changes != [] {
      DiffListsChanges(changes, previous, current, changes[0]);
    } else {
      forall id ensures id in previous <==> id in current {
      }
    }
  }

  /** `previous` with one change applied. */
  ghost function Apply(previous: Snapshot, change: Change): Snapshot
  {
    if change.removed then previous - {change.id}
    else
      var base := if change.id in previous then previous[change.id].fields else map[];
      previous[change.id := Item(change.id, base + map key | key in change.changed :: change.changed[key].1)]
  }

  ghost function ApplyAll(previous: Snapshot, changes: seq<Change>): Snapshot
  {
    if changes == [] then previous
    else Apply(ApplyAll(previous, changes[..|changes| - 1]), changes[|changes| - 1])
  }

  /** The same value, or one Python calls equal. */
  predicate Same(a: Scalar, b: Scalar)
  {
    a == b || PyEqual(a, b)
  }

  ghost predicate SameItem(a: Item, b: Item)
  {
    a.id == b.id && forall key :: Same(Get(a.fields, key), Get(b.fields, key))
  }

  ghost predicate SameSnapshot(a: Snapshot, b: Snapshot)
  {
    a.Keys == b.Keys && forall id :: id in a ==> SameItem(a[id], b[id])
  }

  /** Halfway: the ids handled so far are as in `current`, the others as in `previous`. */
  ghost predicate Halfway(s: Snapshot, ids: seq<string>, previous: Snapshot, current: Snapshot)
  {
    && (forall id :: id in ids ==> (id in s <==> id in current) && (id in s ==> SameItem(s[id], current[id])))
    && (forall id :: id !in ids ==> (id in s <==> id in previous) && (id in s ==> s[id] == previous[id]))
  }

  lemma ApplyOne(s: Snapshot, id: string, previous: Snapshot, current: Snapshot)
    requires WellFormed(previous) && WellFormed(current) && (id in previous || id in current)
    requires (id in s <==> id in previous) && (id in s ==> s[id] == previous[id])
    ensures var after := Changed(s, id, previous, current);
            && (id in after <==> id in current) && (id in after ==> SameItem(after[id], current[id]))
            && (forall other :: other != id ==> (other in after <==> other in s) && (other in s ==> after[other] == s[other]))
  {
    if id in previous && id in current {
      UnchangedMeans(id, previous, current);
    }
  }

  lemma ApplySnoc(previous: Snapshot, changes: seq<Change>, c: Change)
    ensures ApplyAll(previous, changes + [c]) == Apply(ApplyAll(previous, changes), c)
  {
    hide Apply;
    assert (changes + [c])[..|changes|] == changes;
  }

  lemma HalfwayStep(s: Snapshot, after: Snapshot, ids: seq<string>, id: string, previous: Snapshot, current: Snapshot)
    requires Halfway(s, ids, previous, current) && id !in ids
    requires (id in after <==> id in current) && (id in after ==> SameItem(after[id], current[id]))
    requires forall other :: other != id ==> (other in after <==> other in s) && (other in s ==> after[other] == s[other])
    ensures Halfway(after, ids + [id], previous, current)
  {
    hide SameItem;
  }

  lemma LastNotEarlier(ids: seq<string>)
    requires Ascending(ids) && ids != []
    ensures ids[|ids| - 1] !in ids[..|ids| - 1]
  {
    hide TextLess;
    var n := |ids| - 1;
    forall i | 0 <= i < n ensures ids[i] != ids[n] {
      TextAsymmetric(ids[i], ids[n]);
    }
  }

  ghost function Changed(s: Snapshot, id: string, previous: Snapshot, current: Snapshot): Snapshot
    requires id in previous || id in current
  {
    match ChangeOf(id, previous, current) case None => s case Some(c) => Apply(s, c)
  }

  lemma AppliedLast(ids: seq<string>, previous: Snapshot, current: Snapshot)
    requires Covered(ids, previous, current) && ids != []
    ensures var n := |ids| - 1;
            ApplyAll(previous, ChangesOf(ids, previous, current)) ==
            Changed(ApplyAll(previous, ChangesOf(ids[..n], previous, current)), ids[n], previous, current)
  {
    hide ChangeOf, Apply;
    var changes := ChangesOf(ids[..|ids| - 1], previous, current);
    var change := ChangeOf(ids[|ids| - 1], previous, current);
    if change.Some? {
      ApplySnoc(previous, changes, change.value);
    } else {
      assert changes + [] == changes;
    }
  }

  lemma {:induction false} ApplyHalfway(ids: seq<string>, previous: Snapshot, current: Snapshot)
    requires WellFormed(previous) && WellFormed(current) && Covered(ids, previous, current) && Ascending(ids)
    ensures Halfway(ApplyAll(previous, ChangesOf(ids, previous, current)), ids, previous, current)
  {
    hide ChangeOf, ChangesOf, Apply, Changed, SameItem, TextLess, WellFormed;
    if ids != [] {
      var front, last := ids[..|ids| - 1], ids[|ids| - 1];
      ApplyHalfway(front, previous, current);
      var s := ApplyAll(previous, ChangesOf(front, previous, current));
      LastNotEarlier(ids);
      ApplyOne(s, last, previous, current);
      AppliedLast(ids, previous, current);
      HalfwayStep(s, Changed(s, last, previous, current), front, last, previous, current);
      assert ids == front + [last];
    } else {
      NoChanges(previous, current);
    }
  }

  lemma NoChanges(previous: Snapshot, current: Snapshot)
    ensures ApplyAll(previous, ChangesOf([], previous, current)) == previous
  {
  }

  /** A true diff: applied to `previous` it gives `current`, up to absent-or-None fields
      and values Python calls equal. */
  lemma DiffApplies(changes: seq<Change>, previous: Snapshot, current: Snapshot)
    requires WellFormed(previous) && WellFormed(current) && IsDiff(changes, previous, current)
    ensures SameSnapshot(ApplyAll(previous, changes), current)
  {
    hide ChangesOf, ApplyAll, SameItem, WellFormed;
    var ids :| IsSorted(ids, previous.Keys + current.Keys) && Covered(ids, previous, current)
               && changes == ChangesOf(ids, previous, current);
    ApplyHalfway(ids, previous, current);
    var after := ApplyAll(previous, changes);
    forall id ensures id in after <==> id in current {
      assert id in ids <==> id in previous.Keys + current.Keys;
    }
  }

  function Inverted(c: Change): Change
  {
    Change(c.id, c.removed, c.isNew, map key | key in c.changed :: (c.changed[key].1, c.changed[key].0))
  }

  function AllInverted(changes: seq<Change>): seq<Change>
  {
    if changes == [] then [] else AllInverted(changes[..|changes| - 1]) + [Inverted(changes[|changes| - 1])]
  }

  lemma ChangeInverts(id: string, previous: Snapshot, current: Snapshot)
    requires id in previous || id in current
    ensures ChangeOf(id, current, previous) ==
            match ChangeOf(id, previous, current) case None => None case Some(c) => Some(Inverted(c))
  {
    if id in previous && id in current {
      var there := ChangedFields(previous[id].fields, current[id].fields);
      var back := ChangedFields(current[id].fields, previous[id].fields);
      assert forall a, b :: PyEqual(a, b) == PyEqual(b, a);
      assert there.Keys == back.Keys;
      assert back == map key | key in there :: (there[key].1, there[key].0);
      assert there.Keys == {} <==> there == map[];
      assert back.Keys == {} <==> back == map[];
    } else {
      var c := ChangeOf(id, previous, current).value;
      assert ChangeOf(id, current, previous).value.changed == Inverted(c).changed;
    }
  }

  lemma {:induction false} ChangesInvert(ids: seq<string>, previous: Snapshot, current: Snapshot)
    requires Covered(ids, previous, current)
    ensures ChangesOf(ids, current, previous) == AllInverted(ChangesOf(ids, previous, current))
  {
    hide ChangeOf, Inverted;
    if ids != [] {
      var n := |ids| - 1;
      ChangesInvert(ids[..n], previous, current);
      ChangeInverts(ids[n], previous, current);
      var changes := ChangesOf(ids[..n], previous, current);
      var change := ChangeOf(ids[n], previous, current);
      if change.Some? {
        InvertSnoc(changes, change.value);
      } else {
        assert changes + [] == changes;
      }
    }
  }

  lemma InvertSnoc(changes: seq<Change>, c: Change)
    ensures AllInverted(changes + [c]) == AllInverted(changes) + [Inverted(c)]
  {
    hide Inverted;
    assert (changes + [c])[..|changes|] == changes;
  }

  /** Diffing in the opposite direction gives the exact inverse, and the diff is unique. */
  lemma DiffInverts(there: seq<Change>, back: seq<Change>, previous: Snapshot, current: Snapshot)
    requires IsDiff(there, previous, current) && IsDiff(back, current, previous)
    ensures back == AllInverted(there)
  {
    hide ChangesOf;
    var ids :| IsSorted(ids, previous.Keys + current.Keys) && Covered(ids, previous, current)
               && there == ChangesOf(ids, previous, current);
    var ids' :| IsSorted(ids', current.Keys + previous.Keys) && Covered(ids', current, previous)
                && back == ChangesOf(ids', current, previous);
    assert current.Keys + previous.Keys == previous.Keys + current.Keys;
    SortedUnique(ids, ids', previous.Keys + current.Keys);
    ChangesInvert(ids, previous, current);
  }
}
