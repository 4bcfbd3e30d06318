/** The matching part of a monitor run: merge, diff, and rules on the changed items only. */
module MonitorRun {
  import opened Order
  import opened Observation
  import opened Rules

  /** A match together with the item it is about. */
  datatype Found = Found(item: Item, match_: Match)

  // ---------- the items a run compares with ----------

  /** The batch itself, or with warnings the previous items overlaid by the batch. */
  function MergedById(batch: seq<Item>, warnings: bool, previous: seq<Item>): Snapshot
  {
    if warnings then ById(previous) + ById(batch) else ById(batch)
  }

  lemma {:induction false} ByIdUnique(m: Snapshot, ids: seq<string>, items: seq<Item>)
    requires WellFormed(m) && IsSorted(ids, m.Keys)
    requires |items| == |ids| && forall i :: 0 <= i < |ids| ==> ids[i] in m && items[i] == m[ids[i]]
    ensures ById(items) == m
  {
    hide TextLess;
    ByIdOfDistinct(ids, items);
    var built := ById(items);
    forall id ensures id in built <==> id in m {
      assert id in ids <==> id in m.Keys;
    }
    forall id | id in m ensures built[id] == m[id] {
      assert id in ids;
      var i :| 0 <= i < |ids| && ids[i] == id;
    }
  }

  lemma {:induction false} ByIdOfDistinct(ids: seq<string>, items: seq<Item>)
    requires |items| == |ids| && Ascending(ids) && forall i :: 0 <= i < |ids| ==> items[i].id == ids[i]
    ensures Lists(ById(items), ids, items)
  {
    hide TextLess, Lists;
    if ids == [] {
      NothingListed();
    } else {
      var n := |ids| - 1;
      ByIdOfDistinct(ids[..n], items[..n]);
      LastNotEarlier(ids);
      ListsLonger(ById(items[..n]), ids[..n], items[..n], items[n]);
      assert ids == ids[..n] + [ids[n]] && items == items[..n] + [items[n]];
    }
  }

  /** The map holds exactly the listed items, each under its id. */
  ghost predicate Lists(m: Snapshot, ids: seq<string>, items: seq<Item>)
  {
    && |items| == |ids|
    && (forall id :: id in m <==> id in ids)
    && forall i :: 0 <= i < |ids| ==> ids[i] in m && m[ids[i]] == items[i]
  }

  lemma NothingListed()
    ensures Lists(ById([]), [], [])
  {
  }

  lemma ListsLonger(m: Snapshot, ids: seq<string>, items: seq<Item>, item: Item)
    requires Lists(m, ids, items) && item.id !in ids
    ensures Lists(m[item.id := item], ids + [item.id], items + [item])
  {
    var m' := m[item.id := item];
    forall i | 0 <= i < |ids| + 1 ensures (ids + [item.id])[i] in m' && m'[(ids + [item.id])[i]] == (items + [item])[i] {
      if i < |ids| {
        assert ids[i] in ids;
      }
    }
  }

  method CurrentItems(batch: seq<Item>, warnings: bool, previous: seq<Item>) returns (items: seq<Item>)
    ensures ById(items) == MergedById(batch, warnings, previous)
    ensures !warnings ==> items == batch
  {
    if !warnings {
      return batch;
    }
    var merged := ById(previous) + ById(batch);
    var ids := Sort(merged.Keys);
    assert forall i :: 0 <= i < |ids| ==> ids[i] in ids && ids[i] in merged;
    items := [];
    for i := 0 to |ids|
      invariant |items| == i && forall k :: 0 <= k < i ==> items[k] == merged[ids[k]]
    {
      items := items + [merged[ids[i]]];
    }
    ByIdUnique(merged, ids, items);
  }

  predicate HasNaN(item: Item)
  {
    exists key :: key in item.fields && item.fields[key] == Float(NaN)
  }

  lemma SelfEqual(v: Scalar)
    ensures PyEqual(v, v) <==> v != Float(NaN)
  {
  }

  /** With warnings no change is ever a removal, and an item outside the batch is reported
      exactly when it holds a NaN, which equals nothing. */
  lemma WarningsKeepItems(batch: seq<Item>, previous: seq<Item>, changes: seq<Change>, id: string)
    requires IsDiff(changes, ById(previous), MergedById(batch, true, previous))
    ensures forall c :: c in changes ==> !c.removed
    ensures id !in ById(batch) ==>
            ((exists c :: c in changes && c.id == id) <==> id in ById(previous) && HasNaN(ById(previous)[id]))
  {
    hide ChangeOf, IsDiff, PyEqual;
    var p, m := ById(previous), MergedById(batch, true, previous);
    forall c | c in changes ensures !c.removed {
      DiffListsChanges(changes, p, m, c);
      NotRemoved(c.id, p, m);
    }
    if id !in ById(batch) {
      if id in p {
        assert m[id] == p[id];
        UnchangedMeans(id, p, m);
        ChangeKeepsId(id, p, m);
        var change := ChangeOf(id, p, m);
        NaNMakesUnequal(p[id]);
        if change.Some? {
          DiffListsChanges(changes, p, m, change.value);
        }
      }
      forall c | c in changes && c.id == id ensures id in p && ChangeOf(id, p, m) == Some(c) {
        DiffListsChanges(changes, p, m, c);
      }
    }
  }

  lemma NotRemoved(id: string, previous: Snapshot, current: Snapshot)
    requires (id in previous || id in current) && (id in previous ==> id in current)
    ensures ChangeOf(id, previous, current).Some? ==> !ChangeOf(id, previous, current).value.removed
  {
  }

  lemma NaNMakesUnequal(item: Item)
    ensures HasNaN(item) <==> exists key :: !PyEqual(Get(item.fields, key), Get(item.fields, key))
  {
    hide PyEqual;
    forall key ensures PyEqual(Get(item.fields, key), Get(item.fields, key)) <==>
                       !(key in item.fields && item.fields[key] == Float(NaN)) {
      SelfEqual(Get(item.fields, key));
    }
  }

  // ---------- rules on the changes, and on everything ----------

  function Tagged(item: Item, matches: seq<Match>): seq<Found>
  {
    seq(|matches|, i requires 0 <= i < |matches| => Found(item, matches[i]))
  }

  function Lookup(m: Snapshot, id: string): Option<Item>
  {
    if id in m then Some(m[id]) else None
  }

  /** What the rules find on one current item against its previous version. */
  function FoundFor(rules: seq<Rule>, id: string, previous: Snapshot, current: Snapshot, fold: Fold): seq<Found>
    requires id in current
  {
    Tagged(current[id], Matches(rules, Lookup(previous, id), current[id], id !in previous, fold))
  }

  ghost predicate AllIn(ids: seq<string>, m: Snapshot)
  {
    forall i :: 0 <= i < |ids| ==> ids[i] in m
  }

  /** The rules evaluated on every item of `ids`, changed or not. */
  ghost function FullEvaluation(rules: seq<Rule>, ids: seq<string>, previous: Snapshot, current: Snapshot, fold: Fold): seq<Found>
    requires AllIn(ids, current)
  {
    if ids == [] then []
    else
      var n := |ids| - 1;
      FullEvaluation(rules, ids[..n], previous, current, fold) + FoundFor(rules, ids[n], previous, current, fold)
  }

  /** What the loop adds for one change. */
  function FoundByChange(rules: seq<Rule>, change: Change, previous: Snapshot, current: Snapshot, fold: Fold): seq<Found>
  {
    if change.id !in current then []
    else Tagged(current[change.id], Matches(rules, Lookup(previous, change.id), current[change.id], change.isNew, fold))
  }

  function FoundByChanges(rules: seq<Rule>, changes: seq<Change>, previous: Snapshot, current: Snapshot, fold: Fold): seq<Found>
  {
    if changes == [] then []
    else
      var n := |changes| - 1;
      FoundByChanges(rules, changes[..n], previous, current, fold) + FoundByChange(rules, changes[n], previous, current, fold)
  }

  /** The ids of `ids` that are in `m`. */
  function Kept(ids: seq<string>, m: Snapshot): (r: seq<string>)
    ensures forall i :: 0 <= i < |r| ==> r[i] in m
  {
    if ids == [] then []
    else Kept(ids[..|ids| - 1], m) + if ids[|ids| - 1] in m then [ids[|ids| - 1]] else []
  }

  lemma {:induction false} KeptHas(ids: seq<string>, m: Snapshot, id: string)
    ensures id in Kept(ids, m) <==> id in ids && id in m
  {
    if ids != [] {
      var n := |ids| - 1;
      KeptHas(ids[..n], m, id);
      assert ids == ids[..n] + [ids[n]];
    }
  }

  lemma {:induction false} KeptSorted(ids: seq<string>, m: Snapshot)
    requires Ascending(ids)
    ensures Ascending(Kept(ids, m))
  {
    hide TextLess;
    if ids != [] {
      var n := |ids| - 1;
      var front := Kept(ids[..n], m);
      KeptSorted(ids[..n], m);
      forall i | 0 <= i < |front| ensures TextLess(front[i], ids[n]) {
        KeptHas(ids[..n], m, front[i]);
      }
    }
  }

  /** One id: what its change finds is what a full evaluation of it finds. */
  lemma ChangeFindsAll(rules: seq<Rule>, id: string, previous: Snapshot, current: Snapshot, fold: Fold)
    requires id in previous || id in current
    ensures (match ChangeOf(id, previous, current) case None => [] case Some(c) => FoundByChange(rules, c, previous, current, fold))
            == if id in current then FoundFor(rules, id, previous, current, fold) else []
  {
    hide Matches, PyEqual;
    if ChangeOf(id, previous, current).None? {
      UnchangedMeans(id, previous, current);
      UnchangedIsSilent(rules, previous[id], current[id], fold);
    }
  }

  lemma FoundSnoc(rules: seq<Rule>, changes: seq<Change>, c: Change, previous: Snapshot, current: Snapshot, fold: Fold)
    ensures FoundByChanges(rules, changes + [c], previous, current, fold) ==
            FoundByChanges(rules, changes, previous, current, fold) + FoundByChange(rules, c, previous, current, fold)
  {
    hide FoundByChange;
    assert (changes + [c])[..|changes|] == changes;
  }

  lemma NothingFound(rules: seq<Rule>, previous: Snapshot, current: Snapshot, fold: Fold)
    ensures FoundByChanges(rules, [], previous, current, fold) == []
  {
  }

  lemma FullSnoc(rules: seq<Rule>, ids: seq<string>, id: string, previous: Snapshot, current: Snapshot, fold: Fold)
    requires AllIn(ids + [id], current)
    ensures AllIn(ids, current) && id in current
    ensures FullEvaluation(rules, ids + [id], previous, current, fold) ==
            FullEvaluation(rules, ids, previous, current, fold) + FoundFor(rules, id, previous, current, fold)
  {
    hide FoundFor;
    assert (ids + [id])[..|ids|] == ids && (ids + [id])[|ids|] == id;
    forall i | 0 <= i < |ids| ensures ids[i] in current {
      assert (ids + [id])[i] == ids[i];
    }
  }

  lemma {:induction false} ChangesFindAll(rules: seq<Rule>, ids: seq<string>, previous: Snapshot, current: Snapshot, fold: Fold)
    requires Covered(ids, previous, current)
    ensures FoundByChanges(rules, ChangesOf(ids, previous, current), previous, current, fold) ==
            FullEvaluation(rules, Kept(ids, current), previous, current, fold)
  {
    hide ChangeOf, FoundByChange, FoundFor;
    if ids != [] {
      var front, last := ids[..|ids| - 1], ids[|ids| - 1];
      ChangesFindAll(rules, front, previous, current, fold);
      ChangeFindsAll(rules, last, previous, current, fold);
      var changes, change := ChangesOf(front, previous, current), ChangeOf(last, previous, current);
      if change.Some? {
        FoundSnoc(rules, changes, change.value, previous, current, fold);
      } else {
        assert changes + [] == changes;
      }
      if last in current {
        FullSnoc(rules, Kept(front, current), last, previous, current, fold);
      } else {
        assert Kept(ids, current) == Kept(front, current);
      }
    }
  }

  /** Evaluating the rules on the diff alone finds exactly what evaluating them on every
      current item, in id order, would find. */
  lemma IncrementalIsFull(rules: seq<Rule>, changes: seq<Change>, ids: seq<string>, previous: Snapshot, current: Snapshot, fold: Fold)
    requires IsDiff(changes, previous, current) && IsSorted(ids, current.Keys)
    ensures AllIn(ids, current)
    ensures FoundByChanges(rules, changes, previous, current, fold) == FullEvaluation(rules, ids, previous, current, fold)
  {
    hide ChangesOf, FoundByChanges, FullEvaluation, TextLess;
    var all :| IsSorted(all, previous.Keys + current.Keys) && Covered(all, previous, current)
               && changes == ChangesOf(all, previous, current);
    var kept := Kept(all, current);
    KeptSorted(all, current);
    forall id ensures id in kept <==> id in current.Keys {
      KeptHas(all, current, id);
    }
    SortedUnique(kept, ids, current.Keys);
    ChangesFindAll(rules, all, previous, current, fold);
  }

  /** The matching loop of a run. */
  method MatchItems(rules: seq<Rule>, previous: seq<Item>, current: seq<Item>, fold: Fold)
    returns (found: seq<Found>, matchedCount: nat)
    ensures matchedCount == |found|
    ensures forall ids :: IsSorted(ids, ById(current).Keys) ==>
      AllIn(ids, ById(current)) && found == FullEvaluation(rules, ids, ById(previous), ById(current), fold)
  {
    hide IsDiff, IsSorted, FullEvaluation, Matches, FoundByChanges, ById;
    var previousById, currentById := ById(previous), ById(current);
    var changes := DiffItems(previous, current);
    found, matchedCount := [], 0;
    NothingFound(rules, previousById, currentById, fold);
    for i := 0 to |changes|
      invariant matchedCount == |found|
      invariant found == FoundByChanges(rules, changes[..i], previousById, currentById, fold)
    {
      var change := changes[i];
      assert changes[..i + 1] == changes[..i] + [change];
      FoundSnoc(rules, changes[..i], change, previousById, currentById, fold);
      if change.id !in currentById {
        continue;
      }
      var item := currentById[change.id];
      var matches := EvaluateRules(rules, Lookup(previousById, change.id), item, change.isNew, fold);
      ghost var before := found;
      for k := 0 to |matches|
        invariant matchedCount == |found| && found == before + Tagged(item, matches)[..k]
      {
        matchedCount := matchedCount + 1;
        found := found + [Found(item, matches[k])];
      }
    }
    assert changes[..|changes|] == changes;
    forall ids | IsSorted(ids, currentById.Keys)
      ensures AllIn(ids, currentById) && found == FullEvaluation(rules, ids, previousById, currentById, fold)
    {
      IncrementalIsFull(rules, changes, ids, previousById, currentById, fold);
    }
  }
}
