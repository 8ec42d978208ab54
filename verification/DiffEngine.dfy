/**
 * The comparison loops of the diff engine (backend/app/domain/backbone/diff.py): candidate lists,
 * emitted ids, rows and counters, proved against the functions of `BackboneDiff`.
 */
module DiffEngine {
  import opened Results
  import opened Ordering
  import opened BaselineSnapshot
  import opened BackboneDiff

  predicate DistinctPrepared(cs: seq<PreparedCondition>) {
    forall i, j :: 0 <= i < j < |cs| ==> cs[i].condition.id != cs[j].condition.id
  }

  function Candidates(candidates: map<int, seq<PreparedCondition>>, sourceId: int): seq<PreparedCondition> {
    if sourceId in candidates then candidates[sourceId] else []
  }

  lemma {:induction false} DescendantsNext(cs: seq<PreparedCondition>, i: nat, sourceId: int)
    requires i < |cs|
    ensures Descendants(cs[..i + 1], sourceId) ==
      Descendants(cs[..i], sourceId) + (if cs[i].condition.sourceId == Some(sourceId) then [cs[i]] else [])
  {
    assert cs[..i + 1][..i] == cs[..i];
  }

  lemma {:induction false} NoDescendants(cs: seq<PreparedCondition>)
    ensures forall sourceId :: Descendants(cs[..0], sourceId) == []
  {
  }

  /** Current conditions grouped by the baseline condition they derive from. */
  method GroupByLineage(cs: seq<PreparedCondition>) returns (candidates: map<int, seq<PreparedCondition>>)
    ensures forall sourceId :: Candidates(candidates, sourceId) == Descendants(cs, sourceId)
  {
    hide Descendants;
    candidates := map[];
    NoDescendants(cs);
    var i := 0;
    while i < |cs|
      invariant i <= |cs|
      invariant forall sourceId :: Candidates(candidates, sourceId) == Descendants(cs[..i], sourceId)
    {
      ghost var before := candidates;
      var source := cs[i].condition.sourceId;
      if source.Some? {
        candidates := candidates[source.value := Candidates(candidates, source.value) + [cs[i]]];
      }
      forall sourceId ensures Candidates(candidates, sourceId) == Descendants(cs[..i + 1], sourceId) {
        DescendantsNext(cs, i, sourceId);
        assert Candidates(before, sourceId) == Descendants(cs[..i], sourceId);
      }
      i := i + 1;
    }
    assert cs[..i] == cs;
  }

  lemma {:induction false} DescendantsMembers(cs: seq<PreparedCondition>, sourceId: int)
    ensures forall k :: 0 <= k < |cs| && cs[k].condition.sourceId == Some(sourceId) ==>
      cs[k] in Descendants(cs, sourceId)
    ensures forall x :: x in Descendants(cs, sourceId) ==> x in cs && x.condition.sourceId == Some(sourceId)
  {
    var n := |cs| - 1;
    if n >= 0 {
      DescendantsMembers(cs[..n], sourceId);
      assert cs == cs[..n] + [cs[n]];
      forall k | 0 <= k < |cs| && cs[k].condition.sourceId == Some(sourceId)
        ensures cs[k] in Descendants(cs, sourceId) {
        if k < n { assert cs[k] == cs[..n][k]; }
      }
    }
  }

  function IdsOf(cs: seq<PreparedCondition>): set<int> { set i | 0 <= i < |cs| :: cs[i].condition.id }

  lemma {:induction false} IdsOfNext(cs: seq<PreparedCondition>, i: nat)
    requires i < |cs|
    ensures IdsOf(cs[..i + 1]) == IdsOf(cs[..i]) + {cs[i].condition.id}
  {
    forall id | id in IdsOf(cs[..i + 1]) ensures id in IdsOf(cs[..i]) + {cs[i].condition.id} {
      var k :| 0 <= k < i + 1 && cs[..i + 1][k].condition.id == id;
      if k < i { assert cs[..i][k].condition.id == id; }
    }
    forall id | id in IdsOf(cs[..i]) ensures id in IdsOf(cs[..i + 1]) {
      var k :| 0 <= k < i && cs[..i][k].condition.id == id;
      assert cs[..i + 1][k].condition.id == id;
    }
    assert cs[..i + 1][i] == cs[i];
  }

  /** The rows of one baseline condition; the ids it emits are those of its descendants. */
  method EmitLineage(layerKey: string, plan: Plan, b: Condition, cs: seq<PreparedCondition>,
      candidates: seq<PreparedCondition>) returns (rows: seq<Row>, ids: set<int>)
    requires PlanComplete(plan) && candidates == Descendants(cs, b.sourceId)
    ensures rows == LineageRows(layerKey, plan, b, cs)
    ensures ids == IdsOf(SortBy(candidates, PreparedOrder))
  {
    hide Descendants, SortBy, PlanComplete, MatchedRow, RemovedRow, AddedRow;
    var ordered := SortBy(candidates, PreparedOrder);
    if |ordered| == 0 { return [RemovedRow(layerKey, plan, b)], {}; }
    rows := [MatchedRow(layerKey, plan, b, ordered[0])];
    ids := {ordered[0].condition.id};
    assert ordered[..1] == [ordered[0]];
    assert IdsOf(ordered[..1]) == ids by { IdsOfNext(ordered, 0); assert IdsOf(ordered[..0]) == {}; }
    var i := 1;
    while i < |ordered|
      invariant 1 <= i <= |ordered|
      invariant rows == [MatchedRow(layerKey, plan, b, ordered[0])] + AddedRows(layerKey, plan, ordered[1..i])
      invariant ids == IdsOf(ordered[..i])
    {
      IdsOfNext(ordered, i);
      ids := ids + {ordered[i].condition.id};
      rows := rows + [AddedRow(layerKey, plan, ordered[i])];
      assert AddedRows(layerKey, plan, ordered[1..i + 1]) ==
        AddedRows(layerKey, plan, ordered[1..i]) + [AddedRow(layerKey, plan, ordered[i])];
      i := i + 1;
    }
    assert ordered[1..i] == ordered[1..] && ordered[..i] == ordered;
  }

  lemma {:induction false} EmittedIds(cs: seq<PreparedCondition>, sourceId: int, k: nat)
    requires DistinctPrepared(cs) && k < |cs|
    ensures cs[k].condition.id in IdsOf(SortBy(Descendants(cs, sourceId), PreparedOrder)) <==>
      cs[k].condition.sourceId == Some(sourceId)
  {
    hide Descendants, SortBy, KeyLess;
    var found := Descendants(cs, sourceId);
    var sorted := SortBy(found, PreparedOrder);
    DescendantsMembers(cs, sourceId);
    SortProps(found, PreparedOrder);
    if cs[k].condition.sourceId == Some(sourceId) {
      assert cs[k] in sorted;
      var i := IndexOf(sorted, cs[k]);
      assert sorted[i].condition.id in IdsOf(sorted);
    }
    if cs[k].condition.id in IdsOf(sorted) {
      var i :| 0 <= i < |sorted| && sorted[i].condition.id == cs[k].condition.id;
      MemberOfPermutation(found, sorted, i);
      assert sorted[i] in found;
      var j := IndexOf(cs, sorted[i]);
      assert j == k;
    }
  }

  lemma {:induction false} SourceIdsNext(bs: seq<Condition>, i: nat)
    requires i < |bs|
    ensures SourceIds(bs[..i + 1]) == SourceIds(bs[..i]) + {bs[i].sourceId}
  {
    forall id | id in SourceIds(bs[..i + 1]) ensures id in SourceIds(bs[..i]) + {bs[i].sourceId} {
      var k :| 0 <= k < i + 1 && bs[..i + 1][k].sourceId == id;
      if k < i { assert bs[..i][k].sourceId == id; }
    }
    forall id | id in SourceIds(bs[..i]) ensures id in SourceIds(bs[..i + 1]) {
      var k :| 0 <= k < i && bs[..i][k].sourceId == id;
      assert bs[..i + 1][k].sourceId == id;
    }
    assert bs[..i + 1][i] == bs[i];
  }

  lemma {:induction false} UnmatchedNext(cs: seq<PreparedCondition>, i: nat, sources: set<int>)
    requires i < |cs|
    ensures Unmatched(cs[..i + 1], sources) ==
      Unmatched(cs[..i], sources) + (if Derived(cs[i].condition, sources) then [] else [cs[i]])
  {
    assert cs[..i + 1][..i] == cs[..i];
  }

  /** The unsorted rows and the number of ambiguous lineages. */
  method CollectRows(p: Prepared, bs: seq<Condition>) returns (rows: seq<Row>, ambiguous: nat)
    requires PlanComplete(p.plan) && DistinctPrepared(p.conditions)
    ensures rows == AllRows(p.layer.layerKey, p.plan, bs, p.conditions)
    ensures ambiguous == AmbiguousCount(bs, p.conditions)
  {
    hide Descendants, PlanComplete, LineageRows, MatchedRow, RemovedRow, AddedRow, SortBy, Derived, IdsOf,
         DistinctPrepared;
    var cs, key, plan := p.conditions, p.layer.layerKey, p.plan;
    var candidates := GroupByLineage(cs);
    var emittedIds: set<int> := {};
    rows, ambiguous := [], 0;
    var i := 0;
    forall k: nat | k < |cs| ensures !Derived(cs[k].condition, SourceIds(bs[..0])) { NoneDerived(cs[k].condition, bs); }
    while i < |bs|
      invariant i <= |bs|
      invariant rows == BaselineRows(key, plan, bs[..i], cs) && ambiguous == AmbiguousCount(bs[..i], cs)
      invariant forall k: nat :: k < |cs| ==>
        (cs[k].condition.id in emittedIds <==> Derived(cs[k].condition, SourceIds(bs[..i])))
    {
      assert bs[..i + 1][..i] == bs[..i];
      var found := Candidates(candidates, bs[i].sourceId);
      var more, ids := EmitLineage(key, plan, bs[i], cs, found);
      rows := rows + more;
      if |found| > 1 { ambiguous := ambiguous + 1; }
      ghost var before := emittedIds;
      emittedIds := emittedIds + ids;
      forall k: nat | k < |cs|
        ensures cs[k].condition.id in emittedIds <==> Derived(cs[k].condition, SourceIds(bs[..i + 1])) {
        EmittedIds(cs, bs[i].sourceId, k);
        DerivedNext(cs[k].condition, bs, i);
        assert cs[k].condition.id in before <==> Derived(cs[k].condition, SourceIds(bs[..i]));
      }
      i := i + 1;
    }
    assert bs[..i] == bs;
    i := 0;
    while i < |cs|
      invariant i <= |cs|
      invariant rows == BaselineRows(key, plan, bs, cs) + AddedRows(key, plan, Unmatched(cs[..i], SourceIds(bs)))
    {
      UnmatchedNext(cs, i, SourceIds(bs));
      if cs[i].condition.id !in emittedIds {
        rows := rows + [AddedRow(key, plan, cs[i])];
        AddedRowsNext(key, plan, Unmatched(cs[..i], SourceIds(bs)), cs[i]);
      }
      i := i + 1;
    }
    assert cs[..i] == cs;
  }

  lemma {:induction false} AddedRowsNext(key: string, plan: Plan, cs: seq<PreparedCondition>, c: PreparedCondition)
    requires PlanComplete(plan)
    ensures AddedRows(key, plan, cs + [c]) == AddedRows(key, plan, cs) + [AddedRow(key, plan, c)]
  {
    hide AddedRow, PlanComplete;
  }

  lemma {:induction false} NoneDerived(c: CurrentCondition, bs: seq<Condition>)
    ensures !Derived(c, SourceIds(bs[..0]))
  {
  }

  lemma {:induction false} DerivedNext(c: CurrentCondition, bs: seq<Condition>, i: nat)
    requires i < |bs|
    ensures Derived(c, SourceIds(bs[..i + 1])) <==> Derived(c, SourceIds(bs[..i])) || c.sourceId == Some(bs[i].sourceId)
  {
    hide SourceIds;
    SourceIdsNext(bs, i);
  }

  /** Adds one row's cells to the counters. */
  method CountRow(row: Row, before: Counters) returns (after: Counters)
    ensures after == before.(
      addedCells := before.addedCells + CountCells(row.cells, AddedCell),
      removedCells := before.removedCells + CountCells(row.cells, RemovedCell),
      clearedCells := before.clearedCells + CountCells(row.cells, ClearedCell),
      changedCells := before.changedCells + CountCells(row.cells, ChangedCell),
      unchangedCells := before.unchangedCells + CountCells(row.cells, UnchangedCell))
  {
    after := before;
    var i := 0;
    while i < |row.cells|
      invariant i <= |row.cells|
      invariant after == before.(
        addedCells := before.addedCells + CountCells(row.cells[..i], AddedCell),
        removedCells := before.removedCells + CountCells(row.cells[..i], RemovedCell),
        clearedCells := before.clearedCells + CountCells(row.cells[..i], ClearedCell),
        changedCells := before.changedCells + CountCells(row.cells[..i], ChangedCell),
        unchangedCells := before.unchangedCells + CountCells(row.cells[..i], UnchangedCell))
    {
      assert row.cells[..i + 1][..i] == row.cells[..i];
      match row.cells[i].classification {
        case AddedCell => after := after.(addedCells := after.addedCells + 1);
        case RemovedCell => after := after.(removedCells := after.removedCells + 1);
        case ClearedCell => after := after.(clearedCells := after.clearedCells + 1);
        case ChangedCell => after := after.(changedCells := after.changedCells + 1);
        case UnchangedCell => after := after.(unchangedCells := after.unchangedCells + 1);
      }
      i := i + 1;
    }
    assert row.cells[..i] == row.cells;
  }

  method Count(rows: seq<Row>) returns (counters: Counters)
    ensures counters == Counted(rows)
  {
    counters := Counters(0, 0, 0, 0, 0, 0, 0, 0, 0);
    var i := 0;
    while i < |rows|
      invariant i <= |rows| && counters == Counted(rows[..i])
    {
      assert rows[..i + 1][..i] == rows[..i];
      match rows[i].status {
        case Matched => counters := counters.(matched := counters.matched + 1);
        case Added => counters := counters.(added := counters.added + 1);
        case Removed => counters := counters.(removed := counters.removed + 1);
      }
      counters := counters.(metadata := counters.metadata + |rows[i].metadataChanges|);
      counters := CountRow(rows[i], counters);
      i := i + 1;
    }
    assert rows[..i] == rows;
  }

  /** _compare_prepared_layer */
  method ComparePreparedLayer(p: Prepared) returns (r: LayerResult)
    requires PlanComplete(p.plan) && DistinctPrepared(p.conditions)
    ensures r == ComparePrepared(p)
  {
    hide AllRows, AmbiguousCount, SortBy, PlanComplete, DistinctPrepared, CountRows, CountMetadata, CountRowCells;
    var l := p.layer;
    if l.baseline.None? {
      var none := Count([]);
      return LayerResult(l.layerKey, l.sortOrder, p.basis, true, 0, none, []);
    }
    var rows, ambiguous := CollectRows(p, l.baseline.value.conditions);
    rows := SortBy(rows, RowOrder);
    var counters := Count(rows);
    r := LayerResult(l.layerKey, l.sortOrder, p.basis, false, ambiguous, counters, rows);
  }
}
