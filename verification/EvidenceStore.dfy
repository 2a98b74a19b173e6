/** The durable store of investigation runs and of the evidence index. */
module EvidenceStore {
  import opened Wrappers

  /** `detail` is everything a run row holds besides its creation time. */
  datatype Run = Run(createdAt: int, detail: string)

  datatype Item = Item(id: string, payload: string)

  /** A row of the evidence index: the run that owns it, if any, and the item as stored. */
  datatype Row = Row(owner: Option<string>, payload: string)

  /** The two tables. A select without an order gives its rows in any order, so evidence is read as a map by id. */
  datatype Tables = Tables(runs: map<string, Run>, evidence: map<string, Row>)

  predicate Named(owner: Option<string>) {
    owner.Some? && owner.value != ""
  }

  /** One item written on behalf of `owner`, or on nobody's behalf. */
  function Upserted(evidence: map<string, Row>, item: Item, owner: Option<string>): map<string, Row> {
    if item.id !in evidence then evidence[item.id := Row(owner, item.payload)]
    else if owner.None? && Named(evidence[item.id].owner) then evidence
    else evidence[item.id := Row(if Named(owner) then owner else evidence[item.id].owner, item.payload)]
  }

  function AllUpserted(evidence: map<string, Row>, items: seq<Item>, owner: Option<string>): map<string, Row> {
    if items == [] then evidence
    else Upserted(AllUpserted(evidence, items[..|items| - 1], owner), items[|items| - 1], owner)
  }

  function EvidenceOf(t: Tables, run: string): map<string, string> {
    map id | id in t.evidence && t.evidence[id].owner == Some(run) :: t.evidence[id].payload
  }

  function WithoutOwners(evidence: map<string, Row>, runs: set<string>): map<string, Row> {
    map id | id in evidence && !(evidence[id].owner.Some? && evidence[id].owner.value in runs) :: evidence[id]
  }

  datatype Op =
    | Put(run: string, row: Run, items: seq<Item>)
    | Index(items: seq<Item>)
    | Delete(run: string)
    | DeleteAll

  function Applied(t: Tables, op: Op): Tables {
    match op
    case Put(run, row, items) =>
      Tables(t.runs[run := if run in t.runs then row.(createdAt := t.runs[run].createdAt) else row],
             AllUpserted(t.evidence, items, Some(run)))
    case Index(items) => t.(evidence := AllUpserted(t.evidence, items, None))
    case Delete(run) =>
      if run in t.runs then Tables(t.runs - {run}, WithoutOwners(t.evidence, {run})) else t
    case DeleteAll => Tables(map[], WithoutOwners(t.evidence, t.runs.Keys))
  }

  function AllApplied(t: Tables, ops: seq<Op>): Tables {
    if ops == [] then t else Applied(AllApplied(t, ops[..|ops| - 1]), ops[|ops| - 1])
  }

  class InvestigationStore {
    var runs: map<string, Run>
    var evidence: map<string, Row>

    ghost function Contents(): Tables
      reads this
    {
      Tables(runs, evidence)
    }

    constructor ()
      ensures Contents() == Tables(map[], map[])
    {
      runs, evidence := map[], map[];
    }

    method UpsertEvidence(item: Item, owner: Option<string>)
      modifies this`evidence
      ensures evidence == Upserted(old(evidence), item, owner)
    {
      if item.id !in evidence {
        evidence := evidence[item.id := Row(owner, item.payload)];
        return;
      }
      var row := evidence[item.id];
      if owner.None? && Named(row.owner) {
        return;
      }
      row := row.(payload := item.payload);
      if Named(owner) {
        row := row.(owner := owner);
      }
      evidence := evidence[item.id := row];
    }

    method UpsertAll(items: seq<Item>, owner: Option<string>)
      modifies this`evidence
      ensures evidence == AllUpserted(old(evidence), items, owner)
    {
      for i := 0 to |items|
        invariant evidence == AllUpserted(old(evidence), items[..i], owner)
      {
        assert items[..i + 1][..i] == items[..i];
        UpsertEvidence(items[i], owner);
      }
      assert items[..|items|] == items;
    }

    method PutRun(run: string, row: Run, items: seq<Item>)
      modifies this
      ensures Contents() == Applied(old(Contents()), Put(run, row, items))
    {
      var created := if run in runs then runs[run].createdAt else row.createdAt;
      runs := runs[run := row.(createdAt := created)];
      UpsertAll(items, Some(run));
    }

    method IndexEvidence(items: seq<Item>)
      modifies this
      ensures Contents() == Applied(old(Contents()), Index(items))
    {
      UpsertAll(items, None);
    }

    method DeleteRun(run: string) returns (deleted: bool)
      modifies this
      ensures Contents() == Applied(old(Contents()), Delete(run))
      ensures deleted <==> run in old(runs)
    {
      deleted := run in runs;
      if deleted {
        evidence := WithoutOwners(evidence, {run});
        runs := runs - {run};
      }
    }

    method DeleteAllRuns() returns (deleted: nat)
      modifies this
      ensures Contents() == Applied(old(Contents()), DeleteAll)
      ensures deleted == |old(runs)|
    {
      var ids := runs.Keys;
      if ids != {} {
        evidence := WithoutOwners(evidence, ids);
      }
      deleted := |ids|;
      runs := map[];
    }

    method GetRun(run: string) returns (r: Option<(Run, map<string, string>)>)
      ensures r == if run in runs then Some((runs[run], EvidenceOf(Contents(), run))) else None
    {
      if run !in runs {
        return None;
      }
      var mine := map id | id in evidence && evidence[id].owner == Some(run) :: evidence[id].payload;
      assert mine == EvidenceOf(Contents(), run);
      return Some((runs[run], mine));
    }

    /** The listing reads the evidence of all the runs listed at once and hands each row to its owner. It shows for a
        run what fetching that run alone shows, exactly when the run's id is not empty or it owns nothing. */
    method ListRuns(ids: set<string>) returns (byRun: map<string, map<string, string>>)
      ensures byRun.Keys == ids
      ensures forall run :: run in ids ==> byRun[run] == if run == "" then map[] else EvidenceOf(Contents(), run)
      ensures forall run :: run in ids ==>
                (byRun[run] == EvidenceOf(Contents(), run) <==> run != "" || EvidenceOf(Contents(), run) == map[])
    {
      byRun := map run | run in ids :: map[];
      var pending := set id | id in evidence && evidence[id].owner.Some? && evidence[id].owner.value in ids;
      ghost var all, seen: set<string> := pending, {};
      while pending != {}
        invariant pending + seen == all
        invariant byRun.Keys == ids
        invariant forall run :: run in ids ==> byRun[run] == HandedOut(evidence, seen, run)
      {
        hide HandedOut;
        var id :| id in pending;
        var owner := evidence[id].owner.value;
        OneMoreHandedOut(evidence, seen, id, ids);
        pending, seen := pending - {id}, seen + {id};
        if owner != "" {
          byRun := byRun[owner := byRun[owner][id := evidence[id].payload]];
        }
      }
      forall run | run in ids && run != "" ensures byRun[run] == EvidenceOf(Contents(), run) {
        assert forall id :: id in HandedOut(evidence, all, run) <==> id in EvidenceOf(Contents(), run);
      }
    }
  }

  /** The rows among those seen that a listing hands to the run. */
  function HandedOut(evidence: map<string, Row>, seen: set<string>, run: string): map<string, string> {
    map id | id in seen && run != "" && id in evidence && evidence[id].owner == Some(run) :: evidence[id].payload
  }

  lemma {:induction false} OneMoreHandedOut(evidence: map<string, Row>, seen: set<string>, id: string,
                                            runs: set<string>)
    requires id in evidence && evidence[id].owner.Some?
    ensures forall run :: run in runs ==>
              HandedOut(evidence, seen + {id}, run)
              == if run != "" && evidence[id].owner.value == run
                 then HandedOut(evidence, seen, run)[id := evidence[id].payload]
                 else HandedOut(evidence, seen, run)
  {
    forall run | run in runs
      ensures HandedOut(evidence, seen + {id}, run)
           == if run != "" && evidence[id].owner.value == run
              then HandedOut(evidence, seen, run)[id := evidence[id].payload]
              else HandedOut(evidence, seen, run)
    {
    }
  }

  // ----- what every sequence of operations keeps

  /** An owner is always a run that is there. */
  ghost predicate OwnersLive(t: Tables) {
    forall id :: id in t.evidence && t.evidence[id].owner.Some? ==> t.evidence[id].owner.value in t.runs
  }

  lemma {:induction false} UpsertsKeepOwners(t: Tables, items: seq<Item>, owner: Option<string>)
    requires OwnersLive(t) && (owner.Some? ==> owner.value in t.runs)
    ensures OwnersLive(t.(evidence := AllUpserted(t.evidence, items, owner)))
  {
    if items != [] {
      UpsertsKeepOwners(t, items[..|items| - 1], owner);
    }
  }

  lemma {:induction false} OwnersStayLive(t: Tables, ops: seq<Op>)
    requires OwnersLive(t)
    ensures OwnersLive(AllApplied(t, ops))
  {
    hide AllUpserted;
    if ops != [] {
      OwnersStayLive(t, ops[..|ops| - 1]);
      var before := AllApplied(t, ops[..|ops| - 1]);
      match ops[|ops| - 1]
      case Put(run, row, items) =>
        var added := before.(runs := Applied(before, ops[|ops| - 1]).runs);
        UpsertsKeepOwners(added, items, Some(run));
      case Index(items) => UpsertsKeepOwners(before, items, None);
      case _ =>
    }
  }

  function LastPayload(items: seq<Item>, id: string): Option<string> {
    if items == [] then None
    else if items[|items| - 1].id == id then Some(items[|items| - 1].payload)
    else LastPayload(items[..|items| - 1], id)
  }

  /** Indexing leaves a row alone exactly when it does not mention it or a named run owns it; every other row takes
      the last payload and keeps its owner. */
  lemma {:induction false} IndexingRespectsOwners(evidence: map<string, Row>, items: seq<Item>, id: string)
    ensures var after := AllUpserted(evidence, items, None);
            && (id in evidence ==>
                  && id in after
                  && after[id] == (if LastPayload(items, id).None? || Named(evidence[id].owner) then evidence[id]
                                   else evidence[id].(payload := LastPayload(items, id).value)))
            && (id !in evidence ==>
                  && (id in after <==> LastPayload(items, id).Some?)
                  && (id in after ==> after[id] == Row(None, LastPayload(items, id).value)))
  {
    if items != [] {
      IndexingRespectsOwners(evidence, items[..|items| - 1], id);
    }
  }

  /** Storing a run leaves it the owner of an item it brings exactly when its id is not empty, or the row was new or
      already its own; the payload is its last one in any case. */
  lemma {:induction false} PutTakesOver(evidence: map<string, Row>, items: seq<Item>, run: string, id: string)
    ensures var after := AllUpserted(evidence, items, Some(run));
            && (LastPayload(items, id).None? ==>
                  && (id in after <==> id in evidence)
                  && (id in evidence ==> after[id] == evidence[id]))
            && (LastPayload(items, id).Some? ==>
                  && id in after && after[id].payload == LastPayload(items, id).value
                  && (after[id].owner == Some(run) <==>
                        run != "" || id !in evidence || evidence[id].owner == Some(run)))
  {
    if items != [] {
      PutTakesOver(evidence, items[..|items| - 1], run, id);
      OwnerOrBefore(evidence, items[..|items| - 1], run, id);
    }
  }

  lemma {:induction false} OwnerOrBefore(evidence: map<string, Row>, items: seq<Item>, run: string, id: string)
    ensures var after := AllUpserted(evidence, items, Some(run));
            id in after ==> after[id].owner == Some(run) || (id in evidence && after[id].owner == evidence[id].owner)
  {
    if items != [] {
      OwnerOrBefore(evidence, items[..|items| - 1], run, id);
    }
  }

  /** Read off the history alone: the last named run stored with this item and not deleted since. */
  function LastNamedPut(ops: seq<Op>, id: string): Option<string> {
    if ops == [] then None else
    var before := LastNamedPut(ops[..|ops| - 1], id);
    match ops[|ops| - 1]
    case Put(run, _, items) => if run != "" && LastPayload(items, id).Some? then Some(run) else before
    case Index(_) => before
    case Delete(run) => if before == Some(run) then None else before
    case DeleteAll => None
  }

  /** The last payload any run, named or not, stored for this item. */
  function LastStored(ops: seq<Op>, id: string): Option<string> {
    if ops == [] then None else
    var before := LastStored(ops[..|ops| - 1], id);
    match ops[|ops| - 1]
    case Put(_, _, items) => if LastPayload(items, id).Some? then LastPayload(items, id) else before
    case _ => before
  }

  /** What a named run owns is what it was the last named run to store: indexing, unnamed runs and deletions of other
      runs never take that away, and deleting it takes away exactly those rows. */
  ghost predicate OwnedAsStored(t: Tables, ops: seq<Op>, id: string) {
    && (LastNamedPut(ops, id).Some? ==>
          && LastNamedPut(ops, id).value != ""
          && LastStored(ops, id).Some?
          && id in t.evidence
          && t.evidence[id] == Row(LastNamedPut(ops, id), LastStored(ops, id).value))
    && (LastNamedPut(ops, id).None? && id in t.evidence ==> !Named(t.evidence[id].owner))
  }

  /** For every history, with unnamed runs in it or not. */
  lemma {:induction false} TheLastToStoreOwns(ops: seq<Op>, id: string)
    ensures OwnedAsStored(AllApplied(Tables(map[], map[]), ops), ops, id)
  {
    hide AllUpserted, LastPayload;
    var empty := Tables(map[], map[]);
    if ops != [] {
      TheLastToStoreOwns(ops[..|ops| - 1], id);
      OwnersStayLive(empty, ops[..|ops| - 1]);
      var before := AllApplied(empty, ops[..|ops| - 1]);
      match ops[|ops| - 1]
      case Put(run, row, items) =>
        PutTakesOver(before.evidence, items, run, id);
        UnnamedRunsNameNobody(before.evidence, items, run, id);
      case Index(items) => IndexingRespectsOwners(before.evidence, items, id);
      case _ =>
    }
  }

  /** Fetching a named run shows exactly the items it was the last named run to store, each as it was last stored. */
  lemma {:induction false} ARunShowsWhatItStoredLast(ops: seq<Op>, run: string, id: string)
    requires run != ""
    ensures var shown := EvidenceOf(AllApplied(Tables(map[], map[]), ops), run);
            && (id in shown <==> LastNamedPut(ops, id) == Some(run))
            && (id in shown ==> LastStored(ops, id) == Some(shown[id]))
  {
    TheLastToStoreOwns(ops, id);
    hide AllApplied, LastNamedPut, LastStored;
  }

  /** An unnamed run leaves the owner of a row as it was. */
  lemma {:induction false} UnnamedRunsNameNobody(evidence: map<string, Row>, items: seq<Item>, run: string, id: string)
    ensures var after := AllUpserted(evidence, items, Some(run));
            run == "" ==>
              && (id in evidence ==> id in after && after[id].owner == evidence[id].owner)
              && (id !in evidence && id in after ==> after[id].owner == Some(""))
  {
    if items != [] {
      UnnamedRunsNameNobody(evidence, items[..|items| - 1], run, id);
    }
  }

  /** A run with an empty id can be stored last and still not own the row. */
  lemma {:induction false} AnUnnamedRunDoesNotTakeOver(row: Run)
    ensures var ops := [Put("a", row, [Item("e", "1")]), Put("", row, [Item("e", "2")])];
            var t := AllApplied(Tables(map[], map[]), ops);
            "e" in t.evidence && t.evidence["e"] == Row(Some("a"), "2")
  {
    var first, second := Put("a", row, [Item("e", "1")]), Put("", row, [Item("e", "2")]);
    var empty := Tables(map[], map[]);
    assert [first, second][..1] == [first] && [first][..0] == [];
    assert [Item("e", "1")][..0] == [] && [Item("e", "2")][..0] == [];
    assert AllApplied(empty, [first]) == Applied(empty, first);
    assert AllApplied(empty, [first]).evidence["e"] == Row(Some("a"), "1");
    assert AllUpserted(AllApplied(empty, [first]).evidence, [Item("e", "2")], Some(""))
        == Upserted(AllApplied(empty, [first]).evidence, Item("e", "2"), Some(""));
  }

  // ----- the rows of the runs

  predicate Stores(op: Op, run: string) {
    op.Put? && op.run == run
  }

  predicate Drops(op: Op, run: string) {
    op == Delete(run) || op == DeleteAll
  }

  /** A run is there exactly when it was stored and not deleted since. */
  lemma {:induction false} ThereSinceStored(ops: seq<Op>, run: string)
    ensures run in AllApplied(Tables(map[], map[]), ops).runs <==>
              exists i :: 0 <= i < |ops| && Stores(ops[i], run) && forall k :: i < k < |ops| ==> !Drops(ops[k], run)
  {
    hide AllUpserted, WithoutOwners;
    if ops != [] {
      var front, last := ops[..|ops| - 1], ops[|ops| - 1];
      ThereSinceStored(front, run);
      if Drops(last, run) {
      } else if Stores(last, run) {
        assert Stores(ops[|ops| - 1], run);
      } else {
        var empty := Tables(map[], map[]);
        assert run in AllApplied(empty, ops).runs <==> run in AllApplied(empty, front).runs;
        if i :| 0 <= i < |front| && Stores(front[i], run) && forall k :: i < k < |front| ==> !Drops(front[k], run) {
          assert Stores(ops[i], run) && forall k :: i < k < |ops| ==> !Drops(ops[k], run);
        }
        if i :| 0 <= i < |ops| && Stores(ops[i], run) && forall k :: i < k < |ops| ==> !Drops(ops[k], run) {
          assert Stores(front[i], run) && forall k :: i < k < |front| ==> !Drops(front[k], run);
        }
      }
    }
  }

  /** A run keeps the creation time it was first stored with, however often it is stored again, until it is deleted. */
  lemma {:induction false} CreationTimeIsKept(ops: seq<Op>, run: string, i: nat)
    requires i < |ops| && Stores(ops[i], run) && forall k :: i < k < |ops| ==> !Drops(ops[k], run)
    requires run !in AllApplied(Tables(map[], map[]), ops[..i]).runs
    ensures var t := AllApplied(Tables(map[], map[]), ops);
            run in t.runs && t.runs[run].createdAt == ops[i].row.createdAt
  {
    hide AllUpserted, WithoutOwners;
    var front := ops[..|ops| - 1];
    if i < |front| {
      assert front[..i] == ops[..i];
      CreationTimeIsKept(front, run, i);
    }
  }

  /** Everything else a run row shows is what was stored last. */
  lemma {:induction false} TheLastDetailIsShown(ops: seq<Op>, run: string, j: nat)
    requires j < |ops| && Stores(ops[j], run)
    requires forall k :: j < k < |ops| ==> !Drops(ops[k], run) && !Stores(ops[k], run)
    ensures var t := AllApplied(Tables(map[], map[]), ops);
            run in t.runs && t.runs[run].detail == ops[j].row.detail
  {
    hide AllUpserted, WithoutOwners;
    if j < |ops| - 1 {
      TheLastDetailIsShown(ops[..|ops| - 1], run, j);
    }
  }
}
