/** `_merge_evidence`: evidence is keyed by id, so an id is never dropped and a later item replaces an earlier one. */
module EvidenceMerge {
  import opened Dicts
  import opened Schemas
  import opened Sequences

  /** The bundle left by a sequence of arrivals: one item per id, in order of first arrival, the last one to arrive. */
  function Merged(all: seq<EvidenceItem>): (r: seq<EvidenceItem>) {
    var ids := Distinct(Ids(all));
    seq(|ids|, i requires 0 <= i < |ids| => assert ids[i] in ids; all[LastIndex(Ids(all), ids[i])])
  }

  /** `for item in items: known[item.evidence_id] = item` */
  method PutAll(start: Dict<string, EvidenceItem>, items: seq<EvidenceItem>, ghost seen: seq<EvidenceItem>)
    returns (known: Dict<string, EvidenceItem>)
    requires Holds(start, seen)
    ensures Holds(known, seen + items)
  {
    known := start;
    AppendNothing(seen, items);
    for i := 0 to |items|
      invariant Holds(known, seen + items[..i])
    {
      HoldsPut(known, seen + items[..i], items[i]);
      AppendNext(seen, items, i);
      known := known.Put(items[i].id, items[i]);
    }
  }

  method MergeEvidence(bundle: seq<EvidenceItem>, items: seq<EvidenceItem>) returns (r: seq<EvidenceItem>)
    ensures r == Merged(bundle + items)
  {
    HoldsNothing();
    var known := PutAll(Dict([], map[]), bundle, []);
    known := PutAll(known, items, [] + bundle);
    assert [] + bundle + items == bundle + items;
    HoldsValues(known, bundle + items);
    r := known.Values();
  }

  lemma {:induction false} HoldsNothing()
    ensures Holds(Dict([], map[]), [])
  {
    assert Ids([]) == [];
  }

  lemma {:induction false} HoldsValues(known: Dict<string, EvidenceItem>, seen: seq<EvidenceItem>)
    requires Holds(known, seen)
    ensures known.Values() == Merged(seen)
  {
  }

  /** The dictionary after the arrivals `seen`. */
  ghost predicate Holds(known: Dict<string, EvidenceItem>, seen: seq<EvidenceItem>) {
    && known.Valid()
    && known.order == Distinct(Ids(seen))
    && (forall k :: k in known.order ==> known.items[k] == seen[LastIndex(Ids(seen), k)])
  }

  lemma {:induction false} HoldsPut(known: Dict<string, EvidenceItem>, seen: seq<EvidenceItem>, item: EvidenceItem)
    requires Holds(known, seen)
    ensures Holds(known.Put(item.id, item), seen + [item])
  {
    var ids, ids' := Ids(seen), Ids(seen + [item]);
    assert ids'[..|ids'| - 1] == ids;
    var put := known.Put(item.id, item);
    assert put.order == Distinct(ids');
    forall k | k in put.order ensures put.items[k] == (seen + [item])[LastIndex(ids', k)] {
      if k != item.id {
        assert k in ids;
      }
    }
  }

  /** Ids are distinct, exactly those that arrived are present, and the item under an id is one that arrived. */
  lemma {:induction false} MergedIds(all: seq<EvidenceItem>)
    ensures NoDup(Ids(Merged(all)))
    ensures forall id :: id in Ids(Merged(all)) <==> id in Ids(all)
    ensures forall item :: item in Merged(all) ==> item in all
  {
    assert Ids(Merged(all)) == Distinct(Ids(all));
  }

  /** Merging more items keeps the place of every id already there. */
  lemma {:induction false} MergedKeepsPlaces(bundle: seq<EvidenceItem>, items: seq<EvidenceItem>)
    requires NoDup(Ids(bundle))
    ensures Ids(bundle) <= Ids(Merged(bundle + items))
  {
    assert Ids(bundle + items) == Ids(bundle) + Ids(items);
    DistinctPrefix(Ids(bundle), Ids(items));
    DistinctOfNoDup(Ids(bundle));
    assert Ids(Merged(bundle + items)) == Distinct(Ids(bundle + items));
  }

  lemma {:induction false} DistinctOfNoDup(ks: seq<string>)
    requires NoDup(ks)
    ensures Distinct(ks) == ks
  {
    if ks != [] {
      DistinctOfNoDup(ks[..|ks| - 1]);
    }
  }

  /** An item that arrives last under its id is in the bundle: nothing older is kept in its place. */
  lemma {:induction false} LatestWins(all: seq<EvidenceItem>, i: nat)
    requires i < |all|
    requires forall j :: i < j < |all| ==> all[j].id != all[i].id
    ensures all[i] in Merged(all)
  {
    var ids := Ids(all);
    assert ids[i] in ids && LastIndex(ids, ids[i]) == i;
    var d := Distinct(ids);
    var place :| 0 <= place < |d| && d[place] == ids[i];
    assert Merged(all)[place] == all[i];
  }
}
