/** What every run of the retrieval loop keeps: which queries it tries, what it keeps, and what is still missing. */
module RagRuns {
  import opened Wrappers
  import opened Dicts
  import opened Sorting
  import opened RagQueries
  import opened RagLoop

  // ----- the queries tried

  /** No search is made twice: lower-cased, no query comes back with the same document type. */
  lemma {:induction false} NoSearchIsRepeated(s: Setup, tried: seq<SearchQuery>)
    requires Chain(s, tried)
    ensures NoDup(Keys(s.outside.casing, tried))
  {
    hide Key, Keys, SufficientAfter, NextQuery;
    var keys := Keys(s.outside.casing, tried);
    forall i, j | 0 <= i < j < |keys| ensures keys[i] != keys[j] {
      assert Continues(s, tried, j - 1);
      NextIsNew(s, tried, j - 1);
      assert Keys(s.outside.casing, tried[..j])[i] == keys[i];
    }
  }

  lemma {:induction false} NextIsNew(s: Setup, tried: seq<SearchQuery>, k: nat)
    requires k < |tried|
    ensures var next, casing := NextQuery(s, tried, k), s.outside.casing;
            && (next.Some? ==> Key(casing, next.value) !in Used(casing, tried[..k + 1]))
            && (var seed := FirstUnused(casing, s.seeds, Used(casing, tried[..k + 1]));
                seed.Some? ==> next.Some? && Key(casing, next.value) == Key(casing, seed.value))
  {
    hide Key, MissingAfter, RoundItems, FirstUnused, Candidates, Keys, KeptAfter, Rewritten;
    var o := s.outside;
    RewrittenIsNew(o.casing, s.analysis, tried[k], MissingAfter(s, tried, k + 1), Used(o.casing, tried[..k + 1]),
                   s.seeds, RoundItems(o, k, tried[k]) == [], o.expand(s.analysis.question));
  }

  lemma {:induction false} FirstUnusedAt(casing: Casing, qs: seq<SearchQuery>, used: set<QueryKey>) returns (i: nat)
    requires FirstUnused(casing, qs, used).Some?
    ensures i < |qs| && FirstUnused(casing, qs, used) == Some(qs[i])
    ensures forall j :: 0 <= j < i ==> Key(casing, qs[j]) in used
  {
    hide Key;
    if Key(casing, qs[0]) !in used {
      i := 0;
    } else {
      var rest := FirstUnusedAt(casing, qs[1..], used);
      i := rest + 1;
    }
  }

  lemma {:induction false} DistinctTake(keys: seq<QueryKey>, i: nat)
    requires i <= |keys|
    ensures Distinct(keys[..i]) <= Distinct(keys)
  {
    assert keys == keys[..i] + keys[i..];
    DistinctPrefix(keys[..i], keys[i..]);
  }

  lemma {:induction false} DistinctStep(keys: seq<QueryKey>, i: nat)
    requires i < |keys| && keys[i] !in keys[..i]
    ensures |Distinct(keys[..i])| < |Distinct(keys)|
    ensures Distinct(keys)[|Distinct(keys[..i])|] == keys[i]
  {
    assert keys[..i + 1][..i] == keys[..i];
    assert Distinct(keys[..i + 1]) == Distinct(keys[..i]) + [keys[i]];
    hide Distinct;
    DistinctTake(keys, i + 1);
  }

  /** The place of the first key outside the first n different ones is that of the next different one. */
  lemma {:induction false} NextDistinct(keys: seq<QueryKey>, i: nat, n: nat)
    requires i < |keys| && n < |Distinct(keys)|
    requires keys[i] !in Distinct(keys)[..n]
    requires forall j :: 0 <= j < i ==> keys[j] in Distinct(keys)[..n]
    ensures Distinct(keys)[n] == keys[i]
  {
    hide Distinct;
    var all, before := Distinct(keys), Distinct(keys[..i]);
    DistinctTake(keys, i);
    DistinctStep(keys, i);
    forall p | 0 <= p < |before| ensures all[p] in all[..n] {
      assert before[p] == all[p] && before[p] in keys[..i];
    }
    assert all[n] !in all[..n];
    assert |before| <= n;
  }

  /** Once the first n different seeds were used, the first unused one is the next different seed. */
  lemma {:induction false} NextSeed(casing: Casing, seeds: seq<SearchQuery>, used: set<QueryKey>, n: nat)
    requires n < |Distinct(Keys(casing, seeds))|
    requires forall key :: key in used <==> key in Distinct(Keys(casing, seeds))[..n]
    ensures FirstUnused(casing, seeds, used).Some?
    ensures Key(casing, FirstUnused(casing, seeds, used).value) == Distinct(Keys(casing, seeds))[n]
  {
    hide Key, Distinct, FirstUnused;
    var keys := Keys(casing, seeds);
    var all := Distinct(keys);
    assert all[n] in keys;
    var at :| 0 <= at < |keys| && keys[at] == all[n];
    assert seeds[at] in seeds && Key(casing, seeds[at]) !in used;
    var i := FirstUnusedAt(casing, seeds, used);
    NextDistinct(keys, i, n);
  }

  /** The different seeds are searched first, in their order, before any rewriting from the missing facets. */
  lemma {:induction false} SeedsComeFirst(s: Setup, tried: seq<SearchQuery>, n: nat)
    requires Chain(s, tried)
    requires n <= |tried| && n <= |Distinct(Keys(s.outside.casing, s.seeds))|
    ensures Keys(s.outside.casing, tried)[..n] == Distinct(Keys(s.outside.casing, s.seeds))[..n]
  {
    hide Key, MissingAfter, RoundItems, Distinct, FirstUnused;
    var casing := s.outside.casing;
    var keys, seeds := Keys(casing, tried), Distinct(Keys(casing, s.seeds));
    if n > 0 {
      var k := n - 1;
      SeedsComeFirst(s, tried, k);
      NextSearchIsNextSeed(s, tried, k);
      hide Keys, Chain;
      assert keys[..n] == keys[..k] + [keys[k]] && seeds[..n] == seeds[..k] + [seeds[k]];
    }
  }

  lemma {:induction false} NextSearchIsNextSeed(s: Setup, tried: seq<SearchQuery>, k: nat)
    requires Chain(s, tried)
    requires k < |tried| && k < |Distinct(Keys(s.outside.casing, s.seeds))|
    requires Keys(s.outside.casing, tried)[..k] == Distinct(Keys(s.outside.casing, s.seeds))[..k]
    ensures Keys(s.outside.casing, tried)[k] == Distinct(Keys(s.outside.casing, s.seeds))[k]
  {
    hide Key, Keys, Distinct, FirstUnused, SufficientAfter, NextQuery;
    var casing := s.outside.casing;
    var used := Used(casing, tried[..k]);
    assert Keys(casing, tried[..k]) == Keys(casing, tried)[..k];
    NextSeed(casing, s.seeds, used, k);
    if k > 0 {
      assert Continues(s, tried, k - 1);
      NextIsNew(s, tried, k - 1);
    } else {
      FirstOfAll(casing, s.seeds, used);
    }
  }

  lemma {:induction false} FirstOfAll(casing: Casing, seeds: seq<SearchQuery>, used: set<QueryKey>)
    requires used == {} && seeds != []
    ensures FirstUnused(casing, seeds, used) == Some(seeds[0])
  {
  }

  ghost predicate CodeAims(analysis: QueryAnalysis, facet: string, q: SearchQuery) {
    && facet in analysis.errorCodes
    && (|| (q.query == facet + " processor incident" && q.docType == Some("error_codes"))
        || (q.query == facet + " runbook timeout failure" && q.docType == Some("runbook")))
  }

  ghost predicate HintAims(hints: seq<TopicHint>, facet: string, q: SearchQuery) {
    exists hint :: hint in hints && (facet == hint.topic || facet in hint.needles)
                   && q.query == hint.query && q.docType == hint.docType
  }

  /** The query looks for the facet: for an error code in the error-code pages or the runbooks, for a topic as a hint
      that knows the facet says. */
  ghost predicate Aims(analysis: QueryAnalysis, facet: string, q: SearchQuery) {
    CodeAims(analysis, facet, q) || HintAims(TOPIC_HINTS, facet, q)
  }

  /** The search is in the list, whatever reason is given for it. */
  ghost predicate Listed(q: SearchQuery, qs: seq<SearchQuery>) {
    exists q' :: q' in qs && q'.query == q.query && q'.docType == q.docType
  }

  lemma {:induction false} ListedInBoth(q: SearchQuery, a: seq<SearchQuery>, b: seq<SearchQuery>)
    ensures Listed(q, a + b) <==> Listed(q, a) || Listed(q, b)
  {
  }

  lemma {:induction false} HintQueriesAim(hints: seq<TopicHint>, facet: string, q: SearchQuery)
    ensures HintAims(hints, facet, q) <==> Listed(q, HintQueries(hints, facet))
  {
    if hints != [] {
      var front, last := hints[..|hints| - 1], hints[|hints| - 1];
      HintQueriesAim(front, facet, q);
      assert hints == front + [last];
      ListedInBoth(q, HintQueries(front, facet), HintQueries(hints, facet)[|HintQueries(front, facet)|..]);
    }
  }

  lemma {:induction false} CodeQueriesAim(analysis: QueryAnalysis, facet: string, q: SearchQuery)
    ensures CodeAims(analysis, facet, q) <==> Listed(q, CodeQueries(analysis, facet))
  {
    var codes := CodeQueries(analysis, facet);
    assert facet in analysis.errorCodes ==> codes[0] in codes && codes[1] in codes;
  }

  lemma {:induction false} OneFacetAims(analysis: QueryAnalysis, facet: string, q: SearchQuery)
    ensures Aims(analysis, facet, q)
       <==> Listed(q, CodeQueries(analysis, facet)) || Listed(q, HintQueries(TOPIC_HINTS, facet))
  {
    hide CodeAims, HintAims, Listed, CodeQueries, HintQueries;
    CodeQueriesAim(analysis, facet, q);
    HintQueriesAim(TOPIC_HINTS, facet, q);
  }

  lemma {:induction false} MoreFacetQueries(analysis: QueryAnalysis, missing: seq<string>, q: SearchQuery)
    requires missing != []
    ensures var front, last := missing[..|missing| - 1], missing[|missing| - 1];
            Listed(q, FacetQueries(analysis, missing)) <==>
              Listed(q, FacetQueries(analysis, front)) || Aims(analysis, last, q)
  {
    hide Aims, Listed, CodeQueries, HintQueries;
    var front, last := missing[..|missing| - 1], missing[|missing| - 1];
    OneFacetAims(analysis, last, q);
    var codes, hints := CodeQueries(analysis, last), HintQueries(TOPIC_HINTS, last);
    ListedInBoth(q, FacetQueries(analysis, front) + codes, hints);
    ListedInBoth(q, FacetQueries(analysis, front), codes);
  }

  lemma {:induction false} NoFacetQueries(analysis: QueryAnalysis, q: SearchQuery)
    ensures !Listed(q, FacetQueries(analysis, []))
  {
  }

  /** The facet queries are the searches that aim at a missing facet, all of them and no other. */
  lemma {:induction false} FacetQueriesAim(analysis: QueryAnalysis, missing: seq<string>, q: SearchQuery)
    ensures Listed(q, FacetQueries(analysis, missing)) <==> exists facet :: facet in missing && Aims(analysis, facet, q)
  {
    hide Aims, FacetQueries, Listed;
    if missing == [] {
      NoFacetQueries(analysis, q);
    } else {
      var front, last := missing[..|missing| - 1], missing[|missing| - 1];
      FacetQueriesAim(analysis, front, q);
      MoreFacetQueries(analysis, missing, q);
      assert forall facet :: facet in missing <==> facet in front || facet == last by {
        assert missing == front + [last];
      }
    }
  }

  /** Once every seed was searched, the next search aims at a facet missing just then; or the last one kept nothing, and
      it drops the restriction or the wording; or nothing is left to aim at, and it asks the question as it came. */
  lemma {:induction false} LaterSearchesAim(s: Setup, tried: seq<SearchQuery>, k: nat)
    requires Chain(s, tried) && k + 1 < |tried|
    requires forall q :: q in s.seeds ==> Key(s.outside.casing, q) in Keys(s.outside.casing, tried[..k + 1])
    ensures var next := tried[k + 1];
            || (exists facet :: facet in MissingAfter(s, tried, k + 1) && Aims(s.analysis, facet, next))
            || (next.docType == None
                && (|| (RoundItems(s.outside, k, tried[k]) == []
                        && (next.query == s.outside.expand(s.analysis.question) || next.query == tried[k].query))
                    || (FacetQueries(s.analysis, MissingAfter(s, tried, k + 1)) == []
                        && next.query == s.analysis.question)))
  {
    hide Key, Keys, Aims, MissingAfter, RoundItems, FacetQueries, SufficientAfter, FirstUnused;
    assert Continues(s, tried, k);
    FacetQueriesAim(s.analysis, MissingAfter(s, tried, k + 1), tried[k + 1]);
  }

  // ----- the rounds

  /** At most max(1, maxIterations) searches; every round but the last asks for another, the last one never does, and
      it says why the run stopped; what was retrieved was either kept or rejected. */
  lemma {:induction false} RoundsAreAccountedFor(s: Setup, tried: seq<SearchQuery>, rounds: seq<Round>)
    requires Chain(s, tried) && Stopped(s, tried) && Told(s, tried, rounds, true)
    ensures |rounds| <= if s.maxIterations >= 1 then s.maxIterations else 1
    ensures forall k :: 0 <= k < |rounds| ==> rounds[k].retrieved == rounds[k].kept + rounds[k].rejected
    ensures forall k :: 0 <= k < |rounds| ==> rounds[k].kept == |rounds[k].ids|
    ensures forall k :: 0 <= k < |rounds| ==> (rounds[k].decision == Rewrite <==> k < |rounds| - 1)
    ensures var last := rounds[|rounds| - 1];
            && (last.decision == Sufficient <==> last.sufficient)
            && (last.decision == NoResults <==> !last.sufficient && |rounds| >= s.maxIterations && last.retrieved == 0)
            && (last.decision == Exhausted && |rounds| < s.maxIterations ==>
                  NextQuery(s, tried, |tried| - 1) == None)
  {
    hide NextQuery, MissingFacets, KeptAfter, KeptHits;
    var n := |tried|;
    if n > 1 {
      assert Continues(s, tried, n - 2);
    }
    forall k | 0 <= k < n
      ensures rounds[k].retrieved == rounds[k].kept + rounds[k].rejected && rounds[k].kept == |rounds[k].ids|
      ensures rounds[k].decision == Rewrite <==> k < n - 1
    {
      assert rounds[k] == RoundOf(s, tried, k, k == n - 1);
      if k < n - 1 {
        assert Continues(s, tried, k);
      }
    }
  }

  // ----- the evidence kept

  /** Search j, made with query q, found hit h relevant, and this is the item it gives. */
  ghost predicate Gives(o: Outside, j: nat, q: SearchQuery, h: Hit, item: Item) {
    h in o.retrieve(j, q) && o.relevance(q, h).1 && item == ToItem(Scored(h, o.relevance(q, h).0))
  }

  ghost predicate Given(o: Outside, j: nat, q: SearchQuery, item: Item) {
    exists h :: Gives(o, j, q, h, item)
  }

  /** One of the first k searches gave this item. */
  ghost predicate Arrived(o: Outside, tried: seq<SearchQuery>, k: nat, item: Item)
    requires k <= |tried|
  {
    exists j :: 0 <= j < k && Given(o, j, tried[j], item)
  }

  lemma {:induction false} KeptHitsAreRelevant(o: Outside, q: SearchQuery, hits: seq<Hit>)
    ensures forall sc :: sc in KeptHits(o, q, hits)
                    <==> sc.hit in hits && o.relevance(q, sc.hit).1 && sc.score == o.relevance(q, sc.hit).0
  {
    if hits != [] {
      KeptHitsAreRelevant(o, q, hits[..|hits| - 1]);
      assert hits == hits[..|hits| - 1] + [hits[|hits| - 1]];
    }
  }

  /** The items of a search are its relevant hits, no more and no fewer. */
  lemma {:induction false} ItemsAreTheRelevantHits(o: Outside, j: nat, q: SearchQuery, item: Item)
    ensures item in RoundItems(o, j, q) <==> Given(o, j, q, item)
  {
    hide KeptHits, LargestFirst, ToItem;
    var hits := o.retrieve(j, q);
    var kept := KeptHits(o, q, hits);
    KeptHitsAreRelevant(o, q, hits);
    var ranked := LargestFirst(kept, Above);
    assert forall sc :: sc in ranked <==> sc in multiset(ranked);
    if item in RoundItems(o, j, q) {
      var i :| 0 <= i < |ranked| && item == ToItem(ranked[i]);
      assert ranked[i] in multiset(kept);
      assert ranked[i] == Scored(ranked[i].hit, ranked[i].score);
      assert Gives(o, j, q, ranked[i].hit, item);
    }
    if Given(o, j, q, item) {
      var h :| Gives(o, j, q, h, item);
      var sc := Scored(h, o.relevance(q, h).0);
      assert sc in multiset(kept);
      var i :| 0 <= i < |ranked| && ranked[i] == sc;
      assert Items(ranked)[i] == item;
    }
  }

  ghost predicate Best(known: Dict<string, Item>, candidates: iset<Item>)
    requires known.Valid()
  {
    && (forall id :: id in known.items ==> known.items[id] in candidates && known.items[id].id == id)
    && (forall item :: item in candidates ==> item.id in known.items && item.score <= known.items[item.id].score)
  }

  /** What was kept is still there, unless a strictly better item took its place. */
  ghost predicate OnlyForBetter(before: Dict<string, Item>, after: Dict<string, Item>) {
    forall id :: id in before.items ==>
      && id in after.items
      && (after.items[id] == before.items[id] || after.items[id].score > before.items[id].score)
  }

  ghost function Among(items: seq<Item>): iset<Item> {
    iset item: Item | item in items
  }

  lemma {:induction false} AbsorbedIsBest(known: Dict<string, Item>, items: seq<Item>, candidates: iset<Item>)
    requires known.Valid() && Best(known, candidates)
    ensures Best(Absorbed(known, items), candidates + Among(items))
    ensures known.order <= Absorbed(known, items).order
    ensures OnlyForBetter(known, Absorbed(known, items))
  {
    hide Best, Replaces;
    if items == [] {
      assert candidates + Among(items) == candidates;
    } else {
      var shorter, last := items[..|items| - 1], items[|items| - 1];
      AbsorbedIsBest(known, shorter, candidates);
      BestAfterOne(Absorbed(known, shorter), last, candidates + Among(shorter));
      AmongOneMore(items, candidates);
    }
  }

  lemma {:induction false} AmongOneMore(items: seq<Item>, candidates: iset<Item>)
    requires items != []
    ensures candidates + Among(items) == candidates + Among(items[..|items| - 1]) + iset{items[|items| - 1]}
  {
    assert items == items[..|items| - 1] + [items[|items| - 1]];
  }

  lemma {:induction false} BestAfterOne(known: Dict<string, Item>, item: Item, candidates: iset<Item>)
    requires known.Valid() && Best(known, candidates)
    ensures var next := if Replaces(known, item) then known.Put(item.id, item) else known;
            && Best(next, candidates + iset{item})
            && known.order <= next.order
            && OnlyForBetter(known, next)
  {
  }

  ghost function ArrivedItems(o: Outside, tried: seq<SearchQuery>, k: nat): iset<Item>
    requires k <= |tried|
  {
    iset item | Arrived(o, tried, k, item)
  }

  /** Under each id the best item that arrived under it is kept; an id is there exactly when something arrived under
      it, so none is ever dropped. */
  lemma {:induction false} TheBestIsKept(o: Outside, tried: seq<SearchQuery>, k: nat)
    requires k <= |tried|
    ensures Best(KeptAfter(o, tried, k), ArrivedItems(o, tried, k))
  {
    hide Absorbed, RoundItems, Given, Best;
    if k == 0 {
      NothingIsBest(o, tried);
    } else {
      TheBestIsKept(o, tried, k - 1);
      var items := RoundItems(o, k - 1, tried[k - 1]);
      AbsorbedIsBest(KeptAfter(o, tried, k - 1), items, ArrivedItems(o, tried, k - 1));
      ArrivalsAdd(o, tried, k);
    }
  }

  lemma {:induction false} NothingIsBest(o: Outside, tried: seq<SearchQuery>)
    ensures Best(KeptAfter(o, tried, 0), ArrivedItems(o, tried, 0))
  {
  }

  lemma {:induction false} ArrivalsAdd(o: Outside, tried: seq<SearchQuery>, k: nat)
    requires 0 < k <= |tried|
    ensures ArrivedItems(o, tried, k)
         == ArrivedItems(o, tried, k - 1) + Among(RoundItems(o, k - 1, tried[k - 1]))
  {
    hide Given, RoundItems;
    forall item
      ensures Arrived(o, tried, k, item)
         <==> Arrived(o, tried, k - 1, item) || item in RoundItems(o, k - 1, tried[k - 1])
    {
      ItemsAreTheRelevantHits(o, k - 1, tried[k - 1], item);
    }
  }

  /** Keys keep their place, and an item only ever gives way to a strictly better one. */
  lemma {:induction false} KeptGrows(o: Outside, tried: seq<SearchQuery>, k: nat, n: nat)
    requires k <= n <= |tried|
    ensures KeptAfter(o, tried, k).order <= KeptAfter(o, tried, n).order
    ensures OnlyForBetter(KeptAfter(o, tried, k), KeptAfter(o, tried, n))
    decreases n
  {
    hide Absorbed, RoundItems, Best, OnlyForBetter;
    if k < n {
      KeptGrows(o, tried, k, n - 1);
      TheBestIsKept(o, tried, n - 1);
      var before := KeptAfter(o, tried, n - 1);
      AbsorbedIsBest(before, RoundItems(o, n - 1, tried[n - 1]), ArrivedItems(o, tried, n - 1));
      BetterAndBetter(KeptAfter(o, tried, k), before, KeptAfter(o, tried, n));
    } else {
      BetterAndBetter(KeptAfter(o, tried, k), KeptAfter(o, tried, k), KeptAfter(o, tried, k));
    }
  }

  lemma {:induction false} BetterAndBetter(a: Dict<string, Item>, b: Dict<string, Item>, c: Dict<string, Item>)
    ensures OnlyForBetter(a, a)
    ensures OnlyForBetter(a, b) && OnlyForBetter(b, c) ==> OnlyForBetter(a, c)
  {
  }

  /** A round lists its items by relevance, best first. */
  lemma {:induction false} RoundsAreRanked(o: Outside, j: nat, q: SearchQuery)
    ensures var items := RoundItems(o, j, q);
            forall a, b :: 0 <= a < b < |items| ==> items[a].score >= items[b].score
  {
    hide KeptHits, LargestFirst;
    var ranked := LargestFirst(KeptHits(o, q, o.retrieve(j, q)), Above);
    LargestFirstOrdered(KeptHits(o, q, o.retrieve(j, q)), Above);
    forall a, b | 0 <= a < b < |ranked| ensures ranked[a].score >= ranked[b].score {
      assert !Above(ranked[b], ranked[a]);
    }
  }
}
