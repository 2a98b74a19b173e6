/** When the retrieval loop gives up, and what its rounds show. */
module RagStops {
  import opened Wrappers
  import opened Dicts
  import opened Sums
  import opened RagQueries
  import opened RagLoop
  import opened RagRuns

  /** The query was searched, but for its case, with this document type. */
  ghost predicate Searched(s: Setup, tried: seq<SearchQuery>, query: string, docType: Option<string>) {
    exists k :: 0 <= k < |tried| && tried[k].docType == docType
                && Mapped(tried[k].query, s.outside.casing.lowerChar) == Mapped(query, s.outside.casing.lowerChar)
  }

  /** Every seed, and every search that aims at a facet still missing. After a search that kept nothing, also the
      expanded question and the query without its restriction; and if nothing is left to aim at, the question as it
      came. */
  ghost predicate NothingIsLeft(s: Setup, tried: seq<SearchQuery>)
    requires tried != []
  {
    var missing, last := MissingAfter(s, tried, |tried|), tried[|tried| - 1];
    var keptNothing := RoundItems(s.outside, |tried| - 1, last) == [];
    && (forall q :: q in s.seeds ==> Searched(s, tried, q.query, q.docType))
    && (forall facet, q :: facet in missing && Aims(s.analysis, facet, q) ==> Searched(s, tried, q.query, q.docType))
    && (keptNothing ==>
          && Searched(s, tried, s.outside.expand(s.analysis.question), None)
          && (last.docType != Some("") ==> Searched(s, tried, last.query, None)))
    && (!keptNothing && (forall facet, q :: facet in missing ==> !Aims(s.analysis, facet, q)) ==>
          last.query == s.analysis.question || Searched(s, tried, s.analysis.question, None))
  }

  lemma {:induction false} UsedIsSearched(s: Setup, tried: seq<SearchQuery>, q: SearchQuery)
    ensures Key(s.outside.casing, q) in Used(s.outside.casing, tried) <==> Searched(s, tried, q.query, q.docType)
  {
    hide Mapped;
    var keys := Keys(s.outside.casing, tried);
    if k :| 0 <= k < |tried| && tried[k].docType == q.docType
            && Mapped(tried[k].query, s.outside.casing.lowerChar) == Mapped(q.query, s.outside.casing.lowerChar) {
      assert keys[k] == Key(s.outside.casing, q);
    }
  }

  /** A run that stops short of enough evidence, with searches still allowed, has tried everything it knows. */
  lemma {:induction false} GivesUpWhenNothingIsLeft(s: Setup, tried: seq<SearchQuery>)
    requires Chain(s, tried) && Stopped(s, tried)
    requires !SufficientAfter(s, tried, |tried|) && |tried| < s.maxIterations
    ensures NothingIsLeft(s, tried)
  {
    var k := |tried| - 1;
    var o, missing, last := s.outside, MissingAfter(s, tried, |tried|), tried[k];
    var used := Used(o.casing, tried);
    var keptNothing := RoundItems(o, k, last) == [];
    assert tried[..k + 1] == tried;
    assert Rewritten(o.casing, s.analysis, last, missing, used, s.seeds, keptNothing, o.expand(s.analysis.question))
        == None;
    hide MissingAfter, RoundItems, SufficientAfter, Key, Searched, FacetQueries, Aims, Chain, Stopped, Mapped, Keys;
    forall q ensures Key(o.casing, q) in used <==> Searched(s, tried, q.query, q.docType) {
      UsedIsSearched(s, tried, q);
    }
    var candidates := Candidates(s.analysis, last, missing, keptNothing, o.expand(s.analysis.question));
    assert forall q :: q in candidates ==> Key(o.casing, q) in used;
    hide FirstUnused, Rewritten;
    CandidatesOffer(s, tried, missing, keptNothing);
  }

  lemma {:induction false} CandidatesOffer(s: Setup, tried: seq<SearchQuery>, missing: seq<string>, keptNothing: bool)
    requires tried != [] && missing == MissingAfter(s, tried, |tried|)
    requires keptNothing == (RoundItems(s.outside, |tried| - 1, tried[|tried| - 1]) == [])
    requires forall q :: q in s.seeds ==> Searched(s, tried, q.query, q.docType)
    requires forall q :: q in Candidates(s.analysis, tried[|tried| - 1], missing, keptNothing,
                                         s.outside.expand(s.analysis.question)) ==>
               Searched(s, tried, q.query, q.docType)
    ensures NothingIsLeft(s, tried)
  {
    hide MissingAfter, RoundItems, FacetQueries, Aims;
    var last, facets := tried[|tried| - 1], FacetQueries(s.analysis, missing);
    var expanded := s.outside.expand(s.analysis.question);
    var candidates := Candidates(s.analysis, last, missing, keptNothing, expanded);
    assert forall q :: q in facets ==> q in candidates;
    forall facet, q | facet in missing && Aims(s.analysis, facet, q) ensures Searched(s, tried, q.query, q.docType) {
      FacetQueriesAim(s.analysis, missing, q);
    }
    if keptNothing {
      assert candidates[|facets|] == SearchQuery(expanded, None, "broaden after empty retrieval");
      if last.docType == None {
        assert Searched(s, tried, last.query, None);
      } else if last.docType != Some("") {
        assert candidates[|facets| + 1] == SearchQuery(last.query, None, "retry without doc_type filter");
      }
    } else if forall facet, q :: facet in missing ==> !Aims(s.analysis, facet, q) {
      if facets != [] {
        FacetQueriesAim(s.analysis, missing, facets[0]);
        assert facets[0] in facets;
      }
      if last.query != s.analysis.question {
        assert candidates[0] == SearchQuery(s.analysis.question, None, "fall back to original question");
      }
    }
  }

  // ----- reasons

  lemma {:induction false} HintsSayWhy(hints: seq<TopicHint>, facet: string)
    ensures forall q :: q in HintQueries(hints, facet) ==> q.rationale != ""
  {
    if hints != [] {
      HintsSayWhy(hints[..|hints| - 1], facet);
    }
  }

  lemma {:induction false} FacetsSayWhy(analysis: QueryAnalysis, missing: seq<string>)
    ensures forall q :: q in FacetQueries(analysis, missing) ==> q.rationale != ""
  {
    if missing != [] {
      hide HintQueries;
      FacetsSayWhy(analysis, missing[..|missing| - 1]);
      HintsSayWhy(TOPIC_HINTS, missing[|missing| - 1]);
    }
  }

  lemma {:induction false} CandidatesSayWhy(analysis: QueryAnalysis, current: SearchQuery, missing: seq<string>,
                                            noResults: bool, expanded: string)
    ensures forall q :: q in Candidates(analysis, current, missing, noResults, expanded) ==> q.rationale != ""
  {
    FacetsSayWhy(analysis, missing);
    hide FacetQueries;
  }

  lemma {:induction false} RewrittenSaysWhy(casing: Casing, analysis: QueryAnalysis, current: SearchQuery,
                                            missing: seq<string>, used: set<QueryKey>, seeds: seq<SearchQuery>,
                                            noResults: bool, expanded: string)
    ensures var r := Rewritten(casing, analysis, current, missing, used, seeds, noResults, expanded);
            r.Some? ==>
              && r.value.rationale != ""
              && ((forall q :: q in seeds ==> q.rationale != "") ==>
                    r.value in seeds || forall q :: q in seeds ==> Key(casing, q) in used)
  {
    CandidatesSayWhy(analysis, current, missing, noResults, expanded);
    hide Candidates, FirstUnused, Key;
  }

  /** Every search after the first says why it is made, and a seed that says so itself is searched as it came. */
  lemma {:induction false} SearchesSayWhy(s: Setup, tried: seq<SearchQuery>, k: nat)
    requires Chain(s, tried) && k + 1 < |tried|
    ensures tried[k + 1].rationale != ""
    ensures (forall q :: q in s.seeds ==> q.rationale != "") ==>
              tried[k + 1] in s.seeds || forall q :: q in s.seeds ==> Searched(s, tried[..k + 1], q.query, q.docType)
  {
    assert Continues(s, tried, k);
    var o, missing := s.outside, MissingAfter(s, tried, k + 1);
    var used, keptNothing := Used(o.casing, tried[..k + 1]), RoundItems(o, k, tried[k]) == [];
    var expanded := o.expand(s.analysis.question);
    hide MissingAfter, RoundItems, SufficientAfter, Used, Rewritten, KeptAfter, Searched, Key;
    assert Rewritten(o.casing, s.analysis, tried[k], missing, used, s.seeds, keptNothing, expanded)
        == Some(tried[k + 1]);
    hide Chain, Continues, NextQuery;
    RewrittenSaysWhy(o.casing, s.analysis, tried[k], missing, used, s.seeds, keptNothing, expanded);
    forall q | q in s.seeds ensures Key(o.casing, q) in used <==> Searched(s, tried[..k + 1], q.query, q.docType) {
      UsedIsSearched(s, tried[..k + 1], q);
    }
  }

  // ----- what a round shows

  /** The item is an excerpt of the hit, of 500 characters at most, with the score the relevance gave. */
  ghost predicate Excerpt(item: Item, hit: Hit, score: real) {
    && item.id == "doc-" + hit.chunkId && item.documentId == hit.documentId && item.section == hit.section
    && item.docType == hit.docType && item.score == score
    && item.text <= hit.text && (item.text == hit.text || |item.text| == 500) && |item.text| <= 500
  }

  lemma {:induction false} ItemIsAnExcerpt(s: Scored)
    ensures Excerpt(ToItem(s), s.hit, s.score)
  {
  }

  /** Every item of a round is an excerpt of a hit of that search that was relevant to it. */
  lemma {:induction false} ItemsAreExcerpts(o: Outside, k: nat, q: SearchQuery, item: Item)
    requires item in RoundItems(o, k, q)
    ensures exists hit :: hit in o.retrieve(k, q) && o.relevance(q, hit).1
                          && Excerpt(item, hit, o.relevance(q, hit).0)
  {
    ItemsAreTheRelevantHits(o, k, q, item);
    hide RoundItems, Excerpt;
    var hit :| Gives(o, k, q, hit, item);
    ItemIsAnExcerpt(Scored(hit, o.relevance(q, hit).0));
  }

  function RejectedIn(rounds: seq<Round>): nat -> int {
    (k: nat) => if k < |rounds| then rounds[k].rejected else 0
  }

  /** What a run says it rejected is what its rounds rejected. */
  lemma {:induction false} RejectedIsTheSum(rounds: seq<Round>, n: nat)
    requires n <= |rounds|
    ensures Rejected(rounds[..n]) == Sum(n, RejectedIn(rounds))
  {
    if n > 0 {
      RejectedIsTheSum(rounds, n - 1);
      assert rounds[..n][..n - 1] == rounds[..n - 1];
    }
  }
}
