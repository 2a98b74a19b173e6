/** Queries of the retrieval loop, and the rewriting of a query from the facets still missing. */
module RagQueries {
  import opened Wrappers

  datatype SearchQuery = SearchQuery(query: string, docType: Option<string>, rationale: string)

  datatype QueryAnalysis = QueryAnalysis(
    question: string, facets: seq<string>, errorCodes: seq<string>, topics: seq<string>)

  datatype TopicHint = TopicHint(needles: set<string>, query: string, docType: Option<string>, topic: string)

  const TOPIC_HINTS: seq<TopicHint> := [
    TopicHint({"webhook", "webhooks", "ack"}, "webhook delayed delivery ACK payment.succeeded", Some("webhook_docs"),
              "webhook"),
    TopicHint({"refund", "refunds"}, "refund policy succeeded payment", Some("refund_policy"), "refund"),
    TopicHint({"dispute", "disputes", "chargeback"}, "payment disputes risk signal", Some("api_docs"), "dispute"),
    TopicHint({"settlement", "settlements"}, "settlement batch succeeded payments", None, "settlement"),
    TopicHint({"runbook", "incident"}, "incident runbook sparse merchant evidence", Some("runbook"), "runbook"),
    TopicHint({"lifecycle", "status"}, "payment lifecycle succeeded pending failed", None, "lifecycle"),
    TopicHint({"gateway_timeout", "upi", "failure", "failed", "timeout"}, "GATEWAY_TIMEOUT UPI processor timeout",
              Some("runbook"), "timeout")]

  /** Case mapping, character by character: one character may become several. */
  datatype Casing = Casing(lowerChar: char -> string, upperChar: char -> string)

  function Mapped(text: string, f: char -> string): string {
    if text == "" then "" else Mapped(text[..|text| - 1], f) + f(text[|text| - 1])
  }

  type QueryKey = (string, Option<string>)

  /** Two queries are the same search if they agree on this. */
  function Key(casing: Casing, q: SearchQuery): QueryKey {
    (Mapped(q.query, casing.lowerChar), q.docType)
  }

  function Keys(casing: Casing, qs: seq<SearchQuery>): (keys: seq<QueryKey>)
    ensures |keys| == |qs|
    ensures forall i :: 0 <= i < |keys| ==> keys[i] == Key(casing, qs[i])
  {
    seq(|qs|, i requires 0 <= i < |qs| => Key(casing, qs[i]))
  }

  function FirstUnused(casing: Casing, qs: seq<SearchQuery>, used: set<QueryKey>): (r: Option<SearchQuery>)
    ensures r.Some? ==> r.value in qs && Key(casing, r.value) !in used
    ensures r.None? <==> forall q :: q in qs ==> Key(casing, q) in used
  {
    if qs == [] then None
    else if Key(casing, qs[0]) !in used then Some(qs[0])
    else
      assert qs == [qs[0]] + qs[1..];
      FirstUnused(casing, qs[1..], used)
  }

  function CodeQueries(analysis: QueryAnalysis, facet: string): seq<SearchQuery> {
    if facet in analysis.errorCodes then
      [SearchQuery(facet + " processor incident", Some("error_codes"), "cover missing error-code facet " + facet),
       SearchQuery(facet + " runbook timeout failure", Some("runbook"), "runbook rewrite for " + facet)]
    else []
  }

  /** The queries of the hints that cover the facet. */
  function HintQueries(hints: seq<TopicHint>, facet: string): seq<SearchQuery> {
    if hints == [] then [] else
    var last := hints[|hints| - 1];
    HintQueries(hints[..|hints| - 1], facet)
    + (if facet == last.topic || facet in last.needles then
         [SearchQuery(last.query, last.docType, "cover missing topic " + last.topic)] else [])
  }

  function FacetQueries(analysis: QueryAnalysis, missing: seq<string>): seq<SearchQuery> {
    if missing == [] then [] else
    var last := missing[|missing| - 1];
    FacetQueries(analysis, missing[..|missing| - 1]) + CodeQueries(analysis, last) + HintQueries(TOPIC_HINTS, last)
  }

  function Candidates(analysis: QueryAnalysis, current: SearchQuery, missing: seq<string>, noResults: bool,
                      expanded: string): seq<SearchQuery>
  {
    var facets := FacetQueries(analysis, missing);
    var broader :=
      if noResults then
        facets + [SearchQuery(expanded, None, "broaden after empty retrieval")]
        + (if current.docType.Some? && current.docType.value != "" then
             [SearchQuery(current.query, None, "retry without doc_type filter")] else [])
      else facets;
    if broader == [] && current.query != analysis.question then
      [SearchQuery(analysis.question, None, "fall back to original question")]
    else broader
  }

  /** The next query: the first unused seed, or else the first unused candidate. */
  function Rewritten(casing: Casing, analysis: QueryAnalysis, current: SearchQuery, missing: seq<string>,
                     used: set<QueryKey>, seeds: seq<SearchQuery>, noResults: bool, expanded: string)
    : (r: Option<SearchQuery>)
  {
    match FirstUnused(casing, seeds, used)
    case Some(seed) =>
      Some(seed.(rationale := if seed.rationale == "" then "unused seed query" else seed.rationale))
    case None => FirstUnused(casing, Candidates(analysis, current, missing, noResults, expanded), used)
  }

  method FindUnused(casing: Casing, qs: seq<SearchQuery>, used: set<QueryKey>) returns (r: Option<SearchQuery>)
    ensures r == FirstUnused(casing, qs, used)
  {
    hide Key;
    for i := 0 to |qs|
      invariant FirstUnused(casing, qs, used) == FirstUnused(casing, qs[i..], used)
    {
      if Key(casing, qs[i]) !in used {
        return Some(qs[i]);
      }
    }
    return None;
  }

  method RewriteQuery(casing: Casing, analysis: QueryAnalysis, current: SearchQuery, missing: seq<string>,
                      used: set<QueryKey>, seeds: seq<SearchQuery>, noResults: bool, expanded: string)
    returns (r: Option<SearchQuery>)
    ensures r == Rewritten(casing, analysis, current, missing, used, seeds, noResults, expanded)
  {
    hide FirstUnused, Candidates;
    var seed := FindUnused(casing, seeds, used);
    if seed.Some? {
      return Some(seed.value.(
        rationale := if seed.value.rationale == "" then "unused seed query" else seed.value.rationale));
    }
    var candidates := CollectCandidates(analysis, current, missing, noResults, expanded);
    r := FindUnused(casing, candidates, used);
  }

  method CollectCandidates(analysis: QueryAnalysis, current: SearchQuery, missing: seq<string>, noResults: bool,
                           expanded: string)
    returns (candidates: seq<SearchQuery>)
    ensures candidates == Candidates(analysis, current, missing, noResults, expanded)
  {
    hide FacetQueries;
    candidates := CollectFacetQueries(analysis, missing);
    if noResults {
      candidates := candidates + [SearchQuery(expanded, None, "broaden after empty retrieval")];
      if current.docType.Some? && current.docType.value != "" {
        candidates := candidates + [SearchQuery(current.query, None, "retry without doc_type filter")];
      }
    }
    if candidates == [] && current.query != analysis.question {
      candidates := candidates + [SearchQuery(analysis.question, None, "fall back to original question")];
    }
  }

  method CollectFacetQueries(analysis: QueryAnalysis, missing: seq<string>) returns (candidates: seq<SearchQuery>)
    ensures candidates == FacetQueries(analysis, missing)
  {
    candidates := [];
    for i := 0 to |missing|
      invariant candidates == FacetQueries(analysis, missing[..i])
    {
      hide CodeQueries, HintQueries;
      assert missing[..i + 1][..i] == missing[..i];
      candidates := candidates + CodeQueries(analysis, missing[i]);
      candidates := AddHintQueries(candidates, TOPIC_HINTS, missing[i]);
    }
    assert missing[..|missing|] == missing;
  }

  method AddHintQueries(before: seq<SearchQuery>, hints: seq<TopicHint>, facet: string)
    returns (candidates: seq<SearchQuery>)
    ensures candidates == before + HintQueries(hints, facet)
  {
    candidates := before;
    for h := 0 to |hints|
      invariant candidates == before + HintQueries(hints[..h], facet)
    {
      assert hints[..h + 1][..h] == hints[..h];
      var hint := hints[h];
      if facet == hint.topic || facet in hint.needles {
        candidates := candidates + [SearchQuery(hint.query, hint.docType, "cover missing topic " + hint.topic)];
      }
    }
    assert hints[..|hints|] == hints;
  }

  /** A rewritten query is always a search that was not made, and there is none only when every seed was used. */
  lemma {:induction false} RewrittenIsNew(casing: Casing, analysis: QueryAnalysis, current: SearchQuery,
                                          missing: seq<string>, used: set<QueryKey>, seeds: seq<SearchQuery>,
                                          noResults: bool, expanded: string)
    ensures var r := Rewritten(casing, analysis, current, missing, used, seeds, noResults, expanded);
            && (r.Some? ==> Key(casing, r.value) !in used)
            && (r.None? ==> forall q :: q in seeds ==> Key(casing, q) in used)
            && (FirstUnused(casing, seeds, used).Some? ==>
                  r.Some? && Key(casing, r.value) == Key(casing, FirstUnused(casing, seeds, used).value))
  {
    hide Candidates, Mapped;
  }
}
