/** The bounded retrieval loop: search, score, keep the best, rewrite, until the evidence covers the question. */
module RagLoop {
  import opened Wrappers
  import opened Dicts
  import opened Sorting
  import opened RagQueries

  datatype Hit = Hit(
    chunkId: string, documentId: string, section: string, text: string, docType: Option<string>, score: real)

  datatype Scored = Scored(hit: Hit, score: real)

  datatype Item = Item(
    id: string, documentId: string, section: string, text: string, docType: Option<string>, score: real)

  /** What the loop asks of the outside: a search (its answers may change from round to round), the relevance of a hit
      to a query, the expansion of a question, and case mapping. Nothing is assumed of the answers. */
  datatype Outside = Outside(
    retrieve: (nat, SearchQuery) -> seq<Hit>,
    relevance: (SearchQuery, Hit) -> (real, bool),
    expand: string -> string,
    casing: Casing)

  datatype Decision = Sufficient | Rewrite | Exhausted | NoResults

  datatype Round = Round(
    query: string, retrieved: nat, kept: nat, rejected: nat, sufficient: bool, decision: Decision,
    ids: seq<string>, missing: seq<string>)

  datatype RagResult = RagResult(
    rounds: seq<Round>, queries: seq<SearchQuery>, items: seq<Item>, citations: seq<string>, rejected: nat,
    verified: bool, conflicting: bool, sufficient: bool)

  // ----- one round

  function KeptHits(o: Outside, q: SearchQuery, hits: seq<Hit>): (kept: seq<Scored>)
    ensures |kept| <= |hits|
  {
    if hits == [] then [] else
    var last := hits[|hits| - 1];
    KeptHits(o, q, hits[..|hits| - 1])
    + (if o.relevance(q, last).1 then [Scored(last, o.relevance(q, last).0)] else [])
  }

  predicate Above(a: Scored, b: Scored) {
    a.score > b.score || (a.score == b.score && a.hit.score > b.hit.score)
  }

  function ToItem(s: Scored): Item {
    Item("doc-" + s.hit.chunkId, s.hit.documentId, s.hit.section,
         if |s.hit.text| <= 500 then s.hit.text else s.hit.text[..500], s.hit.docType, s.score)
  }

  function Items(ranked: seq<Scored>): (items: seq<Item>)
    ensures |items| == |ranked|
    ensures forall i :: 0 <= i < |items| ==> items[i] == ToItem(ranked[i])
  {
    seq(|ranked|, i requires 0 <= i < |ranked| => ToItem(ranked[i]))
  }

  /** The kept hits of search k, best first. */
  function RoundItems(o: Outside, k: nat, q: SearchQuery): (items: seq<Item>) {
    Items(LargestFirst(KeptHits(o, q, o.retrieve(k, q)), Above))
  }

  function ItemIds(items: seq<Item>): (ids: seq<string>)
    ensures |ids| == |items|
    ensures forall i :: 0 <= i < |ids| ==> ids[i] == items[i].id
  {
    seq(|items|, i requires 0 <= i < |items| => items[i].id)
  }

  predicate Replaces(known: Dict<string, Item>, item: Item)
    requires known.Valid()
  {
    item.id !in known.items || item.score > known.items[item.id].score
  }

  /** Each item enters under its id unless one at least as good is there. */
  function Absorbed(known: Dict<string, Item>, items: seq<Item>): (r: Dict<string, Item>)
    requires known.Valid()
    ensures r.Valid()
  {
    if items == [] then known else
    var before := Absorbed(known, items[..|items| - 1]);
    var last := items[|items| - 1];
    if Replaces(before, last) then before.Put(last.id, last) else before
  }

  /** The evidence kept after the first k searches. */
  function KeptAfter(o: Outside, tried: seq<SearchQuery>, k: nat): (r: Dict<string, Item>)
    requires k <= |tried|
    ensures r.Valid()
  {
    if k == 0 then Dict([], map[]) else Absorbed(KeptAfter(o, tried, k - 1), RoundItems(o, k - 1, tried[k - 1]))
  }

  // ----- facets

  function JoinedTexts(items: seq<Item>): string {
    if items == [] then "" else
    if |items| == 1 then items[0].text
    else JoinedTexts(items[..|items| - 1]) + " " + items[|items| - 1].text
  }

  predicate Occurs(text: string, word: string, i: int) {
    0 <= i && i + |word| <= |text| && text[i..i + |word|] == word
  }

  predicate Contains(text: string, word: string) {
    exists i: int | 0 <= i <= |text| :: Occurs(text, word, i)
  }

  function TopicDocType(hints: seq<TopicHint>, topic: string): Option<string> {
    if hints == [] then None
    else if hints[0].topic == topic then hints[0].docType
    else TopicDocType(hints[1..], topic)
  }

  predicate HasDocType(items: seq<Item>, docType: string) {
    exists item :: item in items && item.docType == Some(docType) && docType != ""
  }

  predicate CodeCovered(o: Outside, items: seq<Item>, code: string) {
    Contains(Mapped(JoinedTexts(items), o.casing.upperChar), code)
  }

  predicate TopicCovered(o: Outside, items: seq<Item>, topic: string) {
    var expected := TopicDocType(TOPIC_HINTS, topic);
    if expected.Some? && expected.value != "" then HasDocType(items, expected.value)
    else Contains(Mapped(Mapped(JoinedTexts(items), o.casing.upperChar), o.casing.lowerChar), topic)
  }

  function Uncovered(words: seq<string>, covered: string -> bool): (r: seq<string>)
    ensures forall w :: w in r <==> w in words && !covered(w)
  {
    if words == [] then [] else
    assert words == words[..|words| - 1] + [words[|words| - 1]];
    Uncovered(words[..|words| - 1], covered) + (if covered(words[|words| - 1]) then [] else [words[|words| - 1]])
  }

  function MissingFacets(o: Outside, analysis: QueryAnalysis, items: seq<Item>): seq<string> {
    if analysis.facets == [] then []
    else Uncovered(analysis.errorCodes, code => CodeCovered(o, items, code))
         + Uncovered(analysis.topics, topic => TopicCovered(o, items, topic))
  }

  /** The arguments of one run. */
  datatype Setup = Setup(
    outside: Outside, analysis: QueryAnalysis, seeds: seq<SearchQuery>, minKept: int, maxIterations: int)

  function MissingAfter(s: Setup, tried: seq<SearchQuery>, k: nat): seq<string>
    requires k <= |tried|
  {
    MissingFacets(s.outside, s.analysis, KeptAfter(s.outside, tried, k).Values())
  }

  predicate SufficientAfter(s: Setup, tried: seq<SearchQuery>, k: nat)
    requires k <= |tried|
  {
    |KeptAfter(s.outside, tried, k).order| >= s.minKept && MissingAfter(s, tried, k) == []
  }

  // ----- the run

  function Used(casing: Casing, tried: seq<SearchQuery>): (used: set<QueryKey>)
    ensures forall key :: key in used <==> key in Keys(casing, tried)
  {
    set key | key in Keys(casing, tried)
  }

  /** The query the loop turns to after search k, if any. */
  function NextQuery(s: Setup, tried: seq<SearchQuery>, k: nat): Option<SearchQuery>
    requires k < |tried|
  {
    var o := s.outside;
    Rewritten(o.casing, s.analysis, tried[k], MissingAfter(s, tried, k + 1), Used(o.casing, tried[..k + 1]), s.seeds,
              RoundItems(o, k, tried[k]) == [], o.expand(s.analysis.question))
  }

  /** Search k was not enough, another may be made, and the one made next is the one the rewriting gives. */
  ghost predicate Continues(s: Setup, tried: seq<SearchQuery>, k: nat)
    requires k + 1 < |tried|
  {
    && !SufficientAfter(s, tried, k + 1)
    && k + 1 < s.maxIterations
    && NextQuery(s, tried, k) == Some(tried[k + 1])
  }

  /** The queries tried are those the loop tries, one after the other. */
  ghost predicate Chain(s: Setup, tried: seq<SearchQuery>) {
    && s.seeds != [] && tried != [] && tried[0] == s.seeds[0]
    && (forall k :: 0 <= k < |tried| - 1 ==> Continues(s, tried, k))
  }

  /** The last search was enough, or no more may be made, or none is left to make. */
  ghost predicate Stopped(s: Setup, tried: seq<SearchQuery>)
    requires tried != []
  {
    || SufficientAfter(s, tried, |tried|)
    || |tried| >= s.maxIterations
    || NextQuery(s, tried, |tried| - 1) == None
  }

  function DecisionOf(sufficient: bool, last: bool, outOfRounds: bool, noHits: bool): Decision {
    if sufficient then Sufficient
    else if outOfRounds then (if noHits then NoResults else Exhausted)
    else if last then Exhausted
    else Rewrite
  }

  /** Search k, made with query q, which left `kept` behind. */
  function RoundFrom(s: Setup, k: nat, q: SearchQuery, kept: Dict<string, Item>, last: bool): Round
    requires kept.Valid()
  {
    var hits := s.outside.retrieve(k, q);
    var items := RoundItems(s.outside, k, q);
    var missing := MissingFacets(s.outside, s.analysis, kept.Values());
    var sufficient := |kept.order| >= s.minKept && missing == [];
    Round(q.query, |hits|, |items|, |hits| - |KeptHits(s.outside, q, hits)|, sufficient,
          DecisionOf(sufficient, last, k + 1 >= s.maxIterations, hits == []), ItemIds(items), missing)
  }

  function RoundOf(s: Setup, tried: seq<SearchQuery>, k: nat, last: bool): Round
    requires k < |tried|
  {
    RoundFrom(s, k, tried[k], KeptAfter(s.outside, tried, k + 1), last)
  }

  /** The rounds are those of the queries tried, the last one closing the run if `ended`. */
  ghost predicate Told(s: Setup, tried: seq<SearchQuery>, rounds: seq<Round>, ended: bool) {
    && |rounds| == |tried|
    && forall k :: 0 <= k < |rounds| ==> rounds[k] == RoundOf(s, tried, k, ended && k == |tried| - 1)
  }

  function Rejected(rounds: seq<Round>): nat {
    if rounds == [] then 0 else Rejected(rounds[..|rounds| - 1]) + rounds[|rounds| - 1].rejected
  }

  method ScoreHits(o: Outside, q: SearchQuery, hits: seq<Hit>) returns (scored: seq<Scored>, rejected: nat)
    ensures scored == KeptHits(o, q, hits)
    ensures rejected == |hits| - |scored|
  {
    scored, rejected := [], 0;
    for i := 0 to |hits|
      invariant scored == KeptHits(o, q, hits[..i]) && rejected == i - |scored|
    {
      assert hits[..i + 1][..i] == hits[..i];
      var (score, keep) := o.relevance(q, hits[i]);
      if !keep {
        rejected := rejected + 1;
      } else {
        scored := scored + [Scored(hits[i], score)];
      }
    }
    assert hits[..|hits|] == hits;
  }

  method KeepBest(known: Dict<string, Item>, items: seq<Item>) returns (kept: Dict<string, Item>, ids: seq<string>)
    requires known.Valid()
    ensures kept == Absorbed(known, items)
    ensures ids == ItemIds(items)
  {
    hide Replaces;
    kept, ids := known, [];
    for i := 0 to |items|
      invariant kept.Valid() && kept == Absorbed(known, items[..i])
      invariant |ids| == i && forall k :: 0 <= k < i ==> ids[k] == items[k].id
    {
      assert items[..i + 1][..i] == items[..i];
      if Replaces(kept, items[i]) {
        kept := kept.Put(items[i].id, items[i]);
      }
      ids := ids + [items[i].id];
    }
    assert items[..|items|] == items;
  }

  /** One search: its round, and the evidence kept after it. */
  method Search(s: Setup, k: nat, q: SearchQuery, known: Dict<string, Item>)
    returns (round: Round, kept: Dict<string, Item>)
    requires known.Valid()
    ensures kept.Valid() && kept == Absorbed(known, RoundItems(s.outside, k, q))
    ensures round == RoundFrom(s, k, q, kept, false)
  {
    hide KeptHits, LargestFirst, MissingFacets, Absorbed, ItemIds;
    var hits := s.outside.retrieve(k, q);
    var scored, rejected := ScoreHits(s.outside, q, hits);
    var items := Items(LargestFirst(scored, Above));
    var ids;
    kept, ids := KeepBest(known, items);
    var missing := MissingFacets(s.outside, s.analysis, kept.Values());
    var sufficient := |kept.order| >= s.minKept && missing == [];
    round := Round(q.query, |hits|, |items|, rejected, sufficient,
                   DecisionOf(sufficient, false, k + 1 >= s.maxIterations, hits == []), ids, missing);
  }

  /** The loop. What it tried is a chain that stopped for a reason, and its rounds and its evidence are those of that
      chain. */
  method SearchRounds(s: Setup)
    returns (rounds: seq<Round>, tried: seq<SearchQuery>, kept: Dict<string, Item>, rejected: nat)
    requires s.seeds != []
    ensures tried != [] && Chain(s, tried) && Stopped(s, tried)
    ensures Told(s, tried, rounds, true)
    ensures kept.Valid() && kept == KeptAfter(s.outside, tried, |tried|)
    ensures rejected == Rejected(rounds)
  {
    hide RoundItems, MissingFacets, Absorbed, KeptHits, Rewritten, Chain, Told, KeptAfter, SufficientAfter, Keys;
    var casing := s.outside.casing;
    var used: set<QueryKey> := {};
    var current := s.seeds[0];
    rounds, tried, kept, rejected := [], [], Dict([], map[]), 0;
    StartChain(s);
    var done := false;
    while !done
      invariant !done ==> Chain(s, tried + [current]) && Told(s, tried, rounds, false)
      invariant done ==> tried != [] && Chain(s, tried) && Stopped(s, tried) && Told(s, tried, rounds, true)
      invariant |rounds| == |tried| && used == Used(casing, tried)
      invariant kept.Valid() && kept == KeptAfter(s.outside, tried, |tried|)
      invariant rejected == Rejected(rounds)
      decreases !done, s.maxIterations - |tried|
    {
      var k := |tried|;
      var round;
      round, kept := Search(s, k, current, kept);
      NextTold(s, tried, rounds, current, round, kept);
      UsedNext(casing, tried, current);
      tried, used := tried + [current], used + {Key(casing, current)};
      rounds, rejected := rounds + [round], rejected + round.rejected;
      assert tried[k] == current && tried[..k + 1] == tried && rounds[k] == round;
      if round.sufficient || k + 1 >= s.maxIterations {
        LastTold(s, tried, rounds);
        done := true;
      } else {
        var next := RewriteQuery(casing, s.analysis, current, round.missing, used, s.seeds, round.kept == 0,
                                 s.outside.expand(s.analysis.question));
        assert next == NextQuery(s, tried, k);
        if next.None? {
          ExhaustedTold(s, tried, rounds);
          rounds := rounds[k := rounds[k].(decision := Exhausted)];
          done := true;
        } else {
          ExtendChain(s, tried, next.value);
          current := next.value;
        }
      }
    }
  }

  lemma {:induction false} StartChain(s: Setup)
    requires s.seeds != []
    ensures Chain(s, [] + [s.seeds[0]])
    ensures Used(s.outside.casing, []) == {}
    ensures Told(s, [], [], false)
    ensures KeptAfter(s.outside, [], 0) == Dict([], map[])
  {
  }

  lemma {:induction false} UsedNext(casing: Casing, tried: seq<SearchQuery>, q: SearchQuery)
    ensures Used(casing, tried + [q]) == Used(casing, tried) + {Key(casing, q)}
  {
    assert Keys(casing, tried + [q]) == Keys(casing, tried) + [Key(casing, q)];
  }

  /** One more search, told. */
  lemma {:induction false} NextTold(s: Setup, tried: seq<SearchQuery>, rounds: seq<Round>, q: SearchQuery,
                                    round: Round, kept: Dict<string, Item>)
    requires Told(s, tried, rounds, false) && kept.Valid()
    requires kept == Absorbed(KeptAfter(s.outside, tried, |tried|), RoundItems(s.outside, |tried|, q))
    requires round == RoundFrom(s, |tried|, q, kept, false)
    ensures kept == KeptAfter(s.outside, tried + [q], |tried| + 1)
    ensures Told(s, tried + [q], rounds + [round], false)
    ensures round.sufficient == SufficientAfter(s, tried + [q], |tried| + 1)
    ensures round.missing == MissingAfter(s, tried + [q], |tried| + 1)
    ensures round.kept == |RoundItems(s.outside, |tried|, q)|
    ensures Rejected(rounds + [round]) == Rejected(rounds) + round.rejected
  {
    hide RoundItems, MissingFacets, Absorbed, KeptHits;
    KeptOfPrefix(s.outside, tried, [q], |tried|);
    assert (tried + [q])[|tried|] == q;
    assert (rounds + [round])[..|rounds|] == rounds;
    forall k | 0 <= k < |tried| ensures RoundOf(s, tried + [q], k, false) == rounds[k] {
      KeptOfPrefix(s.outside, tried, [q], k + 1);
    }
  }

  lemma {:induction false} LastTold(s: Setup, tried: seq<SearchQuery>, rounds: seq<Round>)
    requires tried != [] && Told(s, tried, rounds, false)
    requires rounds[|tried| - 1].sufficient || |tried| >= s.maxIterations
    ensures Told(s, tried, rounds, true)
  {
    hide RoundItems, MissingFacets, KeptAfter, KeptHits;
    assert rounds[|tried| - 1] == RoundOf(s, tried, |tried| - 1, false);
  }

  lemma {:induction false} ExhaustedTold(s: Setup, tried: seq<SearchQuery>, rounds: seq<Round>)
    requires tried != [] && Told(s, tried, rounds, false)
    requires !rounds[|tried| - 1].sufficient && |tried| < s.maxIterations
    ensures var k := |tried| - 1;
            var closed := rounds[k := rounds[k].(decision := Exhausted)];
            Told(s, tried, closed, true) && Rejected(closed) == Rejected(rounds)
  {
    hide RoundItems, MissingFacets, KeptAfter, KeptHits;
    var k := |tried| - 1;
    var closed := rounds[k := rounds[k].(decision := Exhausted)];
    assert rounds[k] == RoundOf(s, tried, k, false);
    assert closed[..k] == rounds[..k];
  }

  lemma {:induction false} ExtendChain(s: Setup, tried: seq<SearchQuery>, q: SearchQuery)
    requires Chain(s, tried)
    requires !SufficientAfter(s, tried, |tried|) && |tried| < s.maxIterations
    requires NextQuery(s, tried, |tried| - 1) == Some(q)
    ensures Chain(s, tried + [q])
  {
    hide NextQuery, SufficientAfter, KeptAfter;
    var longer := tried + [q];
    assert longer[0] == tried[0];
    forall k | 0 <= k < |longer| - 1 ensures Continues(s, longer, k) {
      PrefixSame(s, tried, q, k);
      assert k < |tried| - 1 ==> Continues(s, tried, k);
    }
  }

  /** What the first searches found does not depend on later queries. */
  lemma {:induction false} KeptOfPrefix(o: Outside, tried: seq<SearchQuery>, more: seq<SearchQuery>, k: nat)
    requires k <= |tried|
    ensures KeptAfter(o, tried + more, k) == KeptAfter(o, tried, k)
  {
    hide Absorbed, RoundItems;
    if k > 0 {
      KeptOfPrefix(o, tried, more, k - 1);
    }
  }

  lemma {:induction false} PrefixSame(s: Setup, tried: seq<SearchQuery>, q: SearchQuery, k: nat)
    requires k < |tried|
    ensures SufficientAfter(s, tried + [q], k + 1) == SufficientAfter(s, tried, k + 1)
    ensures NextQuery(s, tried + [q], k) == NextQuery(s, tried, k)
  {
    hide MissingFacets, RoundItems, Rewritten, KeptAfter;
    KeptOfPrefix(s.outside, tried, [q], k + 1);
    assert (tried + [q])[..k + 1] == tried[..k + 1];
  }
}
