/** What the agents conclude, said of the evidence: which causes are proposed and on what, when a claim is supported,
    and which cause and confidence the report shows. */
module AgentFacts {
  import opened Wrappers
  import opened Dicts
  import opened Schemas
  import opened SufficiencyAgent
  import opened IncidentRiskAgent
  import opened VerifierAgent
  import opened WriterAgent

  // ----- hypotheses

  ghost predicate Proposes(hypotheses: seq<Hypothesis>, cause: string) {
    exists h :: h in hypotheses && h.cause == cause
  }

  ghost predicate MentionsTimeouts(lex: Lexicon, evidence: seq<EvidenceItem>, metrics: seq<MetricResult>) {
    || lex.upperHas(Joined(evidence), "GATEWAY_TIMEOUT")
    || exists m :: m in metrics && m.metric == "error_code_breakdown" && m.value.Breakdown?
                   && "GATEWAY_TIMEOUT" in m.value.codes
  }

  ghost predicate CausesAre(lex: Lexicon, evidence: seq<EvidenceItem>, metrics: seq<MetricResult>,
                            found: seq<Hypothesis>)
  {
    && (Proposes(found, PROCESSOR_CAUSE) <==> MentionsTimeouts(lex, evidence, metrics))
    && (Proposes(found, MODEL_CAUSE) <==>
          exists item :: item in evidence && item.source == Ml && item.riskClass == "HIGH")
    && (Proposes(found, INTEGRITY_PASSED) <==>
          && (exists item :: item in evidence && item.source == Integrity)
          && (forall item :: item in evidence && item.source == Integrity ==> item.passed))
    && (Proposes(found, INTEGRITY_FAILED) <==>
          exists item :: item in evidence && item.source == Integrity && !item.passed)
    && (Proposes(found, WEBHOOK_CAUSE) <==>
          exists item :: item in evidence && item.source == Webhook && item.kind == "delayed")
    && (Proposes(found, FALLBACK_CAUSE) <==>
          forall cause :: Proposes(found, cause) ==> cause == FALLBACK_CAUSE)
  }

  lemma {:induction false} CausesDiffer()
    ensures PROCESSOR_CAUSE != MODEL_CAUSE && PROCESSOR_CAUSE != INTEGRITY_PASSED
    ensures PROCESSOR_CAUSE != INTEGRITY_FAILED && PROCESSOR_CAUSE != WEBHOOK_CAUSE && PROCESSOR_CAUSE != FALLBACK_CAUSE
    ensures MODEL_CAUSE != INTEGRITY_PASSED && MODEL_CAUSE != INTEGRITY_FAILED && MODEL_CAUSE != WEBHOOK_CAUSE
    ensures MODEL_CAUSE != FALLBACK_CAUSE && INTEGRITY_PASSED != INTEGRITY_FAILED && INTEGRITY_PASSED != WEBHOOK_CAUSE
    ensures INTEGRITY_PASSED != FALLBACK_CAUSE && INTEGRITY_FAILED != WEBHOOK_CAUSE
    ensures INTEGRITY_FAILED != FALLBACK_CAUSE && WEBHOOK_CAUSE != FALLBACK_CAUSE
  {
    assert |PROCESSOR_CAUSE| == 44 && |MODEL_CAUSE| == 51 && |INTEGRITY_PASSED| == 49 && |INTEGRITY_FAILED| == 46;
    assert |WEBHOOK_CAUSE| == 48 && |FALLBACK_CAUSE| == 53;
  }

  /** The parts, one hypothesis at most each. */
  lemma {:induction false} PartsPropose(lex: Lexicon, evidence: seq<EvidenceItem>, metrics: seq<MetricResult>,
                                        cause: string)
    ensures Proposes(ProcessorHypothesis(lex, evidence, metrics), cause) <==>
              cause == PROCESSOR_CAUSE && MentionsTimeouts(lex, evidence, metrics)
    ensures Proposes(ModelHypothesis(evidence), cause) <==>
              cause == MODEL_CAUSE && exists item :: item in evidence && item.source == Ml && item.riskClass == "HIGH"
    ensures Proposes(IntegrityHypothesis(evidence), cause) <==>
              || (cause == INTEGRITY_PASSED
                  && (exists item :: item in evidence && item.source == Integrity)
                  && (forall item :: item in evidence && item.source == Integrity ==> item.passed))
              || (cause == INTEGRITY_FAILED
                  && exists item :: item in evidence && item.source == Integrity && !item.passed)
    ensures Proposes(WebhookHypothesis(evidence), cause) <==>
              cause == WEBHOOK_CAUSE
              && exists item :: item in evidence && item.source == Webhook && item.kind == "delayed"
  {
    hide Joined, IdsWhere, Take;
    var processor, model := ProcessorHypothesis(lex, evidence, metrics), ModelHypothesis(evidence);
    var integrity, webhook := IntegrityHypothesis(evidence), WebhookHypothesis(evidence);
    assert processor != [] ==> processor[0] in processor;
    assert model != [] ==> model[0] in model;
    assert integrity != [] ==> integrity[0] in integrity;
    assert webhook != [] ==> webhook[0] in webhook;
  }

  lemma {:induction false} ProposesInBoth(a: seq<Hypothesis>, b: seq<Hypothesis>, cause: string)
    ensures Proposes(a + b, cause) <==> Proposes(a, cause) || Proposes(b, cause)
  {
  }

  lemma {:induction false} FoundProposes(lex: Lexicon, evidence: seq<EvidenceItem>, metrics: seq<MetricResult>,
                                         cause: string)
    ensures var processor, model := ProcessorHypothesis(lex, evidence, metrics), ModelHypothesis(evidence);
            var integrity, webhook := IntegrityHypothesis(evidence), WebhookHypothesis(evidence);
            Proposes(processor + model + integrity + webhook, cause) <==>
              || Proposes(processor, cause) || Proposes(model, cause)
              || Proposes(integrity, cause) || Proposes(webhook, cause)
  {
    hide ProcessorHypothesis, ModelHypothesis, IntegrityHypothesis, WebhookHypothesis, Proposes;
    var processor, model := ProcessorHypothesis(lex, evidence, metrics), ModelHypothesis(evidence);
    var integrity, webhook := IntegrityHypothesis(evidence), WebhookHypothesis(evidence);
    ProposesInBoth(processor + model + integrity, webhook, cause);
    ProposesInBoth(processor + model, integrity, cause);
    ProposesInBoth(processor, model, cause);
  }

  lemma {:induction false} CandidatesPropose(lex: Lexicon, evidence: seq<EvidenceItem>, metrics: seq<MetricResult>,
                                             cause: string)
    ensures var found := ProcessorHypothesis(lex, evidence, metrics) + ModelHypothesis(evidence)
                         + IntegrityHypothesis(evidence) + WebhookHypothesis(evidence);
            Proposes(Candidates(lex, evidence, metrics), cause) <==>
              if found == [] then cause == FALLBACK_CAUSE else Proposes(found, cause)
  {
    hide ProcessorHypothesis, ModelHypothesis, IntegrityHypothesis, WebhookHypothesis;
    var candidates := Candidates(lex, evidence, metrics);
    assert candidates[0] in candidates;
  }

  lemma {:induction false} FilledProposes(lex: Lexicon, evidence: seq<EvidenceItem>, metrics: seq<MetricResult>,
                                          cause: string)
    ensures Proposes(Hypotheses(lex, evidence, metrics), cause) <==>
            Proposes(Candidates(lex, evidence, metrics), cause)
  {
    hide Candidates, Take;
    var found, filled := Candidates(lex, evidence, metrics), Hypotheses(lex, evidence, metrics);
    if h :| h in found && h.cause == cause {
      var i :| 0 <= i < |found| && found[i] == h;
      assert filled[i] in filled;
    }
    if h :| h in filled && h.cause == cause {
      var i :| 0 <= i < |filled| && filled[i] == h;
      assert found[i] in found;
    }
  }

  /** A cause is proposed exactly when the evidence gives reason to, and the fallback exactly when nothing else is. */
  lemma {:induction false} CausesAreProposedForAReason(lex: Lexicon, evidence: seq<EvidenceItem>,
                                                       metrics: seq<MetricResult>)
    ensures CausesAre(lex, evidence, metrics, Hypotheses(lex, evidence, metrics))
  {
    hide ProcessorHypothesis, ModelHypothesis, IntegrityHypothesis, WebhookHypothesis, Candidates, Hypotheses,
      MentionsTimeouts, Proposes;
    var processor, model := ProcessorHypothesis(lex, evidence, metrics), ModelHypothesis(evidence);
    var integrity, webhook := IntegrityHypothesis(evidence), WebhookHypothesis(evidence);
    var found := processor + model + integrity + webhook;
    CausesDiffer();
    forall cause
      ensures Proposes(Hypotheses(lex, evidence, metrics), cause)
         <==> if found == [] then cause == FALLBACK_CAUSE else Proposes(found, cause)
      ensures Proposes(found, cause) <==>
                || (cause == PROCESSOR_CAUSE && MentionsTimeouts(lex, evidence, metrics))
                || (cause == MODEL_CAUSE
                    && exists item :: item in evidence && item.source == Ml && item.riskClass == "HIGH")
                || (cause == INTEGRITY_PASSED
                    && (exists item :: item in evidence && item.source == Integrity)
                    && (forall item :: item in evidence && item.source == Integrity ==> item.passed))
                || (cause == INTEGRITY_FAILED
                    && exists item :: item in evidence && item.source == Integrity && !item.passed)
                || (cause == WEBHOOK_CAUSE
                    && exists item :: item in evidence && item.source == Webhook && item.kind == "delayed")
    {
      FilledProposes(lex, evidence, metrics, cause);
      CandidatesPropose(lex, evidence, metrics, cause);
      FoundProposes(lex, evidence, metrics, cause);
      PartsPropose(lex, evidence, metrics, cause);
    }
    SomethingIsProposed(found);
  }

  lemma {:induction false} SomethingIsProposed(found: seq<Hypothesis>)
    ensures found != [] <==> exists cause :: Proposes(found, cause)
  {
    if found != [] {
      assert found[0] in found;
      assert Proposes(found, found[0].cause);
    }
  }

  // ----- what a hypothesis cites

  /** The kind of evidence a cause is about. */
  predicate About(lex: Lexicon, cause: string, item: EvidenceItem) {
    if cause == PROCESSOR_CAUSE then
      lex.lowerHas(item.text, "gateway_timeout") || lex.lowerHas(item.text, "timeout")
    else if cause == MODEL_CAUSE then item.source == Ml
    else if cause == INTEGRITY_PASSED || cause == INTEGRITY_FAILED then item.source == Integrity
    else cause == WEBHOOK_CAUSE && item.source == Webhook
  }

  /** Up to five ids of items about the cause, all of them if there are no more. */
  ghost predicate AboutTheCause(lex: Lexicon, cause: string, evidence: seq<EvidenceItem>, ids: seq<string>) {
    && |ids| <= 5
    && (forall id :: id in ids ==> exists item :: item in evidence && item.id == id && About(lex, cause, item))
    && (forall item :: item in evidence && About(lex, cause, item) ==> item.id in ids || |ids| == 5)
  }

  lemma {:induction false} WhereFinds(items: seq<EvidenceItem>, test: EvidenceItem -> bool)
    ensures forall id :: id in IdsWhere(items, test) <==> exists item :: item in items && item.id == id && test(item)
  {
    if items != [] {
      var rest := items[1..];
      assert items == [items[0]] + rest;
      WhereFinds(rest, test);
    }
  }

  lemma {:induction false} TakenAreAbout(lex: Lexicon, cause: string, evidence: seq<EvidenceItem>,
                                         test: EvidenceItem -> bool)
    requires forall item :: test(item) <==> About(lex, cause, item)
    ensures AboutTheCause(lex, cause, evidence, Take(IdsWhere(evidence, test), 5))
  {
    hide About;
    WhereFinds(evidence, test);
    var ids := IdsWhere(evidence, test);
    assert forall id :: id in Take(ids, 5) ==> id in ids;
  }

  ghost predicate CitesItsSubject(lex: Lexicon, evidence: seq<EvidenceItem>, found: seq<Hypothesis>) {
    forall h :: h in found ==> AboutTheCause(lex, h.cause, evidence, h.supportingIds)
  }

  lemma {:induction false} PartsCite(lex: Lexicon, evidence: seq<EvidenceItem>, metrics: seq<MetricResult>)
    ensures CitesItsSubject(lex, evidence, ProcessorHypothesis(lex, evidence, metrics))
    ensures CitesItsSubject(lex, evidence, ModelHypothesis(evidence))
    ensures CitesItsSubject(lex, evidence, IntegrityHypothesis(evidence))
    ensures CitesItsSubject(lex, evidence, WebhookHypothesis(evidence))
  {
    CausesDiffer();
    TakenAreAbout(lex, PROCESSOR_CAUSE, evidence, MentionsTimeout(lex));
    TakenAreAbout(lex, MODEL_CAUSE, evidence, From(Ml));
    TakenAreAbout(lex, INTEGRITY_PASSED, evidence, From(Integrity));
    TakenAreAbout(lex, INTEGRITY_FAILED, evidence, From(Integrity));
    TakenAreAbout(lex, WEBHOOK_CAUSE, evidence, From(Webhook));
    hide AboutTheCause, Take, IdsWhere, Joined;
  }

  /** A hypothesis cites up to five items about its own cause. It cites others, the first three of the bundle, exactly
      when no item is about the cause: for the fallback, or a timeout only a metric mentions. */
  lemma {:induction false} HypothesesCiteTheirSubject(lex: Lexicon, evidence: seq<EvidenceItem>,
                                                      metrics: seq<MetricResult>)
    ensures forall h :: h in Hypotheses(lex, evidence, metrics) ==>
              if exists item :: item in evidence && About(lex, h.cause, item)
              then AboutTheCause(lex, h.cause, evidence, h.supportingIds)
              else h.supportingIds == if |evidence| <= 3 then Ids(evidence) else Ids(evidence)[..3]
  {
    PartsCite(lex, evidence, metrics);
    CandidatesCite(lex, evidence, metrics);
    var found, filled := Candidates(lex, evidence, metrics), Hypotheses(lex, evidence, metrics);
    hide Candidates, About;
    forall h | h in filled
      ensures if exists item :: item in evidence && About(lex, h.cause, item)
              then AboutTheCause(lex, h.cause, evidence, h.supportingIds)
              else h.supportingIds == if |evidence| <= 3 then Ids(evidence) else Ids(evidence)[..3]
    {
      var i :| 0 <= i < |filled| && filled[i] == h;
      assert found[i] in found;
      FillingCites(lex, found[i], evidence);
    }
  }

  ghost predicate CitesOrFallsBack(lex: Lexicon, evidence: seq<EvidenceItem>, h: Hypothesis) {
    || AboutTheCause(lex, h.cause, evidence, h.supportingIds)
    || (h.cause == FALLBACK_CAUSE && h.supportingIds == Take(Ids(evidence), 3))
  }

  lemma {:induction false} CandidatesCite(lex: Lexicon, evidence: seq<EvidenceItem>, metrics: seq<MetricResult>)
    ensures forall h :: h in Candidates(lex, evidence, metrics) ==> CitesOrFallsBack(lex, evidence, h)
  {
    PartsCite(lex, evidence, metrics);
    hide ProcessorHypothesis, ModelHypothesis, IntegrityHypothesis, WebhookHypothesis, AboutTheCause, Take;
  }

  lemma {:induction false} FillingCites(lex: Lexicon, h: Hypothesis, evidence: seq<EvidenceItem>)
    requires CitesOrFallsBack(lex, evidence, h)
    ensures var ids := Filled(h, Ids(evidence)).supportingIds;
            if exists item :: item in evidence && About(lex, h.cause, item)
            then AboutTheCause(lex, h.cause, evidence, ids)
            else ids == if |evidence| <= 3 then Ids(evidence) else Ids(evidence)[..3]
  {
    CausesDiffer();
    if h.supportingIds != [] {
      assert h.supportingIds[0] in h.supportingIds;
    }
  }

  // ----- what a claim needs

  /** A code written in the evidence speaks against a code that is claimed. */
  predicate Against(found: Code, claimed: Code) {
    || (claimed == GatewayTimeout && found in {InsufficientFunds, DoNotHonor, AuthenticationFailed})
    || (claimed != GatewayTimeout && found == GatewayTimeout)
  }

  /** The texts joined by single spaces. */
  function Spaced(texts: seq<string>): string {
    if texts == [] then "" else
    if |texts| == 1 then texts[0] else texts[0] + " " + Spaced(texts[1..])
  }

  /** What a claim is compared with: the cited items that were collected, or everything if none was. */
  ghost predicate Compared(h: Hypothesis, evidence: seq<EvidenceItem>, items: seq<EvidenceItem>) {
    if exists id :: id in h.supportingIds && id in Ids(evidence) then
      && (forall item :: item in items ==> item in evidence && item.id in h.supportingIds)
      && (forall id :: id in h.supportingIds && id in Ids(evidence) ==> id in Ids(items))
    else items == evidence
  }

  /** A word of the cause, not too common, that is also in the text. */
  predicate Telling(lex: Lexicon, cause: string, text: string, word: string) {
    word in lex.stems(cause) && word in lex.stems(text) && word !in lex.generic
  }

  ghost predicate SameCode(lex: Lexicon, cause: string, text: string) {
    exists code :: code in lex.codes(cause) && code in lex.codes(text)
  }

  /** The text writes a code that speaks against one the cause names and the text does not. */
  ghost predicate SpeaksAgainst(lex: Lexicon, cause: string, text: string) {
    exists claimed, found :: claimed in lex.codes(cause) && claimed !in lex.codes(text)
                             && found in lex.codes(text) && Against(found, claimed)
  }

  ghost predicate NothingCited(h: Hypothesis, evidence: seq<EvidenceItem>) {
    || evidence == []
    || (h.supportingIds != [] && forall id :: id in h.supportingIds ==> id !in Ids(evidence))
  }

  ghost predicate ClaimIs(lex: Lexicon, h: Hypothesis, evidence: seq<EvidenceItem>, text: string, c: Claim) {
    && (Missing in c.issues <==> NothingCited(h, evidence))
    && (Contradictory in c.issues <==> SpeaksAgainst(lex, h.cause, text))
    && (c.supported <==>
          && !NothingCited(h, evidence)
          && !SpeaksAgainst(lex, h.cause, text)
          && (SameCode(lex, h.cause, text) || exists word :: Telling(lex, h.cause, text, word)))
    && (Weak in c.issues <==>
          && c.supported
          && (h.confidence < 0.4 || (!SameCode(lex, h.cause, text) && AtMostOneWord(lex, h.cause, text))))
  }

  ghost predicate AtMostOneWord(lex: Lexicon, cause: string, text: string) {
    forall v, w :: Telling(lex, cause, text, v) && Telling(lex, cause, text, w) ==> v == w
  }

  lemma {:induction false} JoinedIsSpaced(items: seq<EvidenceItem>)
    ensures Joined(items) == Spaced(Texts(items))
  {
    if |items| > 1 {
      assert Texts(items)[1..] == Texts(items[1..]);
      JoinedIsSpaced(items[1..]);
    }
  }

  function Texts(items: seq<EvidenceItem>): (texts: seq<string>)
    ensures |texts| == |items|
    ensures forall i :: 0 <= i < |texts| ==> texts[i] == items[i].text
  {
    seq(|items|, i requires 0 <= i < |items| => items[i].text)
  }

  lemma {:induction false} JoinedTextsIsSpaced(ids: seq<string>, evidence: seq<EvidenceItem>)
    returns (items: seq<EvidenceItem>)
    requires forall id :: id in ids ==> id in Ids(evidence)
    ensures JoinedTexts(ids, evidence) == Spaced(Texts(items))
    ensures Ids(items) == ids
    ensures forall item :: item in items ==> item in evidence
  {
    if ids == [] {
      items := [];
    } else {
      assert ids[0] in ids && forall id :: id in ids[1..] ==> id in ids;
      var rest := JoinedTextsIsSpaced(ids[1..], evidence);
      var first := evidence[LastIndex(Ids(evidence), ids[0])];
      items := [first] + rest;
      assert Texts(items)[1..] == Texts(rest);
      assert |rest| == |Ids(rest)| == |ids| - 1;
    }
  }

  lemma {:induction false} ContradictedIs(claimed: set<Code>, found: set<Code>)
    ensures Contradicted(claimed, found) <==>
              exists code, other :: code in claimed && code !in found && other in found && Against(other, code)
  {
    forall code ensures found * Opposites(code) != {} <==> exists other :: other in found && Against(other, code) {
      if found * Opposites(code) != {} {
        var other :| other in found * Opposites(code);
        assert Against(other, code);
      }
      if other :| other in found && Against(other, code) {
        assert other in found * Opposites(code);
      }
    }
  }

  lemma {:induction false} AtMostOne<T(!new)>(s: set<T>)
    ensures |s| < 2 <==> forall v, w :: v in s && w in s ==> v == w
  {
    if v, w :| v in s && w in s && v != w {
      assert {v, w} <= s;
      Subset({v, w}, s);
    } else if s != {} {
      var v :| v in s;
      assert s == {v};
    }
  }

  lemma {:induction false} Subset<T>(a: set<T>, b: set<T>)
    requires a <= b
    ensures |a| <= |b|
  {
    assert b == a + (b - a);
  }

  /** A claim is compared with the texts of the collected items it cites, or with all of them if it cites none. It is
      supported exactly when what it cites was collected, no code speaks against it, and it shares a code or a telling
      word with those texts; it is weak when all it has is one such word, or a low confidence. */
  lemma {:induction false} ClaimsFollowTheEvidence(lex: Lexicon, h: Hypothesis, evidence: seq<EvidenceItem>,
                                                   leading: bool)
    returns (items: seq<EvidenceItem>)
    ensures Compared(h, evidence, items)
    ensures ClaimIs(lex, h, evidence, Spaced(Texts(items)), Check(lex, h, evidence, leading))
  {
    var cited := Known(h.supportingIds, Ids(evidence));
    if cited == [] {
      items := evidence;
      JoinedIsSpaced(evidence);
    } else {
      assert cited[0] in cited;
      items := JoinedTextsIsSpaced(cited, evidence);
      ItsIdsAre(items);
    }
    ClaimOf(lex, h, evidence, leading, Spaced(Texts(items)));
  }

  lemma {:induction false} ItsIdsAre(items: seq<EvidenceItem>)
    ensures forall item :: item in items ==> item.id in Ids(items)
  {
    forall item | item in items ensures item.id in Ids(items) {
      var i :| 0 <= i < |items| && items[i] == item;
      assert Ids(items)[i] == item.id;
    }
  }

  lemma {:induction false} ClaimOf(lex: Lexicon, h: Hypothesis, evidence: seq<EvidenceItem>, leading: bool,
                                   text: string)
    requires var cited := Known(h.supportingIds, Ids(evidence));
             text == if cited != [] then JoinedTexts(cited, evidence) else Joined(evidence)
    ensures ClaimIs(lex, h, evidence, text, Check(lex, h, evidence, leading))
  {
    hide JoinedTexts, Joined, Contradicted, Telling, SameCode, SpeaksAgainst, NothingCited, AtMostOneWord;
    WordsAndCodes(lex, h.cause, text);
    NothingCitedIs(h, evidence);
    CheckIs(lex, h, evidence, leading, text);
    hide Check;
  }

  lemma {:induction false} CheckIs(lex: Lexicon, h: Hypothesis, evidence: seq<EvidenceItem>, leading: bool,
                                   text: string)
    requires var cited := Known(h.supportingIds, Ids(evidence));
             text == if cited != [] then JoinedTexts(cited, evidence) else Joined(evidence)
    ensures var c := Check(lex, h, evidence, leading);
            var words := lex.stems(h.cause) * lex.stems(text) - lex.generic;
            var codes := lex.codes(h.cause) * lex.codes(text);
            var missing := evidence == [] || (h.supportingIds != [] && Known(h.supportingIds, Ids(evidence)) == []);
            var against := Contradicted(lex.codes(h.cause), lex.codes(text));
            && (Missing in c.issues <==> missing)
            && (Contradictory in c.issues <==> against)
            && (c.supported <==> !missing && !against && (words != {} || codes != {}))
            && (Weak in c.issues <==> c.supported && (h.confidence < 0.4 || (codes == {} && |words| < 2)))
  {
    hide JoinedTexts, Joined, Contradicted, Known;
    var c := Check(lex, h, evidence, leading);
    var missing := evidence == [] || (h.supportingIds != [] && Known(h.supportingIds, Ids(evidence)) == []);
    var against := Contradicted(lex.codes(h.cause), lex.codes(text));
    var weak := c.supported && (h.confidence < 0.4 || (|lex.stems(h.cause) * lex.stems(text) - lex.generic| < 2
                                                       && lex.codes(h.cause) * lex.codes(text) == {}));
    assert c.issues == IssuesOf(missing, against, c.supported, weak);
    IssuesAre(missing, against, c.supported, weak);
    hide Check, IssuesOf;
  }

  function IssuesOf(missing: bool, against: bool, supported: bool, weak: bool): seq<ClaimIssue> {
    (if missing then [Missing] else [])
    + (if against then [Contradictory] else [])
    + (if supported then [] else [Unsupported])
    + (if weak then [Weak] else [])
  }

  lemma {:induction false} IssuesAre(missing: bool, against: bool, supported: bool, weak: bool)
    ensures var issues := IssuesOf(missing, against, supported, weak);
            && (Missing in issues <==> missing)
            && (Contradictory in issues <==> against)
            && (Weak in issues <==> weak)
  {
  }

  lemma {:induction false} NothingCitedIs(h: Hypothesis, evidence: seq<EvidenceItem>)
    ensures NothingCited(h, evidence) <==>
              evidence == [] || (h.supportingIds != [] && Known(h.supportingIds, Ids(evidence)) == [])
  {
    var cited := Known(h.supportingIds, Ids(evidence));
    assert cited != [] ==> cited[0] in cited;
  }

  lemma {:induction false} WordsAndCodes(lex: Lexicon, cause: string, text: string)
    ensures Contradicted(lex.codes(cause), lex.codes(text)) <==> SpeaksAgainst(lex, cause, text)
    ensures lex.codes(cause) * lex.codes(text) != {} <==> SameCode(lex, cause, text)
    ensures var distinctive := lex.stems(cause) * lex.stems(text) - lex.generic;
            && (distinctive != {} <==> exists word :: Telling(lex, cause, text, word))
            && (|distinctive| < 2 <==> AtMostOneWord(lex, cause, text))
  {
    var claimed, found := lex.codes(cause), lex.codes(text);
    var distinctive := lex.stems(cause) * lex.stems(text) - lex.generic;
    ContradictedIs(claimed, found);
    AtMostOne(distinctive);
    hide Contradicted;
    assert forall word :: word in distinctive <==> Telling(lex, cause, text, word);
    if claimed * found != {} {
      var code :| code in claimed * found;
    }
    if code :| code in claimed && code in found {
      assert code in claimed * found;
    }
  }

  // ----- which claims are critical, and what is asked for them

  predicate CanBeCritical(cause: string) {
    cause in {PROCESSOR_CAUSE, INTEGRITY_PASSED, INTEGRITY_FAILED, WEBHOOK_CAUSE}
  }

  ghost predicate CriticalIfLeading(found: seq<Hypothesis>) {
    forall h :: h in found ==> (h.confidence >= 0.6 && h.category != "unknown" <==> CanBeCritical(h.cause))
  }

  lemma {:induction false} PartsCanBeCritical(lex: Lexicon, evidence: seq<EvidenceItem>, metrics: seq<MetricResult>)
    ensures CriticalIfLeading(Candidates(lex, evidence, metrics))
  {
    EachCanBeCritical(lex, evidence, metrics);
    hide ProcessorHypothesis, ModelHypothesis, IntegrityHypothesis, WebhookHypothesis;
    CausesDiffer();
  }

  lemma {:induction false} EachCanBeCritical(lex: Lexicon, evidence: seq<EvidenceItem>, metrics: seq<MetricResult>)
    ensures CriticalIfLeading(ProcessorHypothesis(lex, evidence, metrics))
    ensures CriticalIfLeading(ModelHypothesis(evidence))
    ensures CriticalIfLeading(IntegrityHypothesis(evidence))
    ensures CriticalIfLeading(WebhookHypothesis(evidence))
  {
    hide Take, IdsWhere, Joined, BreakdownHas;
    CausesDiffer();
  }

  /** The verifier's claim is critical exactly when it leads and is not a model score or the fallback: a run asks for
      more evidence of a timeout, an integrity result or a webhook delay, and of nothing else. */
  lemma {:induction false} OnlyObservedCausesAreCritical(lex: Lexicon, evidence: seq<EvidenceItem>,
                                                         metrics: seq<MetricResult>, i: nat)
    requires i < |Hypotheses(lex, evidence, metrics)|
    ensures var hypotheses := Hypotheses(lex, evidence, metrics);
            ClaimsFor(lex, hypotheses, evidence)[i].critical <==> i == 0 && CanBeCritical(hypotheses[i].cause)
  {
    hide Candidates, Known, JoinedTexts, Joined, Contradicted, CanBeCritical, Take;
    PartsCanBeCritical(lex, evidence, metrics);
    var found := Candidates(lex, evidence, metrics);
    assert found[i] in found;
    assert Hypotheses(lex, evidence, metrics)[i] == Filled(found[i], Ids(evidence));
  }

  /** What is asked for is the cause itself, from the tool its wording points to. */
  lemma {:induction false} GapsAskForTheCause(lex: Lexicon, claims: seq<Claim>)
    ensures forall g :: g in GapsFor(lex, claims) <==>
              exists c :: c in claims && c.critical && !c.supported && AsksFor(lex, g, c.claim)
  {
    if claims != [] {
      var rest := claims[1..];
      assert claims == [claims[0]] + rest;
      GapsAskForTheCause(lex, rest);
    }
  }

  predicate AsksFor(lex: Lexicon, g: EvidenceGap, cause: string) {
    && g.query == Some(cause)
    && (g.nextTask == InspectWebhooks <==> lex.lowerHas(cause, "webhook") || lex.lowerHas(cause, "ack"))
    && g.nextTask in {InspectWebhooks, QueryMetrics, RetrieveDocs}
    && (g.nextTask == RetrieveDocs ==>
          !lex.lowerHas(cause, "rate") && !lex.lowerHas(cause, "success") && !lex.lowerHas(cause, "failure"))
    && (g.nextTask == QueryMetrics ==>
          lex.lowerHas(cause, "rate") || lex.lowerHas(cause, "success") || lex.lowerHas(cause, "failure"))
  }

  // ----- the status of a verification

  /** A verification reads supported only if every claim is, and none weakly; one contradicted claim decides it. */
  lemma {:induction false} StatusIs(claims: seq<Claim>)
    requires forall c :: c in claims ==> (Missing in c.issues || Contradictory in c.issues ==> !c.supported)
    ensures var status := OverallStatus(claims);
            && (status == StatusContradictory <==> exists c :: c in claims && Contradictory in c.issues)
            && (status == StatusSupported <==>
                  claims != [] && forall c :: c in claims ==> c.supported && Weak !in c.issues)
            && (status == StatusWeak ==>
                  && (exists c :: c in claims && Weak in c.issues)
                  && (forall c :: c in claims && c.critical ==> c.supported))
            && (status == StatusMissing ==> exists c :: c in claims && c.critical && Missing in c.issues)
  {
  }

  // ----- the report

  /** With claims, the cause is that of the first supported one, citing what that claim cites. */
  ghost predicate CauseIs(hypotheses: seq<Hypothesis>, claims: seq<Claim>, cause: Hypothesis) {
    && (forall i :: 0 <= i < |claims| && claims[i].supported && (forall j :: 0 <= j < i ==> !claims[j].supported) ==>
          i < |hypotheses| && cause == hypotheses[i].(supportingIds := claims[i].evidenceIds))
    && (claims != [] && (forall c :: c in claims ==> !c.supported) ==>
          cause.cause == FALLBACK_CAUSE && cause.supportingIds == [] && cause.confidence == 0.2)
    && (claims == [] && hypotheses != [] ==>
          cause.cause == hypotheses[0].cause && cause.category == hypotheses[0].category)
  }

  lemma {:induction false} FirstIsFirst(claims: seq<Claim>, i: nat)
    requires i < |claims| && claims[i].supported && forall j :: 0 <= j < i ==> !claims[j].supported
    ensures FirstSupported(claims) == Some(claims[i])
  {
    if i > 0 {
      assert claims[1..][i - 1] == claims[i];
      FirstIsFirst(claims[1..], i - 1);
    }
  }

  lemma {:induction false} KnownIsAll(ids: seq<string>, known: seq<string>)
    requires forall id :: id in ids ==> id in known
    ensures Known(ids, known) == ids
  {
    if ids != [] {
      assert ids == [ids[0]] + ids[1..];
      KnownIsAll(ids[1..], known);
    }
  }

  lemma {:induction false} CauseIsTheFirstSupported(hypotheses: seq<Hypothesis>, claims: seq<Claim>,
                                                    known: seq<string>, sufficient: bool)
    requires Mirrors(claims, hypotheses, known) && DistinctCauses(hypotheses)
    ensures CauseIs(hypotheses, claims, LikelyCause(hypotheses, claims, known, sufficient))
  {
    forall i | 0 <= i < |claims| && claims[i].supported && forall j :: 0 <= j < i ==> !claims[j].supported
      ensures LikelyCause(hypotheses, claims, known, sufficient)
           == hypotheses[i].(supportingIds := claims[i].evidenceIds)
    {
      FirstIsFirst(claims, i);
      assert claims[i] in claims;
      assert hypotheses[i] in hypotheses;
      KnownIsAll(claims[i].evidenceIds, known);
    }
  }

  /** The report shows the next two hypotheses, and no more confidence than its cause, its evidence and its weakest
      claim allow, but no less either. */
  ghost predicate ShowsFairly(evidence: seq<EvidenceItem>, metrics: seq<MetricResult>, hypotheses: seq<Hypothesis>,
                              claims: seq<Claim>, report: Report)
  {
    var weak := exists c :: c in claims && Weak in c.issues;
    var cause := report.likelyCause.confidence;
    && (forall k :: 0 <= k < |report.alternatives| ==>
          k + 1 < |hypotheses| && report.alternatives[k] == hypotheses[k + 1])
    && (|report.alternatives| == 2 || |report.alternatives| + 1 == |hypotheses|
        || (hypotheses == [] && report.alternatives == []))
    && report.confidence <= cause
    && (report.confidence == cause
        || (report.confidence == 0.3 && !report.evidenceSufficient)
        || (report.confidence == 0.4 && weak))
    && (weak ==> report.confidence <= 0.4)
    && (!report.evidenceSufficient ==> report.confidence <= 0.3)
    && (report.severity != Low ==> report.evidenceSufficient)
    && (report.evidenceSufficient ==>
          && (report.severity == High <==>
                exists m :: m in metrics && m.metric == "failure_rate" && m.value.Ratio? && m.value.ratio >= 0.5)
          && (report.severity == Low ==> forall item :: item in evidence ==> item.kind != "delayed")
          && (report.severity == Medium ==> exists item :: item in evidence && item.kind == "delayed"))
  }

  lemma {:induction false} ReportShowsFairly(question: string, evidence: seq<EvidenceItem>, metrics: seq<MetricResult>,
                                             hypotheses: seq<Hypothesis>, verdict: Option<Verdict>, claims: seq<Claim>,
                                             error: Option<string>, timedOut: bool, language: Language)
    ensures ShowsFairly(evidence, metrics, hypotheses, claims,
                        WriteReport(question, evidence, metrics, hypotheses, verdict, claims, error, timedOut,
                                    language))
  {
    hide LikelyCause, Summary, Sufficient;
  }
}
