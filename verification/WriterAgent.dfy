/** The report is written from closed evidence; the writer cannot override the verifier. */
module WriterAgent {
  import opened Wrappers
  import opened Schemas
  import opened IncidentRiskAgent
  import opened VerifierAgent

  predicate AnyCriticalUnsupported(claims: seq<Claim>) {
    exists c :: c in claims && c.critical && !c.supported
  }

  predicate AnyCriticalContradictory(claims: seq<Claim>) {
    exists c :: c in claims && c.critical && Contradictory in c.issues
  }

  function FirstSupported(claims: seq<Claim>): (r: Option<Claim>)
    ensures r.Some? ==> r.value in claims && r.value.supported
    ensures r.None? ==> forall c :: c in claims ==> !c.supported
  {
    if claims == [] then None else
    if claims[0].supported then Some(claims[0]) else
    assert claims == [claims[0]] + claims[1..];
    FirstSupported(claims[1..])
  }

  function WithCause(hypotheses: seq<Hypothesis>, cause: string): (r: Option<Hypothesis>)
    ensures r.Some? ==> r.value in hypotheses && r.value.cause == cause
    ensures r.None? ==> forall h :: h in hypotheses ==> h.cause != cause
  {
    if hypotheses == [] then None else
    if hypotheses[0].cause == cause then Some(hypotheses[0]) else
    assert hypotheses == [hypotheses[0]] + hypotheses[1..];
    WithCause(hypotheses[1..], cause)
  }

  function LikelyCause(hypotheses: seq<Hypothesis>, claims: seq<Claim>, known: seq<string>, sufficient: bool)
    : Hypothesis
  {
    if claims == [] && hypotheses != [] then
      var h := hypotheses[0];
      h.(supportingIds := Known(h.supportingIds, known),
         confidence := if sufficient then h.confidence else Min(h.confidence, 0.3))
    else
      match FirstSupported(claims)
      case None => Hypothesis(FALLBACK_CAUSE, [], 0.2, "unknown")
      case Some(chosen) =>
        match WithCause(hypotheses, chosen.claim)
        case None => Hypothesis(chosen.claim, chosen.evidenceIds, if sufficient then 0.5 else 0.3, "verified")
        case Some(h) => h.(supportingIds := Known(chosen.evidenceIds, known))
  }

  function Summary(question: string, sufficient: bool, cause: Hypothesis, timedOut: bool, error: Option<string>,
                   language: Language): (text: string)
    ensures text != ""
  {
    match language
    case Hindi =>
      if timedOut then "समय समाप्त: " + question
      else if Truthy(error) then "जाँच असफल: " + question
      else if !sufficient then "अधूरी जाँच: " + question
      else "'" + question + "' की जाँच से संकेत: " + cause.cause + "."
    case Hinglish =>
      if timedOut then "Timeout ho gaya: " + question
      else if Truthy(error) then "Investigation fail ho gayi: " + question
      else if !sufficient then "Incomplete investigation: " + question
      else "'" + question + "' ki investigation " + cause.cause + " ki taraf point karti hai."
    case English =>
      if timedOut then "Timed out while investigating: " + question
      else if Truthy(error) then "Failed while investigating: " + question
      else if !sufficient then "Incomplete investigation for: " + question
      else "Investigation of '" + question + "' points to " + cause.cause + "."
  }

  function SeverityOf(metrics: seq<MetricResult>, evidence: seq<EvidenceItem>, sufficient: bool): Severity {
    if !sufficient then Low
    else if exists m :: m in metrics && m.metric == "failure_rate" && m.value.Ratio? && m.value.ratio >= 0.5 then High
    else if exists item :: item in evidence && item.kind == "delayed" then Medium
    else Low
  }

  function Refs(evidence: seq<EvidenceItem>): (refs: seq<EvidenceRef>)
    ensures |refs| == |evidence|
    ensures forall i :: 0 <= i < |refs| ==> refs[i] == EvidenceRef(evidence[i].id, evidence[i].source)
  {
    seq(|evidence|, i requires 0 <= i < |evidence| => EvidenceRef(evidence[i].id, evidence[i].source))
  }

  predicate Sufficient(verdict: Option<Verdict>, claims: seq<Claim>, timedOut: bool, error: Option<string>) {
    && verdict.Some? && verdict.value.sufficient && !timedOut && !Truthy(error)
    && !AnyCriticalUnsupported(claims)
    && !AnyCriticalContradictory(claims)
  }

  function WriteReport(question: string, evidence: seq<EvidenceItem>, metrics: seq<MetricResult>,
                       hypotheses: seq<Hypothesis>, verdict: Option<Verdict>, claims: seq<Claim>,
                       error: Option<string>, timedOut: bool, language: Language): Report
  {
    var sufficient := Sufficient(verdict, claims, timedOut, error);
    var cause := LikelyCause(hypotheses, claims, Ids(evidence), sufficient);
    var confidence := if sufficient then cause.confidence else Min(cause.confidence, 0.3);
    Report(
      Summary(question, sufficient, cause, timedOut, error, language),
      Refs(evidence),
      cause,
      if |hypotheses| <= 1 then [] else Take(hypotheses[1..], 2),
      if exists c :: c in claims && Weak in c.issues then Min(confidence, 0.4) else confidence,
      SeverityOf(metrics, evidence, sufficient),
      sufficient)
  }

  /** The writer, step by step: the verdict and the confidence are lowered as reasons to do so come up. */
  method Write(question: string, evidence: seq<EvidenceItem>, metrics: seq<MetricResult>,
               hypotheses: seq<Hypothesis>, verdict: Option<Verdict>, claims: seq<Claim>, error: Option<string>,
               timedOut: bool, language: Language)
    returns (report: Report)
    ensures report == WriteReport(question, evidence, metrics, hypotheses, verdict, claims, error, timedOut, language)
  {
    hide LikelyCause, Summary, SeverityOf;
    var sufficient := verdict.Some? && verdict.value.sufficient && !timedOut && !Truthy(error);
    if AnyCriticalUnsupported(claims) {
      sufficient := false;
    }
    if AnyCriticalContradictory(claims) {
      sufficient := false;
    }
    var cause := LikelyCause(hypotheses, claims, Ids(evidence), sufficient);
    var confidence := if sufficient then cause.confidence else Min(cause.confidence, 0.3);
    if exists c :: c in claims && Weak in c.issues {
      confidence := Min(confidence, 0.4);
    }
    report := Report(
      Summary(question, sufficient, cause, timedOut, error, language),
      Refs(evidence),
      cause,
      if |hypotheses| <= 1 then [] else Take(hypotheses[1..], 2),
      confidence,
      SeverityOf(metrics, evidence, sufficient),
      sufficient);
  }
}
