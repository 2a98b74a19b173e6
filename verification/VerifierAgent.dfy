/** Claims are checked against the collected evidence only. */
module VerifierAgent {
  import opened Dicts
  import opened Schemas
  import opened IncidentRiskAgent

  function Opposites(code: Code): set<Code> {
    match code
    case GatewayTimeout => {InsufficientFunds, DoNotHonor, AuthenticationFailed}
    case InsufficientFunds => {GatewayTimeout}
    case DoNotHonor => {GatewayTimeout}
    case AuthenticationFailed => {GatewayTimeout}
    case WebhookTimeout => {GatewayTimeout}
  }

  /** A claimed code is absent from the evidence, and an opposite of it is there. */
  predicate Contradicted(claimed: set<Code>, found: set<Code>) {
    && claimed != {}
    && found != {}
    && exists code :: code in claimed && found * Opposites(code) != {} && code !in found
  }

  function Known(ids: seq<string>, known: seq<string>): (r: seq<string>)
    ensures forall id :: id in r <==> id in ids && id in known
  {
    if ids == [] then [] else
    assert ids == [ids[0]] + ids[1..];
    (if ids[0] in known then [ids[0]] else []) + Known(ids[1..], known)
  }

  function JoinedTexts(ids: seq<string>, evidence: seq<EvidenceItem>): string
    requires forall id :: id in ids ==> id in Ids(evidence)
  {
    if ids == [] then "" else
    assert ids[0] in ids;
    assert forall id :: id in ids[1..] ==> id in ids;
    var text := evidence[LastIndex(Ids(evidence), ids[0])].text;
    if |ids| == 1 then text else text + " " + JoinedTexts(ids[1..], evidence)
  }

  function Check(lex: Lexicon, h: Hypothesis, evidence: seq<EvidenceItem>, leading: bool): Claim {
    var cited := Known(h.supportingIds, Ids(evidence));
    var blob := if cited != [] then JoinedTexts(cited, evidence) else Joined(evidence);
    var overlap := lex.stems(h.cause) * lex.stems(blob);
    var distinctive := overlap - lex.generic;
    var claimed, found := lex.codes(h.cause), lex.codes(blob);
    var shared := claimed * found;
    var missing := evidence == [] || (h.supportingIds != [] && cited == []);
    var contradictory := Contradicted(claimed, found);
    var supported := (distinctive != {} || shared != {}) && !contradictory && !missing;
    var weak := supported && (h.confidence < 0.4 || (|distinctive| < 2 && shared == {}));
    var issues :=
      (if missing then [Missing] else [])
      + (if contradictory then [Contradictory] else [])
      + (if supported then [] else [Unsupported])
      + (if weak then [Weak] else []);
    Claim(h.cause, cited, supported, leading && h.confidence >= 0.6 && h.category != "unknown", issues)
  }

  /** The check of one hypothesis, collecting its issues one by one. */
  method CheckHypothesis(lex: Lexicon, h: Hypothesis, evidence: seq<EvidenceItem>, leading: bool) returns (claim: Claim)
    ensures claim == Check(lex, h, evidence, leading)
  {
    hide Contradicted, JoinedTexts, Joined;
    var cited := Known(h.supportingIds, Ids(evidence));
    var blob := if cited != [] then JoinedTexts(cited, evidence) else Joined(evidence);
    var distinctive := lex.stems(h.cause) * lex.stems(blob) - lex.generic;
    var shared := lex.codes(h.cause) * lex.codes(blob);
    var issues: seq<ClaimIssue> := [];
    var missing := evidence == [] || (h.supportingIds != [] && cited == []);
    var contradictory := Contradicted(lex.codes(h.cause), lex.codes(blob));
    if missing {
      issues := issues + [Missing];
    }
    if contradictory {
      issues := issues + [Contradictory];
    }
    assert issues == (if missing then [Missing] else []) + (if contradictory then [Contradictory] else []);
    assert (Missing in issues <==> missing) && (Contradictory in issues <==> contradictory);
    var supported := (distinctive != {} || shared != {}) && Contradictory !in issues && Missing !in issues;
    ghost var first := issues;
    if !supported {
      issues := issues + [Unsupported];
    }
    var weak := supported && (h.confidence < 0.4 || (|distinctive| < 2 && shared == {}));
    if weak {
      issues := issues + [Weak];
    }
    assert issues == first + (if supported then [] else [Unsupported]) + (if weak then [Weak] else []);
    claim := Claim(h.cause, cited, supported, leading && h.confidence >= 0.6 && h.category != "unknown", issues);
  }

  function GapFor(lex: Lexicon, claim: Claim): EvidenceGap {
    var kind :=
      if lex.lowerHas(claim.claim, "webhook") || lex.lowerHas(claim.claim, "ack") then InspectWebhooks
      else if lex.lowerHas(claim.claim, "rate") || lex.lowerHas(claim.claim, "success")
              || lex.lowerHas(claim.claim, "failure") then QueryMetrics
      else RetrieveDocs;
    EvidenceGap(kind, Wrappers.Some(claim.claim))
  }

  function GapsFor(lex: Lexicon, claims: seq<Claim>): seq<EvidenceGap> {
    if claims == [] then [] else
    (if claims[0].critical && !claims[0].supported then [GapFor(lex, claims[0])] else [])
    + GapsFor(lex, claims[1..])
  }

  function OverallStatus(claims: seq<Claim>): ClaimStatus {
    if exists c :: c in claims && Contradictory in c.issues then StatusContradictory
    else if exists c :: c in claims && c.critical && Missing in c.issues then StatusMissing
    else if exists c :: c in claims && c.critical && !c.supported then StatusUnsupported
    else if exists c :: c in claims && Weak in c.issues then StatusWeak
    else if claims != [] && forall c :: c in claims ==> c.supported then StatusSupported
    else StatusUnsupported
  }

  function ClaimsFor(lex: Lexicon, hypotheses: seq<Hypothesis>, evidence: seq<EvidenceItem>): (claims: seq<Claim>)
    ensures |claims| == |hypotheses|
    ensures forall i :: 0 <= i < |claims| ==> claims[i] == Check(lex, hypotheses[i], evidence, i == 0)
  {
    seq(|hypotheses|, i requires 0 <= i < |hypotheses| => Check(lex, hypotheses[i], evidence, i == 0))
  }

  function VerifyAll(lex: Lexicon, hypotheses: seq<Hypothesis>, evidence: seq<EvidenceItem>): Verification {
    var claims := ClaimsFor(lex, hypotheses, evidence);
    var gaps := GapsFor(lex, claims);
    Verification(claims, gaps != [], gaps, OverallStatus(claims))
  }

  /** Claims mirror hypotheses: same causes in the same order, citing only evidence that is there. */
  ghost predicate Mirrors(claims: seq<Claim>, hypotheses: seq<Hypothesis>, ids: seq<string>) {
    && |claims| == |hypotheses|
    && (forall i :: 0 <= i < |claims| ==> claims[i].claim == hypotheses[i].cause)
    && (forall c, id :: c in claims && id in c.evidenceIds ==> id in ids)
    && (forall c :: c in claims && Contradictory in c.issues ==> !c.supported)
  }

  lemma {:induction false} ClaimsMirrorHypotheses(lex: Lexicon, hypotheses: seq<Hypothesis>,
                                                  evidence: seq<EvidenceItem>)
    ensures Mirrors(ClaimsFor(lex, hypotheses, evidence), hypotheses, Ids(evidence))
  {
    var claims := ClaimsFor(lex, hypotheses, evidence);
    forall c | c in claims
      ensures Contradictory in c.issues ==> !c.supported
      ensures forall id :: id in c.evidenceIds ==> id in Ids(evidence)
    {
      var i :| 0 <= i < |claims| && claims[i] == c;
      CheckFacts(lex, hypotheses[i], evidence, i == 0);
    }
  }

  /** A supported claim cites evidence that is there, is not contradicted by it, and shares with it either a
      distinctive word or an error code; what is not supported says so. */
  lemma {:induction false} CheckFacts(lex: Lexicon, h: Hypothesis, evidence: seq<EvidenceItem>, leading: bool)
    ensures var c := Check(lex, h, evidence, leading);
            && c.claim == h.cause
            && (forall id :: id in c.evidenceIds <==> id in h.supportingIds && id in Ids(evidence))
            && (c.supported <==> Unsupported !in c.issues)
            && (Contradictory in c.issues ==> !c.supported)
            && (Missing in c.issues ==> !c.supported)
            && (Weak in c.issues ==> c.supported)
            && (c.supported ==> evidence != [] && (h.supportingIds != [] ==> c.evidenceIds != []))
  {
  }

  /** Only the leading claim can be critical, so more evidence is asked for exactly when it fails, and for one gap. */
  lemma {:induction false} GapsOnlyForTheLeadingClaim(lex: Lexicon, claims: seq<Claim>)
    requires forall i :: 0 < i < |claims| ==> !claims[i].critical
    ensures |GapsFor(lex, claims)| <= 1
    ensures GapsFor(lex, claims) != [] <==> exists c :: c in claims && c.critical && !c.supported
  {
    if claims != [] {
      var rest := claims[1..];
      assert claims == [claims[0]] + rest;
      NoGaps(lex, rest);
    }
  }

  lemma {:induction false} NoGaps(lex: Lexicon, claims: seq<Claim>)
    requires forall i :: 0 <= i < |claims| ==> !claims[i].critical
    ensures GapsFor(lex, claims) == []
  {
    if claims != [] {
      NoGaps(lex, claims[1..]);
    }
  }
}
