/** The answer of the retrieval loop: what is still missing only shrinks, the items are the best kept ones in order, and
    sources that contradict one another make the answer insufficient. */
module RagAnswer {
  import opened Wrappers
  import opened Dicts
  import opened Schemas
  import opened Sorting
  import opened RagQueries
  import opened RagLoop
  import opened RagRuns
  import VerifierAgent

  // ----- what is missing only shrinks

  ghost predicate SameText(h: Hit, h': Hit) {
    h.chunkId == h'.chunkId ==> h.text == h'.text && h.docType == h'.docType
  }

  /** Whatever the query, a chunk id stands for one text of one document type. */
  ghost predicate ChunksAreStable(o: Outside) {
    forall j, q, h, j', q', h' | h in o.retrieve(j, q) && h' in o.retrieve(j', q') :: SameText(h, h')
  }

  lemma {:induction false} SameIdSameText(o: Outside, tried: seq<SearchQuery>, k: nat, n: nat, item: Item, item': Item)
    requires ChunksAreStable(o) && k <= |tried| && n <= |tried|
    requires Arrived(o, tried, k, item) && Arrived(o, tried, n, item') && item.id == item'.id
    ensures item.text == item'.text && item.docType == item'.docType
  {
    var j :| 0 <= j < k && Given(o, j, tried[j], item);
    var h :| Gives(o, j, tried[j], h, item);
    var j' :| 0 <= j' < n && Given(o, j', tried[j'], item');
    var h' :| Gives(o, j', tried[j'], h', item');
    assert item.id[4..] == h.chunkId && item'.id[4..] == h'.chunkId;
    assert SameText(h, h');
  }

  /** The texts and types kept earlier are still there, at the same places. */
  ghost predicate Extends(items: seq<Item>, more: seq<Item>) {
    && |items| <= |more|
    && (forall i :: 0 <= i < |items| ==> more[i].text == items[i].text && more[i].docType == items[i].docType)
  }

  lemma {:induction false} KeptExtends(o: Outside, tried: seq<SearchQuery>, k: nat, n: nat)
    requires ChunksAreStable(o) && k <= n <= |tried|
    ensures Extends(KeptAfter(o, tried, k).Values(), KeptAfter(o, tried, n).Values())
  {
    hide KeptAfter, Arrived, ChunksAreStable;
    var a, b := KeptAfter(o, tried, k), KeptAfter(o, tried, n);
    KeptGrows(o, tried, k, n);
    TheBestIsKept(o, tried, k);
    TheBestIsKept(o, tried, n);
    forall i | 0 <= i < |a.order|
      ensures b.Values()[i].text == a.Values()[i].text && b.Values()[i].docType == a.Values()[i].docType
    {
      assert a.order[i] in a.order && b.order[i] in b.order && a.order[i] == b.order[i];
      SameIdSameText(o, tried, k, n, a.items[a.order[i]], b.items[b.order[i]]);
    }
  }

  lemma {:induction false} JoinedExtends(items: seq<Item>, more: seq<Item>)
    requires Extends(items, more)
    ensures JoinedTexts(items) <= JoinedTexts(more)
    decreases |more|
  {
    if items != [] {
      var shorter := more[..|more| - 1];
      if |items| == |more| {
        JoinedExtends(items[..|items| - 1], shorter);
        JoinedExtends(shorter, items[..|items| - 1]);
      } else {
        JoinedExtends(items, shorter);
      }
    }
  }

  lemma {:induction false} MappedExtends(text: string, more: string, f: char -> string)
    requires text <= more
    ensures Mapped(text, f) <= Mapped(more, f)
  {
    if |text| < |more| {
      MappedExtends(text, more[..|more| - 1], f);
    } else {
      assert text == more;
    }
  }

  lemma {:induction false} ContainsExtends(text: string, more: string, word: string)
    requires text <= more && Contains(text, word)
    ensures Contains(more, word)
  {
    var i :| 0 <= i <= |text| && Occurs(text, word, i);
    assert more[i..i + |word|] == text[i..i + |word|];
    assert Occurs(more, word, i);
  }

  lemma {:induction false} CoverageExtends(o: Outside, items: seq<Item>, more: seq<Item>, word: string)
    requires Extends(items, more)
    ensures CodeCovered(o, items, word) ==> CodeCovered(o, more, word)
    ensures TopicCovered(o, items, word) ==> TopicCovered(o, more, word)
  {
    hide Mapped, Contains, TopicDocType, JoinedTexts;
    var text, text' := JoinedTexts(items), JoinedTexts(more);
    var upper, upper' := Mapped(text, o.casing.upperChar), Mapped(text', o.casing.upperChar);
    var lower, lower' := Mapped(upper, o.casing.lowerChar), Mapped(upper', o.casing.lowerChar);
    JoinedExtends(items, more);
    MappedExtends(text, text', o.casing.upperChar);
    MappedExtends(upper, upper', o.casing.lowerChar);
    if Contains(upper, word) {
      ContainsExtends(upper, upper', word);
    }
    if Contains(lower, word) {
      ContainsExtends(lower, lower', word);
    }
    forall docType | HasDocType(items, docType) ensures HasDocType(more, docType) {
      var item :| item in items && item.docType == Some(docType) && docType != "";
      var i :| 0 <= i < |items| && items[i] == item;
      assert more[i] in more;
    }
  }

  /** A facet that was covered once stays covered: as the rounds go on, the missing facets never grow. */
  lemma {:induction false} MissingOnlyShrinks(s: Setup, tried: seq<SearchQuery>, k: nat, n: nat)
    requires ChunksAreStable(s.outside) && k <= n <= |tried|
    ensures forall word :: word in MissingAfter(s, tried, n) ==> word in MissingAfter(s, tried, k)
  {
    hide CodeCovered, TopicCovered, KeptAfter, ChunksAreStable, Uncovered;
    var items, more := KeptAfter(s.outside, tried, k).Values(), KeptAfter(s.outside, tried, n).Values();
    KeptExtends(s.outside, tried, k, n);
    forall word | word in MissingAfter(s, tried, n) ensures word in MissingAfter(s, tried, k) {
      CoverageExtends(s.outside, items, more, word);
    }
  }

  /** A round is sufficient exactly when enough was kept and, if the question has facets at all, every error code and
      every topic of it is covered by the evidence kept. */
  lemma {:induction false} SufficientIffCovered(s: Setup, tried: seq<SearchQuery>, k: nat)
    requires k <= |tried|
    ensures var kept := KeptAfter(s.outside, tried, k);
            SufficientAfter(s, tried, k) <==>
              && |kept.order| >= s.minKept
              && (s.analysis.facets != [] ==>
                    && (forall code :: code in s.analysis.errorCodes ==> CodeCovered(s.outside, kept.Values(), code))
                    && (forall topic :: topic in s.analysis.topics ==> TopicCovered(s.outside, kept.Values(), topic)))
  {
    hide CodeCovered, TopicCovered, KeptAfter, Uncovered;
    var items := KeptAfter(s.outside, tried, k).Values();
    var codes := Uncovered(s.analysis.errorCodes, code => CodeCovered(s.outside, items, code));
    var topics := Uncovered(s.analysis.topics, topic => TopicCovered(s.outside, items, topic));
    if codes != [] {
      assert codes[0] in codes;
    }
    if topics != [] {
      assert topics[0] in topics;
    }
  }

  // ----- what is missing, said of the texts and the types

  /** The word starts somewhere in the text. */
  ghost predicate StartsSomewhere(text: string, word: string) {
    exists i: int :: Occurs(text, word, i)
  }

  /** A hint files the topic under this document type. */
  ghost predicate Filed(topic: string, docType: string) {
    docType != "" && exists hint :: hint in TOPIC_HINTS && hint.topic == topic && hint.docType == Some(docType)
  }

  lemma {:induction false} FiledIsTheDocType(topic: string, docType: string)
    ensures Filed(topic, docType) <==> docType != "" && TopicDocType(TOPIC_HINTS, topic) == Some(docType)
  {
    FirstHint(TOPIC_HINTS, topic, docType);
  }

  lemma {:induction false} FirstHint(hints: seq<TopicHint>, topic: string, docType: string)
    requires forall i, j :: 0 <= i < j < |hints| ==> hints[i].topic != hints[j].topic
    ensures TopicDocType(hints, topic) == Some(docType)
       <==> exists hint :: hint in hints && hint.topic == topic && hint.docType == Some(docType)
  {
    if hints != [] {
      var rest := hints[1..];
      assert hints == [hints[0]] + rest;
      FirstHint(rest, topic, docType);
      assert forall hint :: hint in rest ==> hint.topic != hints[0].topic;
    }
  }

  /** A code is missing exactly when the joined texts kept, in upper case, hold it nowhere. A topic filed under a
      document type is missing exactly when nothing of that type is kept; any other topic, when those texts, brought to
      lower case, hold it nowhere. A question without facets misses nothing. */
  lemma {:induction false} MissingIs(s: Setup, tried: seq<SearchQuery>, k: nat)
    returns (codes: seq<string>, topics: seq<string>)
    requires k <= |tried|
    ensures MissingAfter(s, tried, k) == if s.analysis.facets == [] then [] else codes + topics
    ensures var kept := KeptAfter(s.outside, tried, k).Values();
            var upper := Mapped(JoinedTexts(kept), s.outside.casing.upperChar);
            && (forall code :: code in codes <==> code in s.analysis.errorCodes && !StartsSomewhere(upper, code))
            && (forall topic :: topic in topics <==>
                  && topic in s.analysis.topics
                  && (forall docType :: Filed(topic, docType) ==>
                        forall item :: item in kept ==> item.docType != Some(docType))
                  && ((forall docType :: !Filed(topic, docType)) ==>
                        !StartsSomewhere(Mapped(upper, s.outside.casing.lowerChar), topic)))
  {
    hide Mapped, JoinedTexts, KeptAfter, Uncovered, TopicDocType, Filed;
    var o := s.outside;
    var kept := KeptAfter(o, tried, k).Values();
    codes := Uncovered(s.analysis.errorCodes, code => CodeCovered(o, kept, code));
    topics := Uncovered(s.analysis.topics, topic => TopicCovered(o, kept, topic));
    forall code ensures CodeCovered(o, kept, code)
                   <==> StartsSomewhere(Mapped(JoinedTexts(kept), o.casing.upperChar), code)
    {
      ContainsIsStarts(Mapped(JoinedTexts(kept), o.casing.upperChar), code);
    }
    forall topic
      ensures TopicCovered(o, kept, topic) <==>
                || (exists docType :: Filed(topic, docType)
                                      && exists item :: item in kept && item.docType == Some(docType))
                || ((forall docType :: !Filed(topic, docType))
                    && StartsSomewhere(
                         Mapped(Mapped(JoinedTexts(kept), o.casing.upperChar), o.casing.lowerChar), topic))
    {
      TopicIsCovered(o, kept, topic);
    }
    forall topic ensures topic in topics <==>
                  && topic in s.analysis.topics
                  && (forall docType :: Filed(topic, docType) ==>
                        forall item :: item in kept ==> item.docType != Some(docType))
                  && ((forall docType :: !Filed(topic, docType)) ==>
                        !StartsSomewhere(
                          Mapped(Mapped(JoinedTexts(kept), o.casing.upperChar), o.casing.lowerChar), topic))
    {
      OneType(topic);
      hide TopicCovered, StartsSomewhere;
    }
  }

  lemma {:induction false} ContainsIsStarts(text: string, word: string)
    ensures Contains(text, word) <==> StartsSomewhere(text, word)
  {
  }

  lemma {:induction false} OneType(topic: string)
    ensures forall t, t' :: Filed(topic, t) && Filed(topic, t') ==> t == t'
  {
    forall t, t' | Filed(topic, t) && Filed(topic, t') ensures t == t' {
      FiledIsTheDocType(topic, t);
      FiledIsTheDocType(topic, t');
    }
  }

  lemma {:induction false} TopicIsCovered(o: Outside, kept: seq<Item>, topic: string)
    ensures TopicCovered(o, kept, topic) <==>
              || (exists docType :: Filed(topic, docType)
                                    && exists item :: item in kept && item.docType == Some(docType))
              || ((forall docType :: !Filed(topic, docType))
                  && StartsSomewhere(
                       Mapped(Mapped(JoinedTexts(kept), o.casing.upperChar), o.casing.lowerChar), topic))
  {
    hide Mapped, JoinedTexts, TopicDocType, Filed, Contains, StartsSomewhere;
    forall docType
      ensures Filed(topic, docType) <==> docType != "" && TopicDocType(TOPIC_HINTS, topic) == Some(docType)
    {
      FiledIsTheDocType(topic, docType);
    }
    ContainsIsStarts(Mapped(Mapped(JoinedTexts(kept), o.casing.upperChar), o.casing.lowerChar), topic);
    var expected := TopicDocType(TOPIC_HINTS, topic);
    if expected.Some? && expected.value != "" {
      assert Filed(topic, expected.value);
    }
  }

  /** A kept item whose own text holds the code covers it. */
  lemma {:induction false} AnItemCoversItsCodes(s: Setup, tried: seq<SearchQuery>, k: nat, item: Item, code: string)
    requires k <= |tried| && item in KeptAfter(s.outside, tried, k).Values()
    requires StartsSomewhere(Mapped(item.text, s.outside.casing.upperChar), code)
    ensures code in MissingAfter(s, tried, k) ==> code in s.analysis.topics
  {
    hide KeptAfter, Mapped, JoinedTexts, StartsSomewhere;
    var kept := KeptAfter(s.outside, tried, k).Values();
    var before, after := TextIsJoined(kept, item);
    MappedAppend(before + item.text, after, s.outside.casing.upperChar);
    MappedAppend(before, item.text, s.outside.casing.upperChar);
    StartsWithin(Mapped(before, s.outside.casing.upperChar), Mapped(item.text, s.outside.casing.upperChar),
                 Mapped(after, s.outside.casing.upperChar), code);
    var codes, topics := MissingIs(s, tried, k);
  }

  lemma {:induction false} TextIsJoined(items: seq<Item>, item: Item) returns (before: string, after: string)
    requires item in items
    ensures JoinedTexts(items) == before + item.text + after
  {
    var last := items[|items| - 1];
    if last == item {
      before, after := if |items| == 1 then "" else JoinedTexts(items[..|items| - 1]) + " ", "";
    } else {
      var rest;
      assert items == items[..|items| - 1] + [last];
      before, rest := TextIsJoined(items[..|items| - 1], item);
      after := rest + " " + last.text;
    }
  }

  lemma {:induction false} MappedAppend(a: string, b: string, f: char -> string)
    ensures Mapped(a + b, f) == Mapped(a, f) + Mapped(b, f)
  {
    if b == "" {
      assert a + b == a;
    } else {
      assert (a + b)[..|a + b| - 1] == a + b[..|b| - 1];
      MappedAppend(a, b[..|b| - 1], f);
    }
  }

  lemma {:induction false} StartsWithin(before: string, text: string, after: string, word: string)
    requires StartsSomewhere(text, word)
    ensures StartsSomewhere(before + text + after, word)
  {
    var i: int :| Occurs(text, word, i);
    var whole, at := before + text + after, |before| + i;
    assert whole[at..at + |word|] == text[i..i + |word|];
    assert Occurs(whole, word, at);
  }

  // ----- conflicts between sources

  datatype Primary = Primary(documentId: string, section: string, code: Code)

  /** Listed in this order, the two sources say opposite things. */
  predicate Opposed(a: Primary, b: Primary) {
    && b.code != a.code
    && b.code in VerifierAgent.Opposites(a.code)
    && (a.documentId != b.documentId || a.section != b.section)
  }

  predicate OpposedToOneOf(a: Primary, later: seq<Primary>) {
    exists j :: 0 <= j < |later| && Opposed(a, later[j])
  }

  predicate Conflicting(ps: seq<Primary>) {
    exists i :: 0 <= i < |ps| && OpposedToOneOf(ps[i], ps[i + 1..])
  }

  /** `primaryCode` stands for the error code an item is mainly about, if it is about one. */
  function Primaries(primaryCode: Item -> Option<Code>, items: seq<Item>): seq<Primary> {
    if items == [] then [] else
    var last := items[|items| - 1];
    Primaries(primaryCode, items[..|items| - 1])
    + (if primaryCode(last).Some? then [Primary(last.documentId, last.section, primaryCode(last).value)] else [])
  }

  method FindConflict(primaryCode: Item -> Option<Code>, items: seq<Item>) returns (conflicting: bool)
    ensures conflicting == Conflicting(Primaries(primaryCode, items))
  {
    var primaries: seq<Primary> := [];
    for i := 0 to |items|
      invariant primaries == Primaries(primaryCode, items[..i])
    {
      assert items[..i + 1][..i] == items[..i];
      var code := primaryCode(items[i]);
      if code.Some? {
        primaries := primaries + [Primary(items[i].documentId, items[i].section, code.value)];
      }
    }
    assert items[..|items|] == items;
    for i := 0 to |primaries|
      invariant forall k :: 0 <= k < i ==> !OpposedToOneOf(primaries[k], primaries[k + 1..])
    {
      var later := primaries[i + 1..];
      for j := 0 to |later|
        invariant forall k :: 0 <= k < j ==> !Opposed(primaries[i], later[k])
      {
        if Opposed(primaries[i], later[j]) {
          assert OpposedToOneOf(primaries[i], primaries[i + 1..]);
          return true;
        }
      }
    }
    return false;
  }

  ghost predicate Mute(a: Primary, b: Primary) {
    && a.code == GatewayTimeout && b.code == WebhookTimeout
    && (a.documentId != b.documentId || a.section != b.section)
  }

  /** Two places say opposite things, whichever of them is listed first. */
  ghost predicate Disagree(a: Primary, b: Primary) {
    Opposed(a, b) || Opposed(b, a)
  }

  ghost predicate Pair(ps: seq<Primary>, related: (Primary, Primary) -> bool) {
    exists i, j :: 0 <= i < j < |ps| && related(ps[i], ps[j])
  }

  lemma {:induction false} ConflictingIsPair(ps: seq<Primary>)
    ensures Conflicting(ps) <==> Pair(ps, Opposed)
  {
    hide Opposed;
    if Conflicting(ps) {
      var i :| 0 <= i < |ps| && OpposedToOneOf(ps[i], ps[i + 1..]);
      var j :| 0 <= j < |ps[i + 1..]| && Opposed(ps[i], ps[i + 1..][j]);
      assert ps[i + 1..][j] == ps[i + 1 + j];
      assert Opposed(ps[i], ps[i + 1 + j]);
    }
    if Pair(ps, Opposed) {
      var i, j :| 0 <= i < j < |ps| && Opposed(ps[i], ps[j]);
      assert ps[i + 1..][j - i - 1] == ps[j];
      assert OpposedToOneOf(ps[i], ps[i + 1..]);
    }
  }

  /** The table of opposites is one-sided for WEBHOOK_TIMEOUT: every pair that disagrees is reported, except one with
      GATEWAY_TIMEOUT ranked above WEBHOOK_TIMEOUT. */
  lemma {:induction false} OnlyOneOrderHidesAConflict(ps: seq<Primary>)
    ensures Pair(ps, Disagree) <==> Conflicting(ps) || Pair(ps, Mute)
  {
    ConflictingIsPair(ps);
    hide Conflicting;
    assert forall a, b :: Disagree(a, b) <==> Opposed(a, b) || Mute(a, b);
    hide Disagree, Opposed, Mute;
    if Pair(ps, Disagree) {
      var i, j :| 0 <= i < j < |ps| && Disagree(ps[i], ps[j]);
      assert Opposed(ps[i], ps[j]) || Mute(ps[i], ps[j]);
    }
    if Pair(ps, Opposed) {
      var i, j :| 0 <= i < j < |ps| && Opposed(ps[i], ps[j]);
      assert Disagree(ps[i], ps[j]);
    }
    if Pair(ps, Mute) {
      var i, j :| 0 <= i < j < |ps| && Mute(ps[i], ps[j]);
      assert Disagree(ps[i], ps[j]);
    }
  }

  /** Opposed whichever of the two is listed first. */
  ghost predicate Mutual(a: Primary, b: Primary) {
    Opposed(a, b) && Opposed(b, a)
  }

  ghost predicate SameInAnyOrder(ps: seq<Primary>) {
    forall qs: seq<Primary> :: multiset(qs) == multiset(ps) ==> (Conflicting(qs) <==> Conflicting(ps))
  }

  /** Some two of the places, in either order. */
  ghost predicate Somewhere(ps: seq<Primary>, related: (Primary, Primary) -> bool) {
    exists a, b :: a in ps && b in ps && related(a, b)
  }

  /** The verdict does not depend on the order of the items exactly when two of the places are opposed whichever comes
      first, or no two of them are a GATEWAY_TIMEOUT and a WEBHOOK_TIMEOUT in different places. */
  lemma {:induction false} OrderIsIrrelevantIff(ps: seq<Primary>)
    ensures SameInAnyOrder(ps) <==> Somewhere(ps, Mutual) || !Somewhere(ps, Mute)
  {
    hide Conflicting, Mutual, Mute, Opposed, Somewhere;
    if Somewhere(ps, Mutual) || !Somewhere(ps, Mute) {
      forall qs: seq<Primary> | multiset(qs) == multiset(ps) ensures Conflicting(qs) <==> Conflicting(ps) {
        SameVerdict(ps, qs);
      }
    }
    if !Somewhere(ps, Mutual) && Somewhere(ps, Mute) {
      var gateways, others := Gateways(ps, true), Gateways(ps, false);
      SplitMembers(ps);
      assert multiset(gateways + others) == multiset(ps) && multiset(others + gateways) == multiset(ps);
      GatewaysFirst(ps);
      GatewaysLast(ps);
    }
  }

  lemma {:induction false} SameVerdict(ps: seq<Primary>, qs: seq<Primary>)
    requires multiset(qs) == multiset(ps)
    requires Somewhere(ps, Mutual) || !Somewhere(ps, Mute)
    ensures Conflicting(qs) <==> Conflicting(ps)
  {
    hide Conflicting;
    assert forall a :: a in ps <==> a in multiset(ps);
    assert forall a :: a in qs <==> a in multiset(qs);
    VerdictByMembers(ps);
    VerdictByMembers(qs);
    hide Opposed;
  }

  /** Under the condition the verdict only asks which places there are. */
  lemma {:induction false} VerdictByMembers(ps: seq<Primary>)
    requires Somewhere(ps, Mutual) || !Somewhere(ps, Mute)
    ensures Conflicting(ps) <==> Somewhere(ps, Opposed)
  {
    hide Conflicting, Opposed, Mute;
    ConflictingIsPair(ps);
    if Pair(ps, Opposed) {
      var i, j :| 0 <= i < j < |ps| && Opposed(ps[i], ps[j]);
      assert ps[i] in ps && ps[j] in ps;
    }
    if Somewhere(ps, Mutual) {
      var a, b :| a in ps && b in ps && Mutual(a, b);
      EitherOrder(ps, a, b);
    }
    if !Somewhere(ps, Mute) && Somewhere(ps, Opposed) {
      var a, b :| a in ps && b in ps && Opposed(a, b);
      assert !Mute(b, a);
      OpposedIsMutual(a, b);
      EitherOrder(ps, a, b);
    }
  }

  lemma {:induction false} OpposedIsMutual(a: Primary, b: Primary)
    requires Opposed(a, b) && !Mute(b, a)
    ensures Mutual(a, b)
  {
  }

  lemma {:induction false} EitherOrder(ps: seq<Primary>, a: Primary, b: Primary)
    requires a in ps && b in ps && Mutual(a, b)
    ensures Pair(ps, Opposed)
  {
    var i :| 0 <= i < |ps| && ps[i] == a;
    var j :| 0 <= j < |ps| && ps[j] == b;
    assert a != b;
    if i < j {
      assert Opposed(ps[i], ps[j]);
    } else {
      assert Opposed(ps[j], ps[i]);
    }
  }

  /** The places with GATEWAY_TIMEOUT, or the others. */
  function Gateways(ps: seq<Primary>, wanted: bool): seq<Primary> {
    if ps == [] then [] else
    Gateways(ps[..|ps| - 1], wanted)
    + if (ps[|ps| - 1].code == GatewayTimeout) == wanted then [ps[|ps| - 1]] else []
  }

  lemma {:induction false} SplitMembers(ps: seq<Primary>)
    ensures multiset(Gateways(ps, true)) + multiset(Gateways(ps, false)) == multiset(ps)
    ensures forall a :: a in Gateways(ps, true) <==> a in ps && a.code == GatewayTimeout
    ensures forall a :: a in Gateways(ps, false) <==> a in ps && a.code != GatewayTimeout
  {
    SplitCounts(ps);
    GatewayCodes(ps, true);
    GatewayCodes(ps, false);
    hide Gateways;
    forall a ensures a in ps <==> a in Gateways(ps, true) || a in Gateways(ps, false) {
      assert a in ps <==> a in multiset(ps);
      assert a in Gateways(ps, true) <==> a in multiset(Gateways(ps, true));
      assert a in Gateways(ps, false) <==> a in multiset(Gateways(ps, false));
    }
  }

  lemma {:induction false} SplitCounts(ps: seq<Primary>)
    ensures multiset(Gateways(ps, true)) + multiset(Gateways(ps, false)) == multiset(ps)
  {
    if ps != [] {
      SplitCounts(ps[..|ps| - 1]);
      assert ps == ps[..|ps| - 1] + [ps[|ps| - 1]];
    }
  }

  lemma {:induction false} GatewayCodes(ps: seq<Primary>, wanted: bool)
    ensures forall i :: 0 <= i < |Gateways(ps, wanted)| ==> (Gateways(ps, wanted)[i].code == GatewayTimeout) == wanted
  {
    if ps != [] {
      GatewayCodes(ps[..|ps| - 1], wanted);
    }
  }

  lemma {:induction false} GatewaysFirst(ps: seq<Primary>)
    requires !Somewhere(ps, Mutual)
    ensures !Conflicting(Gateways(ps, true) + Gateways(ps, false))
  {
    var gateways, others := Gateways(ps, true), Gateways(ps, false);
    var qs := gateways + others;
    SplitMembers(ps);
    ConflictingIsPair(qs);
    hide Conflicting, Gateways;
    forall i, j | 0 <= i < j < |qs| ensures !Opposed(qs[i], qs[j]) {
      assert qs[i] in ps && qs[j] in ps && !Mutual(qs[i], qs[j]);
      assert i >= |gateways| ==> qs[i] in others && qs[j] in others;
      assert i < |gateways| ==> qs[i] in gateways;
    }
  }

  lemma {:induction false} MuteTheOtherWay(g: Primary, w: Primary)
    requires Mute(g, w)
    ensures Opposed(w, g) && g.code == GatewayTimeout && w.code != GatewayTimeout
  {
  }

  lemma {:induction false} GatewaysLast(ps: seq<Primary>)
    requires Somewhere(ps, Mute)
    ensures Conflicting(Gateways(ps, false) + Gateways(ps, true))
  {
    var gateways, others := Gateways(ps, true), Gateways(ps, false);
    var qs := others + gateways;
    SplitMembers(ps);
    ConflictingIsPair(qs);
    hide Conflicting, Gateways, Opposed, Mutual;
    var g, w :| g in ps && w in ps && Mute(g, w);
    MuteTheOtherWay(g, w);
    assert g in gateways && w in others;
    var i :| 0 <= i < |others| && others[i] == w;
    var j :| 0 <= j < |gateways| && gateways[j] == g;
    assert qs[i] == w && qs[|others| + j] == g;
    assert Opposed(qs[i], qs[|others| + j]);
  }

  /** The same two sources, reported one way round and not the other. */
  lemma {:induction false} ConflictDependsOnOrder()
    ensures var g, w := Primary("a", "x", GatewayTimeout), Primary("b", "x", WebhookTimeout);
            !Conflicting([g, w]) && Conflicting([w, g])
  {
    var g, w := Primary("a", "x", GatewayTimeout), Primary("b", "x", WebhookTimeout);
    assert Opposed([w, g][0], [w, g][1..][0]);
    assert OpposedToOneOf([w, g][0], [w, g][1..]);
    assert forall i :: 0 <= i < 2 ==> !OpposedToOneOf([g, w][i], [g, w][i + 1..]);
  }

  // ----- the whole run

  predicate ScoredAbove(a: Item, b: Item) {
    a.score > b.score
  }

  /** The queries a run starts from; `stripped` is the question without surrounding blanks. */
  function SeedsOf(seedQueries: seq<SearchQuery>, stripped: string): seq<SearchQuery> {
    if seedQueries != [] then seedQueries
    else if stripped != "" then [SearchQuery(stripped, None, "original research question")]
    else []
  }

  lemma {:induction false} StartsWithASeed(s: Setup, tried: seq<SearchQuery>)
    requires Chain(s, tried)
    ensures tried[0] == s.seeds[0]
  {
  }

  /** Nothing to search for gives the empty, insufficient result. Otherwise the result reports a stopped chain of
      searches with its rounds; its items are all the evidence kept, best first; and it is sufficient exactly when the
      last round is, something was kept, and no two sources conflict. */
  method RunAgenticRag(o: Outside, primaryCode: Item -> Option<Code>, analysis: QueryAnalysis, stripped: string,
                       seedQueries: seq<SearchQuery>, minKept: int, maxIterations: int)
    returns (r: RagResult)
    ensures SeedsOf(seedQueries, stripped) == [] ==> r == RagResult([], [], [], [], 0, false, false, false)
    ensures r.queries == [] <==> seedQueries == [] && stripped == ""
    ensures seedQueries != [] ==> r.queries[0] == seedQueries[0]
    ensures seedQueries == [] && stripped != "" ==> r.queries[0].query == stripped && r.queries[0].docType == None
    ensures SeedsOf(seedQueries, stripped) != [] ==>
              var s := Setup(o, analysis, SeedsOf(seedQueries, stripped), minKept, maxIterations);
              && r.queries != [] && Chain(s, r.queries) && Stopped(s, r.queries) && Told(s, r.queries, r.rounds, true)
              && r.items == LargestFirst(KeptAfter(o, r.queries, |r.queries|).Values(), ScoredAbove)
              && r.citations == ItemIds(r.items)
              && r.rejected == Rejected(r.rounds)
              && (r.verified <==> r.items != [])
              && (r.conflicting <==> Conflicting(Primaries(primaryCode, r.items)))
              && (r.sufficient <==> r.rounds[|r.rounds| - 1].sufficient && r.items != [] && !r.conflicting)
  {
    hide Chain, Stopped, KeptAfter, Rejected, Conflicting, Primaries, LargestFirst;
    var seeds := seedQueries;
    if seeds == [] && stripped != "" {
      seeds := [SearchQuery(stripped, None, "original research question")];
    }
    if seeds == [] {
      return RagResult([], [], [], [], 0, false, false, false);
    }
    var s := Setup(o, analysis, seeds, minKept, maxIterations);
    var rounds, tried, kept, rejected := SearchRounds(s);
    StartsWithASeed(s, tried);
    var items := LargestFirst(kept.Values(), ScoredAbove);
    var conflicting := FindConflict(primaryCode, items);
    var citations := ItemIds(items);
    var verified := citations != [] && forall id :: id in citations ==> id in ItemIds(items);
    var sufficient := rounds[|rounds| - 1].sufficient && verified;
    if conflicting {
      sufficient := false;
    }
    r := RagResult(rounds, tried, items, citations, rejected, verified, conflicting, sufficient);
  }

  /** The items of the result are ranked by score, and they are exactly the evidence kept. */
  lemma {:induction false} ResultIsRanked(kept: Dict<string, Item>, items: seq<Item>)
    requires kept.Valid() && items == LargestFirst(kept.Values(), ScoredAbove)
    ensures |items| == |kept.order|
    ensures forall i, j :: 0 <= i < j < |items| ==> items[i].score >= items[j].score
    ensures forall item :: item in items <==> exists id :: id in kept.items && kept.items[id] == item
  {
    LargestFirstOrdered(kept.Values(), ScoredAbove);
    LargestFirstMembers(kept.Values(), ScoredAbove);
    hide LargestFirst;
    forall i, j | 0 <= i < j < |items| ensures items[i].score >= items[j].score {
      assert !ScoredAbove(items[j], items[i]);
    }
    forall item ensures item in items <==> exists id :: id in kept.items && kept.items[id] == item {
      if item in items {
        var i :| 0 <= i < |kept.order| && kept.Values()[i] == item;
        assert kept.order[i] in kept.order;
      }
      if id :| id in kept.items && kept.items[id] == item {
        assert id in kept.order;
        var i :| 0 <= i < |kept.order| && kept.order[i] == id;
        assert kept.Values()[i] == item;
      }
    }
  }

  /** Every item of the result was found by some search, and nothing found ever beat it under its id. */
  lemma {:induction false} ResultHoldsTheBest(o: Outside, tried: seq<SearchQuery>, items: seq<Item>)
    requires items == LargestFirst(KeptAfter(o, tried, |tried|).Values(), ScoredAbove)
    ensures forall item :: item in items ==> Arrived(o, tried, |tried|, item)
    ensures forall item :: Arrived(o, tried, |tried|, item) ==>
              exists best :: best in items && best.id == item.id && best.score >= item.score
  {
    hide KeptAfter, Arrived, LargestFirst;
    var kept := KeptAfter(o, tried, |tried|);
    TheBestIsKept(o, tried, |tried|);
    ResultIsRanked(kept, items);
    forall item | Arrived(o, tried, |tried|, item)
      ensures exists best :: best in items && best.id == item.id && best.score >= item.score
    {
      assert item in ArrivedItems(o, tried, |tried|);
      var best := kept.items[item.id];
      assert best in items;
    }
  }
}
