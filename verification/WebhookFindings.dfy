/** What is reported as a retry or as a duplicate, said of the fields of the events themselves. */
module WebhookFindings {
  import opened Wrappers
  import opened Dicts
  import opened Webhooks

  /** The events that pass a test, in their order. */
  function Where(events: seq<Event>, test: Event -> bool): seq<Event> {
    if events == [] then [] else
    Where(events[..|events| - 1], test) + if test(events[|events| - 1]) then [events[|events| - 1]] else []
  }

  function OfType(paymentId: string, eventType: string): Event -> bool {
    (e: Event) => e.paymentId == paymentId && e.eventType == eventType
  }

  function OfAttempt(paymentId: string, eventType: string, attempt: int): Event -> bool {
    (e: Event) => e.paymentId == paymentId && e.eventType == eventType && e.attempt == attempt
  }

  function OfIdempotencyKey(paymentId: string, eventType: string, key: string): Event -> bool {
    (e: Event) => e.paymentId == paymentId && e.eventType == eventType && e.idempotencyKey == Some(key)
  }

  /** Exactly the events that pass, each as often as it occurs. */
  lemma {:induction false} WhereKeepsWhatPasses(events: seq<Event>, test: Event -> bool)
    ensures forall e :: multiset(Where(events, test))[e] == if test(e) then multiset(events)[e] else 0
  {
    if events != [] {
      WhereKeepsWhatPasses(events[..|events| - 1], test);
      assert events == events[..|events| - 1] + [events[|events| - 1]];
    }
  }

  lemma {:induction false} WherePasses(events: seq<Event>, test: Event -> bool, i: nat)
    requires i < |Where(events, test)|
    ensures test(Where(events, test)[i]) && Where(events, test)[i] in events
  {
    WhereKeepsWhatPasses(events, test);
    var e := Where(events, test)[i];
    hide Where;
    assert e in multiset(Where(events, test));
    assert e in multiset(events);
  }

  lemma {:induction false} GroupIsWhere(grouping: Grouping, events: seq<Event>, key: Key, test: Event -> bool)
    requires forall e :: KeyOf(grouping, e) == Some(key) <==> test(e)
    ensures Having(grouping, events, key) == Where(events, test)
  {
    hide KeyOf;
    if events != [] {
      GroupIsWhere(grouping, events[..|events| - 1], key, test);
    }
  }

  lemma {:induction false} TypeGroup(events: seq<Event>, p: string, t: string)
    ensures Having(ByType, events, TypeKey(p, t)) == Where(events, OfType(p, t))
  {
    GroupIsWhere(ByType, events, TypeKey(p, t), OfType(p, t));
  }

  lemma {:induction false} AttemptGroup(events: seq<Event>, p: string, t: string, attempt: int)
    ensures Having(ByAttempt, events, AttemptKey(p, t, attempt)) == Where(events, OfAttempt(p, t, attempt))
  {
    GroupIsWhere(ByAttempt, events, AttemptKey(p, t, attempt), OfAttempt(p, t, attempt));
  }

  lemma {:induction false} KeyGroup(events: seq<Event>, p: string, t: string, key: string)
    requires key != ""
    ensures Having(ByIdempotencyKey, events, IdempotencyKey(p, t, key)) == Where(events, OfIdempotencyKey(p, t, key))
  {
    GroupIsWhere(ByIdempotencyKey, events, IdempotencyKey(p, t, key), OfIdempotencyKey(p, t, key));
  }

  /** The key of a group is that of its events. */
  lemma {:induction false} GroupHasAKey(grouping: Grouping, events: seq<Event>, group: seq<Event>) returns (key: Key)
    requires group in Groups(grouping, events) && group != []
    ensures group == Having(grouping, events, key) && KeyOf(grouping, group[0]) == Some(key)
  {
    hide KeyOf, Having, Distinct, KeysOf;
    var keys := Distinct(KeysOf(grouping, events));
    var i :| 0 <= i < |keys| && GroupsAt(grouping, events, keys)[i] == group;
    key := keys[i];
    var at := PlaceInGroup(grouping, events, key, 0);
  }

  // ----- duplicates

  /** The finding lists two events or more: all those that pass the test. */
  ghost predicate Lists(events: seq<Event>, d: Duplicate, test: Event -> bool) {
    |Where(events, test)| >= 2 && d.eventIds == IdsIn(Where(events, test))
  }

  ghost predicate ListsAnAttempt(events: seq<Event>, d: Duplicate) {
    exists attempt :: Lists(events, d, OfAttempt(d.paymentId, d.eventType, attempt))
  }

  ghost predicate ListsAKey(events: seq<Event>, d: Duplicate) {
    exists key :: key != "" && Lists(events, d, OfIdempotencyKey(d.paymentId, d.eventType, key))
  }

  lemma {:induction false} FindingsNameTheirGroup(groups: seq<seq<Event>>, d: Duplicate)
    requires d in DuplicatesAmong(groups)
    ensures exists group: seq<Event> :: group in groups && |group| >= 2 && d.eventIds == IdsIn(group)
                                        && d.paymentId == group[0].paymentId && d.eventType == group[0].eventType
  {
    hide IdsIn, Reported;
    var front, last := groups[..|groups| - 1], groups[|groups| - 1];
    assert groups == front + [last];
    if d in DuplicatesAmong(front) {
      FindingsNameTheirGroup(front, d);
    }
  }

  lemma {:induction false} AttemptGroupIsListed(events: seq<Event>, group: seq<Event>, d: Duplicate)
    requires group in Groups(ByAttempt, events) && |group| >= 2 && d.eventIds == IdsIn(group)
    requires d.paymentId == group[0].paymentId && d.eventType == group[0].eventType
    ensures ListsAnAttempt(events, d)
  {
    hide Groups, IdsIn, Having, Where;
    var key := GroupHasAKey(ByAttempt, events, group);
    AttemptGroup(events, d.paymentId, d.eventType, key.attempt);
    assert Lists(events, d, OfAttempt(d.paymentId, d.eventType, key.attempt));
  }

  lemma {:induction false} KeyGroupIsListed(events: seq<Event>, group: seq<Event>, d: Duplicate)
    requires group in Groups(ByIdempotencyKey, events) && |group| >= 2 && d.eventIds == IdsIn(group)
    requires d.paymentId == group[0].paymentId && d.eventType == group[0].eventType
    ensures ListsAKey(events, d)
  {
    hide Groups, IdsIn, Having, Where;
    var key := GroupHasAKey(ByIdempotencyKey, events, group);
    KeyGroup(events, d.paymentId, d.eventType, key.key);
    assert Lists(events, d, OfIdempotencyKey(d.paymentId, d.eventType, key.key));
  }

  /** Every duplicate reported is about one payment and one type, and lists all its events of one attempt, or all with
      one idempotency key that is not empty; there are two of them or more. */
  lemma {:induction false} DuplicatesShareWhatTheyShould(events: seq<Event>, d: Duplicate)
    requires d in Duplicates(events)
    ensures ListsAnAttempt(events, d) || ListsAKey(events, d)
  {
    var keyed, sameAttempt := Groups(ByIdempotencyKey, events), Groups(ByAttempt, events);
    FindingsNameTheirGroup(keyed + sameAttempt, d);
    hide Groups, IdsIn, DuplicatesAmong, ListsAnAttempt, ListsAKey;
    var group: seq<Event> :| group in keyed + sameAttempt && |group| >= 2 && d.eventIds == IdsIn(group)
                 && d.paymentId == group[0].paymentId && d.eventType == group[0].eventType;
    if group in keyed {
      KeyGroupIsListed(events, group, d);
    } else {
      AttemptGroupIsListed(events, group, d);
    }
  }

  /** Two events of one payment and type that share an attempt, or an idempotency key that is not empty. */
  ghost predicate Share(a: Event, b: Event) {
    && a.paymentId == b.paymentId && a.eventType == b.eventType
    && (a.attempt == b.attempt
        || (a.idempotencyKey == b.idempotencyKey && a.idempotencyKey.Some? && a.idempotencyKey.value != ""))
  }

  /** They are reported together. */
  lemma {:induction false} SharingIsReported(events: seq<Event>, i: nat, j: nat)
    requires i < j < |events| && Share(events[i], events[j])
    ensures ReportedTogether(events, events[i], events[j])
  {
    hide ReportedTogether;
    if events[i].attempt == events[j].attempt {
      GroupIsReported(ByAttempt, events, i, j);
    } else {
      GroupIsReported(ByIdempotencyKey, events, i, j);
    }
  }

  /** And nothing else is: if no two events share anything, nothing is reported. */
  lemma {:induction false} OnlySharersAreReported(events: seq<Event>, d: Duplicate)
    requires d in Duplicates(events)
    ensures exists a, b :: multiset{a, b} <= multiset(events) && Share(a, b) && multiset{a.id, b.id} <= d.eventIds
  {
    DuplicatesShareWhatTheyShould(events, d);
    hide Duplicates;
    if ListsAnAttempt(events, d) {
      var attempt :| Lists(events, d, OfAttempt(d.paymentId, d.eventType, attempt));
      TwoThatPass(events, d, OfAttempt(d.paymentId, d.eventType, attempt));
    } else {
      var key :| key != "" && Lists(events, d, OfIdempotencyKey(d.paymentId, d.eventType, key));
      TwoThatPass(events, d, OfIdempotencyKey(d.paymentId, d.eventType, key));
    }
  }

  lemma {:induction false} TwoThatPass(events: seq<Event>, d: Duplicate, test: Event -> bool)
    requires Lists(events, d, test)
    requires forall a, b :: test(a) && test(b) ==> Share(a, b)
    ensures exists a, b :: multiset{a, b} <= multiset(events) && Share(a, b) && multiset{a.id, b.id} <= d.eventIds
  {
    hide Where, Share, IdsIn;
    var group := Where(events, test);
    WhereKeepsWhatPasses(events, test);
    WherePasses(events, test, 0);
    WherePasses(events, test, 1);
    TwoOf(group);
    var a, b := group[0], group[1];
    assert multiset(group) <= multiset(events);
    assert multiset{a, b} <= multiset(events) && Share(a, b) && multiset{a.id, b.id} <= d.eventIds;
  }

  lemma {:induction false} TwoOf(group: seq<Event>)
    requires |group| >= 2
    ensures multiset{group[0], group[1]} <= multiset(group)
    ensures multiset{group[0].id, group[1].id} <= IdsIn(group)
  {
    assert group == [group[0], group[1]] + group[2..];
    assert EventIds(group) == [group[0].id, group[1].id] + EventIds(group[2..]);
  }

  // ----- retries

  ghost predicate DifferentAttempts(group: seq<Event>) {
    forall i, j :: 0 <= i < j < |group| ==> group[i].attempt != group[j].attempt
  }

  lemma {:induction false} RetryIffDifferent(group: seq<Event>)
    ensures IsRetry(group) <==> |group| >= 2 && DifferentAttempts(group)
  {
    var attempts := Attempts(group);
    if |group| >= 2 {
      LowestToHighest(attempts, 0);
      LowestToHighest(attempts, 1);
      assert DifferentAttempts(group) ==> attempts[0] != attempts[1];
    }
  }

  function Retries(events: seq<Event>): seq<Retry> {
    RetriesAmong(Groups(ByType, events))
  }

  /** A retry is reported for a payment and a type exactly when it has two events or more and no two of one attempt; it
      lists all of them, and nothing else is reported as a retry. */
  lemma {:induction false} RetriesAre(events: seq<Event>, r: Retry)
    ensures r in Retries(events) <==>
              var group := Where(events, OfType(r.paymentId, r.eventType));
              |group| >= 2 && DifferentAttempts(group) && r == RetryOf(group)
  {
    hide Groups, Having, RetriesAmong, DifferentAttempts;
    RetriesAreTheRetryGroups(Groups(ByType, events), r);
    var mine := Where(events, OfType(r.paymentId, r.eventType));
    TypeGroup(events, r.paymentId, r.eventType);
    RetryIffDifferent(mine);
    if r in Retries(events) {
      var group :| group in Groups(ByType, events) && IsRetry(group) && RetryOf(group) == r;
      RetryIffDifferent(group);
      var key := GroupHasAKey(ByType, events, group);
    }
    if |mine| >= 2 && DifferentAttempts(mine) && r == RetryOf(mine) {
      GroupIsThere(ByType, events, TypeKey(r.paymentId, r.eventType));
    }
  }

  /** For a payment and a type with two events or more: either a retry is reported, or two of its events share an
      attempt and are reported together. One or the other, never both and never neither. */
  lemma {:induction false} RetryOrDuplicate(events: seq<Event>, p: string, t: string)
    requires |Where(events, OfType(p, t))| >= 2
    ensures (exists r :: r in Retries(events) && r.paymentId == p && r.eventType == t)
       <==> !RepeatsAnAttempt(events, Where(events, OfType(p, t)))
  {
    hide Retries, RepeatsAnAttempt, IsRetry, DifferentAttempts, RetryOf;
    var group := Where(events, OfType(p, t));
    TypeGroup(events, p, t);
    Webhooks.RetryOrDuplicate(events, TypeKey(p, t));
    RetryIffDifferent(group);
    WherePasses(events, OfType(p, t), 0);
    RetryIsAbout(group);
    if IsRetry(group) {
      RetriesAre(events, RetryOf(group));
    }
    if r :| r in Retries(events) && r.paymentId == p && r.eventType == t {
      RetriesAre(events, r);
    }
  }

  lemma {:induction false} RetryIsAbout(group: seq<Event>)
    requires group != []
    ensures RetryOf(group).paymentId == group[0].paymentId && RetryOf(group).eventType == group[0].eventType
  {
  }
}
