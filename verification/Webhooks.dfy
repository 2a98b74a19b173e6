/** Retries and duplicates among webhook events, found by grouping. */
module Webhooks {
  import opened Wrappers
  import opened Dicts
  import opened Sorting

  datatype Event = Event(
    id: string, paymentId: string, eventType: string, attempt: int, idempotencyKey: Option<string>, createdAt: real)

  datatype Grouping = ByType | ByIdempotencyKey | ByAttempt

  datatype Key = TypeKey(paymentId: string, eventType: string)
               | IdempotencyKey(paymentId: string, eventType: string, key: string)
               | AttemptKey(paymentId: string, eventType: string, attempt: int)

  /** The group of an event; one without an idempotency key, or with an empty one, has no group by it. */
  function KeyOf(grouping: Grouping, e: Event): Option<Key> {
    match grouping
    case ByType => Some(TypeKey(e.paymentId, e.eventType))
    case ByIdempotencyKey =>
      if e.idempotencyKey.Some? && e.idempotencyKey.value != "" then
        Some(IdempotencyKey(e.paymentId, e.eventType, e.idempotencyKey.value))
      else None
    case ByAttempt => Some(AttemptKey(e.paymentId, e.eventType, e.attempt))
  }

  function KeysOf(grouping: Grouping, events: seq<Event>): seq<Key> {
    if events == [] then [] else
    var key := KeyOf(grouping, events[|events| - 1]);
    KeysOf(grouping, events[..|events| - 1]) + if key.Some? then [key.value] else []
  }

  /** The events of one group, in their order. */
  function Having(grouping: Grouping, events: seq<Event>, key: Key): seq<Event> {
    if events == [] then [] else
    var last := events[|events| - 1];
    Having(grouping, events[..|events| - 1], key) + if KeyOf(grouping, last) == Some(key) then [last] else []
  }

  function GroupsAt(grouping: Grouping, events: seq<Event>, keys: seq<Key>): (groups: seq<seq<Event>>)
    ensures |groups| == |keys|
    ensures forall i :: 0 <= i < |groups| ==> groups[i] == Having(grouping, events, keys[i])
  {
    seq(|keys|, i requires 0 <= i < |keys| => Having(grouping, events, keys[i]))
  }

  /** All the groups, in the order in which each got its first event. */
  function Groups(grouping: Grouping, events: seq<Event>): seq<seq<Event>> {
    GroupsAt(grouping, events, Distinct(KeysOf(grouping, events)))
  }

  // ----- building the groups

  ghost predicate Grouped(groups: Dict<Key, seq<Event>>, grouping: Grouping, events: seq<Event>) {
    && groups.Valid()
    && groups.order == Distinct(KeysOf(grouping, events))
    && (forall key :: key in groups.order ==> groups.items[key] == Having(grouping, events, key))
  }

  lemma {:induction false} KeyIffMember(grouping: Grouping, events: seq<Event>, key: Key)
    ensures key in KeysOf(grouping, events) <==> Having(grouping, events, key) != []
  {
    if events != [] {
      KeyIffMember(grouping, events[..|events| - 1], key);
    }
  }

  lemma {:induction false} GroupedNext(groups: Dict<Key, seq<Event>>, grouping: Grouping, events: seq<Event>, i: nat)
    requires i < |events| && Grouped(groups, grouping, events[..i])
    ensures Grouped(WithEvent(groups, grouping, events[i]), grouping, events[..i + 1])
  {
    hide KeyOf, Distinct, Having, KeysOf;
    var key := KeyOf(grouping, events[i]);
    HavingNext(grouping, events, i);
    if key.Some? {
      KeyIffMember(grouping, events[..i], key.value);
      DistinctNext(KeysOf(grouping, events[..i]), key.value);
      PutGrouped(groups, grouping, events[..i], events[..i + 1], events[i], key.value);
    }
  }

  lemma {:induction false} PutGrouped(groups: Dict<Key, seq<Event>>, grouping: Grouping, before: seq<Event>,
                                      after: seq<Event>, e: Event, key: Key)
    requires Grouped(groups, grouping, before) && KeyOf(grouping, e) == Some(key)
    requires Distinct(KeysOf(grouping, after))
          == if key in groups.order then groups.order else groups.order + [key]
    requires key !in groups.order ==> Having(grouping, before, key) == []
    requires Having(grouping, after, key) == Having(grouping, before, key) + [e]
    requires forall k :: k in groups.order && k != key ==> Having(grouping, after, k) == Having(grouping, before, k)
    ensures Grouped(WithEvent(groups, grouping, e), grouping, after)
  {
    hide KeyOf, Distinct, Having, KeysOf;
    var next := WithEvent(groups, grouping, e);
    assert next == groups.Put(key, Having(grouping, before, key) + [e]);
    forall k | k in next.order ensures next.items[k] == Having(grouping, after, k) {
    }
  }

  lemma {:induction false} DistinctNext(keys: seq<Key>, key: Key)
    ensures Distinct(keys + [key]) == if key in keys then Distinct(keys) else Distinct(keys) + [key]
  {
    assert (keys + [key])[..|keys|] == keys;
  }

  lemma {:induction false} HavingNext(grouping: Grouping, events: seq<Event>, i: nat)
    requires i < |events|
    ensures forall key :: Having(grouping, events[..i + 1], key)
                       == if KeyOf(grouping, events[i]) == Some(key)
                          then Having(grouping, events[..i], key) + [events[i]]
                          else Having(grouping, events[..i], key)
    ensures KeysOf(grouping, events[..i + 1])
         == if KeyOf(grouping, events[i]).Some? then KeysOf(grouping, events[..i]) + [KeyOf(grouping, events[i]).value]
            else KeysOf(grouping, events[..i])
  {
    hide KeyOf;
    assert events[..i + 1][..i] == events[..i];
  }

  /** `groups[key].append(event)` on a dictionary whose missing entries are empty lists. */
  function WithEvent(groups: Dict<Key, seq<Event>>, grouping: Grouping, e: Event): Dict<Key, seq<Event>>
    requires groups.Valid()
  {
    match KeyOf(grouping, e)
    case None => groups
    case Some(key) => groups.Put(key, (if key in groups.items then groups.items[key] else []) + [e])
  }

  method Group(grouping: Grouping, events: seq<Event>) returns (groups: seq<seq<Event>>)
    ensures groups == Groups(grouping, events)
  {
    var dict: Dict<Key, seq<Event>> := Dict([], map[]);
    for i := 0 to |events|
      invariant Grouped(dict, grouping, events[..i])
    {
      GroupedNext(dict, grouping, events, i);
      dict := WithEvent(dict, grouping, events[i]);
    }
    assert events[..|events|] == events;
    groups := dict.Values();
  }

  // ----- retries

  datatype Retry = Retry(paymentId: string, eventType: string, eventIds: seq<string>, attempts: seq<int>)

  function Attempts(events: seq<Event>): (attempts: seq<int>)
    ensures |attempts| == |events|
    ensures forall i :: 0 <= i < |attempts| ==> attempts[i] == events[i].attempt
  {
    seq(|events|, i requires 0 <= i < |events| => events[i].attempt)
  }

  function EventIds(events: seq<Event>): (ids: seq<string>)
    ensures |ids| == |events|
    ensures forall i :: 0 <= i < |ids| ==> ids[i] == events[i].id
  {
    seq(|events|, i requires 0 <= i < |events| => events[i].id)
  }

  function Highest(xs: seq<int>): int
    requires xs != []
  {
    if |xs| == 1 then xs[0] else
    var front, last := Highest(xs[..|xs| - 1]), xs[|xs| - 1];
    if last > front then last else front
  }

  function Lowest(xs: seq<int>): int
    requires xs != []
  {
    if |xs| == 1 then xs[0] else
    var front, last := Lowest(xs[..|xs| - 1]), xs[|xs| - 1];
    if last < front then last else front
  }

  lemma {:induction false} LowestToHighest(xs: seq<int>, i: nat)
    requires i < |xs|
    ensures Lowest(xs) <= xs[i] <= Highest(xs)
  {
    if i < |xs| - 1 {
      LowestToHighest(xs[..|xs| - 1], i);
    }
  }

  predicate Earlier(a: Event, b: Event) {
    a.attempt < b.attempt || (a.attempt == b.attempt && a.createdAt < b.createdAt)
  }

  /** A group is a retry when it has two attempts or more, no two of them the same. */
  predicate IsRetry(group: seq<Event>) {
    && |group| >= 2
    && NoDup(Attempts(group))
    && Highest(Attempts(group)) > Lowest(Attempts(group))
  }

  function RetryOf(group: seq<Event>): Retry
    requires group != []
  {
    var ordered := LargestFirst(group, Earlier);
    Retry(group[0].paymentId, group[0].eventType, EventIds(ordered), Attempts(ordered))
  }

  function RetriesAmong(groups: seq<seq<Event>>): seq<Retry> {
    if groups == [] then [] else
    var last := groups[|groups| - 1];
    RetriesAmong(groups[..|groups| - 1]) + if IsRetry(last) then [RetryOf(last)] else []
  }

  method FindRetries(events: seq<Event>) returns (findings: seq<Retry>)
    ensures findings == RetriesAmong(Groups(ByType, events))
  {
    hide Groups, RetryOf;
    var groups := Group(ByType, events);
    findings := [];
    for i := 0 to |groups|
      invariant findings == RetriesAmong(groups[..i])
    {
      assert groups[..i + 1][..i] == groups[..i];
      var group: seq<Event> := groups[i];
      if |group| < 2 {
        continue;
      }
      var attempts := Attempts(group);
      if |set a | a in attempts| != |attempts| || Highest(attempts) <= Lowest(attempts) {
        AllDifferentIff(attempts);
        continue;
      }
      AllDifferentIff(attempts);
      findings := findings + [RetryOf(group)];
    }
    assert groups[..|groups|] == groups;
  }

  /** `len(set(xs)) == len(xs)` says that no two are the same. */
  lemma {:induction false} AllDifferentIff(xs: seq<int>)
    ensures |set x | x in xs| <= |xs|
    ensures |set x | x in xs| == |xs| <==> NoDup(xs)
  {
    if xs != [] {
      var front, last := xs[..|xs| - 1], xs[|xs| - 1];
      AllDifferentIff(front);
      NoDupNext(front, last);
      assert xs == front + [last];
      assert (set x | x in xs) == (set x | x in front) + {last};
      hide NoDup;
    }
  }

  lemma {:induction false} NoDupNext(front: seq<int>, last: int)
    ensures NoDup(front + [last]) <==> NoDup(front) && last !in front
  {
    var xs := front + [last];
    if NoDup(xs) {
      forall i, j | 0 <= i < j < |front| ensures front[i] != front[j] {
        assert xs[i] != xs[j];
      }
      forall i | 0 <= i < |front| ensures front[i] != last {
        assert xs[i] != xs[|front|];
      }
    }
  }

  // ----- duplicates

  /** The ids are kept sorted; which they are, with repetitions, is all that tells two such lists apart. */
  datatype Duplicate = Duplicate(paymentId: string, eventType: string, eventIds: multiset<string>)

  function IdsIn(group: seq<Event>): multiset<string> {
    multiset(EventIds(group))
  }

  function Reported(findings: seq<Duplicate>): (seen: set<multiset<string>>) {
    set d | d in findings :: d.eventIds
  }

  function DuplicatesAmong(groups: seq<seq<Event>>): seq<Duplicate> {
    if groups == [] then [] else
    var before := DuplicatesAmong(groups[..|groups| - 1]);
    var last := groups[|groups| - 1];
    if |last| < 2 || IdsIn(last) in Reported(before) then before
    else before + [Duplicate(last[0].paymentId, last[0].eventType, IdsIn(last))]
  }

  function Duplicates(events: seq<Event>): seq<Duplicate> {
    DuplicatesAmong(Groups(ByIdempotencyKey, events) + Groups(ByAttempt, events))
  }

  method FindDuplicateEvents(events: seq<Event>) returns (findings: seq<Duplicate>)
    ensures findings == Duplicates(events)
  {
    hide Groups, IdsIn;
    var keyed := Group(ByIdempotencyKey, events);
    var sameAttempt := Group(ByAttempt, events);
    var groups := keyed + sameAttempt;
    var seen: set<multiset<string>> := {};
    findings := [];
    for i := 0 to |groups|
      invariant findings == DuplicatesAmong(groups[..i])
      invariant seen == Reported(findings)
    {
      assert groups[..i + 1][..i] == groups[..i];
      var group: seq<Event> := groups[i];
      if |group| < 2 {
        continue;
      }
      var ids := IdsIn(group);
      if ids in seen {
        continue;
      }
      seen := seen + {ids};
      findings := findings + [Duplicate(group[0].paymentId, group[0].eventType, ids)];
    }
    assert groups[..|groups|] == groups;
  }

  // ----- what is reported

  /** No two findings list the same events, and a list of events is reported exactly when it is that of a group of two
      events or more. */
  lemma {:induction false} EachGroupIsReportedOnce(groups: seq<seq<Event>>)
    ensures forall i, j :: 0 <= i < j < |DuplicatesAmong(groups)| ==>
              DuplicatesAmong(groups)[i].eventIds != DuplicatesAmong(groups)[j].eventIds
    ensures forall ids :: ids in Reported(DuplicatesAmong(groups)) <==>
              exists group :: group in groups && |group| >= 2 && IdsIn(group) == ids
  {
    hide IdsIn;
    if groups != [] {
      var front, last := groups[..|groups| - 1], groups[|groups| - 1];
      assert groups == front + [last];
      EachGroupIsReportedOnce(front);
      assert Reported(DuplicatesAmong(groups))
          == Reported(DuplicatesAmong(front)) + if |last| < 2 then {} else {IdsIn(last)};
    }
  }

  lemma {:induction false} GroupIsThere(grouping: Grouping, events: seq<Event>, key: Key)
    requires Having(grouping, events, key) != []
    ensures Having(grouping, events, key) in Groups(grouping, events)
  {
    KeyIffMember(grouping, events, key);
    var keys := Distinct(KeysOf(grouping, events));
    assert key in keys;
    var i :| 0 <= i < |keys| && keys[i] == key;
    assert Groups(grouping, events)[i] == Having(grouping, events, key);
  }

  /** Two events in the same group are both among its events. */
  lemma {:induction false} BothAreThere(grouping: Grouping, events: seq<Event>, i: nat, j: nat, key: Key)
    requires i < j < |events| && KeyOf(grouping, events[i]) == Some(key) == KeyOf(grouping, events[j])
    ensures |Having(grouping, events, key)| >= 2
    ensures multiset{events[i].id, events[j].id} <= IdsIn(Having(grouping, events, key))
  {
    if j < |events| - 1 {
      BothAreThere(grouping, events[..|events| - 1], i, j, key);
      IdsGrow(Having(grouping, events[..|events| - 1], key), Having(grouping, events, key));
    } else {
      OneIsThere(grouping, events[..j], i, key);
      var before := Having(grouping, events[..j], key);
      assert EventIds(before + [events[j]]) == EventIds(before) + [events[j].id];
    }
  }

  lemma {:induction false} OneIsThere(grouping: Grouping, events: seq<Event>, i: nat, key: Key)
    requires i < |events| && KeyOf(grouping, events[i]) == Some(key)
    ensures events[i].id in EventIds(Having(grouping, events, key))
  {
    if i < |events| - 1 {
      OneIsThere(grouping, events[..|events| - 1], i, key);
      IdsGrow(Having(grouping, events[..|events| - 1], key), Having(grouping, events, key));
    } else {
      assert Having(grouping, events, key)[|Having(grouping, events, key)| - 1] == events[i];
    }
  }

  lemma {:induction false} IdsGrow(group: seq<Event>, more: seq<Event>)
    requires group <= more
    ensures IdsIn(group) <= IdsIn(more)
    ensures forall id :: id in EventIds(group) ==> id in EventIds(more)
  {
    assert EventIds(more) == EventIds(group) + EventIds(more[|group|..]);
  }

  ghost predicate ReportedTogether(events: seq<Event>, a: Event, b: Event) {
    exists ids :: ids in Reported(Duplicates(events)) && multiset{a.id, b.id} <= ids
  }

  /** Two events of one group are reported together. */
  lemma {:induction false} GroupIsReported(grouping: Grouping, events: seq<Event>, i: nat, j: nat)
    requires i < j < |events| && grouping != ByType
    requires KeyOf(grouping, events[i]).Some? && KeyOf(grouping, events[i]) == KeyOf(grouping, events[j])
    ensures ReportedTogether(events, events[i], events[j])
  {
    hide KeyOf, IdsIn, Groups, Having;
    var key := KeyOf(grouping, events[i]).value;
    BothAreThere(grouping, events, i, j, key);
    GroupIsThere(grouping, events, key);
    var groups := Groups(ByIdempotencyKey, events) + Groups(ByAttempt, events);
    assert Having(grouping, events, key) in groups;
    EachGroupIsReportedOnce(groups);
    assert IdsIn(Having(grouping, events, key)) in Reported(Duplicates(events));
  }

  /** The group has two events of one attempt, and they are reported. */
  ghost predicate RepeatsAnAttempt(events: seq<Event>, group: seq<Event>) {
    exists i, j :: 0 <= i < j < |group| && group[i].attempt == group[j].attempt
                   && ReportedTogether(events, group[i], group[j])
  }

  /** The events of a group occur in that order in the whole. */
  lemma {:induction false} PlacesInGroup(grouping: Grouping, events: seq<Event>, key: Key, i: nat, j: nat)
    returns (i': nat, j': nat)
    requires i < j < |Having(grouping, events, key)|
    ensures i' < j' < |events|
    ensures events[i'] == Having(grouping, events, key)[i] && events[j'] == Having(grouping, events, key)[j]
    ensures KeyOf(grouping, events[i']) == Some(key) == KeyOf(grouping, events[j'])
  {
    hide KeyOf;
    var front := events[..|events| - 1];
    if j < |Having(grouping, front, key)| {
      i', j' := PlacesInGroup(grouping, front, key, i, j);
    } else {
      i' := PlaceInGroup(grouping, front, key, i);
      j' := |events| - 1;
    }
  }

  lemma {:induction false} PlaceInGroup(grouping: Grouping, events: seq<Event>, key: Key, i: nat) returns (i': nat)
    requires i < |Having(grouping, events, key)|
    ensures i' < |events| && events[i'] == Having(grouping, events, key)[i] && KeyOf(grouping, events[i']) == Some(key)
  {
    hide KeyOf;
    var front := events[..|events| - 1];
    if i < |Having(grouping, front, key)| {
      i' := PlaceInGroup(grouping, front, key, i);
    } else {
      i' := |events| - 1;
    }
  }

  /** Every group of two events or more of one payment and type is either a retry or repeats an attempt, which is then
      reported as a duplicate: one or the other, never both and never neither. */
  lemma {:induction false} RetryOrDuplicate(events: seq<Event>, key: Key)
    requires |Having(ByType, events, key)| >= 2
    ensures var group := Having(ByType, events, key);
            IsRetry(group) <==> !RepeatsAnAttempt(events, group)
  {
    hide Having, ReportedTogether;
    var group := Having(ByType, events, key);
    var attempts := Attempts(group);
    if !NoDup(attempts) {
      var i, j :| 0 <= i < j < |attempts| && attempts[i] == attempts[j];
      var i', j' := PlacesInGroup(ByType, events, key, i, j);
      assert KeyOf(ByAttempt, events[i']) == KeyOf(ByAttempt, events[j']);
      GroupIsReported(ByAttempt, events, i', j');
      assert group[i].attempt == group[j].attempt && ReportedTogether(events, group[i], group[j]);
    } else {
      LowestToHighest(attempts, 0);
      LowestToHighest(attempts, 1);
      assert forall i, j :: 0 <= i < j < |group| ==> attempts[i] != attempts[j];
    }
  }

  /** The retries reported are those of the groups by payment and type, listed by attempt. */
  lemma {:induction false} RetriesAreTheRetryGroups(groups: seq<seq<Event>>, r: Retry)
    ensures r in RetriesAmong(groups) <==> exists group :: group in groups && IsRetry(group) && RetryOf(group) == r
  {
    hide IsRetry, RetryOf;
    if groups != [] {
      var front, last := groups[..|groups| - 1], groups[|groups| - 1];
      assert groups == front + [last];
      RetriesAreTheRetryGroups(front, r);
    }
  }

  /** A retry lists the events of its group, all of them and in the order of their attempts. */
  lemma {:induction false} RetriesAreInOrder(group: seq<Event>)
    requires group != []
    ensures multiset(RetryOf(group).eventIds) == IdsIn(group)
    ensures forall i, j :: 0 <= i < j < |group| ==> RetryOf(group).attempts[i] <= RetryOf(group).attempts[j]
  {
    var ordered := LargestFirst(group, Earlier);
    SortedIds(group);
    LargestFirstOrdered(group, Earlier);
    forall i, j | 0 <= i < j < |group| ensures RetryOf(group).attempts[i] <= RetryOf(group).attempts[j] {
      assert !Earlier(ordered[j], ordered[i]);
    }
  }

  lemma {:induction false} SortedIds(group: seq<Event>)
    ensures IdsIn(LargestFirst(group, Earlier)) == IdsIn(group)
  {
    hide IdsIn, Insert, Earlier, LargestFirst;
    if group == [] {
      assert LargestFirst(group, Earlier) == [];
    } else {
      var front, last := group[..|group| - 1], group[|group| - 1];
      SortedIds(front);
      SortedStep(front, last);
      InsertedIds(LargestFirst(front, Earlier), last);
      IdsOfOneMore(front, last);
      assert group == front + [last];
    }
  }

  lemma {:induction false} SortedStep(front: seq<Event>, last: Event)
    ensures LargestFirst(front + [last], Earlier) == Insert(LargestFirst(front, Earlier), last, Earlier)
  {
    hide Insert, Earlier;
    assert (front + [last])[..|front|] == front;
  }

  lemma {:induction false} InsertedIds(sorted: seq<Event>, x: Event)
    ensures IdsIn(Insert(sorted, x, Earlier)) == IdsIn(sorted) + multiset{x.id}
  {
    IdsOfOneMore(sorted, x);
    if sorted != [] {
      var front, last := sorted[..|sorted| - 1], sorted[|sorted| - 1];
      assert sorted == front + [last];
      InsertedIds(front, x);
      IdsOfOneMore(front, last);
      IdsOfOneMore(Insert(front, x, Earlier), last);
      hide IdsIn;
    } else {
      assert [] + [x] == [x];
    }
  }

  lemma {:induction false} IdsOfOneMore(group: seq<Event>, x: Event)
    ensures IdsIn(group + [x]) == IdsIn(group) + multiset{x.id}
  {
    assert EventIds(group + [x]) == EventIds(group) + [x.id];
  }
}
