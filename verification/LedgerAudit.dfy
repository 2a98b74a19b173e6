/** What the transfer rows and the audit trail of a ledger tell, in every ledger a history can lead to. */
module LedgerAudit {
  import opened Wrappers
  import opened LedgerBooks
  import opened LedgerRuns

  function EventsOf(audits: seq<Audit>, tid: string): seq<AuditEvent> {
    if audits == [] then [] else
    EventsOf(audits[..|audits| - 1], tid)
    + if audits[|audits| - 1].transferId == tid then [audits[|audits| - 1].event] else []
  }

  /** A committed row shows the amount leaving one balance and reaching the other, and its five steps in the trail; a
      rolled-back row shows the balances that stood, why, and two entries. */
  ghost predicate Documented(b: Books, tid: string)
    requires tid in b.transfers
  {
    var t := b.transfers[tid];
    if t.status == StatusCommitted then
      && t.failure == None && 0 < t.amount <= t.beforeFrom && 0 <= t.beforeTo
      && t.afterFrom == t.beforeFrom - t.amount && t.afterTo == t.beforeTo + t.amount
      && EventsOf(b.audits, tid) == [AuditBegin, AuditDebit, AuditCredit, AuditLedger, AuditCommit]
    else
      && t.failure.Some? && t.afterFrom == t.beforeFrom && t.afterTo == t.beforeTo
      && EventsOf(b.audits, tid) == [AuditBegin, AuditRollback]
  }

  ghost predicate AuditInv(b: Books) {
    && (forall tid :: tid in b.transfers ==> Documented(b, tid))
    && (forall a :: a in b.audits ==> a.transferId in b.transfers)
  }

  lemma {:induction false} EventsAppend(audits: seq<Audit>, more: seq<Audit>, tid: string)
    ensures EventsOf(audits + more, tid) == EventsOf(audits, tid) + EventsOf(more, tid)
  {
    if more == [] {
      assert audits + more == audits;
    } else {
      assert (audits + more)[..|audits + more| - 1] == audits + more[..|more| - 1];
      EventsAppend(audits, more[..|more| - 1], tid);
    }
  }

  lemma {:induction false} EventsOfOne(tid: string, events: seq<AuditEvent>, other: string)
    ensures EventsOf(AuditsFor(tid, events), other) == if other == tid then events else []
  {
    hide AuditsFor;
    if events != [] {
      var front, last := events[..|events| - 1], events[|events| - 1];
      EventsOfOne(tid, front, other);
      assert AuditsFor(tid, events)[..|front|] == AuditsFor(tid, front);
      assert events == front + [last];
    }
  }

  lemma {:induction false} NoEvents(audits: seq<Audit>, tid: string)
    requires forall a :: a in audits ==> a.transferId != tid
    ensures EventsOf(audits, tid) == []
  {
    if audits != [] {
      NoEvents(audits[..|audits| - 1], tid);
    }
  }

  /** One more transfer row, with its own audit rows, leaves the others documented. */
  lemma {:induction false} OneMoreDocumented(b: Books, after: Books, tid: string, events: seq<AuditEvent>)
    requires AuditInv(b) && tid !in b.transfers
    requires after.transfers.Keys == b.transfers.Keys + {tid}
    requires forall other :: other in b.transfers ==> after.transfers[other] == b.transfers[other]
    requires after.audits == b.audits + AuditsFor(tid, events)
    requires EventsOf(after.audits, tid) == events ==> Documented(after, tid)
    ensures AuditInv(after)
  {
    forall other | other in after.transfers ensures Documented(after, other) {
      EventsAppend(b.audits, AuditsFor(tid, events), other);
      EventsOfOne(tid, events, other);
      if other == tid {
        NoEvents(b.audits, tid);
      } else {
        assert Documented(b, other);
      }
    }
  }

  lemma {:induction false} TransactDocuments(b: Books, r: Request, tid: string, commitOk: bool, persistOk: bool)
    requires AuditInv(b) && NoDebts(b) && Acceptable(r)
    ensures AuditInv(Transact(b, r, tid, commitOk, persistOk).0)
  {
    hide AuditInv, EventsOf, AuditsFor;
    AssertAfterNeverFires(b, r);
    if FailureOf(b, r).None? {
      if commitOk && tid !in b.transfers {
        OneMoreDocumented(b, Posted(b, r, tid), tid, [AuditBegin, AuditDebit, AuditCredit, AuditLedger, AuditCommit]);
      }
    } else if persistOk && tid !in b.transfers {
      var row := RefusedRow(b, r, FailureOf(b, r).value);
      OneMoreDocumented(b, Recorded(b, row, tid), tid, [AuditBegin, AuditRollback]);
    }
  }

  lemma {:induction false} SeedingDocuments(b: Books, merchants: seq<string>)
    ensures Seeded(b, merchants).transfers == b.transfers && Seeded(b, merchants).audits == b.audits
  {
    if merchants != [] {
      SeedingDocuments(b, merchants[..|merchants| - 1]);
    }
  }

  /** In every reachable ledger each transfer row and its trail tell the same story, and no audit row is about anything
      else. */
  lemma {:induction false} TheTrailIsComplete(ops: seq<Op>)
    ensures AuditInv(Run(ops))
  {
    if ops != [] {
      var before, op := Run(ops[..|ops| - 1]), ops[|ops| - 1];
      TheTrailIsComplete(ops[..|ops| - 1]);
      LedgerAlwaysReconciles(ops[..|ops| - 1]);
      hide Seeded, Transact, EventsOf;
      SeedingDocuments(before, op.merchants);
      if op.Send? && Acceptable(op.r) {
        var seeded := Seeded(before, op.merchants);
        SameRowsDocumented(before, seeded);
        assert NoDebts(before) by {
          forall id | id in before.accounts ensures before.accounts[id].balance >= 0 {
            assert Reconciled(before, id);
          }
        }
        SeedingKeepsNoDebts(before, op.merchants);
        TransactDocuments(seeded, op.r, op.tid, op.commitOk, op.persistOk);
      } else if op.Seed? {
        SameRowsDocumented(before, Seeded(before, op.merchants));
      }
    }
  }

  lemma {:induction false} SameRowsDocumented(b: Books, after: Books)
    requires AuditInv(b) && after.transfers == b.transfers && after.audits == b.audits
    ensures AuditInv(after)
  {
    forall tid | tid in after.transfers ensures Documented(after, tid) {
      assert Documented(b, tid);
    }
  }
}
