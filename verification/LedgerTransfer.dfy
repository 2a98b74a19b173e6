/** `run_ledger_transfer` and `seed_ledger_accounts` step by step, on a database and a session's private workspace. */
module LedgerTransfer {
  import opened Wrappers
  import opened LedgerBooks

  /** The committed state. */
  class Database {
    var books: Books

    constructor (books: Books)
      ensures this.books == books
    {
      this.books := books;
    }
  }

  /** An open transaction: its changes stay in `work` until `Commit` makes them the committed state. */
  class Session {
    const db: Database
    var work: Books

    constructor (db: Database)
      ensures this.db == db && work == db.books
    {
      this.db := db;
      work := db.books;
    }

    method Put(id: string, a: Account)
      modifies this
      ensures work == old(work).(accounts := old(work).accounts[id := a])
    {
      work := work.(accounts := work.accounts[id := a]);
    }

    method AddAudits(tid: string, events: seq<AuditEvent>)
      modifies this
      ensures work == old(work).(audits := old(work).audits + AuditsFor(tid, events))
    {
      for i := 0 to |events|
        invariant work == old(work).(audits := old(work).audits + AuditsFor(tid, events[..i]))
      {
        assert AuditsFor(tid, events[..i + 1]) == AuditsFor(tid, events[..i]) + [Audit(tid, events[i])];
        work := work.(audits := work.audits + [Audit(tid, events[i])]);
      }
      assert events[..|events|] == events;
    }

    method Commit()
      modifies db
      ensures db.books == work
    {
      db.books := work;
    }

    method Rollback()
      modifies this
      ensures work == db.books
    {
      work := db.books;
    }
  }

  method SeedLedgerAccounts(session: Session, merchants: seq<string>)
    modifies session
    ensures session.work == Seeded(old(session.work), merchants)
  {
    if PLATFORM_ACCOUNT !in session.work.accounts {
      session.Put(PLATFORM_ACCOUNT, PlatformAccount());
    }
    var i := 0;
    while i < |merchants|
      invariant 0 <= i <= |merchants|
      invariant session.work == Seeded(old(session.work), merchants[..i])
    {
      assert merchants[..i + 1][..i] == merchants[..i];
      var id := WalletId(merchants[i]);
      if id !in session.work.accounts {
        session.Put(id, Wallet(merchants[i]));
      }
      i := i + 1;
    }
    assert merchants[..i] == merchants;
  }

  /** How the `try` block ended, with the local variables its handlers read. */
  datatype Ending = Done | Threw(failure: Failure) | Refused
  datatype Attempt = Attempt(
    ending: Ending, beforeSource: int, beforeDest: int, afterSource: int, afterDest: int, operations: seq<Operation>)

  /** The body of the transfer's `try`: debit, credit, journal, checks, commit. Only its last step touches the
      committed state. */
  method TryTransfer(session: Session, r: Request, tid: string, commitOk: bool) returns (a: Attempt)
    requires session.work == session.db.books
    modifies session, session.db
    ensures a.ending.Threw? <==> FailureOf(old(session.work), r).Some?
    ensures a.ending.Threw? ==>
              && a.ending.failure == FailureOf(old(session.work), r).value
              && a.operations == AllSteps(r)[..StepsBefore(a.ending.failure)]
              && (if LockAndCheck(old(session.work), r).Some? then a.beforeSource == 0 && a.beforeDest == 0
                  else a.beforeSource == BalanceOf(old(session.work), r.from)
                       && a.beforeDest == BalanceOf(old(session.work), r.to))
    ensures a.ending.Threw? && r.amount > 0 ==>
              (a.beforeSource == 0 && a.beforeDest == 0 <==> LockAndCheck(old(session.work), r).Some?)
    ensures !a.ending.Done? ==> session.db.books == old(session.db.books)
    ensures a.ending.Refused? ==> !commitOk || tid in old(session.work).transfers
    ensures a.ending.Done? ==>
              && commitOk && tid !in old(session.work).transfers
              && r.from in old(session.work).accounts && r.to in old(session.work).accounts
              && session.db.books == Posted(old(session.work), r, tid)
              && a.operations == AllSteps(r)
              && a.beforeSource == BalanceOf(old(session.work), r.from)
              && a.beforeDest == BalanceOf(old(session.work), r.to)
              && a.afterSource == a.beforeSource - r.amount && a.afterDest == a.beforeDest + r.amount
  {
    ghost var start := session.work;
    var operations := [Begin];
    var refused := LockAndCheck(session.work, r);
    if refused.Some? {
      return Attempt(Threw(Inconsistent(refused.value)), 0, 0, 0, 0, operations);
    }
    var source, dest := session.work.accounts[r.from], session.work.accounts[r.to];
    var beforeSource, beforeDest := source.balance, dest.balance;
    source := source.(balance := source.balance - r.amount, version := source.version + 1);
    session.Put(r.from, source);
    operations := operations + [DebitApplied(r.from, -r.amount)];
    if r.failAt == Some(AfterDebit) {
      return Attempt(Threw(Injected(AfterDebit)), beforeSource, beforeDest, 0, 0, operations);
    }
    dest := dest.(balance := dest.balance + r.amount, version := dest.version + 1);
    session.Put(r.to, dest);
    operations := operations + [CreditApplied(r.to, r.amount)];
    if r.failAt == Some(AfterCredit) {
      return Attempt(Threw(Injected(AfterCredit)), beforeSource, beforeDest, 0, 0, operations);
    }
    var clash := tid in session.work.transfers;
    session.work := session.work.(
      transfers := session.work.transfers[tid := Transfer(r.from, r.to, r.amount, StatusCommitted, r.failAt, None,
                                                          beforeSource, beforeDest, source.balance, dest.balance)],
      entries := session.work.entries + [Entry(tid, r.from, Debit, r.amount), Entry(tid, r.to, Credit, r.amount)]);
    operations := operations + [JournalWritten];
    if r.failAt == Some(AfterLedger) {
      return Attempt(Threw(Injected(AfterLedger)), beforeSource, beforeDest, 0, 0, operations);
    }
    var broken := AssertAfter(source.balance, dest.balance, beforeSource, beforeDest, r.amount);
    if broken.Some? {
      return Attempt(Threw(Inconsistent(broken.value)), beforeSource, beforeDest, 0, 0, operations);
    }
    if r.failAt == Some(BeforeCommit) {
      return Attempt(Threw(Injected(BeforeCommit)), beforeSource, beforeDest, 0, 0, operations);
    }
    session.AddAudits(tid, [AuditBegin, AuditDebit, AuditCredit, AuditLedger, AuditCommit]);
    if !commitOk || clash {
      return Attempt(Refused, beforeSource, beforeDest, 0, 0, operations);
    }
    session.Commit();
    operations := operations + [CommitDone];
    a := Attempt(Done, beforeSource, beforeDest, source.balance, dest.balance, operations);
  }

  method PersistRollback(db: Database, tid: string, row: Transfer)
    modifies db
    ensures db.books == Recorded(old(db.books), row, tid)
  {
    var session := new Session(db);
    session.work := session.work.(transfers := session.work.transfers[tid := row]);
    session.AddAudits(tid, [AuditBegin, AuditRollback]);
    session.Commit();
  }

  /** The transfer as its callers see it: the committed books and the result are those of `Outcome`. */
  method RunLedgerTransfer(db: Database, merchants: seq<string>, r: Request, tid: string, commitOk: bool,
                           persistOk: bool)
    returns (result: Result<TransferResult, Raised>)
    modifies db
    ensures (db.books, result) == Outcome(old(db.books), merchants, r, tid, commitOk, persistOk)
  {
    if r.failAt == Some(UnknownPoint) || r.amount <= 0 {
      return Err(InvalidRequest);
    }
    var setup := new Session(db);
    SeedLedgerAccounts(setup, merchants);
    setup.Commit();
    ghost var seeded := db.books;
    var session := new Session(db);
    var a := TryTransfer(session, r, tid, commitOk);
    match a.ending {
      case Done =>
        result := Ok(TransferResult(StatusCommitted, None, a.beforeSource, a.beforeDest, a.afterSource, a.afterDest,
                                    a.operations));
      case Refused =>
        result := Err(DatabaseError);
      case Threw(failure) =>
        session.Rollback();
        var afterSource, afterDest := BalanceOf(db.books, r.from), BalanceOf(db.books, r.to);
        var beforeSource, beforeDest := a.beforeSource, a.beforeDest;
        if beforeSource == 0 && beforeDest == 0 {
          beforeSource, beforeDest := afterSource, afterDest;
        }
        if persistOk && tid !in db.books.transfers {
          PersistRollback(db, tid, Transfer(r.from, r.to, r.amount, StatusRolledBack, r.failAt, Some(failure),
                                            beforeSource, beforeDest, afterSource, afterDest));
        }
        result := Ok(TransferResult(StatusRolledBack, Some(failure), beforeSource, beforeDest, afterSource, afterDest,
                                    a.operations + [RollbackDone]));
    }
  }
}
