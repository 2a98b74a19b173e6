/** The ledger's tables, and what one transfer and one seeding do to them. */
module LedgerBooks {
  import opened Wrappers

  datatype AccountStatus = Active | Frozen

  datatype Account = Account(
    merchantId: Option<string>, currency: string, balance: int, version: int, status: AccountStatus)

  datatype Direction = Debit | Credit

  datatype Entry = Entry(transferId: string, accountId: string, direction: Direction, amount: int)

  /** `UnknownPoint` is any name outside the four fail points. */
  datatype FailPoint = AfterDebit | AfterCredit | AfterLedger | BeforeCommit | UnknownPoint

  datatype Reason =
    | SameAccount | NotFound | NotActive | CurrencyMismatch | InsufficientFunds
    | SourceMismatch | DestMismatch | NotConserved | NegativeBalance

  /** The two exceptions a transfer rolls back on. */
  datatype Failure = Injected(point: FailPoint) | Inconsistent(reason: Reason)

  datatype TransferStatus = StatusCommitted | StatusRolledBack

  datatype Transfer = Transfer(
    from: string, to: string, amount: int, status: TransferStatus, failAt: Option<FailPoint>, failure: Option<Failure>,
    beforeFrom: int, beforeTo: int, afterFrom: int, afterTo: int)

  datatype AuditEvent = AuditBegin | AuditDebit | AuditCredit | AuditLedger | AuditCommit | AuditRollback

  datatype Audit = Audit(transferId: string, event: AuditEvent)

  datatype Books = Books(
    accounts: map<string, Account>, transfers: map<string, Transfer>, entries: seq<Entry>, audits: seq<Audit>)

  const NO_BOOKS := Books(map[], map[], [], [])

  datatype Request = Request(from: string, to: string, amount: int, failAt: Option<FailPoint>)

  /** Steps of a transfer as the result lists them. */
  datatype Operation =
    | Begin | DebitApplied(accountId: string, delta: int) | CreditApplied(accountId: string, delta: int)
    | JournalWritten | CommitDone | RollbackDone

  datatype TransferResult = TransferResult(
    status: TransferStatus, failure: Option<Failure>, beforeFrom: int, beforeTo: int, afterFrom: int, afterTo: int,
    operations: seq<Operation>)

  /** A request is rejected with a `ValueError`; a commit the database refuses propagates as its own error. */
  datatype Raised = InvalidRequest | DatabaseError

  // ----- accounts and their opening balances

  const PLATFORM_ACCOUNT := "PLATFORM-clearing"

  function WalletId(merchant: string): string {
    merchant + "-wallet"
  }

  function StartingBalance(merchant: string): int {
    if merchant == "M101" then 1_000_000
    else if merchant == "M102" then 5_000_000
    else if merchant == "M201" then 2_000_000
    else if merchant == "M305" then 250_000
    else if merchant == "M410" then 1_500_000
    else 100_000
  }

  /** What an account held when it was seeded. */
  function Opening(a: Account): int {
    match a.merchantId
    case None => 0
    case Some(m) => StartingBalance(m)
  }

  function PlatformAccount(): Account {
    Account(None, "INR", 0, 1, Active)
  }

  function Wallet(merchant: string): Account {
    Account(Some(merchant), "INR", StartingBalance(merchant), 1, Active)
  }

  function AddMissing(b: Books, id: string, a: Account): Books {
    if id in b.accounts then b else b.(accounts := b.accounts[id := a])
  }

  /** Existing accounts are left alone; missing ones open with their starting balance. */
  function Seeded(b: Books, merchants: seq<string>): Books {
    if merchants == [] then AddMissing(b, PLATFORM_ACCOUNT, PlatformAccount())
    else
      var last := merchants[|merchants| - 1];
      AddMissing(Seeded(b, merchants[..|merchants| - 1]), WalletId(last), Wallet(last))
  }

  // ----- one transfer

  function Debited(a: Account, amount: int): Account {
    a.(balance := a.balance - amount, version := a.version + 1)
  }

  function Credited(a: Account, amount: int): Account {
    a.(balance := a.balance + amount, version := a.version + 1)
  }

  /** The checks made once both rows are read, in their order. */
  function CheckRows(source: Account, dest: Account, amount: int): Option<Reason> {
    if source.status != Active || dest.status != Active then Some(NotActive)
    else if source.currency != dest.currency then Some(CurrencyMismatch)
    else if source.balance < amount then Some(InsufficientFunds)
    else None
  }

  function LockAndCheck(b: Books, r: Request): Option<Reason> {
    if r.from == r.to then Some(SameAccount)
    else if r.from !in b.accounts || r.to !in b.accounts then Some(NotFound)
    else CheckRows(b.accounts[r.from], b.accounts[r.to], r.amount)
  }

  function AssertAfter(source: int, dest: int, beforeSource: int, beforeDest: int, amount: int): Option<Reason> {
    if source != beforeSource - amount then Some(SourceMismatch)
    else if dest != beforeDest + amount then Some(DestMismatch)
    else if source + dest != beforeSource + beforeDest then Some(NotConserved)
    else if source < 0 || dest < 0 then Some(NegativeBalance)
    else None
  }

  /** The exception, if any, that a transfer against these books meets before its commit. */
  function FailureOf(b: Books, r: Request): Option<Failure> {
    var refused := LockAndCheck(b, r);
    if refused.Some? then Some(Inconsistent(refused.value))
    else if r.failAt.Some? && r.failAt.value in {AfterDebit, AfterCredit, AfterLedger} then
      Some(Injected(r.failAt.value))
    else
      var source, dest := b.accounts[r.from].balance, b.accounts[r.to].balance;
      var broken := AssertAfter(source - r.amount, dest + r.amount, source, dest, r.amount);
      if broken.Some? then Some(Inconsistent(broken.value))
      else if r.failAt == Some(BeforeCommit) then Some(Injected(BeforeCommit))
      else None
  }

  function BalanceOf(b: Books, id: string): int {
    if id in b.accounts then b.accounts[id].balance else 0
  }

  function AuditsFor(tid: string, events: seq<AuditEvent>): (audits: seq<Audit>)
    ensures |audits| == |events|
    ensures forall i :: 0 <= i < |audits| ==> audits[i] == Audit(tid, events[i])
  {
    seq(|events|, i requires 0 <= i < |events| => Audit(tid, events[i]))
  }

  /** The books after a commit: both rows, the transfer row, its two journal entries and five audit rows. */
  function Posted(b: Books, r: Request, tid: string): Books
    requires r.from in b.accounts && r.to in b.accounts
  {
    var source, dest := Debited(b.accounts[r.from], r.amount), Credited(b.accounts[r.to], r.amount);
    Books(
      b.accounts[r.from := source][r.to := dest],
      b.transfers[tid := Transfer(r.from, r.to, r.amount, StatusCommitted, r.failAt, None,
                                  b.accounts[r.from].balance, b.accounts[r.to].balance, source.balance, dest.balance)],
      b.entries + [Entry(tid, r.from, Debit, r.amount), Entry(tid, r.to, Credit, r.amount)],
      b.audits + AuditsFor(tid, [AuditBegin, AuditDebit, AuditCredit, AuditLedger, AuditCommit]))
  }

  /** The books after a rollback was recorded: one rolled-back row and two audit rows. */
  function Recorded(b: Books, row: Transfer, tid: string): Books {
    b.(transfers := b.transfers[tid := row],
       audits := b.audits + AuditsFor(tid, [AuditBegin, AuditRollback]))
  }

  function RefusedRow(b: Books, r: Request, failure: Failure): Transfer {
    var from, to := BalanceOf(b, r.from), BalanceOf(b, r.to);
    Transfer(r.from, r.to, r.amount, StatusRolledBack, r.failAt, Some(failure), from, to, from, to)
  }

  function AllSteps(r: Request): seq<Operation> {
    [Begin, DebitApplied(r.from, -r.amount), CreditApplied(r.to, r.amount), JournalWritten, CommitDone]
  }

  /** How many steps were applied before the failure. */
  function StepsBefore(failure: Failure): nat {
    match failure
    case Injected(AfterDebit) => 2
    case Injected(AfterCredit) => 3
    case Injected(_) => 4
    case Inconsistent(reason) =>
      if reason in {SourceMismatch, DestMismatch, NotConserved, NegativeBalance} then 4 else 1
  }

  /** A whole transfer against seeded books: the new books, and what the caller gets back. `commitOk` and `persistOk`
      say whether the database accepts the commit and, after a rollback, the row that records it. */
  function Transact(b: Books, r: Request, tid: string, commitOk: bool, persistOk: bool)
    : (Books, Result<TransferResult, Raised>)
  {
    match FailureOf(b, r)
    case None =>
      if !commitOk || tid in b.transfers then (b, Err(DatabaseError))
      else
        var source, dest := b.accounts[r.from].balance, b.accounts[r.to].balance;
        (Posted(b, r, tid),
         Ok(TransferResult(StatusCommitted, None, source, dest, source - r.amount, dest + r.amount, AllSteps(r))))
    case Some(failure) =>
      var row := RefusedRow(b, r, failure);
      (if persistOk && tid !in b.transfers then Recorded(b, row, tid) else b,
       Ok(TransferResult(StatusRolledBack, Some(failure), row.beforeFrom, row.beforeTo, row.afterFrom, row.afterTo,
                         AllSteps(r)[..StepsBefore(failure)] + [RollbackDone])))
  }

  predicate Acceptable(r: Request) {
    r.failAt != Some(UnknownPoint) && r.amount > 0
  }

  /** `run_ledger_transfer` as a function of the books it finds. */
  function Outcome(b: Books, merchants: seq<string>, r: Request, tid: string, commitOk: bool, persistOk: bool)
    : (Books, Result<TransferResult, Raised>)
  {
    if !Acceptable(r) then (b, Err(InvalidRequest)) else Transact(Seeded(b, merchants), r, tid, commitOk, persistOk)
  }
}
