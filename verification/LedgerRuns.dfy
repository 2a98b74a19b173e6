/** Atomicity of one transfer, and what every sequence of seedings and transfers keeps. */
module LedgerRuns {
  import opened Wrappers
  import opened Sums
  import opened LedgerBooks

  // ----- one transfer

  /** What must be true of the accounts for money to move. */
  predicate Payable(b: Books, r: Request) {
    && r.from != r.to
    && r.from in b.accounts && r.to in b.accounts
    && b.accounts[r.from].status == Active && b.accounts[r.to].status == Active
    && b.accounts[r.from].currency == b.accounts[r.to].currency
    && r.amount <= b.accounts[r.from].balance
  }

  ghost predicate NoDebts(b: Books) {
    forall id :: id in b.accounts ==> b.accounts[id].balance >= 0
  }

  /** Once the accounts can pay, the checks repeated after the journal is written never fail: the only failures left
      are the injected ones. */
  lemma {:induction false} AssertAfterNeverFires(b: Books, r: Request)
    requires NoDebts(b) && Acceptable(r)
    ensures LockAndCheck(b, r).None? <==> Payable(b, r)
    ensures Payable(b, r) ==>
              FailureOf(b, r) == if r.failAt.Some? then Some(Injected(r.failAt.value)) else None
    ensures FailureOf(b, r).Some? && FailureOf(b, r).value.Inconsistent? ==>
              StepsBefore(FailureOf(b, r).value) == 1
  {
    if Payable(b, r) {
      var source, dest := b.accounts[r.from].balance, b.accounts[r.to].balance;
      assert AssertAfter(source - r.amount, dest + r.amount, source, dest, r.amount).None?;
      if r.failAt.Some? {
        assert r.failAt.value in {AfterDebit, AfterCredit, AfterLedger} || r.failAt.value == BeforeCommit;
      }
    }
  }

  /** All or nothing, for every request, every fail point and every answer of the database: a transfer commits in full
      exactly when nothing stands in its way; otherwise balances, versions and journal are those the seeding left and
      at most one rolled-back row with two audit rows is added. */
  lemma {:induction false} AllOrNothing(b: Books, merchants: seq<string>, r: Request, tid: string, commitOk: bool,
                                        persistOk: bool)
    requires NoDebts(b)
    ensures var seeded := Seeded(b, merchants);
            var (after, result) := Outcome(b, merchants, r, tid, commitOk, persistOk);
            var committed := result.Ok? && result.value.status == StatusCommitted;
            && (committed <==>
                  && Acceptable(r) && r.failAt == None && Payable(seeded, r) && commitOk && tid !in seeded.transfers)
            && (committed ==> after == Posted(seeded, r, tid))
            && (!committed && Acceptable(r) ==>
                  && after.accounts == seeded.accounts && after.entries == seeded.entries
                  && (after == seeded
                      || (&& tid !in seeded.transfers
                          && after.transfers.Keys == seeded.transfers.Keys + {tid}
                          && after.transfers == seeded.transfers[tid := after.transfers[tid]]
                          && after.transfers[tid].status == StatusRolledBack
                          && |after.audits| == |seeded.audits| + 2 && seeded.audits <= after.audits)))
            && (!Acceptable(r) ==> after == b && result == Err(InvalidRequest))
  {
    SeedingKeepsNoDebts(b, merchants);
    if Acceptable(r) {
      AssertAfterNeverFires(Seeded(b, merchants), r);
    }
  }

  lemma {:induction false} SeedingKeepsNoDebts(b: Books, merchants: seq<string>)
    requires NoDebts(b)
    ensures NoDebts(Seeded(b, merchants))
  {
    if merchants != [] {
      SeedingKeepsNoDebts(b, merchants[..|merchants| - 1]);
    }
  }

  /** The balance shown for an account, 0 if there is none of that name. */
  ghost predicate Shows(b: Books, id: string, balance: int) {
    balance == if id in b.accounts then b.accounts[id].balance else 0
  }

  /** A rolled-back result reports the balances that stand, before and after alike, whether or not the transfer got far
      enough to read them; a committed one reports the balances it left. */
  lemma {:induction false} ReportedBalancesStand(b: Books, merchants: seq<string>, r: Request, tid: string,
                                                 commitOk: bool, persistOk: bool)
    requires Outcome(b, merchants, r, tid, commitOk, persistOk).1.Ok?
    ensures var (after, result) := Outcome(b, merchants, r, tid, commitOk, persistOk);
            && Shows(after, r.from, result.value.afterFrom) && Shows(after, r.to, result.value.afterTo)
            && Shows(Seeded(b, merchants), r.from, result.value.beforeFrom)
            && Shows(Seeded(b, merchants), r.to, result.value.beforeTo)
            && result.value.beforeFrom + result.value.beforeTo == result.value.afterFrom + result.value.afterTo
            && (result.value.status == StatusRolledBack ==> result.value.beforeFrom == result.value.afterFrom)
  {
  }

  /** What a failure says of the accounts, the first thing that stood in the way. */
  predicate SaysWhy(b: Books, r: Request, failure: Failure) {
    match failure
    case Injected(point) => r.failAt == Some(point) && Payable(b, r)
    case Inconsistent(SameAccount) => r.from == r.to
    case Inconsistent(NotFound) => r.from != r.to && (r.from !in b.accounts || r.to !in b.accounts)
    case Inconsistent(reason) =>
      && r.from != r.to && r.from in b.accounts && r.to in b.accounts
      && var source, dest := b.accounts[r.from], b.accounts[r.to];
         var active := source.status == Active && dest.status == Active;
         match reason
         case NotActive => !active
         case CurrencyMismatch => active && source.currency != dest.currency
         case InsufficientFunds => active && source.currency == dest.currency && source.balance < r.amount
         case _ => false
  }

  lemma {:induction false} FailuresSayWhy(b: Books, r: Request)
    requires NoDebts(b) && Acceptable(r) && FailureOf(b, r).Some?
    ensures SaysWhy(b, r, FailureOf(b, r).value)
  {
    AssertAfterNeverFires(b, r);
  }

  /** The steps a result lists are those that were applied: money taken and given until the injected failure, none at
      all if the accounts could not pay, and the end it came to. */
  ghost predicate TellsHowFar(r: Request, result: TransferResult) {
    var steps, failure := result.operations, result.failure;
    && steps != [] && steps[0] == Begin
    && (steps[|steps| - 1] == if failure == None then CommitDone else RollbackDone)
    && (DebitApplied(r.from, -r.amount) in steps <==> failure == None || failure.value.Injected?)
    && (CreditApplied(r.to, r.amount) in steps <==>
          failure == None || (failure.value.Injected? && failure.value.point != AfterDebit))
    && (JournalWritten in steps <==>
          failure == None || (failure.value.Injected? && failure.value.point in {AfterLedger, BeforeCommit}))
    && (CommitDone in steps <==> failure == None)
    && (forall i, j :: 0 <= i < j < |steps| ==> steps[i] != steps[j])
  }

  /** A rolled-back transfer says what stood in its way, and how far it got. */
  lemma {:induction false} ResultsTellTheStory(b: Books, merchants: seq<string>, r: Request, tid: string,
                                               commitOk: bool, persistOk: bool)
    requires NoDebts(b) && Outcome(b, merchants, r, tid, commitOk, persistOk).1.Ok?
    ensures var result := Outcome(b, merchants, r, tid, commitOk, persistOk).1.value;
            && (result.status == StatusCommitted <==> result.failure == None)
            && (result.failure.Some? ==> SaysWhy(Seeded(b, merchants), r, result.failure.value))
            && TellsHowFar(r, result)
  {
    var seeded := Seeded(b, merchants);
    SeedingKeepsNoDebts(b, merchants);
    hide Seeded;
    if FailureOf(seeded, r).Some? {
      FailuresSayWhy(seeded, r);
      AssertAfterNeverFires(seeded, r);
    }
    StepsTell(seeded, r, tid, commitOk, persistOk);
    hide FailureOf, SaysWhy, TellsHowFar, AllSteps;
  }

  lemma {:induction false} StepsTell(seeded: Books, r: Request, tid: string, commitOk: bool, persistOk: bool)
    requires var result := Transact(seeded, r, tid, commitOk, persistOk).1;
             var failure := FailureOf(seeded, r);
             result.Ok? && (failure.Some? && failure.value.Inconsistent? ==> StepsBefore(failure.value) == 1)
    requires FailureOf(seeded, r).Some? && FailureOf(seeded, r).value.Injected? ==>
               FailureOf(seeded, r).value.point != UnknownPoint
    ensures TellsHowFar(r, Transact(seeded, r, tid, commitOk, persistOk).1.value)
  {
    var result, failure := Transact(seeded, r, tid, commitOk, persistOk).1.value, FailureOf(seeded, r);
    if failure.Some? {
      assert result.operations == Applied(r, StepsBefore(failure.value));
      hide FailureOf, AllSteps, Applied, Transact;
      AppliedTells(r, result, StepsBefore(failure.value));
    } else {
      assert result.operations == AllSteps(r);
      hide FailureOf, Transact;
    }
  }

  lemma {:induction false} AppliedTells(r: Request, result: TransferResult, n: nat)
    requires result.failure.Some? && 1 <= n <= 4 && result.operations == Applied(r, n)
    requires n == StepsBefore(result.failure.value)
    requires match result.failure.value
             case Injected(point) => point != UnknownPoint
             case Inconsistent(_) => n == 1
    ensures TellsHowFar(r, result)
  {
    FirstSteps(r);
    hide AllSteps, Applied;
  }

  function Applied(r: Request, n: nat): seq<Operation>
    requires n <= 4
  {
    AllSteps(r)[..n] + [RollbackDone]
  }

  lemma {:induction false} FirstSteps(r: Request)
    ensures AllSteps(r) == [Begin, DebitApplied(r.from, -r.amount), CreditApplied(r.to, r.amount), JournalWritten,
                            CommitDone]
    ensures Applied(r, 1) == [Begin, RollbackDone]
    ensures Applied(r, 2) == [Begin, DebitApplied(r.from, -r.amount), RollbackDone]
    ensures Applied(r, 3) == [Begin, DebitApplied(r.from, -r.amount), CreditApplied(r.to, r.amount), RollbackDone]
    ensures Applied(r, 4) == [Begin, DebitApplied(r.from, -r.amount), CreditApplied(r.to, r.amount), JournalWritten,
                              RollbackDone]
  {
  }

  // ----- the journal

  function Change(e: Entry, id: string): int {
    if e.accountId != id then 0 else if e.direction == Credit then e.amount else -e.amount
  }

  /** Credits minus debits of an account. */
  function Net(entries: seq<Entry>, id: string): int {
    if entries == [] then 0 else
    Net(entries[..|entries| - 1], id) + Change(entries[|entries| - 1], id)
  }

  function EntryCount(entries: seq<Entry>, id: string): nat {
    if entries == [] then 0 else
    EntryCount(entries[..|entries| - 1], id) + (if entries[|entries| - 1].accountId == id then 1 else 0)
  }

  function EntriesOf(entries: seq<Entry>, tid: string): seq<Entry> {
    if entries == [] then [] else
    EntriesOf(entries[..|entries| - 1], tid)
    + (if entries[|entries| - 1].transferId == tid then [entries[|entries| - 1]] else [])
  }

  lemma {:induction false} JournalNext(entries: seq<Entry>, e: Entry, id: string, tid: string)
    ensures Net(entries + [e], id) == Net(entries, id) + Change(e, id)
    ensures EntryCount(entries + [e], id) == EntryCount(entries, id) + (if e.accountId == id then 1 else 0)
    ensures EntriesOf(entries + [e], tid) == EntriesOf(entries, tid) + (if e.transferId == tid then [e] else [])
  {
    assert (entries + [e])[..|entries + [e]| - 1] == entries;
  }

  lemma {:induction false} NothingJournaled(entries: seq<Entry>, id: string)
    requires forall e :: e in entries ==> e.accountId != id
    ensures Net(entries, id) == 0 && EntryCount(entries, id) == 0
  {
    if entries != [] {
      NothingJournaled(entries[..|entries| - 1], id);
    }
  }

  lemma {:induction false} NothingTransferred(entries: seq<Entry>, tid: string)
    requires forall e :: e in entries ==> e.transferId != tid
    ensures EntriesOf(entries, tid) == []
  {
    if entries != [] {
      NothingTransferred(entries[..|entries| - 1], tid);
    }
  }

  // ----- reconciliation

  /** The account is its opening balance replayed through the journal, and its version counts its entries. */
  ghost predicate Reconciled(b: Books, id: string)
    requires id in b.accounts
  {
    && b.accounts[id].balance == Opening(b.accounts[id]) + Net(b.entries, id)
    && b.accounts[id].version == 1 + EntryCount(b.entries, id)
    && b.accounts[id].balance >= 0
  }

  /** A committed transfer has its one debit and its one credit in the journal, a rolled-back one has nothing. */
  ghost predicate Journaled(b: Books, tid: string)
    requires tid in b.transfers
  {
    var t := b.transfers[tid];
    if t.status == StatusCommitted then
      && t.from != t.to && t.amount > 0 && t.failAt == None
      && EntriesOf(b.entries, tid) == [Entry(tid, t.from, Debit, t.amount), Entry(tid, t.to, Credit, t.amount)]
    else
      EntriesOf(b.entries, tid) == []
  }

  ghost predicate LedgerInv(b: Books) {
    && (forall id :: id in b.accounts ==> Reconciled(b, id))
    && (forall tid :: tid in b.transfers ==> Journaled(b, tid))
    && (forall e :: e in b.entries ==> e.accountId in b.accounts && e.transferId in b.transfers)
  }

  lemma {:induction false} AddMissingKeeps(b: Books, id: string, a: Account)
    requires LedgerInv(b) && a.balance == Opening(a) && a.version == 1 && a.balance >= 0
    ensures LedgerInv(AddMissing(b, id, a))
  {
    var after := AddMissing(b, id, a);
    if id !in b.accounts {
      NothingJournaled(b.entries, id);
      assert Reconciled(after, id);
    }
    forall other | other in after.accounts && other != id ensures Reconciled(after, other) {
      assert Reconciled(b, other);
    }
    forall tid | tid in after.transfers ensures Journaled(after, tid) {
      assert Journaled(b, tid);
    }
  }

  lemma {:induction false} SeededKeeps(b: Books, merchants: seq<string>)
    requires LedgerInv(b)
    ensures LedgerInv(Seeded(b, merchants))
  {
    hide LedgerInv;
    if merchants == [] {
      AddMissingKeeps(b, PLATFORM_ACCOUNT, PlatformAccount());
    } else {
      var front, last := merchants[..|merchants| - 1], merchants[|merchants| - 1];
      SeededKeeps(b, front);
      AddMissingKeeps(Seeded(b, front), WalletId(last), Wallet(last));
    }
  }

  lemma {:induction false} RecordedKeeps(b: Books, row: Transfer, tid: string)
    requires LedgerInv(b) && tid !in b.transfers && row.status == StatusRolledBack
    ensures LedgerInv(Recorded(b, row, tid))
  {
    var after := Recorded(b, row, tid);
    NothingTransferred(b.entries, tid);
    forall id | id in after.accounts ensures Reconciled(after, id) {
      assert Reconciled(b, id);
    }
    forall other | other in after.transfers && other != tid ensures Journaled(after, other) {
      assert Journaled(b, other);
    }
  }

  lemma {:induction false} PostedEntries(b: Books, r: Request, tid: string, id: string, other: string)
    requires r.from in b.accounts && r.to in b.accounts
    ensures var after, debit, credit :=
              Posted(b, r, tid).entries, Entry(tid, r.from, Debit, r.amount), Entry(tid, r.to, Credit, r.amount);
            && Net(after, id) == Net(b.entries, id) + Change(debit, id) + Change(credit, id)
            && EntryCount(after, id)
               == EntryCount(b.entries, id) + (if id == r.from then 1 else 0) + (if id == r.to then 1 else 0)
            && EntriesOf(after, other) == EntriesOf(b.entries, other) + (if other == tid then [debit, credit] else [])
  {
    var debit, credit := Entry(tid, r.from, Debit, r.amount), Entry(tid, r.to, Credit, r.amount);
    JournalNext(b.entries, debit, id, other);
    JournalNext(b.entries + [debit], credit, id, other);
    assert b.entries + [debit, credit] == b.entries + [debit] + [credit];
  }

  lemma {:induction false} PostedReconciles(b: Books, r: Request, tid: string, id: string)
    requires Payable(b, r) && r.amount > 0 && id in b.accounts && Reconciled(b, id)
    ensures Reconciled(Posted(b, r, tid), id)
  {
    PostedEntries(b, r, tid, id, tid);
    hide EntriesOf, Net, EntryCount;
  }

  lemma {:induction false} PostedJournals(b: Books, r: Request, tid: string, other: string)
    requires Payable(b, r) && r.amount > 0 && r.failAt == None && tid !in b.transfers
    requires forall e :: e in b.entries ==> e.transferId in b.transfers
    requires other in b.transfers ==> Journaled(b, other)
    requires other in Posted(b, r, tid).transfers
    ensures Journaled(Posted(b, r, tid), other)
  {
    NothingTransferred(b.entries, tid);
    PostedEntries(b, r, tid, r.from, other);
    hide EntriesOf, Net, EntryCount;
  }

  lemma {:induction false} PostedEntriesResolve(b: Books, r: Request, tid: string)
    requires Payable(b, r)
    requires forall e :: e in b.entries ==> e.accountId in b.accounts && e.transferId in b.transfers
    ensures var after := Posted(b, r, tid);
            && after.accounts.Keys == b.accounts.Keys
            && forall e :: e in after.entries ==> e.accountId in after.accounts && e.transferId in after.transfers
  {
  }

  lemma {:induction false} PostedKeeps(b: Books, r: Request, tid: string)
    requires LedgerInv(b) && Payable(b, r) && r.amount > 0 && r.failAt == None && tid !in b.transfers
    ensures LedgerInv(Posted(b, r, tid))
  {
    var after := Posted(b, r, tid);
    PostedEntriesResolve(b, r, tid);
    hide Reconciled, Journaled, Posted;
    forall id | id in after.accounts ensures Reconciled(after, id) {
      assert id in after.accounts.Keys;
      PostedReconciles(b, r, tid, id);
    }
    forall other | other in after.transfers ensures Journaled(after, other) {
      PostedJournals(b, r, tid, other);
    }
  }

  // ----- money

  function BalanceAt(b: Books): string -> int {
    (id: string) => BalanceOf(b, id)
  }

  function OpeningAt(b: Books): string -> int {
    (id: string) => if id in b.accounts then Opening(b.accounts[id]) else 0
  }

  /** All the money in the books, and all the money accounts were opened with. */
  ghost function Money(b: Books): int {
    SetSum(b.accounts.Keys, BalanceAt(b))
  }

  ghost function OpeningMoney(b: Books): int {
    SetSum(b.accounts.Keys, OpeningAt(b))
  }

  lemma {:induction false} SumsAgreeButForTwo(s: set<string>, f: string -> int, g: string -> int, x: string, y: string)
    requires x in s && y in s && x != y
    requires forall k :: k in s && k != x && k != y ==> f(k) == g(k)
    requires f(x) + f(y) == g(x) + g(y)
    ensures SetSum(s, f) == SetSum(s, g)
  {
    SetSumRemove(s, x, f);
    SetSumRemove(s, x, g);
    SetSumRemove(s - {x}, y, f);
    SetSumRemove(s - {x}, y, g);
    SetSumSame(s - {x} - {y}, f, g);
  }

  lemma {:induction false} PostingConservesMoney(b: Books, r: Request, tid: string)
    requires Payable(b, r)
    ensures Money(Posted(b, r, tid)) == Money(b)
    ensures OpeningMoney(Posted(b, r, tid)) == OpeningMoney(b)
  {
    var after := Posted(b, r, tid);
    assert after.accounts.Keys == b.accounts.Keys;
    SumsAgreeButForTwo(b.accounts.Keys, BalanceAt(after), BalanceAt(b), r.from, r.to);
    SetSumSame(b.accounts.Keys, OpeningAt(after), OpeningAt(b));
  }

  lemma {:induction false} AddingAddsItsOpening(b: Books, id: string, a: Account)
    requires a.balance == Opening(a)
    ensures var after := AddMissing(b, id, a);
            && Money(after) - Money(b) == OpeningMoney(after) - OpeningMoney(b)
            && Money(after) == Money(b) + (if id in b.accounts then 0 else Opening(a))
  {
    var after := AddMissing(b, id, a);
    if id !in b.accounts {
      assert after.accounts.Keys - {id} == b.accounts.Keys;
      SetSumRemove(after.accounts.Keys, id, BalanceAt(after));
      SetSumRemove(after.accounts.Keys, id, OpeningAt(after));
      SetSumSame(b.accounts.Keys, BalanceAt(after), BalanceAt(b));
      SetSumSame(b.accounts.Keys, OpeningAt(after), OpeningAt(b));
    }
  }

  lemma {:induction false} SeedingAddsOpenings(b: Books, merchants: seq<string>)
    ensures Money(Seeded(b, merchants)) - Money(b) == OpeningMoney(Seeded(b, merchants)) - OpeningMoney(b)
  {
    if merchants == [] {
      AddingAddsItsOpening(b, PLATFORM_ACCOUNT, PlatformAccount());
    } else {
      var front, last := merchants[..|merchants| - 1], merchants[|merchants| - 1];
      SeedingAddsOpenings(b, front);
      AddingAddsItsOpening(Seeded(b, front), WalletId(last), Wallet(last));
    }
  }

  /** Whatever a transfer does, the money after it is the money the seeding left. */
  lemma {:induction false} TransferConservesMoney(b: Books, r: Request, tid: string, commitOk: bool, persistOk: bool)
    ensures Money(Transact(b, r, tid, commitOk, persistOk).0) == Money(b)
    ensures OpeningMoney(Transact(b, r, tid, commitOk, persistOk).0) == OpeningMoney(b)
  {
    var after := Transact(b, r, tid, commitOk, persistOk).0;
    if FailureOf(b, r).None? {
      if after != b {
        PostingConservesMoney(b, r, tid);
      }
    } else {
      assert after.accounts == b.accounts;
      SetSumSame(b.accounts.Keys, BalanceAt(after), BalanceAt(b));
      SetSumSame(b.accounts.Keys, OpeningAt(after), OpeningAt(b));
    }
  }

  /** Seeding twice is seeding once, and it never touches an account that exists. */
  lemma {:induction false} SeedingIsIdempotent(b: Books, merchants: seq<string>)
    ensures forall id :: id in b.accounts ==>
              id in Seeded(b, merchants).accounts && Seeded(b, merchants).accounts[id] == b.accounts[id]
    ensures Seeded(Seeded(b, merchants), merchants) == Seeded(b, merchants)
  {
    SeedingKeepsAccounts(b, merchants);
    SeedingOpensAll(b, merchants);
    SeedingNothing(Seeded(b, merchants), merchants);
  }

  lemma {:induction false} SeedingKeepsAccounts(b: Books, merchants: seq<string>)
    ensures forall id :: id in b.accounts ==>
              id in Seeded(b, merchants).accounts && Seeded(b, merchants).accounts[id] == b.accounts[id]
  {
    if merchants != [] {
      SeedingKeepsAccounts(b, merchants[..|merchants| - 1]);
    }
  }

  lemma {:induction false} SeedingOpensAll(b: Books, merchants: seq<string>)
    ensures PLATFORM_ACCOUNT in Seeded(b, merchants).accounts
    ensures forall m :: m in merchants ==> WalletId(m) in Seeded(b, merchants).accounts
  {
    if merchants != [] {
      SeedingOpensAll(b, merchants[..|merchants| - 1]);
    }
  }

  lemma {:induction false} SeedingNothing(b: Books, merchants: seq<string>)
    requires PLATFORM_ACCOUNT in b.accounts
    requires forall m :: m in merchants ==> WalletId(m) in b.accounts
    ensures Seeded(b, merchants) == b
  {
    if merchants != [] {
      SeedingNothing(b, merchants[..|merchants| - 1]);
    }
  }

  // ----- every run

  datatype Op =
    | Seed(merchants: seq<string>)
    | Send(merchants: seq<string>, r: Request, tid: string, commitOk: bool, persistOk: bool)

  function Apply(b: Books, op: Op): Books {
    match op
    case Seed(merchants) => Seeded(b, merchants)
    case Send(merchants, r, tid, commitOk, persistOk) => Outcome(b, merchants, r, tid, commitOk, persistOk).0
  }

  function Run(ops: seq<Op>): Books {
    if ops == [] then NO_BOOKS else Apply(Run(ops[..|ops| - 1]), ops[|ops| - 1])
  }

  lemma {:induction false} TransactKeeps(b: Books, r: Request, tid: string, commitOk: bool, persistOk: bool)
    requires LedgerInv(b) && Acceptable(r)
    ensures LedgerInv(Transact(b, r, tid, commitOk, persistOk).0)
  {
    assert NoDebts(b) by {
      forall id | id in b.accounts ensures b.accounts[id].balance >= 0 {
        assert Reconciled(b, id);
      }
    }
    AssertAfterNeverFires(b, r);
    hide LedgerInv, NoDebts;
    if FailureOf(b, r).None? {
      if commitOk && tid !in b.transfers {
        PostedKeeps(b, r, tid);
      }
    } else if persistOk && tid !in b.transfers {
      RecordedKeeps(b, RefusedRow(b, r, FailureOf(b, r).value), tid);
    }
  }

  /** In every reachable ledger each account is its opening balance replayed through the journal, no balance is
      negative, committed transfers have exactly their two entries and rolled-back ones none, and all the money there
      is came in as opening balances. */
  lemma {:induction false} LedgerAlwaysReconciles(ops: seq<Op>)
    ensures LedgerInv(Run(ops))
    ensures Money(Run(ops)) == OpeningMoney(Run(ops))
  {
    if ops == [] {
      assert NO_BOOKS.accounts.Keys == {};
    } else {
      var before, op := Run(ops[..|ops| - 1]), ops[|ops| - 1];
      LedgerAlwaysReconciles(ops[..|ops| - 1]);
      hide LedgerInv, Money, OpeningMoney, Seeded, Transact;
      match op
      case Seed(merchants) =>
        SeededKeeps(before, merchants);
        SeedingAddsOpenings(before, merchants);
      case Send(merchants, r, tid, commitOk, persistOk) =>
        if Acceptable(r) {
          SeededKeeps(before, merchants);
          SeedingAddsOpenings(before, merchants);
          TransactKeeps(Seeded(before, merchants), r, tid, commitOk, persistOk);
          TransferConservesMoney(Seeded(before, merchants), r, tid, commitOk, persistOk);
        }
    }
  }

  // ----- which transfers commit

  /** The first seeding opens the wallet of every merchant, and the clearing account, with nothing in it. */
  lemma {:induction false} FirstSeedingOpensWallets(merchants: seq<string>)
    ensures forall m :: m in merchants ==>
              WalletId(m) in Seeded(NO_BOOKS, merchants).accounts
              && Seeded(NO_BOOKS, merchants).accounts[WalletId(m)] == Wallet(m)
    ensures forall id :: id in Seeded(NO_BOOKS, merchants).accounts && id != PLATFORM_ACCOUNT ==>
              exists m :: m in merchants && id == WalletId(m)
    ensures PLATFORM_ACCOUNT in Seeded(NO_BOOKS, merchants).accounts
    ensures Seeded(NO_BOOKS, merchants).accounts[PLATFORM_ACCOUNT] == PlatformAccount()
    ensures Seeded(NO_BOOKS, merchants).transfers == map[]
  {
    if merchants != [] {
      var front, last := merchants[..|merchants| - 1], merchants[|merchants| - 1];
      FirstSeedingOpensWallets(front);
      assert merchants == front + [last];
      assert WalletId(last)[|WalletId(last)| - 1] == 't' && PLATFORM_ACCOUNT[|PLATFORM_ACCOUNT| - 1] == 'g';
      forall m | m in front && WalletId(m) == WalletId(last) ensures m == last {
        assert m == WalletId(m)[..|WalletId(m)| - 7] && last == WalletId(last)[..|WalletId(last)| - 7];
      }
    }
  }

  /** Every account can take part in a transfer with every other. */
  ghost predicate AllOpen(b: Books) {
    forall id :: id in b.accounts ==> b.accounts[id].status == Active && b.accounts[id].currency == "INR"
  }

  lemma {:induction false} SeedingKeepsOpen(b: Books, merchants: seq<string>)
    requires AllOpen(b)
    ensures AllOpen(Seeded(b, merchants))
  {
    if merchants != [] {
      SeedingKeepsOpen(b, merchants[..|merchants| - 1]);
    }
  }

  lemma {:induction false} TransferKeepsOpen(b: Books, r: Request, tid: string, commitOk: bool, persistOk: bool)
    requires AllOpen(b)
    ensures AllOpen(Transact(b, r, tid, commitOk, persistOk).0)
  {
  }

  lemma {:induction false} AccountsStayOpen(ops: seq<Op>)
    ensures AllOpen(Run(ops))
  {
    if ops != [] {
      var before, op := Run(ops[..|ops| - 1]), ops[|ops| - 1];
      AccountsStayOpen(ops[..|ops| - 1]);
      hide AllOpen, Seeded, Transact;
      match op
      case Seed(merchants) => SeedingKeepsOpen(before, merchants);
      case Send(merchants, r, tid, commitOk, persistOk) =>
        if Acceptable(r) {
          SeedingKeepsOpen(before, merchants);
          TransferKeepsOpen(Seeded(before, merchants), r, tid, commitOk, persistOk);
        }
    }
  }

  /** On every ledger a history can lead to, a transfer commits exactly when it moves a positive amount that is there
      between two different existing accounts, nothing was injected, and the database takes a fresh id. */
  lemma {:induction false} ReachableTransferCommitsIff(ops: seq<Op>, merchants: seq<string>, r: Request, tid: string,
                                                       commitOk: bool, persistOk: bool)
    ensures var seeded := Seeded(Run(ops), merchants);
            var result := Outcome(Run(ops), merchants, r, tid, commitOk, persistOk).1;
            result.Ok? && result.value.status == StatusCommitted <==>
              && r.from != r.to && r.from in seeded.accounts && r.to in seeded.accounts
              && 0 < r.amount <= seeded.accounts[r.from].balance
              && r.failAt == None && commitOk && tid !in seeded.transfers
  {
    var b := Run(ops);
    AccountsStayOpen(ops);
    LedgerAlwaysReconciles(ops);
    SeedingKeepsOpen(b, merchants);
    assert NoDebts(b) by {
      forall id | id in b.accounts ensures b.accounts[id].balance >= 0 {
        assert Reconciled(b, id);
      }
    }
    AllOrNothing(b, merchants, r, tid, commitOk, persistOk);
    hide Seeded, Outcome, LedgerInv, Run, NoDebts;
  }

  /** Any merchant can pay out of a freshly seeded ledger to the clearing account, up to what its wallet opened with. */
  lemma {:induction false} FreshWalletPaysClearing(merchants: seq<string>, m: string, amount: int, tid: string,
                                                   persistOk: bool)
    requires m in merchants
    ensures var r := Request(WalletId(m), PLATFORM_ACCOUNT, amount, None);
            var (after, result) := Outcome(NO_BOOKS, merchants, r, tid, true, persistOk);
            && (result.Ok? && result.value.status == StatusCommitted <==> 0 < amount <= StartingBalance(m))
            && (0 < amount <= StartingBalance(m) ==>
                  && BalanceOf(after, WalletId(m)) == StartingBalance(m) - amount
                  && BalanceOf(after, PLATFORM_ACCOUNT) == amount)
  {
    var r := Request(WalletId(m), PLATFORM_ACCOUNT, amount, None);
    assert WalletId(m)[|WalletId(m)| - 1] == 't' && PLATFORM_ACCOUNT[|PLATFORM_ACCOUNT| - 1] == 'g';
    FirstSeedingOpensWallets(merchants);
    AllOrNothing(NO_BOOKS, merchants, r, tid, true, persistOk);
    hide Seeded, Outcome, StartingBalance, WalletId;
  }
}
