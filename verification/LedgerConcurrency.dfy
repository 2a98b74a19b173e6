/** Any number of transfers at once, interleaved debit by debit and credit by credit, under the isolation contract that
    the database documents: an open write either excludes a conflicting one or makes it abort. */
module LedgerConcurrency {
  import opened Wrappers
  import opened LedgerBooks
  import opened LedgerRuns
  import Sums

  /** `Locking`: the rows a transfer reads stay closed to others until it ends. `Validating`: rows stay open, and a
      commit whose rows have moved on since they were read is refused. `Unguarded` has no contract at all. */
  datatype Mode = Locking | Validating | Unguarded

  /** `SourceRead` lies between the two reads; `found` says whether there was a source row to read. */
  datatype Phase =
    | Opened | SourceRead(found: bool) | Checked | DebitDone | CreditDone | JournalDone | Verified
    | Failed(failure: Failure)

  /** An open transaction: what it read, and its private copies of the two rows and of its journal entries. */
  datatype Txn = Txn(
    r: Request, tid: string, phase: Phase, readFrom: Account, readTo: Account, from: Account, to: Account,
    entries: seq<Entry>)

  /** What became visible to others, in the order it did. */
  datatype Item =
    | Settled(r: Request, tid: string)
    | Noted(row: Transfer, tid: string)
    | SeededWith(merchants: seq<string>)

  datatype System = System(mode: Mode, committed: Books, open: map<nat, Txn>, history: seq<Item>)

  datatype Action =
    | SeedAccounts(merchants: seq<string>)
    | Start(i: nat, r: Request, tid: string)
    | Advance(i: nat)
    | TryCommit(i: nat)
    | Abort(i: nat)
    | Record(i: nat, persistOk: bool)

  predicate Holding(t: Txn) {
    t.phase in {Checked, DebitDone, CreditDone, JournalDone, Verified}
  }

  predicate Overlap(a: Request, b: Request) {
    a.from == b.from || a.from == b.to || a.to == b.from || a.to == b.to
  }

  /** The rows a transaction has read, and under `Locking` keeps to itself. */
  predicate Holds(t: Txn, id: string) {
    || (t.phase == SourceRead(true) && id == t.r.from)
    || (Holding(t) && (id == t.r.from || id == t.r.to))
  }

  predicate Blocked(s: System, i: nat, id: string) {
    s.mode == Locking && exists j :: j in s.open && j != i && Holds(s.open[j], id)
  }

  /** Both rows are still in the version that was read. */
  predicate Current(b: Books, t: Txn) {
    && t.r.from in b.accounts && b.accounts[t.r.from].version == t.readFrom.version
    && t.r.to in b.accounts && b.accounts[t.r.to].version == t.readTo.version
  }

  function InjectOr(t: Txn, point: FailPoint, next: Phase): Txn {
    t.(phase := if t.r.failAt == Some(point) then Failed(Injected(point)) else next)
  }

  /** The next step of an open transaction. It reads the committed source row, then the committed destination row, and
      waits for either while another transaction holds it; after that it works on its own copies. */
  function Advanced(s: System, i: nat): Txn
    requires i in s.open
  {
    var t := s.open[i];
    match t.phase
    case Opened =>
      if t.r.from == t.r.to then t.(phase := Failed(Inconsistent(SameAccount)))
      else if Blocked(s, i, t.r.from) then t
      else if t.r.from !in s.committed.accounts then t.(phase := SourceRead(false))
      else t.(phase := SourceRead(true), readFrom := s.committed.accounts[t.r.from])
    case SourceRead(found) =>
      if Blocked(s, i, t.r.to) then t
      else if !found || t.r.to !in s.committed.accounts then t.(phase := Failed(Inconsistent(NotFound)))
      else
        var to := s.committed.accounts[t.r.to];
        var refused := CheckRows(t.readFrom, to, t.r.amount);
        if refused.Some? then t.(phase := Failed(Inconsistent(refused.value)))
        else t.(phase := Checked, readTo := to, from := t.readFrom, to := to)
    case Checked =>
      InjectOr(t.(from := Debited(t.from, t.r.amount)), AfterDebit, DebitDone)
    case DebitDone =>
      InjectOr(t.(to := Credited(t.to, t.r.amount)), AfterCredit, CreditDone)
    case CreditDone =>
      InjectOr(t.(entries := [Entry(t.tid, t.r.from, Debit, t.r.amount), Entry(t.tid, t.r.to, Credit, t.r.amount)]),
               AfterLedger, JournalDone)
    case JournalDone =>
      var broken := AssertAfter(t.from.balance, t.to.balance, t.readFrom.balance, t.readTo.balance, t.r.amount);
      if broken.Some? then t.(phase := Failed(Inconsistent(broken.value)))
      else InjectOr(t, BeforeCommit, Verified)
    case Verified => t
    case Failed(_) => t
  }

  /** A commit writes the two private rows over the committed ones and appends the rest. */
  function Written(b: Books, t: Txn): Books {
    Books(
      b.accounts[t.r.from := t.from][t.r.to := t.to],
      b.transfers[t.tid := Transfer(t.r.from, t.r.to, t.r.amount, StatusCommitted, t.r.failAt, None,
                                    t.readFrom.balance, t.readTo.balance, t.from.balance, t.to.balance)],
      b.entries + t.entries,
      b.audits + AuditsFor(t.tid, [AuditBegin, AuditDebit, AuditCredit, AuditLedger, AuditCommit]))
  }

  /** The row that records a rollback: before-balances as they were read, or as they stand when the checks refused. */
  function RolledBackRow(b: Books, t: Txn, failure: Failure): Transfer {
    var after := RefusedRow(b, t.r, failure);
    var before := if StepsBefore(failure) == 1 then (0, 0) else (t.readFrom.balance, t.readTo.balance);
    if before == (0, 0) then after else after.(beforeFrom := before.0, beforeTo := before.1)
  }

  predicate MayCommit(s: System, t: Txn) {
    && t.phase == Verified
    && t.tid !in s.committed.transfers
    && (s.mode == Validating ==> Current(s.committed, t))
  }

  /** One action of the scheduler; an action that is not possible changes nothing. */
  function Act(s: System, a: Action): System {
    match a
    case SeedAccounts(merchants) =>
      s.(committed := Seeded(s.committed, merchants), history := s.history + [SeededWith(merchants)])
    case Start(i, r, tid) =>
      if i in s.open || !Acceptable(r) then s else
      var nobody := PlatformAccount();
      s.(open := s.open[i := Txn(r, tid, Opened, nobody, nobody, nobody, nobody, [])])
    case Advance(i) =>
      if i !in s.open then s else s.(open := s.open[i := Advanced(s, i)])
    case TryCommit(i) =>
      if i !in s.open || !MayCommit(s, s.open[i]) then s else
      var t := s.open[i];
      s.(committed := Written(s.committed, t), open := s.open - {i}, history := s.history + [Settled(t.r, t.tid)])
    case Abort(i) =>
      s.(open := s.open - {i})
    case Record(i, persistOk) =>
      if i !in s.open || !s.open[i].phase.Failed? then s else
      var t := s.open[i];
      if !persistOk || t.tid in s.committed.transfers then s.(open := s.open - {i}) else
      var row := RolledBackRow(s.committed, t, t.phase.failure);
      s.(committed := Recorded(s.committed, row, t.tid), open := s.open - {i},
         history := s.history + [Noted(row, t.tid)])
  }

  function Begun(mode: Mode, books: Books): System {
    System(mode, books, map[], [])
  }

  function Interleave(s: System, actions: seq<Action>): System {
    if actions == [] then s else Act(Interleave(s, actions[..|actions| - 1]), actions[|actions| - 1])
  }

  // ----- the serial order

  function Effect(b: Books, item: Item): Books {
    match item
    case Settled(r, tid) => Transact(b, r, tid, true, true).0
    case Noted(row, tid) => Recorded(b, row, tid)
    case SeededWith(merchants) => Seeded(b, merchants)
  }

  /** The history replayed one item at a time: a settled transfer is a whole sequential transfer. */
  function Replay(b: Books, history: seq<Item>): Books {
    if history == [] then b else Effect(Replay(b, history[..|history| - 1]), history[|history| - 1])
  }

  /** Run alone against these books, the transfer commits. */
  predicate CommitsAlone(b: Books, r: Request, tid: string) {
    var result := Transact(b, r, tid, true, true).1;
    result.Ok? && result.value.status == StatusCommitted
  }

  /** Every settled transfer of the history commits at its turn of the serial replay. */
  ghost predicate Serial(b: Books, history: seq<Item>) {
    forall k :: 0 <= k < |history| && history[k].Settled? ==>
      CommitsAlone(Replay(b, history[..k]), history[k].r, history[k].tid)
  }

  // ----- the invariant

  /** The committed row is the one read, or a later version of it. */
  ghost predicate Follows(b: Books, id: string, read: Account) {
    && id in b.accounts
    && b.accounts[id].version >= read.version
    && (b.accounts[id].version == read.version ==> b.accounts[id] == read)
  }

  ghost predicate ReadsPayable(t: Txn) {
    && t.r.from != t.r.to
    && t.readFrom.status == Active && t.readTo.status == Active
    && t.readFrom.currency == t.readTo.currency
    && t.r.amount <= t.readFrom.balance
  }

  /** The private copies are what was read, changed by the steps taken so far. */
  ghost predicate Workspace(t: Txn) {
    && t.from == (if t.phase == Checked then t.readFrom else Debited(t.readFrom, t.r.amount))
    && t.to == (if t.phase in {Checked, DebitDone} then t.readTo else Credited(t.readTo, t.r.amount))
    && t.entries == (if t.phase in {JournalDone, Verified} then
                       [Entry(t.tid, t.r.from, Debit, t.r.amount), Entry(t.tid, t.r.to, Credit, t.r.amount)] else [])
    && (t.phase != Checked ==> t.r.failAt != Some(AfterDebit))
    && (t.phase in {CreditDone, JournalDone, Verified} ==> t.r.failAt != Some(AfterCredit))
    && (t.phase in {JournalDone, Verified} ==> t.r.failAt != Some(AfterLedger))
    && (t.phase == Verified ==> t.r.failAt == None)
  }

  ghost predicate TxnInv(mode: Mode, b: Books, t: Txn) {
    && Acceptable(t.r)
    && (t.phase == Opened || t.phase.SourceRead? ==> t.entries == [])
    && (t.phase.SourceRead? ==> t.r.from != t.r.to)
    && (t.phase == SourceRead(true) ==>
          && Follows(b, t.r.from, t.readFrom)
          && (mode == Locking ==> b.accounts[t.r.from].version == t.readFrom.version))
    && (Holding(t) ==>
          && ReadsPayable(t) && Workspace(t)
          && Follows(b, t.r.from, t.readFrom) && Follows(b, t.r.to, t.readTo)
          && (mode == Locking ==> Current(b, t)))
  }

  /** No two open transactions hold the same row. */
  ghost predicate Disjoint(open: map<nat, Txn>) {
    forall i, j, id :: i in open && j in open && i != j && Holds(open[i], id) ==> !Holds(open[j], id)
  }

  /** The invariant of all three modes, kept without a contract as long as what commits is current. */
  ghost predicate SystemInv(start: Books, s: System) {
    && LedgerInv(s.committed)
    && s.committed == Replay(start, s.history)
    && Serial(start, s.history)
    && (forall i :: i in s.open ==> TxnInv(s.mode, s.committed, s.open[i]))
    && (s.mode == Locking ==> Disjoint(s.open))
  }

  lemma {:induction false} ReplayNext(b: Books, history: seq<Item>, item: Item)
    requires Serial(b, history)
    requires item.Settled? ==> CommitsAlone(Replay(b, history), item.r, item.tid)
    ensures Serial(b, history + [item])
    ensures Replay(b, history + [item]) == Effect(Replay(b, history), item)
  {
    var longer := history + [item];
    assert longer[..|longer| - 1] == history;
    forall k | 0 <= k < |longer| && longer[k].Settled?
      ensures CommitsAlone(Replay(b, longer[..k]), longer[k].r, longer[k].tid)
    {
      if k < |history| {
        assert longer[..k] == history[..k];
      }
    }
  }

  /** The action is a commit, and it takes effect. */
  predicate Commits(s: System, a: Action) {
    a.TryCommit? && a.i in s.open && MayCommit(s, s.open[a.i])
  }

  predicate Safe(s: System, a: Action) {
    Commits(s, a) ==> Current(s.committed, s.open[a.i])
  }

  /** A commit the contract allows, or one that is current without it, is the sequential transfer, run on the committed
      books as they are now. */
  lemma {:induction false} CommitIsSequential(s: System, t: Txn)
    requires LedgerInv(s.committed) && TxnInv(s.mode, s.committed, t) && MayCommit(s, t)
    requires s.mode == Unguarded ==> Current(s.committed, t)
    ensures Written(s.committed, t) == Posted(s.committed, t.r, t.tid)
    ensures Transact(s.committed, t.r, t.tid, true, true).0 == Posted(s.committed, t.r, t.tid)
    ensures CommitsAlone(s.committed, t.r, t.tid)
    ensures Payable(s.committed, t.r)
  {
    assert s.committed.accounts[t.r.from] == t.readFrom && s.committed.accounts[t.r.to] == t.readTo;
    assert NoDebts(s.committed) by {
      forall id | id in s.committed.accounts ensures s.committed.accounts[id].balance >= 0 {
        assert Reconciled(s.committed, id);
      }
    }
    AssertAfterNeverFires(s.committed, t.r);
  }

  /** Another transfer's commit leaves what a transaction read current, or visibly out of date. */
  lemma {:induction false} CommitKeepsTxn(mode: Mode, b: Books, r: Request, tid: string, t: Txn)
    requires Payable(b, r) && TxnInv(mode, b, t)
    requires mode == Locking ==> !Holds(t, r.from) && !Holds(t, r.to)
    ensures TxnInv(mode, Posted(b, r, tid), t)
  {
  }

  lemma {:induction false} SeedingKeepsTxn(mode: Mode, b: Books, merchants: seq<string>, t: Txn)
    requires TxnInv(mode, b, t)
    ensures TxnInv(mode, Seeded(b, merchants), t)
  {
    SeedingKeepsAccounts(b, merchants);
  }

  lemma {:induction false} NoPointLeft(r: Request)
    requires Acceptable(r)
    requires r.failAt != Some(AfterDebit) && r.failAt != Some(AfterCredit) && r.failAt != Some(AfterLedger)
    requires r.failAt != Some(BeforeCommit)
    ensures r.failAt == None
  {
    if r.failAt.Some? {
      match r.failAt.value
      case AfterDebit =>
      case AfterCredit =>
      case AfterLedger =>
      case BeforeCommit =>
      case UnknownPoint =>
    }
  }

  lemma {:induction false} AdvanceKeepsTxn(s: System, i: nat)
    requires i in s.open && TxnInv(s.mode, s.committed, s.open[i])
    ensures TxnInv(s.mode, s.committed, Advanced(s, i))
    ensures Advanced(s, i).r == s.open[i].r
    ensures forall id :: Holds(Advanced(s, i), id) ==> Holds(s.open[i], id) || !Blocked(s, i, id)
  {
    var t := s.open[i];
    if t.phase == JournalDone && t.r.failAt != Some(BeforeCommit) {
      NoPointLeft(t.r);
    }
    hide Blocked;
  }

  lemma {:induction false} AdvanceKeeps(start: Books, s: System, i: nat)
    requires SystemInv(start, s) && i in s.open
    ensures SystemInv(start, Act(s, Advance(i)))
  {
    AdvanceKeepsTxn(s, i);
    hide Advanced, TxnInv, LedgerInv, Serial, Replay;
  }

  lemma {:induction false} SettlingKeeps(start: Books, s: System, r: Request, tid: string)
    requires SystemInv(start, s) && Payable(s.committed, r) && r.amount > 0 && r.failAt == None
    requires tid !in s.committed.transfers && CommitsAlone(s.committed, r, tid)
    requires Transact(s.committed, r, tid, true, true).0 == Posted(s.committed, r, tid)
    requires s.mode == Locking ==> forall j :: j in s.open ==> !Holds(s.open[j], r.from) && !Holds(s.open[j], r.to)
    ensures SystemInv(start, s.(committed := Posted(s.committed, r, tid), history := s.history + [Settled(r, tid)]))
  {
    PostedKeeps(s.committed, r, tid);
    ReplayNext(start, s.history, Settled(r, tid));
    hide LedgerInv, Serial, Replay, TxnInv, Transact, Posted;
    forall j | j in s.open ensures TxnInv(s.mode, Posted(s.committed, r, tid), s.open[j]) {
      CommitKeepsTxn(s.mode, s.committed, r, tid, s.open[j]);
    }
  }

  lemma {:induction false} CommitKeeps(start: Books, s: System, i: nat)
    requires SystemInv(start, s) && i in s.open && MayCommit(s, s.open[i])
    requires s.mode == Unguarded ==> Current(s.committed, s.open[i])
    ensures SystemInv(start, Act(s, TryCommit(i)))
  {
    var t := s.open[i];
    CommitIsSequential(s, t);
    assert t.r.amount > 0 && t.r.failAt == None;
    RemovalKeeps(start, s, i);
    hide LedgerInv, TxnInv, Serial, Replay, Transact, Posted, Written, CommitsAlone, Current;
    if s.mode == Locking {
      OthersDoNotHold(s, i);
    }
    SettlingKeeps(start, s.(open := s.open - {i}), t.r, t.tid);
  }

  lemma {:induction false} OthersDoNotHold(s: System, i: nat)
    requires Disjoint(s.open) && i in s.open && s.open[i].phase == Verified
    ensures forall j :: j in s.open && j != i ==>
              !Holds(s.open[j], s.open[i].r.from) && !Holds(s.open[j], s.open[i].r.to)
  {
    assert Holds(s.open[i], s.open[i].r.from) && Holds(s.open[i], s.open[i].r.to);
  }

  lemma {:induction false} SeedKeeps(start: Books, s: System, merchants: seq<string>)
    requires SystemInv(start, s)
    ensures SystemInv(start, Act(s, SeedAccounts(merchants)))
  {
    var next := Act(s, SeedAccounts(merchants));
    SeededKeeps(s.committed, merchants);
    ReplayNext(start, s.history, SeededWith(merchants));
    forall j | j in next.open ensures TxnInv(next.mode, next.committed, next.open[j]) {
      SeedingKeepsTxn(s.mode, s.committed, merchants, s.open[j]);
    }
  }

  /** A row that records a rollback touches no account. */
  lemma {:induction false} RecordingKeepsTxn(mode: Mode, b: Books, row: Transfer, tid: string, t: Txn)
    requires TxnInv(mode, b, t)
    ensures TxnInv(mode, Recorded(b, row, tid), t)
  {
  }

  lemma {:induction false} RemovalKeeps(start: Books, s: System, i: nat)
    requires SystemInv(start, s)
    ensures SystemInv(start, s.(open := s.open - {i}))
  {
    hide LedgerInv, Serial, Replay, TxnInv;
  }

  lemma {:induction false} RecordingKeeps(start: Books, s: System, row: Transfer, tid: string)
    requires SystemInv(start, s) && tid !in s.committed.transfers && row.status == StatusRolledBack
    ensures SystemInv(start, s.(committed := Recorded(s.committed, row, tid), history := s.history + [Noted(row, tid)]))
  {
    RecordedKeeps(s.committed, row, tid);
    ReplayNext(start, s.history, Noted(row, tid));
    hide LedgerInv, Serial, Replay, TxnInv, Recorded;
    forall j | j in s.open ensures TxnInv(s.mode, Recorded(s.committed, row, tid), s.open[j]) {
      RecordingKeepsTxn(s.mode, s.committed, row, tid, s.open[j]);
    }
  }

  lemma {:induction false} RecordKeeps(start: Books, s: System, i: nat, persistOk: bool)
    requires SystemInv(start, s) && i in s.open && s.open[i].phase.Failed?
    ensures SystemInv(start, Act(s, Record(i, persistOk)))
  {
    var t := s.open[i];
    var row := RolledBackRow(s.committed, t, t.phase.failure);
    hide SystemInv;
    if persistOk && t.tid !in s.committed.transfers {
      RecordingKeeps(start, s, row, t.tid);
      var recorded := s.(committed := Recorded(s.committed, row, t.tid), history := s.history + [Noted(row, t.tid)]);
      RemovalKeeps(start, recorded, i);
    } else {
      RemovalKeeps(start, s, i);
    }
  }

  lemma {:induction false} ActKeeps(start: Books, s: System, a: Action)
    requires SystemInv(start, s) && (s.mode == Unguarded ==> Safe(s, a))
    ensures SystemInv(start, Act(s, a)) && Act(s, a).mode == s.mode
  {
    hide LedgerInv, Serial, Replay, Seeded;
    match a
    case SeedAccounts(merchants) => SeedKeeps(start, s, merchants);
    case Start(i, r, tid) =>
    case Advance(i) =>
      if i in s.open {
        AdvanceKeeps(start, s, i);
      }
    case TryCommit(i) =>
      if i in s.open && MayCommit(s, s.open[i]) {
        CommitKeeps(start, s, i);
      }
    case Abort(i) => RemovalKeeps(start, s, i);
    case Record(i, persistOk) =>
      if i in s.open && s.open[i].phase.Failed? {
        RecordKeeps(start, s, i, persistOk);
      }
  }

  /** The system before action n. */
  function Before(mode: Mode, start: Books, actions: seq<Action>, n: nat): System
    requires n <= |actions|
  {
    Interleave(Begun(mode, start), actions[..n])
  }

  /** Every commit that took effect found both rows as it had read them. */
  ghost predicate CommitsAreCurrent(mode: Mode, start: Books, actions: seq<Action>) {
    forall n: nat :: n < |actions| ==> Safe(Before(mode, start, actions, n), actions[n])
  }

  lemma {:induction false} CurrentSoFar(mode: Mode, start: Books, actions: seq<Action>, m: nat)
    requires m <= |actions|
    ensures CommitsAreCurrent(mode, start, actions) ==> CommitsAreCurrent(mode, start, actions[..m])
    ensures forall n: nat :: n <= m ==> Before(mode, start, actions[..m], n) == Before(mode, start, actions, n)
  {
    hide Safe, Interleave;
    forall n: nat | n <= m ensures Before(mode, start, actions[..m], n) == Before(mode, start, actions, n) {
      assert actions[..m][..n] == actions[..n];
    }
    if CommitsAreCurrent(mode, start, actions) {
      forall n: nat | n < m ensures Safe(Before(mode, start, actions[..m], n), actions[..m][n]) {
        assert Safe(Before(mode, start, actions, n), actions[n]);
      }
    }
  }

  lemma {:induction false} InterleavingKeeps(mode: Mode, start: Books, actions: seq<Action>)
    requires LedgerInv(start) && (mode == Unguarded ==> CommitsAreCurrent(mode, start, actions))
    ensures SystemInv(start, Interleave(Begun(mode, start), actions))
    ensures Interleave(Begun(mode, start), actions).mode == mode
  {
    if actions != [] {
      hide SystemInv, LedgerInv, Act, Safe;
      var m := |actions| - 1;
      CurrentSoFar(mode, start, actions, m);
      InterleavingKeeps(mode, start, actions[..m]);
      assert mode == Unguarded ==> Safe(Before(mode, start, actions, m), actions[m]);
      ActKeeps(start, Interleave(Begun(mode, start), actions[..m]), actions[m]);
    }
  }

  /** Serializability. Whatever the interleaving, the injected failures and the aborts, the committed books are those of
      running the settled transfers one at a time, in the order they committed, and each of them commits there too. */
  lemma {:induction false} InterleavingsAreSerial(mode: Mode, start: Books, actions: seq<Action>)
    requires mode != Unguarded && LedgerInv(start)
    ensures var s := Interleave(Begun(mode, start), actions);
            && s.committed == Replay(start, s.history)
            && Serial(start, s.history)
            && LedgerInv(s.committed)
  {
    InterleavingKeeps(mode, start, actions);
  }

  lemma {:induction false} ReplayConservesMoney(start: Books, history: seq<Item>)
    requires Money(start) == OpeningMoney(start)
    ensures Money(Replay(start, history)) == OpeningMoney(Replay(start, history))
  {
    if history != [] {
      var before := Replay(start, history[..|history| - 1]);
      ReplayConservesMoney(start, history[..|history| - 1]);
      hide Money, OpeningMoney;
      match history[|history| - 1]
      case Settled(r, tid) => TransferConservesMoney(before, r, tid, true, true);
      case Noted(row, tid) =>
        var recorded := Recorded(before, row, tid);
        RecordingMovesNoMoney(before, row, tid);
      case SeededWith(merchants) => SeedingAddsOpenings(before, merchants);
    }
  }

  lemma {:induction false} RecordingMovesNoMoney(b: Books, row: Transfer, tid: string)
    ensures Money(Recorded(b, row, tid)) == Money(b)
    ensures OpeningMoney(Recorded(b, row, tid)) == OpeningMoney(b)
  {
    var after := Recorded(b, row, tid);
    Sums.SetSumSame(b.accounts.Keys, BalanceAt(after), BalanceAt(b));
    Sums.SetSumSame(b.accounts.Keys, OpeningAt(after), OpeningAt(b));
  }

  /** No interleaving creates or destroys money, and no balance is ever negative. */
  lemma {:induction false} InterleavingsConserveMoney(mode: Mode, start: Books, actions: seq<Action>)
    requires mode != Unguarded && LedgerInv(start) && Money(start) == OpeningMoney(start)
    ensures var committed := Interleave(Begun(mode, start), actions).committed;
            && Money(committed) == OpeningMoney(committed)
            && NoDebts(committed)
  {
    InterleavingsAreSerial(mode, start, actions);
    var s := Interleave(Begun(mode, start), actions);
    ReplayConservesMoney(start, s.history);
    forall id | id in s.committed.accounts ensures s.committed.accounts[id].balance >= 0 {
      assert Reconciled(s.committed, id);
    }
  }

  /** A transfer that reached its commit under locks is never refused for a conflict: only a clash of ids stops it. */
  lemma {:induction false} LocksMakeCommitsSafe(start: Books, actions: seq<Action>, i: nat)
    requires LedgerInv(start)
    requires var s := Interleave(Begun(Locking, start), actions);
             i in s.open && s.open[i].phase == Verified && s.open[i].tid !in s.committed.transfers
    ensures var s := Interleave(Begun(Locking, start), actions);
            && Current(s.committed, s.open[i])
            && Act(s, TryCommit(i)).committed == Posted(s.committed, s.open[i].r, s.open[i].tid)
  {
    InterleavingKeeps(Locking, start, actions);
    var s := Interleave(Begun(Locking, start), actions);
    assert TxnInv(s.mode, s.committed, s.open[i]);
    CommitIsSequential(s, s.open[i]);
  }

  /** Opposite transfers can each hold the row the other waits for; aborting one lets the other go on. */
  lemma {:induction false} OppositeTransfersBlock(s: System, i: nat, j: nat)
    requires s.mode == Locking && i in s.open && j in s.open && i != j
    requires s.open[i].phase == SourceRead(true) == s.open[j].phase
    requires s.open[i].r.from == s.open[j].r.to && s.open[i].r.to == s.open[j].r.from
    requires Disjoint(s.open)
    ensures Act(s, Advance(i)) == s && Act(s, Advance(j)) == s
    ensures Act(Act(s, Abort(j)), Advance(i)).open[i] != s.open[i]
  {
    assert Holds(s.open[j], s.open[i].r.to) && Holds(s.open[i], s.open[j].r.to);
    var freed := Act(s, Abort(j));
    assert !Blocked(freed, i, s.open[i].r.to);
  }

  // ----- why the contract is needed

  /** A transaction that took all its steps commits safely exactly when the rows it read have not moved on. */
  lemma {:induction false} CommitIsSafeIffCurrent(b: Books, t: Txn)
    requires LedgerInv(b) && TxnInv(Unguarded, b, t) && t.phase == Verified && t.tid !in b.transfers
    ensures LedgerInv(Written(b, t)) <==> Current(b, t)
  {
    var after := Written(b, t);
    if Current(b, t) {
      CommitIsSequential(System(Unguarded, b, map[], []), t);
      PostedKeeps(b, t.r, t.tid);
    } else if LedgerInv(after) {
      StaleVersion(b, t, t.r.from);
      StaleVersion(b, t, t.r.to);
      assert false;
    }
  }

  /** The version a commit writes is one more than the one read; the journal gains one entry for the row. */
  lemma {:induction false} StaleVersion(b: Books, t: Txn, id: string)
    requires LedgerInv(b) && TxnInv(Unguarded, b, t) && t.phase == Verified && (id == t.r.from || id == t.r.to)
    requires LedgerInv(Written(b, t))
    ensures b.accounts[id].version == if id == t.r.from then t.readFrom.version else t.readTo.version
  {
    hide EntriesOf, Net, EntryCount, Journaled, TxnInv;
    OneMoreEntry(b, t, id);
    assert Reconciled(b, id) && Reconciled(Written(b, t), id);
  }

  lemma {:induction false} OneMoreEntry(b: Books, t: Txn, id: string)
    requires TxnInv(Unguarded, b, t) && t.phase == Verified && (id == t.r.from || id == t.r.to)
    ensures id in b.accounts
    ensures EntryCount(Written(b, t).entries, id) == EntryCount(b.entries, id) + 1
    ensures Written(b, t).accounts[id].version
         == 1 + if id == t.r.from then t.readFrom.version else t.readTo.version
  {
    hide EntryCount;
    TwoMoreEntries(b.entries, Entry(t.tid, t.r.from, Debit, t.r.amount), Entry(t.tid, t.r.to, Credit, t.r.amount), id);
  }

  lemma {:induction false} TwoMoreEntries(entries: seq<Entry>, first: Entry, second: Entry, id: string)
    ensures EntryCount(entries + [first, second], id)
         == EntryCount(entries, id)
            + (if first.accountId == id then 1 else 0) + (if second.accountId == id then 1 else 0)
  {
    JournalNext(entries, first, id, "");
    JournalNext(entries + [first], second, id, "");
    assert entries + [first, second] == entries + [first] + [second];
  }

  /** Without a contract the books stay reconciled all along exactly when every commit that took effect was current;
      and then the run is serial all the same. */
  lemma {:induction false} UnguardedReconcilesIffCurrent(start: Books, actions: seq<Action>)
    requires LedgerInv(start)
    ensures (forall n: nat :: n <= |actions| ==> LedgerInv(Before(Unguarded, start, actions, n).committed))
       <==> CommitsAreCurrent(Unguarded, start, actions)
    ensures CommitsAreCurrent(Unguarded, start, actions) ==>
              var s := Interleave(Begun(Unguarded, start), actions);
              s.committed == Replay(start, s.history) && Serial(start, s.history)
  {
    hide LedgerInv, Safe, Interleave, Serial, Replay;
    if CommitsAreCurrent(Unguarded, start, actions) {
      forall n: nat | n <= |actions| ensures LedgerInv(Before(Unguarded, start, actions, n).committed) {
        CurrentSoFar(Unguarded, start, actions, n);
        InterleavingKeeps(Unguarded, start, actions[..n]);
      }
      InterleavingKeeps(Unguarded, start, actions);
    }
    if forall n: nat :: n <= |actions| ==> LedgerInv(Before(Unguarded, start, actions, n).committed) {
      ReconciledMeansCurrent(start, actions);
    }
  }

  lemma {:induction false} ReconciledMeansCurrent(start: Books, actions: seq<Action>)
    requires LedgerInv(start)
    requires forall n: nat :: n <= |actions| ==> LedgerInv(Before(Unguarded, start, actions, n).committed)
    ensures CommitsAreCurrent(Unguarded, start, actions)
  {
    hide LedgerInv, Safe, Interleave, CommitsAreCurrent;
    if actions != [] {
      var m := |actions| - 1;
      CurrentSoFar(Unguarded, start, actions, m);
      forall n: nat | n <= m ensures LedgerInv(Before(Unguarded, start, actions[..m], n).committed) {
        assert LedgerInv(Before(Unguarded, start, actions, n).committed);
      }
      ReconciledMeansCurrent(start, actions[..m]);
      LastIsCurrent(start, actions);
    } else {
      NothingCommitted(start);
    }
  }

  lemma {:induction false} NothingCommitted(start: Books)
    ensures CommitsAreCurrent(Unguarded, start, [])
  {
  }

  lemma {:induction false} LastIsCurrent(start: Books, actions: seq<Action>)
    requires LedgerInv(start) && actions != []
    requires CommitsAreCurrent(Unguarded, start, actions[..|actions| - 1])
    requires LedgerInv(Before(Unguarded, start, actions, |actions|).committed)
    ensures CommitsAreCurrent(Unguarded, start, actions)
  {
    hide LedgerInv, Safe, SystemInv, Act;
    var m := |actions| - 1;
    var s := Before(Unguarded, start, actions, m);
    InterleavingKeeps(Unguarded, start, actions[..m]);
    assert actions[..m + 1] == actions;
    ReconciledStepIsSafe(start, s, actions[m]);
    CurrentSoFar(Unguarded, start, actions, m);
    forall n: nat | n < |actions| ensures Safe(Before(Unguarded, start, actions, n), actions[n]) {
      assert n < m ==> Safe(Before(Unguarded, start, actions[..m], n), actions[..m][n]);
    }
  }

  lemma {:induction false} ReconciledStepIsSafe(start: Books, s: System, a: Action)
    requires SystemInv(start, s) && s.mode == Unguarded && LedgerInv(Act(s, a).committed)
    ensures Safe(s, a)
  {
    hide LedgerInv, Written, Serial, Replay, Current;
    if Commits(s, a) {
      CommitIsSafeIffCurrent(s.committed, s.open[a.i]);
    }
  }

  // ----- two transfers that both read before either commits

  /** A transaction that did all its steps on these books. */
  function Blind(b: Books, r: Request, tid: string): Txn
    requires r.from in b.accounts && r.to in b.accounts
  {
    var from, to := b.accounts[r.from], b.accounts[r.to];
    Txn(r, tid, Verified, from, to, Debited(from, r.amount), Credited(to, r.amount),
        [Entry(tid, r.from, Debit, r.amount), Entry(tid, r.to, Credit, r.amount)])
  }

  function SixTimes(i: nat): seq<Action> {
    [Advance(i), Advance(i), Advance(i), Advance(i), Advance(i), Advance(i)]
  }

  lemma {:induction false} SixSteps(s: System, i: nat)
    requires i in s.open && s.open[i].phase == Opened && s.mode == Unguarded
    requires s.open[i].r.failAt == None && s.open[i].r.amount > 0 && Payable(s.committed, s.open[i].r)
    requires NoDebts(s.committed)
    ensures Interleave(s, SixTimes(i)) == s.(open := s.open[i := Blind(s.committed, s.open[i].r, s.open[i].tid)])
  {
    hide Act, Interleave, Blind;
    SixActs(s, i);
    SameActionAgain(s, Advance(i));
  }

  lemma {:induction false} SixActs(s: System, i: nat)
    requires i in s.open && s.open[i].phase == Opened && s.mode == Unguarded
    requires s.open[i].r.failAt == None && s.open[i].r.amount > 0 && Payable(s.committed, s.open[i].r)
    requires NoDebts(s.committed)
    ensures var a := Advance(i);
            Act(Act(Act(Act(Act(Act(s, a), a), a), a), a), a)
            == s.(open := s.open[i := Blind(s.committed, s.open[i].r, s.open[i].tid)])
  {
  }

  lemma {:induction false} SameActionAgain(s: System, a: Action)
    ensures Interleave(s, [a, a, a, a, a, a]) == Act(Act(Act(Act(Act(Act(s, a), a), a), a), a), a)
  {
    hide Act;
    assert [a, a, a, a, a, a][..5] == [a, a, a, a, a] && [a, a, a, a, a][..4] == [a, a, a, a];
    assert [a, a, a, a][..3] == [a, a, a] && [a, a, a][..2] == [a, a] && [a, a][..1] == [a] && [a][..0] == [];
    assert Interleave(s, [a]) == Act(s, a);
    assert Interleave(s, [a, a, a]) == Act(Act(Act(s, a), a), a);
    assert Interleave(s, [a, a, a, a, a]) == Act(Act(Act(Act(Act(s, a), a), a), a), a);
  }

  lemma {:induction false} InterleaveAppend(s: System, before: seq<Action>, after: seq<Action>)
    ensures Interleave(s, before + after) == Interleave(Interleave(s, before), after)
  {
    if after == [] {
      assert before + after == before;
    } else {
      assert (before + after)[..|before + after| - 1] == before + after[..|after| - 1];
      InterleaveAppend(s, before, after[..|after| - 1]);
    }
  }

  lemma {:induction false} OneAction(s: System, a: Action)
    ensures Interleave(s, [a]) == Act(s, a)
  {
    assert [a][..0] == [];
  }

  /** Both transfers take all their steps before either commits. */
  function BothThenCommit(r0: Request, t0: string, r1: Request, t1: string): seq<Action> {
    [Start(0, r0, t0)] + [Start(1, r1, t1)] + SixTimes(0) + SixTimes(1) + [TryCommit(0)] + [TryCommit(1)]
  }

  ghost predicate Ready(b: Books, r: Request, tid: string) {
    Payable(b, r) && r.amount > 0 && r.failAt == None && tid !in b.transfers
  }

  /** Without a contract this schedule keeps the books exactly when the transfers share no account; if they do, the
      second commit overwrites what the first one wrote. */
  lemma {:induction false} LostUpdateIffShared(b: Books, r0: Request, t0: string, r1: Request, t1: string)
    requires LedgerInv(b) && Ready(b, r0, t0) && Ready(b, r1, t1) && t0 != t1
    ensures LedgerInv(Interleave(Begun(Unguarded, b), BothThenCommit(r0, t0, r1, t1)).committed) <==> !Overlap(r0, r1)
  {
    hide LedgerInv, Interleave, BothThenCommit;
    BothCommit(b, r0, t0, r1, t1);
    SecondCommitIsSafeIff(b, r0, t0, r1, t1);
  }

  lemma {:induction false} SecondCommitIsSafeIff(b: Books, r0: Request, t0: string, r1: Request, t1: string)
    requires LedgerInv(b) && Ready(b, r0, t0) && Ready(b, r1, t1) && t0 != t1
    ensures LedgerInv(Written(Written(b, Blind(b, r0, t0)), Blind(b, r1, t1))) <==> !Overlap(r0, r1)
  {
    hide LedgerInv;
    BlindIsCurrent(b, r0, t0);
    BlindIsCurrent(b, r1, t1);
    CommitIsSafeIffCurrent(b, Blind(b, r0, t0));
    CommitKeepsTxn(Unguarded, b, r0, t0, Blind(b, r1, t1));
    CommitIsSafeIffCurrent(Posted(b, r0, t0), Blind(b, r1, t1));
  }

  lemma {:induction false} BlindIsCurrent(b: Books, r: Request, tid: string)
    requires Ready(b, r, tid)
    ensures TxnInv(Unguarded, b, Blind(b, r, tid)) && Current(b, Blind(b, r, tid))
    ensures Written(b, Blind(b, r, tid)) == Posted(b, r, tid)
  {
  }

  lemma {:induction false} BothCommit(b: Books, r0: Request, t0: string, r1: Request, t1: string)
    requires LedgerInv(b) && Ready(b, r0, t0) && Ready(b, r1, t1) && t0 != t1
    ensures Interleave(Begun(Unguarded, b), BothThenCommit(r0, t0, r1, t1)).committed
         == Written(Written(b, Blind(b, r0, t0)), Blind(b, r1, t1))
  {
    assert NoDebts(b) by {
      forall id | id in b.accounts ensures b.accounts[id].balance >= 0 {
        assert Reconciled(b, id);
      }
    }
    hide Interleave, LedgerInv, SixTimes, NoDebts, Act, Blind, Written, Payable;
    var x0, x1 := Blind(b, r0, t0), Blind(b, r1, t1);
    var s0 := Begun(Unguarded, b);
    var s1 := Act(s0, Start(0, r0, t0));
    var s2 := Act(s1, Start(1, r1, t1));
    BothStart(b, r0, t0, r1, t1);
    SixSteps(s2, 0);
    var s3 := s2.(open := s2.open[0 := x0]);
    SixSteps(s3, 1);
    var s4 := s3.(open := s3.open[1 := x1]);
    BothEnd(b, r0, t0, r1, t1, s4);
    BothRun(s0, s1, s2, s3, s4, Act(s4, TryCommit(0)), Act(Act(s4, TryCommit(0)), TryCommit(1)), r0, t0, r1, t1);
  }

  lemma {:induction false} BothStart(b: Books, r0: Request, t0: string, r1: Request, t1: string)
    requires Ready(b, r0, t0) && Ready(b, r1, t1)
    ensures var s := Act(Act(Begun(Unguarded, b), Start(0, r0, t0)), Start(1, r1, t1));
            && s.mode == Unguarded && s.committed == b && s.open.Keys == {0, 1}
            && s.open[0].phase == Opened && s.open[0].r == r0 && s.open[0].tid == t0
            && s.open[1].phase == Opened && s.open[1].r == r1 && s.open[1].tid == t1
  {
  }

  lemma {:induction false} BothEnd(b: Books, r0: Request, t0: string, r1: Request, t1: string, s: System)
    requires Ready(b, r0, t0) && Ready(b, r1, t1) && t0 != t1
    requires s.mode == Unguarded && s.committed == b && s.open.Keys == {0, 1}
    requires s.open[0] == Blind(b, r0, t0) && s.open[1] == Blind(b, r1, t1)
    ensures Act(Act(s, TryCommit(0)), TryCommit(1)).committed
         == Written(Written(b, Blind(b, r0, t0)), Blind(b, r1, t1))
  {
    hide Current, AuditsFor;
  }

  lemma {:induction false} BothRun(s0: System, s1: System, s2: System, s3: System, s4: System, s5: System, s6: System,
                                   r0: Request, t0: string, r1: Request, t1: string)
    requires s1 == Act(s0, Start(0, r0, t0)) && s2 == Act(s1, Start(1, r1, t1))
    requires s3 == Interleave(s2, SixTimes(0)) && s4 == Interleave(s3, SixTimes(1))
    requires s5 == Act(s4, TryCommit(0)) && s6 == Act(s5, TryCommit(1))
    ensures Interleave(s0, BothThenCommit(r0, t0, r1, t1)) == s6
  {
    var a0, a1 := Start(0, r0, t0), Start(1, r1, t1);
    hide Act, Interleave, SixTimes;
    OneAction(s0, a0);
    OneAction(s1, a1);
    InterleaveAppend(s0, [a0], [a1]);
    InterleaveAppend(s0, [a0] + [a1], SixTimes(0));
    InterleaveAppend(s0, [a0] + [a1] + SixTimes(0), SixTimes(1));
    OneAction(s4, TryCommit(0));
    OneAction(s5, TryCommit(1));
    InterleaveAppend(s0, [a0] + [a1] + SixTimes(0) + SixTimes(1), [TryCommit(0)]);
    InterleaveAppend(s0, [a0] + [a1] + SixTimes(0) + SixTimes(1) + [TryCommit(0)], [TryCommit(1)]);
  }

  /** The ledger of three merchants as the first transfer seeds it. */
  function ThreeWallets(): Books {
    Seeded(NO_BOOKS, ["a", "b", "c"])
  }

  /** Two transfers that each spend the whole first wallet of a freshly seeded ledger: without the contract both commit
      and the books no longer reconcile. */
  lemma {:induction false} LostUpdateWithoutTheContract()
    ensures LedgerInv(ThreeWallets())
    ensures var r0, r1 :=
              Request("a-wallet", "b-wallet", 100_000, None), Request("a-wallet", "c-wallet", 100_000, None);
            !LedgerInv(Interleave(Begun(Unguarded, ThreeWallets()), BothThenCommit(r0, "t0", r1, "t1")).committed)
  {
    hide Interleave, BothThenCommit;
    var r0, r1 := Request("a-wallet", "b-wallet", 100_000, None), Request("a-wallet", "c-wallet", 100_000, None);
    ThreeWalletsAreReady(r0, r1);
    hide LedgerInv, Ready;
    LostUpdateIffShared(ThreeWallets(), r0, "t0", r1, "t1");
  }

  lemma {:induction false} ThreeWalletsAreReady(r0: Request, r1: Request)
    requires r0 == Request("a-wallet", "b-wallet", 100_000, None)
    requires r1 == Request("a-wallet", "c-wallet", 100_000, None)
    ensures LedgerInv(ThreeWallets())
    ensures Ready(ThreeWallets(), r0, "t0") && Ready(ThreeWallets(), r1, "t1")
  {
    hide Seeded, LedgerInv;
    var merchants := ["a", "b", "c"];
    assert "a-wallet" == WalletId("a") && "b-wallet" == WalletId("b") && "c-wallet" == WalletId("c");
    assert "a" in merchants && "b" in merchants && "c" in merchants;
    NothingReconciles();
    SeededKeeps(NO_BOOKS, merchants);
    FirstSeedingOpensWallets(merchants);
    assert "a-wallet"[0] != "b-wallet"[0] && "a-wallet"[0] != "c-wallet"[0];
    assert StartingBalance("a") == 100_000;
  }

  lemma {:induction false} NothingReconciles()
    ensures LedgerInv(NO_BOOKS)
  {
  }
}
