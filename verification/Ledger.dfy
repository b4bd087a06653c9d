/**
 * The expense ledger of all groups: what every financial operation does to the stored
 * rows, and what stays true of the rows over every run of operations.
 *
 * A table is the sequence of its rows in order of insertion and the position of a row is
 * its id; rows are never removed, a deleted expense is only marked.  An operation that
 * the service refuses leaves the ledger as it was.
 */
module Ledger {
  import opened Basics
  import opened Sums
  import Splits
  import Itemized

  type GroupId = nat
  type ExpenseId = nat
  type Currency = nat
  type Time = int

  datatype SplitType = Equal | Percentage | FixedAmount | ItemizedSplit

  /** `details` stands for title, note and date together. */
  datatype Expense = Expense(
    group: GroupId,
    payer: UserId,
    createdBy: UserId,
    total: int,
    currency: Currency,
    splitType: SplitType,
    shares: map<UserId, int>,
    receipt: Option<nat>,
    details: nat,
    createdAt: Time,
    updatedAt: Time,
    deleted: bool)

  datatype Settlement = Settlement(group: GroupId, payer: UserId, payee: UserId, amount: int, createdAt: Time)

  datatype Group = Group(currency: Currency, direct: bool, archived: bool, active: set<UserId>, admins: set<UserId>)

  /** `itemizedLines` holds the receipt lines that some expense has been itemized over. */
  datatype Store = Store(
    groups: map<GroupId, Group>,
    expenses: seq<Expense>,
    settlements: seq<Settlement>,
    itemizedLines: set<Itemized.LineId>)

  datatype Refusal =
    | GroupNotFound | GroupForbidden | CurrencyMismatch | MemberNotFound | ReceiptNotSynced | InvalidRequest
    | BadSplit(split: Splits.SplitError)
    | BadItems(items: Itemized.ItemizedError)
    | SenderMustMatchActor | SelfSettlement | InvalidSettlementAmount
    | VersionMismatch | RecordSoftDeleted | FinanciallyLocked
    | InvalidSplit | InvalidSplitTotal | ItemizedUpdateNotSupported

  // ---------- requests ----------

  datatype FastRequest = FastRequest(
    group: GroupId,
    actor: UserId,
    payer: UserId,
    receipt: Option<nat>,
    receiptSynced: bool,
    details: nat,
    total: int,
    currency: Currency,
    splitType: SplitType,
    participants: seq<(UserId, int)>)
  {
    // The request schema admits every participant once and no negative value.
    ghost predicate WellFormed() {
      && Once(participants)
      && forall i | 0 <= i < |participants| :: participants[i].1 >= 0
    }
  }

  datatype ItemizedRequest = ItemizedRequest(
    group: GroupId,
    actor: UserId,
    payer: UserId,
    receipt: nat,
    receiptSynced: bool,
    receiptCurrency: Currency,
    lines: map<Itemized.LineId, Itemized.Line>,
    details: nat,
    total: int,
    currency: Currency,
    assignments: seq<Itemized.Assignment>,
    extras: seq<Itemized.Extra>)

  datatype SettlementRequest = SettlementRequest(
    group: GroupId,
    actor: UserId,
    payer: UserId,
    payee: UserId,
    amount: int,
    currency: Currency)

  datatype UpdateRequest = UpdateRequest(
    group: GroupId,
    user: UserId,
    id: ExpenseId,
    payer: UserId,
    receipt: Option<nat>,
    details: nat,
    total: int,
    currency: Currency,
    splitType: SplitType,
    shares: seq<(UserId, int)>,
    expected: Option<Time>)
  {
    // The payload schema admits a positive total and no negative share.
    ghost predicate WellFormed() {
      total > 0 && forall i | 0 <= i < |shares| :: shares[i].1 >= 0
    }
  }

  datatype DeleteRequest = DeleteRequest(group: GroupId, user: UserId, id: ExpenseId, expected: Option<Time>)

  datatype Operation =
    | FastCreate(fast: FastRequest)
    | ItemizedCreate(itemized: ItemizedRequest)
    | Settle(settlement: SettlementRequest)
    | PushUpdate(update: UpdateRequest)
    | PushDelete(delete: DeleteRequest)
    // Membership changes and archiving, which leave the financial rows alone.
    | ChangeGroup(group: GroupId, active: set<UserId>, admins: set<UserId>, archived: bool)
  {
    ghost predicate WellFormed() {
      match this
      case FastCreate(q) => q.WellFormed()
      case PushUpdate(q) => q.WellFormed()
      case _ => true
    }
  }

  // ---------- shares as a table ----------

  predicate Once(rows: seq<(UserId, int)>) {
    forall i, j | 0 <= i < j < |rows| :: rows[i].0 != rows[j].0
  }

  /** The share rows of an expense, keyed by user. */
  function ShareTable(rows: seq<(UserId, int)>): map<UserId, int> {
    if rows == [] then map[] else ShareTable(rows[..|rows| - 1])[rows[|rows| - 1].0 := rows[|rows| - 1].1]
  }

  lemma {:induction false} ShareTableReads(rows: seq<(UserId, int)>)
    ensures ShareTable(rows).Keys == UsersOf(rows)
    ensures forall u | u in ShareTable(rows) :: exists i :: 0 <= i < |rows| && rows[i] == (u, ShareTable(rows)[u])
  {
    if rows != [] {
      var n := |rows| - 1;
      var rest: seq<(UserId, int)>, last := rows[..n], rows[n];
      ShareTableReads(rest);
      assert rows == rest + [last];
      assert forall row :: row in rows <==> row in rest || row == last;
      assert UsersOf(rows) == UsersOf(rest) + {last.0};
      forall u | u in ShareTable(rows) ensures exists i :: 0 <= i < |rows| && rows[i] == (u, ShareTable(rows)[u]) {
        if u == last.0 {
          assert rows[n] == (u, ShareTable(rows)[u]);
        } else {
          var i :| 0 <= i < |rest| && rest[i] == (u, ShareTable(rest)[u]);
          assert rows[i] == (u, ShareTable(rows)[u]);
        }
      }
    }
  }

  lemma OnceLast(rows: seq<(UserId, int)>)
    requires rows != []
    ensures Once(rows) <==> Once(rows[..|rows| - 1]) && rows[|rows| - 1].0 !in UsersOf(rows[..|rows| - 1])
  {
    var n := |rows| - 1;
    var rest := rows[..n];
    if Once(rows) {
      forall row | row in rest ensures row.0 != rows[n].0 {
        var i :| 0 <= i < n && rest[i] == row;
        assert rows[i].0 != rows[n].0;
      }
    }
    if Once(rest) && rows[n].0 !in UsersOf(rest) {
      forall i, j | 0 <= i < j < |rows| ensures rows[i].0 != rows[j].0 {
        assert rest[i] in rest;
        if j < n { assert rest[i].0 != rest[j].0; }
      }
    }
  }

  /** A user occurs twice exactly when the table has fewer rows than the list. */
  lemma {:induction false} ShareTableCount(rows: seq<(UserId, int)>)
    ensures |ShareTable(rows)| <= |rows|
    ensures |ShareTable(rows)| == |rows| <==> Once(rows)
    ensures Once(rows) ==> Sum(ShareTable(rows)) == Amounts(rows)
  {
    if rows != [] {
      var rest: seq<(UserId, int)>, last := rows[..|rows| - 1], rows[|rows| - 1];
      var table: map<UserId, int> := ShareTable(rest);
      ShareTableCount(rest);
      ShareTableReads(rest);
      OnceLast(rows);
      SumPut(table, last.0, last.1);
      assert ShareTable(rows).Keys == table.Keys + {last.0};
    }
  }

  // ---------- what each operation does ----------

  /** An expense may not change financially once a settlement was recorded at or after its creation. */
  predicate Locked(s: Store, e: Expense) {
    exists i :: 0 <= i < |s.settlements| && s.settlements[i].group == e.group
        && s.settlements[i].createdAt >= e.createdAt
  }

  ghost function FastShares(q: FastRequest): Result<Splits.Shares, Refusal> {
    match q.splitType
    case Equal => FromSplit(Splits.EqualShares(q.total,
        seq(|q.participants|, i requires 0 <= i < |q.participants| => q.participants[i].0)))
    case Percentage => FromSplit(Splits.PercentageResult(q.total, q.participants))
    case FixedAmount => FromSplit(Splits.ExactResult(q.total, q.participants))
    case ItemizedSplit => Failure(InvalidRequest)
  }

  function FromSplit(r: Result<Splits.Shares, Splits.SplitError>): Result<Splits.Shares, Refusal> {
    match r case Success(v) => Success(v) case Failure(e) => Failure(BadSplit(e))
  }

  ghost function FastResult(s: Store, q: FastRequest, now: Time): Result<Expense, Refusal> {
    if q.group !in s.groups then Failure(GroupNotFound)
    else
      var group := s.groups[q.group];
      if group.archived then Failure(GroupForbidden)
      else if q.currency != group.currency then Failure(CurrencyMismatch)
      else if q.receipt.Some? && !q.receiptSynced then Failure(ReceiptNotSynced)
      else if !({q.actor, q.payer} + UsersOf(q.participants) <= group.active) then Failure(MemberNotFound)
      else match FastShares(q)
        case Failure(e) => Failure(e)
        case Success(shares) =>
          Success(Expense(q.group, q.payer, q.actor, q.total, q.currency, q.splitType, ShareTable(shares),
                          q.receipt, q.details, now, now, false))
  }

  function ItemsOf(s: Store, q: ItemizedRequest): Itemized.Request
    requires q.group in s.groups
  {
    Itemized.Request(q.total, q.payer, s.groups[q.group].active, q.lines, s.itemizedLines, q.assignments, q.extras)
  }

  /** The checks made before the items are looked at. */
  function ItemizedGuard(s: Store, q: ItemizedRequest): Option<Refusal> {
    if q.group !in s.groups then Some(GroupNotFound)
    else
      var group := s.groups[q.group];
      if group.archived then Some(GroupForbidden)
      else if q.total <= 0 then Some(InvalidRequest)
      else if q.currency != group.currency then Some(CurrencyMismatch)
      else if q.actor !in group.active then Some(GroupForbidden)
      else if !q.receiptSynced then Some(ReceiptNotSynced)
      else if q.receiptCurrency != group.currency then Some(CurrencyMismatch)
      else None
  }

  ghost predicate ItemizedAccepted(s: Store, q: ItemizedRequest) {
    ItemizedGuard(s, q).None? && Itemized.Accepted(ItemsOf(s, q))
  }

  ghost function ItemizedExpense(s: Store, q: ItemizedRequest, now: Time): Expense
    requires ItemizedAccepted(s, q)
  {
    Expense(q.group, q.payer, q.actor, q.total, q.currency, ItemizedSplit, Itemized.SharesOf(ItemsOf(s, q)),
            Some(q.receipt), q.details, now, now, false)
  }

  const MAX_BIGINT := 9_223_372_036_854_775_807

  function SettlementResult(s: Store, q: SettlementRequest, now: Time): Result<Settlement, Refusal> {
    if q.group !in s.groups then Failure(GroupNotFound)
    else
      var group := s.groups[q.group];
      if group.archived then Failure(GroupForbidden)
      else if q.payer != q.actor then Failure(SenderMustMatchActor)
      else if q.payer == q.payee then Failure(SelfSettlement)
      else if q.amount <= 0 || q.amount > MAX_BIGINT then Failure(InvalidSettlementAmount)
      else if q.currency != group.currency then Failure(CurrencyMismatch)
      else if !({q.payer, q.payee} <= group.active) then Failure(MemberNotFound)
      else Success(Settlement(q.group, q.payer, q.payee, q.amount, now))
  }

  /** What both kinds of pushed change require of the stored expense. */
  function MutationGuard(s: Store, group: GroupId, user: UserId,
      id: ExpenseId, expected: Option<Time>): Option<Refusal> {
    if group !in s.groups then Some(GroupNotFound)
    else if user !in s.groups[group].active then Some(GroupForbidden)
    else if id >= |s.expenses| || s.expenses[id].group != group then Some(VersionMismatch)
    else if s.expenses[id].createdBy != user && user !in s.groups[group].admins then Some(GroupForbidden)
    else if s.expenses[id].deleted then Some(RecordSoftDeleted)
    else if expected.Some? && s.expenses[id].updatedAt != expected.value then Some(VersionMismatch)
    else None
  }

  function FinancialChange(e: Expense, q: UpdateRequest): bool {
    || e.receipt != q.receipt
    || e.payer != q.payer
    || e.total != q.total
    || e.currency != q.currency
    || e.splitType != q.splitType
    || e.shares != ShareTable(q.shares)
  }

  ghost function UpdateResult(s: Store, q: UpdateRequest, now: Time): Result<Expense, Refusal> {
    match MutationGuard(s, q.group, q.user, q.id, q.expected)
    case Some(refusal) => Failure(refusal)
    case None =>
      var e := s.expenses[q.id];
      if !Once(q.shares) then Failure(InvalidSplit)
      else if Amounts(q.shares) != q.total then Failure(InvalidSplitTotal)
      else if q.currency != s.groups[q.group].currency then Failure(CurrencyMismatch)
      else if !({q.payer} + UsersOf(q.shares) <= s.groups[q.group].active) then Failure(MemberNotFound)
      else if Locked(s, e) && FinancialChange(e, q) then Failure(FinanciallyLocked)
      else if FinancialChange(e, q) && (e.splitType.ItemizedSplit? || q.splitType.ItemizedSplit?)
          then Failure(ItemizedUpdateNotSupported)
      else if FinancialChange(e, q) then
        Success(e.(details := q.details, updatedAt := now, receipt := q.receipt, payer := q.payer, total := q.total,
                   currency := q.currency, splitType := q.splitType, shares := ShareTable(q.shares)))
      else Success(e.(details := q.details, updatedAt := now))
  }

  function DeleteResult(s: Store, q: DeleteRequest, now: Time): Result<Expense, Refusal> {
    match MutationGuard(s, q.group, q.user, q.id, q.expected)
    case Some(refusal) => Failure(refusal)
    case None =>
      var e := s.expenses[q.id];
      if Locked(s, e) then Failure(FinanciallyLocked)
      else Success(e.(deleted := true, updatedAt := now))
  }

  ghost function Step(s: Store, op: Operation, now: Time): Store {
    match op
    case FastCreate(q) =>
      (match FastResult(s, q, now)
       case Success(e) => s.(expenses := s.expenses + [e])
       case Failure(_) => s)
    case ItemizedCreate(q) =>
      if ItemizedAccepted(s, q) then
        s.(expenses := s.expenses + [ItemizedExpense(s, q, now)],
           itemizedLines := s.itemizedLines + Itemized.Provided(q.assignments))
      else s
    case Settle(q) =>
      (match SettlementResult(s, q, now)
       case Success(t) => s.(settlements := s.settlements + [t])
       case Failure(_) => s)
    case PushUpdate(q) =>
      (match UpdateResult(s, q, now)
       case Success(e) => s.(expenses := s.expenses[q.id := e])
       case Failure(_) => s)
    case PushDelete(q) =>
      (match DeleteResult(s, q, now)
       case Success(e) => s.(expenses := s.expenses[q.id := e])
       case Failure(_) => s)
    case ChangeGroup(g, active, admins, archived) =>
      if g in s.groups
          then s.(groups := s.groups[g := s.groups[g].(active := active, admins := admins, archived := archived)])
      else s
  }

  type Trace = seq<(Operation, Time)>

  ghost predicate WellFormedTrace(trace: Trace) {
    forall i | 0 <= i < |trace| :: trace[i].0.WellFormed()
  }

  ghost function Run(s: Store, trace: Trace): Store {
    if trace == [] then s else Step(Run(s, trace[..|trace| - 1]), trace[|trace| - 1].0, trace[|trace| - 1].1)
  }

  // ---------- what stays true ----------

  /** The shares of an expense are what was paid: no unit is lost or invented. */
  ghost predicate Conserved(e: Expense) {
    && e.total > 0
    && (forall u | u in e.shares :: e.shares[u] >= 0)
    && Sum(e.shares) == e.total
  }

  ghost predicate Sound(s: Store) {
    && (forall i | 0 <= i < |s.expenses| :: Conserved(s.expenses[i]))
    && (forall i | 0 <= i < |s.expenses| ::
          s.expenses[i].group in s.groups && s.expenses[i].currency == s.groups[s.expenses[i].group].currency)
    && (forall i | 0 <= i < |s.settlements| ::
          && s.settlements[i].group in s.groups
          && s.settlements[i].amount > 0
          && s.settlements[i].payer != s.settlements[i].payee)
  }

  lemma FastSharesConserve(q: FastRequest)
    requires q.WellFormed() && FastShares(q).Success?
    ensures var shares := FastShares(q).value;
            && Once(shares) && UsersOf(shares) == UsersOf(q.participants) && Amounts(shares) == q.total && q.total > 0
            && forall i | 0 <= i < |shares| :: shares[i].1 >= 0
  {
    var shares := FastShares(q).value;
    match q.splitType {
      case Equal =>
        var users := seq(|q.participants|, i requires 0 <= i < |q.participants| => q.participants[i].0);
        Splits.EqualSharesConserve(q.total, users);
        SameUsersInOrder(q.participants, shares);
      case Percentage =>
        Splits.PercentageSharesConserve(q.total, q.participants);
        SameUsersInOrder(q.participants, shares);
      case FixedAmount =>
        Splits.ExactSharesConserve(q.total, q.participants);
        SameUsersInAnyOrder(q.participants, shares);
    }
  }

  lemma SameUsersInOrder(participants: seq<(UserId, int)>, shares: seq<(UserId, int)>)
    requires Once(participants) && |shares| == |participants|
    requires forall i | 0 <= i < |shares| :: shares[i].0 == participants[i].0
    ensures Once(shares) && UsersOf(shares) == UsersOf(participants)
  {
    forall u ensures u in UsersOf(shares) <==> u in UsersOf(participants) {
      if u in UsersOf(shares) {
        var i :| 0 <= i < |shares| && shares[i].0 == u;
        assert participants[i] in participants;
      }
      if u in UsersOf(participants) {
        var i :| 0 <= i < |participants| && participants[i].0 == u;
        assert shares[i] in shares;
      }
    }
  }

  lemma SameUsersInAnyOrder(participants: seq<(UserId, int)>, shares: seq<(UserId, int)>)
    requires Once(participants) && multiset(shares) == multiset(participants)
    ensures Once(shares) && UsersOf(shares) == UsersOf(participants)
  {
    assert |shares| == |multiset(shares)| == |multiset(participants)| == |participants|;
    forall row ensures row in shares <==> row in participants {
      assert row in shares <==> row in multiset(shares);
      assert row in participants <==> row in multiset(participants);
    }
    assert UsersOf(shares) == UsersOf(participants);
    TableSize(shares);
    TableSize(participants);
  }

  lemma TableSize(rows: seq<(UserId, int)>)
    ensures Once(rows) <==> |UsersOf(rows)| == |rows|
  {
    ShareTableCount(rows);
    ShareTableReads(rows);
    assert |ShareTable(rows).Keys| == |ShareTable(rows)|;
  }

  lemma TableConserves(rows: seq<(UserId, int)>)
    requires Once(rows) && forall i | 0 <= i < |rows| :: rows[i].1 >= 0
    ensures Sum(ShareTable(rows)) == Amounts(rows)
    ensures forall u | u in ShareTable(rows) :: ShareTable(rows)[u] >= 0
  {
    ShareTableReads(rows);
    ShareTableCount(rows);
  }

  lemma FastExpenseConserved(s: Store, q: FastRequest, now: Time)
    requires q.WellFormed() && FastResult(s, q, now).Success?
    ensures Conserved(FastResult(s, q, now).value)
  {
    FastSharesConserve(q);
    TableConserves(FastShares(q).value);
  }

  lemma UpdatedExpenseConserved(s: Store, q: UpdateRequest, now: Time)
    requires q.WellFormed() && UpdateResult(s, q, now).Success?
    requires Conserved(s.expenses[q.id])
    ensures Conserved(UpdateResult(s, q, now).value)
  {
    TableConserves(q.shares);
  }

  lemma StepKeepsSound(s: Store, op: Operation, now: Time)
    requires Sound(s) && op.WellFormed()
    ensures Sound(Step(s, op, now))
  {
    match op {
      case FastCreate(q) =>
        if FastResult(s, q, now).Success? { FastExpenseConserved(s, q, now); }
      case ItemizedCreate(q) =>
        if ItemizedAccepted(s, q) { Itemized.AcceptedExpenseConserves(ItemsOf(s, q)); }
      case PushUpdate(q) =>
        if UpdateResult(s, q, now).Success? { UpdatedExpenseConserved(s, q, now); }
      case _ =>
    }
  }

  /** Over every run, the shares of every expense add up to its total. */
  lemma {:induction false} RunKeepsSound(s: Store, trace: Trace)
    requires Sound(s) && WellFormedTrace(trace)
    ensures Sound(Run(s, trace))
  {
    if trace != [] {
      RunKeepsSound(s, trace[..|trace| - 1]);
      StepKeepsSound(Run(s, trace[..|trace| - 1]), trace[|trace| - 1].0, trace[|trace| - 1].1);
    }
  }

  /** One member pays everything for another. */
  lemma PaidForOther(s: Store, q: FastRequest, other: UserId, now: Time)
    requires q.splitType.FixedAmount? && q.participants == [(other, q.total)] && q.total > 0 && q.receipt.None?
    requires q.group in s.groups && !s.groups[q.group].archived && q.currency == s.groups[q.group].currency
    requires {q.actor, q.payer, other} <= s.groups[q.group].active
    ensures q.WellFormed()
    ensures FastResult(s, q, now) ==
        Success(Expense(q.group, q.payer, q.actor, q.total, q.currency, FixedAmount, map[other := q.total],
                        None, q.details, now, now, false))
  {
    SoleShare(q, other);
    SoleShareTable(other, q.total);
  }

  lemma SoleShare(q: FastRequest, other: UserId)
    requires q.splitType.FixedAmount? && q.participants == [(other, q.total)] && q.total > 0
    ensures FastShares(q) == Success(q.participants)
  {
    assert q.participants[..0] == [];
    assert Amounts(q.participants) == q.total;
    assert Splits.SortedByUser([]) == [];
    assert Splits.SortedByUser(q.participants) == q.participants;
  }

  lemma SoleShareTable(other: UserId, amount: int)
    ensures ShareTable([(other, amount)]) == map[other := amount] && UsersOf([(other, amount)]) == {other}
  {
    assert [(other, amount)][..0] == [];
    assert ShareTable([]) == map[];
  }

  // ---------- the settlement lock ----------

  /** Everything about an expense except title, note, date and the time of its last change. */
  function Financials(e: Expense): Expense {
    e.(details := 0, updatedAt := 0)
  }

  lemma LockIsForever(s: Store, op: Operation, now: Time, i: ExpenseId)
    requires i < |s.expenses| && Locked(s, s.expenses[i])
    ensures var t := Step(s, op, now);
            i < |t.expenses| && Locked(t, t.expenses[i]) && Financials(t.expenses[i]) == Financials(s.expenses[i])
  {
    var t := Step(s, op, now);
    var k :| 0 <= k < |s.settlements| && s.settlements[k].group == s.expenses[i].group
        && s.settlements[k].createdAt >= s.expenses[i].createdAt;
    assert t.settlements[k] == s.settlements[k];
    assert t.expenses[i].group == s.expenses[i].group && t.expenses[i].createdAt == s.expenses[i].createdAt;
  }

  /** Once locked, no run of operations changes who paid, what was paid, who owes what, or deletes it. */
  lemma {:induction false} LockedExpenseNeverChanges(s: Store, trace: Trace, i: ExpenseId)
    requires i < |s.expenses| && Locked(s, s.expenses[i])
    ensures var t := Run(s, trace);
            i < |t.expenses| && Locked(t, t.expenses[i]) && Financials(t.expenses[i]) == Financials(s.expenses[i])
  {
    if trace != [] {
      LockedExpenseNeverChanges(s, trace[..|trace| - 1], i);
      LockIsForever(Run(s, trace[..|trace| - 1]), trace[|trace| - 1].0, trace[|trace| - 1].1, i);
    }
  }

  // ---------- who may change what ----------

  /** The pushed change that an operation is: its author, its target and the version it expects. */
  ghost predicate IsChangeOf(op: Operation, group: GroupId, user: UserId, i: ExpenseId, expected: Option<Time>) {
    || (op.PushUpdate? && op.update.group == group && op.update.user == user && op.update.id == i
        && op.update.expected == expected)
    || (op.PushDelete? && op.delete.group == group && op.delete.user == user && op.delete.id == i
        && op.delete.expected == expected)
  }

  /**
   * A stored expense changes only by a pushed update or delete addressed to it, by an active
   * member who created it or administers the group, on the version that was expected.
   */
  lemma ExpenseChangesOnlyBy(s: Store, op: Operation, now: Time, i: ExpenseId)
      returns (user: UserId, expected: Option<Time>)
    requires i < |s.expenses| && Step(s, op, now).expenses[i] != s.expenses[i]
    ensures var e := s.expenses[i];
            && IsChangeOf(op, e.group, user, i, expected)
            && e.group in s.groups && user in s.groups[e.group].active
            && (user == e.createdBy || user in s.groups[e.group].admins)
            && !e.deleted && (expected.Some? ==> expected.value == e.updatedAt)
    ensures var e, after := s.expenses[i], Step(s, op, now).expenses[i];
            after.group == e.group && after.createdBy == e.createdBy && after.createdAt == e.createdAt
                && after.updatedAt == now
  {
    match op {
      case PushUpdate(q) => user, expected := q.user, q.expected;
      case PushDelete(q) => user, expected := q.user, q.expected;
      case _ => assert false;
    }
  }

  /** Group and creator never change, and neither deletion nor the lock is ever undone. */
  lemma StepKeepsIdentity(s: Store, op: Operation, now: Time, i: ExpenseId)
    requires i < |s.expenses|
    ensures i < |Step(s, op, now).expenses|
    ensures var e, after := s.expenses[i], Step(s, op, now).expenses[i];
            && after.group == e.group && after.createdBy == e.createdBy && (e.deleted ==> after.deleted)
            && (Locked(s, e) ==> Locked(Step(s, op, now), after))
  {
    if Locked(s, s.expenses[i]) {
      LockIsForever(s, op, now, i);
    }
  }

  /** Two changes made on the same version: once the first is in, the second is refused. */
  lemma StaleChangeIsRefused(s: Store, first: Operation, now: Time,
      second: Operation, later: Time, user: UserId, i: ExpenseId)
    requires i < |s.expenses| && Step(s, first, now).expenses[i] != s.expenses[i] && now != s.expenses[i].updatedAt
    requires IsChangeOf(second, s.expenses[i].group, user, i, Some(s.expenses[i].updatedAt))
    ensures var t := Step(s, first, now); Step(t, second, later) == t
  {
    var _, _ := ExpenseChangesOnlyBy(s, first, now, i);
  }

  /** A deleted expense never changes again. */
  lemma {:induction false} DeletedExpenseNeverChanges(s: Store, trace: Trace, i: ExpenseId)
    requires i < |s.expenses| && s.expenses[i].deleted
    ensures i < |Run(s, trace).expenses| && Run(s, trace).expenses[i] == s.expenses[i]
  {
    if trace != [] {
      var n := |trace| - 1;
      DeletedExpenseNeverChanges(s, trace[..n], i);
      var t := Run(s, trace[..n]);
      if Step(t, trace[n].0, trace[n].1).expenses[i] != t.expenses[i] {
        var _, _ := ExpenseChangesOnlyBy(t, trace[n].0, trace[n].1, i);
      }
    }
  }

  /** Offline changes can delete an itemized expense but never alter its amounts. */
  lemma {:induction false} ItemizedAmountsNeverChange(s: Store, trace: Trace, i: ExpenseId)
    requires i < |s.expenses| && s.expenses[i].splitType.ItemizedSplit?
    ensures i < |Run(s, trace).expenses|
    ensures Financials(Run(s, trace).expenses[i]).(deleted := false) == Financials(s.expenses[i]).(deleted := false)
  {
    if trace != [] {
      ItemizedAmountsNeverChange(s, trace[..|trace| - 1], i);
      ItemizedStep(Run(s, trace[..|trace| - 1]), trace[|trace| - 1].0, trace[|trace| - 1].1, i);
    }
  }

  lemma ItemizedStep(s: Store, op: Operation, now: Time, i: ExpenseId)
    requires i < |s.expenses| && s.expenses[i].splitType.ItemizedSplit?
    ensures i < |Step(s, op, now).expenses|
    ensures Financials(Step(s, op, now).expenses[i]).(deleted := false) == Financials(s.expenses[i]).(deleted := false)
  {
  }

  /** The users an expense is about. */
  function People(e: Expense): set<UserId> {
    {e.payer, e.createdBy} + e.shares.Keys
  }

  /** New rows appear only in groups that are not archived, and only between their active members. */
  lemma NewRowsAreBetweenActiveMembers(s: Store, op: Operation, now: Time)
    requires op.WellFormed()
    ensures var t := Step(s, op, now);
            && (forall i | |s.expenses| <= i < |t.expenses| ::
                  var e := t.expenses[i];
                  e.group in s.groups && !s.groups[e.group].archived && People(e) <= s.groups[e.group].active)
            && (forall i | |s.settlements| <= i < |t.settlements| ::
                  var p := t.settlements[i];
                  p.group in s.groups && !s.groups[p.group].archived && {p.payer, p.payee} <= s.groups[p.group].active)
  {
    match op {
      case FastCreate(q) =>
        if FastResult(s, q, now).Success? { FastPeople(q); }
      case ItemizedCreate(q) =>
        if ItemizedAccepted(s, q) { Itemized.AcceptedExpenseConserves(ItemsOf(s, q)); }
      case _ =>
    }
  }

  lemma FastPeople(q: FastRequest)
    requires q.WellFormed() && FastShares(q).Success?
    ensures ShareTable(FastShares(q).value).Keys <= UsersOf(q.participants)
  {
    FastSharesConserve(q);
    ShareTableReads(FastShares(q).value);
  }
}
