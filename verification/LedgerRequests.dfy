/**
 * What the requests to the ledger mean for those who send them: when exactly one is
 * accepted, what the stored row then shows, how the balances move, and what an answer
 * that refuses tells.
 */
module LedgerRequests {
  import opened Basics
  import opened Sums
  import opened Ledger
  import opened Balances
  import Splits
  import Itemized

  // ---------- fast splits ----------

  /** The values make sense for the way the expense is split. */
  ghost predicate Divisible(q: FastRequest) {
    && q.total > 0 && q.participants != []
    && match q.splitType
       case Equal => true
       case Percentage => Amounts(q.participants) == 10_000
       case FixedAmount => Amounts(q.participants) == q.total
       case ItemizedSplit => false
  }

  ghost predicate FastAllowed(s: Store, q: FastRequest) {
    && q.group in s.groups && !s.groups[q.group].archived && q.currency == s.groups[q.group].currency
    && (q.receipt.Some? ==> q.receiptSynced)
    && {q.actor, q.payer} + UsersOf(q.participants) <= s.groups[q.group].active
    && Divisible(q)
  }

  lemma DivisibleExactlyWhen(q: FastRequest)
    requires q.WellFormed()
    ensures FastShares(q).Success? <==> Divisible(q)
    ensures !Divisible(q) ==>
              FastShares(q) == Failure(
                if q.splitType == ItemizedSplit then InvalidRequest
                else if q.total <= 0 || q.participants == [] then BadSplit(Splits.InvalidAmount)
                else if q.splitType == Percentage then BadSplit(Splits.PercentageTotalMustBe100)
                else BadSplit(Splits.ExactTotalMustMatchExpense))
  {
    assert !Splits.AnyNegative(q.participants);
  }

  /** A fast split adds a row exactly when the request is allowed; otherwise nothing changes. */
  lemma FastSplitAcceptedExactlyWhen(s: Store, q: FastRequest, now: Time)
    requires q.WellFormed()
    ensures var t := Step(s, FastCreate(q), now);
            && (t != s <==> FastAllowed(s, q))
            && (t != s ==> |t.expenses| == |s.expenses| + 1 && t == s.(expenses := t.expenses)
                           && t.expenses[..|s.expenses|] == s.expenses)
  {
    DivisibleExactlyWhen(q);
  }

  lemma TableHasRow(rows: seq<(UserId, int)>, i: nat)
    requires Once(rows) && i < |rows|
    ensures rows[i].0 in ShareTable(rows) && ShareTable(rows)[rows[i].0] == rows[i].1
  {
    ShareTableReads(rows);
    assert rows[i] in rows;
    var j :| 0 <= j < |rows| && rows[j] == (rows[i].0, ShareTable(rows)[rows[i].0]);
  }

  /** The shares of the participants, in the order of the request. */
  ghost predicate DividedAsAsked(shares: map<UserId, int>, q: FastRequest)
    requires forall i | 0 <= i < |q.participants| :: q.participants[i].0 in shares
  {
    match q.splitType
    case Equal => Level(shares, q.participants)
    case Percentage => RoundedParts(shares, q.total, q.participants)
    case FixedAmount =>
      forall i | 0 <= i < |q.participants| :: shares[q.participants[i].0] == q.participants[i].1
    case ItemizedSplit => false
  }

  /** At most one unit apart, and never less than somebody listed later. */
  ghost predicate Level(shares: map<UserId, int>, ps: seq<(UserId, int)>)
    requires forall i | 0 <= i < |ps| :: ps[i].0 in shares
  {
    forall i, j | 0 <= i < j < |ps| :: shares[ps[j].0] <= shares[ps[i].0] <= shares[ps[j].0] + 1
  }

  /** The exact part rounded down, or one more; whoever comes behind somebody without the unit has none either. */
  ghost predicate RoundedParts(shares: map<UserId, int>, total: int, ps: seq<(UserId, int)>)
    requires forall i | 0 <= i < |ps| :: ps[i].0 in shares
  {
    && (forall i | 0 <= i < |ps| :: 0 <= shares[ps[i].0] - total * ps[i].1 / 10_000 <= 1)
    && (forall i, j | 0 <= i < j < |ps| ::
          shares[ps[i].0] - total * ps[i].1 / 10_000 >= shares[ps[j].0] - total * ps[j].1 / 10_000)
  }

  /** The row has what the request says, and a share for every participant. */
  ghost predicate StoredAsAsked(e: Expense, q: FastRequest, now: Time) {
    && e.group == q.group && e.payer == q.payer && e.createdBy == q.actor
    && e.total == q.total && e.currency == q.currency && e.splitType == q.splitType
    && e.receipt == q.receipt && e.details == q.details
    && e.createdAt == now && e.updatedAt == now && !e.deleted
    && e.shares.Keys == UsersOf(q.participants)
    && Sum(e.shares) == q.total
    && (forall i | 0 <= i < |q.participants| :: q.participants[i].0 in e.shares)
    && DividedAsAsked(e.shares, q)
  }

  /** The table gives the users of `ps` the amounts of `rows`, position by position. */
  ghost predicate Pays(shares: map<UserId, int>, ps: seq<(UserId, int)>, rows: seq<(UserId, int)>) {
    |rows| == |ps| && forall i | 0 <= i < |ps| :: ps[i].0 in shares && shares[ps[i].0] == rows[i].1
  }

  lemma TablePays(rows: seq<(UserId, int)>, ps: seq<(UserId, int)>)
    requires Once(rows) && |rows| == |ps| && forall i | 0 <= i < |ps| :: rows[i].0 == ps[i].0
    ensures Pays(ShareTable(rows), ps, rows)
  {
    forall i | 0 <= i < |rows| ensures rows[i].0 in ShareTable(rows) && ShareTable(rows)[rows[i].0] == rows[i].1 {
      TableHasRow(rows, i);
    }
  }

  lemma EqualIsLevel(q: FastRequest, rows: seq<(UserId, int)>)
    requires q.WellFormed() && q.splitType == Equal && Divisible(q) && FastShares(q) == Success(rows) && Once(rows)
    ensures Pays(ShareTable(rows), q.participants, rows) && Level(ShareTable(rows), q.participants)
  {
    var users := seq(|q.participants|, i requires 0 <= i < |q.participants| => q.participants[i].0);
    Splits.EqualSharesConserve(q.total, users);
    TablePays(rows, q.participants);
  }

  lemma PercentageIsRounded(q: FastRequest, rows: seq<(UserId, int)>)
    requires q.WellFormed() && q.splitType == Percentage && Divisible(q)
    requires FastShares(q) == Success(rows) && Once(rows)
    ensures Pays(ShareTable(rows), q.participants, rows)
    ensures RoundedParts(ShareTable(rows), q.total, q.participants)
  {
    Splits.PercentageSharesConserve(q.total, q.participants);
    TablePays(rows, q.participants);
  }

  lemma FixedIsKept(q: FastRequest, rows: seq<(UserId, int)>)
    requires q.WellFormed() && q.splitType == FixedAmount && Divisible(q)
    requires FastShares(q) == Success(rows) && Once(rows)
    ensures Pays(ShareTable(rows), q.participants, q.participants)
  {
    Splits.ExactSharesConserve(q.total, q.participants);
    forall i | 0 <= i < |q.participants|
      ensures q.participants[i].0 in ShareTable(rows)
      ensures ShareTable(rows)[q.participants[i].0] == q.participants[i].1
    {
      assert q.participants[i] in multiset(q.participants);
      assert q.participants[i] in multiset(rows);
      var j :| 0 <= j < |rows| && rows[j] == q.participants[i];
      TableHasRow(rows, j);
    }
  }

  lemma SharesAsAsked(q: FastRequest)
    requires q.WellFormed() && Divisible(q)
    ensures FastShares(q).Success?
    ensures var shares := ShareTable(FastShares(q).value);
            && (forall i | 0 <= i < |q.participants| :: q.participants[i].0 in shares)
            && DividedAsAsked(shares, q)
  {
    DivisibleExactlyWhen(q);
    FastSharesConserve(q);
    var rows := FastShares(q).value;
    match q.splitType {
      case Equal => EqualIsLevel(q, rows);
      case Percentage => PercentageIsRounded(q, rows);
      case FixedAmount => FixedIsKept(q, rows);
    }
  }

  /**
   * The stored expense is the one that was asked for: an equal split leaves shares at most one
   * unit apart, the extra units going to those listed first; a percentage split gives everybody
   * the exact part rounded down, and one unit more to those listed first; fixed amounts are
   * stored as they are.  In each case the shares make up the total.
   */
  lemma FastSplitStored(s: Store, q: FastRequest, now: Time)
    requires q.WellFormed() && FastAllowed(s, q)
    ensures var t := Step(s, FastCreate(q), now);
            |t.expenses| == |s.expenses| + 1 && StoredAsAsked(t.expenses[|s.expenses|], q, now)
  {
    SharesAsAsked(q);
    FastSharesConserve(q);
    ShareTableReads(FastShares(q).value);
    ShareTableCount(FastShares(q).value);
  }

  /** The payer's balance rises by the total and everybody's falls by their own share; other groups are untouched. */
  lemma FastSplitMovesBalances(s: Store, q: FastRequest, now: Time, g: GroupId, u: UserId)
    requires q.WellFormed() && FastAllowed(s, q)
    ensures var t := Step(s, FastCreate(q), now);
            && |t.expenses| == |s.expenses| + 1
            && Net(t, g, u) == Net(s, g, u) +
                 if g != q.group then 0
                 else (if u == q.payer then q.total else 0) - At(t.expenses[|s.expenses|].shares, u)
  {
    FastSplitAcceptedExactlyWhen(s, q, now);
    FastSplitStored(s, q, now);
    var t := Step(s, FastCreate(q), now);
    var e := t.expenses[|s.expenses|];
    assert t.expenses == s.expenses + [e];
    LastExpense(s.expenses, e, g, u);
  }

  function SeventyThirty(): FastRequest {
    FastRequest(1, 1, 1, None, false, 0, 100, 949, Percentage, [(1, 7_000), (2, 3_000)])
  }

  lemma SeventyThirtyIsWhole()
    ensures SeventyThirty().WellFormed() && Divisible(SeventyThirty())
    ensures UsersOf(SeventyThirty().participants) == {1, 2}
  {
    var rows := SeventyThirty().participants;
    var first := rows[..1];
    assert first == [(1, 7_000)] && first[..0] == [];
    assert Amounts(first) == 7_000;
    assert rows[0] == (1, 7_000) && rows[1] == (2, 3_000);
  }

  /** Seventy and thirty percent of a hundred. */
  lemma PercentageExample(s: Store, now: Time)
    requires FastAllowed(s, SeventyThirty())
    ensures var t := Step(s, FastCreate(SeventyThirty()), now);
            |t.expenses| == |s.expenses| + 1 && t.expenses[|s.expenses|].shares == map[1 := 70, 2 := 30]
  {
    SeventyThirtyIsWhole();
    FastSplitStored(s, SeventyThirty(), now);
    var e := Step(s, FastCreate(SeventyThirty()), now).expenses[|s.expenses|];
    SeventyAndThirty(e, now);
  }

  lemma SeventyAndThirty(e: Expense, now: Time)
    requires StoredAsAsked(e, SeventyThirty(), now) && UsersOf(SeventyThirty().participants) == {1, 2}
    ensures e.shares == map[1 := 70, 2 := 30]
  {
    var rows := SeventyThirty().participants;
    assert rows[0] == (1, 7_000) && rows[1] == (2, 3_000);
    TwoShares(e.shares, 1, 2);
  }

  lemma TwoShares(shares: map<UserId, int>, u: UserId, v: UserId)
    requires u != v && shares.Keys == {u, v}
    ensures Sum(shares) == shares[u] + shares[v]
  {
    SumAt(shares, u);
    var rest: map<UserId, int> := shares - {u};
    SumAt(rest, v);
    assert rest - {v} == map[];
  }

  // ---------- itemized expenses ----------

  ghost predicate ItemizedAllowed(s: Store, q: ItemizedRequest) {
    && q.group in s.groups && !s.groups[q.group].archived
    && q.currency == s.groups[q.group].currency == q.receiptCurrency
    && q.receiptSynced && q.total > 0 && q.actor in s.groups[q.group].active
    && Itemized.Accepted(ItemsOf(s, q))
  }

  /**
   * An itemized expense adds a row exactly when it is allowed.  Everybody's share is what was
   * assigned to them with their part of the extras, and the lines count as itemized from then on.
   */
  lemma ItemizedStored(s: Store, q: ItemizedRequest, now: Time)
    ensures var t := Step(s, ItemizedCreate(q), now);
            && (t != s <==> ItemizedAllowed(s, q))
            && (t != s ==> |t.expenses| == |s.expenses| + 1 && t.expenses[..|s.expenses|] == s.expenses
                           && t.groups == s.groups && t.settlements == s.settlements)
    ensures ItemizedAllowed(s, q) ==>
              var t := Step(s, ItemizedCreate(q), now);
              var e := t.expenses[|s.expenses|];
              && e.group == q.group && e.payer == q.payer && e.createdBy == q.actor
              && e.total == q.total && e.currency == q.currency && e.splitType == ItemizedSplit
              && e.receipt == Some(q.receipt) && e.details == q.details
              && e.createdAt == now && e.updatedAt == now && !e.deleted
              && (forall l :: l in t.itemizedLines <==>
                    l in s.itemizedLines || exists a :: a in q.assignments && a.line == l)
    ensures ItemizedAllowed(s, q) ==>
              forall u ::
                At(Step(s, ItemizedCreate(q), now).expenses[|s.expenses|].shares, u) ==
                AmountsOf(Itemized.UserRows(q.assignments), u) + AmountsOf(Itemized.ExtraRows(q.extras), u)
  {
    if ItemizedAllowed(s, q) {
      forall u {
        Itemized.ShareIsWhatWasAssigned(ItemsOf(s, q), u);
      }
    }
  }

  /** The itemized create takes effect. */
  ghost predicate Itemizes(s: Store, op: Operation) {
    op.ItemizedCreate? && ItemizedAccepted(s, op.itemized)
  }

  lemma {:induction false} ItemizedLinesStay(s: Store, trace: Trace)
    ensures s.itemizedLines <= Run(s, trace).itemizedLines
  {
    if trace != [] {
      ItemizedLinesStay(s, trace[..|trace| - 1]);
    }
  }

  /** Over every run no receipt line is itemized twice: after an accepted itemization its lines are refused for good. */
  lemma LineIsItemizedOnce(s: Store, first: Operation, now: Time, trace: Trace, second: Operation)
    requires Itemizes(s, first)
    requires Itemizes(Run(Step(s, first, now), trace), second)
    ensures forall a, b | a in first.itemized.assignments && b in second.itemized.assignments :: a.line != b.line
  {
    var t := Run(Step(s, first, now), trace);
    ItemizedLinesStay(Step(s, first, now), trace);
    Itemized.AcceptedExactlyWhen(ItemsOf(t, second.itemized));
    forall a, b | a in first.itemized.assignments && b in second.itemized.assignments ensures a.line != b.line {
      assert a.line in Itemized.Provided(first.itemized.assignments);
      assert Itemized.AssignmentFits(ItemsOf(t, second.itemized), b);
    }
  }

  // ---------- settlements ----------

  ghost predicate SettlementAllowed(s: Store, q: SettlementRequest) {
    && q.group in s.groups && !s.groups[q.group].archived && q.currency == s.groups[q.group].currency
    && q.payer == q.actor && q.payer != q.payee && {q.payer, q.payee} <= s.groups[q.group].active
    && 0 < q.amount <= 9_223_372_036_854_775_807
  }

  /**
   * A settlement is recorded exactly when it is allowed.  The balance of the payer rises by the
   * amount, that of the payee falls by it, and nobody else's moves, in this or any other group.
   */
  lemma SettlementMovesBalances(s: Store, q: SettlementRequest, now: Time, g: GroupId, u: UserId)
    ensures Step(s, Settle(q), now) != s <==> SettlementAllowed(s, q)
    ensures var t := Step(s, Settle(q), now);
            && t.expenses == s.expenses && t.groups == s.groups && t.itemizedLines == s.itemizedLines
            && (SettlementAllowed(s, q) ==>
                t.settlements == s.settlements + [Settlement(q.group, q.payer, q.payee, q.amount, now)])
    ensures SettlementAllowed(s, q) && g == q.group ==>
              Net(Step(s, Settle(q), now), g, u) ==
              Net(s, g, u) + (if u == q.payer then q.amount else if u == q.payee then -q.amount else 0)
    ensures !SettlementAllowed(s, q) || g != q.group ==> Net(Step(s, Settle(q), now), g, u) == Net(s, g, u)
  {
    if SettlementAllowed(s, q) {
      LastSettlement(s.settlements, Settlement(q.group, q.payer, q.payee, q.amount, now), g, u);
      assert |Step(s, Settle(q), now).settlements| != |s.settlements|;
    }
  }

  // ---------- pushed changes ----------

  /** Who may change a stored expense, and on which version. */
  ghost predicate MayChange(s: Store, group: GroupId, user: UserId, id: ExpenseId, expected: Option<Time>) {
    && group in s.groups && user in s.groups[group].active
    && id < |s.expenses| && s.expenses[id].group == group && !s.expenses[id].deleted
    && (s.expenses[id].createdBy == user || user in s.groups[group].admins)
    && (expected == None || expected == Some(s.expenses[id].updatedAt))
  }

  /** Some settlement of the group is not older than the expense. */
  ghost predicate SettledSince(s: Store, e: Expense) {
    exists t :: t in s.settlements && t.group == e.group && e.createdAt <= t.createdAt
  }

  lemma LockedExactlyWhen(s: Store, e: Expense)
    ensures Locked(s, e) <==> SettledSince(s, e)
  {
    if t :| t in s.settlements && t.group == e.group && e.createdAt <= t.createdAt {
      var i :| 0 <= i < |s.settlements| && s.settlements[i] == t;
    }
  }

  /** The row shows receipt, payer, total, currency, way of splitting and shares of the request. */
  ghost predicate ShowsFinancials(e: Expense, q: UpdateRequest) {
    && e.receipt == q.receipt && e.payer == q.payer && e.total == q.total && e.currency == q.currency
    && e.splitType == q.splitType && e.shares.Keys == UsersOf(q.shares)
    && forall i | 0 <= i < |q.shares| :: q.shares[i].0 in e.shares && e.shares[q.shares[i].0] == q.shares[i].1
  }

  ghost predicate UpdateAllowed(s: Store, q: UpdateRequest) {
    && MayChange(s, q.group, q.user, q.id, q.expected)
    && Once(q.shares) && Amounts(q.shares) == q.total && q.currency == s.groups[q.group].currency
    && {q.payer} + UsersOf(q.shares) <= s.groups[q.group].active
    && (|| ShowsFinancials(s.expenses[q.id], q)
        || (!SettledSince(s, s.expenses[q.id]) && s.expenses[q.id].splitType != ItemizedSplit
            && q.splitType != ItemizedSplit))
  }

  lemma SameTable(e: Expense, q: UpdateRequest)
    requires Once(q.shares)
    ensures ShowsFinancials(e, q) <==> !FinancialChange(e, q)
  {
    var table: map<UserId, int> := ShareTable(q.shares);
    ShareTableReads(q.shares);
    forall i | 0 <= i < |q.shares| ensures q.shares[i].0 in table && table[q.shares[i].0] == q.shares[i].1 {
      TableHasRow(q.shares, i);
    }
    if ShowsFinancials(e, q) {
      forall u | u in table ensures e.shares[u] == table[u] {
        var i :| 0 <= i < |q.shares| && q.shares[i] == (u, table[u]);
      }
    }
  }

  /**
   * A pushed update is accepted exactly when its author may change the expense and its values
   * fit, and either nothing financial changes or the expense is neither locked nor itemized.
   * The stored row then shows everything the request says; the rest of the ledger stays.
   */
  lemma UpdateStored(s: Store, q: UpdateRequest, now: Time)
    ensures UpdateResult(s, q, now).Success? <==> UpdateAllowed(s, q)
    ensures !UpdateAllowed(s, q) ==> Step(s, PushUpdate(q), now) == s
    ensures UpdateAllowed(s, q) ==>
              var t := Step(s, PushUpdate(q), now);
              && |t.expenses| == |s.expenses| && t == s.(expenses := t.expenses)
              && (forall i | 0 <= i < |s.expenses| && i != q.id :: t.expenses[i] == s.expenses[i])
              && ShowsFinancials(t.expenses[q.id], q)
              && t.expenses[q.id].details == q.details && t.expenses[q.id].updatedAt == now
              && t.expenses[q.id].group == q.group && t.expenses[q.id].createdBy == s.expenses[q.id].createdBy
              && t.expenses[q.id].createdAt == s.expenses[q.id].createdAt && !t.expenses[q.id].deleted
  {
    if MayChange(s, q.group, q.user, q.id, q.expected) && Once(q.shares) {
      LockedExactlyWhen(s, s.expenses[q.id]);
      SameTable(s.expenses[q.id], q);
      if UpdateAllowed(s, q) {
        SameTable(Step(s, PushUpdate(q), now).expenses[q.id], q);
      }
    }
  }

  /**
   * A pushed delete is accepted exactly when its author may change the expense and no settlement
   * was recorded since.  It marks the row; whoever paid or shared loses what it posted.
   */
  lemma DeleteStored(s: Store, q: DeleteRequest, now: Time, u: UserId)
    ensures DeleteResult(s, q, now).Success? <==>
              MayChange(s, q.group, q.user, q.id, q.expected) && !SettledSince(s, s.expenses[q.id])
    ensures DeleteResult(s, q, now).Failure? ==> Step(s, PushDelete(q), now) == s
    ensures DeleteResult(s, q, now).Success? ==>
              var e := s.expenses[q.id];
              && Step(s, PushDelete(q), now) ==
                 s.(expenses := s.expenses[q.id := e.(deleted := true, updatedAt := now)])
              && Net(Step(s, PushDelete(q), now), q.group, u) ==
                 Net(s, q.group, u) - (if u == e.payer then e.total else 0) + At(e.shares, u)
  {
    if MayChange(s, q.group, q.user, q.id, q.expected) {
      LockedExactlyWhen(s, s.expenses[q.id]);
      ExpenseNetPut(s.expenses, q.id, s.expenses[q.id].(deleted := true, updatedAt := now), q.group, u);
    }
  }

  // ---------- answers that refuse ----------

  /** Outsiders learn nothing: whatever rows are stored, their changes are answered alike. */
  lemma OutsidersLearnNothing(s: Store, t: Store, q: UpdateRequest, d: DeleteRequest, now: Time)
    requires s.groups == t.groups
    requires forall g | g in s.groups :: q.user !in s.groups[g].active && d.user !in s.groups[g].active
    ensures UpdateResult(s, q, now) == UpdateResult(t, q, now)
    ensures DeleteResult(s, d, now) == DeleteResult(t, d, now)
    ensures UpdateResult(s, q, now) == Failure(if q.group in s.groups then GroupForbidden else GroupNotFound)
  {
  }

  /** A deleted record is told apart from a changed one, whatever version the client expects. */
  lemma ConflictTold(s: Store, group: GroupId, user: UserId, id: ExpenseId, expected: Option<Time>)
    requires group in s.groups && user in s.groups[group].active
    ensures var answer := MutationGuard(s, group, user, id, expected);
            var known := id < |s.expenses| && s.expenses[id].group == group;
            var permitted := known && (s.expenses[id].createdBy == user || user in s.groups[group].admins);
            && (answer == Some(GroupForbidden) <==> known && !permitted)
            && (answer == Some(RecordSoftDeleted) <==> permitted && s.expenses[id].deleted)
            && (answer == Some(VersionMismatch) <==>
                  || !known
                  || (permitted && !s.expenses[id].deleted && expected != None
                      && expected != Some(s.expenses[id].updatedAt)))
            && (answer == None <==> MayChange(s, group, user, id, expected))
  {
  }

  /** An update is refused as locked, or as itemized, only if it would otherwise be fine and changes something. */
  lemma UpdateRefusals(s: Store, q: UpdateRequest, now: Time)
    requires MayChange(s, q.group, q.user, q.id, q.expected)
    ensures var answer := UpdateResult(s, q, now);
            var e, group := s.expenses[q.id], s.groups[q.group];
            var fits := Once(q.shares) && Amounts(q.shares) == q.total && q.currency == group.currency
                        && {q.payer} + UsersOf(q.shares) <= group.active;
            && (answer == Failure(FinanciallyLocked) <==> fits && SettledSince(s, e) && !ShowsFinancials(e, q))
            && (answer == Failure(ItemizedUpdateNotSupported) <==>
                  fits && !SettledSince(s, e) && !ShowsFinancials(e, q)
                  && (e.splitType == ItemizedSplit || q.splitType == ItemizedSplit))
            && (answer == Failure(InvalidSplit) <==>
                  exists i, j :: 0 <= i < j < |q.shares| && q.shares[i].0 == q.shares[j].0)
            && (answer == Failure(InvalidSplitTotal) ==> Amounts(q.shares) != q.total)
            && (answer == Failure(CurrencyMismatch) ==> q.currency != group.currency)
            && (answer == Failure(MemberNotFound) ==>
                  q.payer !in group.active || exists r :: r in q.shares && r.0 !in group.active)
  {
    LockedExactlyWhen(s, s.expenses[q.id]);
    if Once(q.shares) { SameTable(s.expenses[q.id], q); }
  }

  /** A refused fast split or settlement is refused for a reason that holds. */
  lemma CreateRefusals(s: Store, q: FastRequest, p: SettlementRequest, now: Time)
    requires q.WellFormed()
    ensures match FastResult(s, q, now)
            case Success(_) => FastAllowed(s, q)
            case Failure(GroupNotFound) => q.group !in s.groups
            case Failure(GroupForbidden) => q.group in s.groups && s.groups[q.group].archived
            case Failure(CurrencyMismatch) => q.group in s.groups && q.currency != s.groups[q.group].currency
            case Failure(ReceiptNotSynced) => q.receipt != None && !q.receiptSynced
            case Failure(MemberNotFound) =>
              q.group in s.groups && !({q.actor, q.payer} + UsersOf(q.participants) <= s.groups[q.group].active)
            case Failure(InvalidRequest) => q.splitType == ItemizedSplit
            case Failure(BadSplit(InvalidAmount)) => q.total <= 0 || q.participants == []
            case Failure(BadSplit(PercentageTotalMustBe100)) => Amounts(q.participants) != 10_000
            case Failure(BadSplit(ExactTotalMustMatchExpense)) => Amounts(q.participants) != q.total
            case Failure(_) => false
    ensures match SettlementResult(s, p, now)
            case Success(_) => SettlementAllowed(s, p)
            case Failure(GroupNotFound) => p.group !in s.groups
            case Failure(GroupForbidden) => p.group in s.groups && s.groups[p.group].archived
            case Failure(SenderMustMatchActor) => p.payer != p.actor
            case Failure(SelfSettlement) => p.payer == p.payee
            case Failure(InvalidSettlementAmount) => !(0 < p.amount <= 9_223_372_036_854_775_807)
            case Failure(CurrencyMismatch) => p.group in s.groups && p.currency != s.groups[p.group].currency
            case Failure(MemberNotFound) => p.group in s.groups && !({p.payer, p.payee} <= s.groups[p.group].active)
            case Failure(_) => false
  {
    DivisibleExactlyWhen(q);
  }
}
