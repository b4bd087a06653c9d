/** The services that write the ledger, each proved to perform exactly one step of `Ledger`. */
module LedgerServices {
  import opened Basics
  import opened Sums
  import opened Ledger
  import Splits
  import Itemized

  class LedgerService {
    var groups: map<GroupId, Group>
    var expenses: seq<Expense>
    var settlements: seq<Settlement>
    var itemizedLines: set<Itemized.LineId>

    ghost function Rows(): Store
      reads this
    {
      Store(groups, expenses, settlements, itemizedLines)
    }

    constructor (groups: map<GroupId, Group>)
      ensures Rows() == Store(groups, [], [], {})
      ensures Sound(Rows())
    {
      this.groups := groups;
      expenses := [];
      settlements := [];
      itemizedLines := {};
    }

    method CalculateShares(q: FastRequest) returns (r: Result<Splits.Shares, Refusal>)
      ensures r == FastShares(q)
    {
      match q.splitType
      case Equal =>
        var users := seq(|q.participants|, i requires 0 <= i < |q.participants| => q.participants[i].0);
        return FromSplit(Splits.EqualShares(q.total, users));
      case Percentage =>
        var shares := Splits.PercentageShares(q.total, q.participants);
        return FromSplit(shares);
      case FixedAmount =>
        var shares := Splits.ExactShares(q.total, q.participants);
        return FromSplit(shares);
      case ItemizedSplit =>
        return Failure(InvalidRequest);
    }

    method CreateFastSplit(q: FastRequest, now: Time) returns (r: Result<ExpenseId, Refusal>)
      modifies this`expenses
      ensures Rows() == Step(old(Rows()), FastCreate(q), now)
      ensures match FastResult(old(Rows()), q, now)
              case Success(_) => r == Success(|old(expenses)|)
              case Failure(refusal) => r == Failure(refusal)
    {
      if q.group !in groups {
        return Failure(GroupNotFound);
      }
      var group := groups[q.group];
      if group.archived {
        return Failure(GroupForbidden);
      }
      if q.currency != group.currency {
        return Failure(CurrencyMismatch);
      }
      if q.receipt.Some? && !q.receiptSynced {
        return Failure(ReceiptNotSynced);
      }
      if !({q.actor, q.payer} + UsersOf(q.participants) <= group.active) {
        return Failure(MemberNotFound);
      }
      var shares := CalculateShares(q);
      match shares
      case Failure(refusal) =>
        r := Failure(refusal);
      case Success(rows) =>
        var expense := Expense(q.group, q.payer, q.actor, q.total, q.currency, q.splitType, ShareTable(rows),
                               q.receipt, q.details, now, now, false);
        r := Success(|expenses|);
        expenses := expenses + [expense];
    }

    method CreateItemized(q: ItemizedRequest, now: Time) returns (r: Result<ExpenseId, Refusal>)
      modifies this`expenses, this`itemizedLines
      ensures Rows() == Step(old(Rows()), ItemizedCreate(q), now)
      ensures r.Success? <==> ItemizedAccepted(old(Rows()), q)
      ensures r.Success? ==> r.value == |old(expenses)|
      ensures r.Failure? ==>
                match ItemizedGuard(old(Rows()), q)
                case Some(refusal) => r.error == refusal
                case None => r.error.BadItems? && Itemized.Refused(ItemsOf(old(Rows()), q), r.error.items)
    {
      if q.group !in groups {
        return Failure(GroupNotFound);
      }
      var group := groups[q.group];
      if group.archived {
        return Failure(GroupForbidden);
      }
      if q.total <= 0 {
        return Failure(InvalidRequest);
      }
      if q.currency != group.currency {
        return Failure(CurrencyMismatch);
      }
      if q.actor !in group.active {
        return Failure(GroupForbidden);
      }
      if !q.receiptSynced {
        return Failure(ReceiptNotSynced);
      }
      if q.receiptCurrency != group.currency {
        return Failure(CurrencyMismatch);
      }
      var shares := Itemized.ItemizedSplit(
        Itemized.Request(q.total, q.payer, group.active, q.lines, itemizedLines, q.assignments, q.extras));
      match shares
      case Failure(error) =>
        r := Failure(BadItems(error));
      case Success(table) =>
        var expense := Expense(q.group, q.payer, q.actor, q.total, q.currency, ItemizedSplit, table,
                               Some(q.receipt), q.details, now, now, false);
        r := Success(|expenses|);
        expenses := expenses + [expense];
        itemizedLines := itemizedLines + Itemized.Provided(q.assignments);
    }

    method CreateSettlement(q: SettlementRequest, now: Time) returns (r: Result<nat, Refusal>)
      modifies this`settlements
      ensures Rows() == Step(old(Rows()), Settle(q), now)
      ensures match SettlementResult(old(Rows()), q, now)
              case Success(_) => r == Success(|old(settlements)|)
              case Failure(refusal) => r == Failure(refusal)
    {
      if q.group !in groups {
        return Failure(GroupNotFound);
      }
      var group := groups[q.group];
      if group.archived {
        return Failure(GroupForbidden);
      }
      if q.payer != q.actor {
        return Failure(SenderMustMatchActor);
      }
      if q.payer == q.payee {
        return Failure(SelfSettlement);
      }
      if q.amount <= 0 || q.amount > MAX_BIGINT {
        return Failure(InvalidSettlementAmount);
      }
      if q.currency != group.currency {
        return Failure(CurrencyMismatch);
      }
      if !({q.payer, q.payee} <= group.active) {
        return Failure(MemberNotFound);
      }
      r := Success(|settlements|);
      settlements := settlements + [Settlement(q.group, q.payer, q.payee, q.amount, now)];
    }

    /** Scans the settlements of the group for one recorded at or after the expense. */
    method IsFinanciallyLocked(e: Expense) returns (locked: bool)
      ensures locked == Locked(Rows(), e)
    {
      for i := 0 to |settlements|
        invariant forall k | 0 <= k < i :: !(settlements[k].group == e.group && settlements[k].createdAt >= e.createdAt)
      {
        if settlements[i].group == e.group && settlements[i].createdAt >= e.createdAt {
          return true;
        }
      }
      return false;
    }

    /** Loads the expense for update, as both kinds of pushed change do. */
    method LoadForMutation(group: GroupId, user: UserId, id: ExpenseId, expected: Option<Time>)
        returns (r: Result<Expense, Refusal>)
      ensures match MutationGuard(Rows(), group, user, id, expected)
              case Some(refusal) => r == Failure(refusal)
              case None => id < |expenses| && r == Success(expenses[id])
    {
      if group !in groups {
        return Failure(GroupNotFound);
      }
      if user !in groups[group].active {
        return Failure(GroupForbidden);
      }
      if id >= |expenses| || expenses[id].group != group {
        return Failure(VersionMismatch);
      }
      var expense := expenses[id];
      if expense.createdBy != user && user !in groups[group].admins {
        return Failure(GroupForbidden);
      }
      if expense.deleted {
        return Failure(RecordSoftDeleted);
      }
      if expected.Some? && expense.updatedAt != expected.value {
        return Failure(VersionMismatch);
      }
      return Success(expense);
    }

    method PushExpenseUpdate(q: UpdateRequest, now: Time) returns (r: Result<(), Refusal>)
      modifies this`expenses
      ensures Rows() == Step(old(Rows()), PushUpdate(q), now)
      ensures match UpdateResult(old(Rows()), q, now)
              case Success(_) => r == Success(())
              case Failure(refusal) => r == Failure(refusal)
    {
      var loaded := LoadForMutation(q.group, q.user, q.id, q.expected);
      if loaded.Failure? {
        return Failure(loaded.error);
      }
      var expense := loaded.value;
      var locked := IsFinanciallyLocked(expense);
      var incoming := ShareTable(q.shares);
      ShareTableCount(q.shares);
      if |incoming| != |q.shares| {
        return Failure(InvalidSplit);
      }
      var sum := Total(incoming);
      if sum != q.total {
        return Failure(InvalidSplitTotal);
      }
      if q.currency != groups[q.group].currency {
        return Failure(CurrencyMismatch);
      }
      if !({q.payer} + UsersOf(q.shares) <= groups[q.group].active) {
        return Failure(MemberNotFound);
      }
      var financialChanged :=
        || expense.receipt != q.receipt
        || expense.payer != q.payer
        || expense.total != q.total
        || expense.currency != q.currency
        || expense.splitType != q.splitType
        || expense.shares != incoming;
      if locked && financialChanged {
        return Failure(FinanciallyLocked);
      }
      if financialChanged && (expense.splitType.ItemizedSplit? || q.splitType.ItemizedSplit?) {
        return Failure(ItemizedUpdateNotSupported);
      }
      expense := expense.(details := q.details);
      if financialChanged {
        expense := expense.(receipt := q.receipt, payer := q.payer, total := q.total, currency := q.currency,
                            splitType := q.splitType, shares := incoming);
      }
      expense := expense.(updatedAt := now);
      expenses := expenses[q.id := expense];
      return Success(());
    }

    method PushExpenseDelete(q: DeleteRequest, now: Time) returns (r: Result<(), Refusal>)
      modifies this`expenses
      ensures Rows() == Step(old(Rows()), PushDelete(q), now)
      ensures match DeleteResult(old(Rows()), q, now)
              case Success(_) => r == Success(())
              case Failure(refusal) => r == Failure(refusal)
    {
      var loaded := LoadForMutation(q.group, q.user, q.id, q.expected);
      if loaded.Failure? {
        return Failure(loaded.error);
      }
      var locked := IsFinanciallyLocked(loaded.value);
      if locked {
        return Failure(FinanciallyLocked);
      }
      expenses := expenses[q.id := loaded.value.(deleted := true, updatedAt := now)];
      return Success(());
    }
  }
}
