/**
 * The debt summary of a group: balances accumulated from expenses, settlements applied,
 * and the remaining debts simplified into a payment plan.
 */
module DebtSummaries {
  import opened Basics
  import opened Sums
  import opened Ledger
  import opened Balances
  import Plans
  import Debts

  datatype Summary = Summary(balances: seq<Debts.Balance>, plan: seq<Plans.Transfer>)

  datatype SummaryError = GroupUnknown | BadBalances(error: Debts.DebtError)

  // ---------- specification ----------

  ghost predicate Ascending(users: seq<UserId>) {
    forall i, j | 0 <= i < j < |users| :: users[i] < users[j]
  }

  /** One row per user in id order, each with that user's net balance. */
  ghost predicate ListsBalances(balances: seq<Debts.Balance>, s: Store, g: GroupId, users: set<UserId>) {
    && (forall i, j | 0 <= i < j < |balances| :: balances[i].user < balances[j].user)
    && (forall b | b in balances :: b.user in users && b.net == Net(s, g, b.user))
    && (forall u | u in users :: exists b :: b in balances && b.user == u)
  }

  ghost predicate IsSummary(summary: Summary, s: Store, g: GroupId)
    requires g in s.groups
  {
    && ListsBalances(summary.balances, s, g, FinancialUsers(s, g))
    && summary.plan == Plans.Plan(GroupNets(s, g, FinancialUsers(s, g)))
  }

  ghost function GroupNets(s: Store, g: GroupId, users: set<UserId>): Plans.Nets {
    map u: UserId | u in users :: Net(s, g, u)
  }

  /** The payments of the plan bring every balance of the summary to zero. */
  lemma SummaryPlanSettlesGroup(summary: Summary, s: Store, g: GroupId)
    requires Sound(s) && g in s.groups && IsSummary(summary, s, g)
    ensures Plans.Settled(Plans.PayAll(GroupNets(s, g, FinancialUsers(s, g)), summary.plan))
  {
    GroupBalancesSumToZero(s, g, FinancialUsers(s, g));
    Plans.PlanSettles(GroupNets(s, g, FinancialUsers(s, g)));
  }

  // ---------- transfers ----------

  ghost function TransfersOf(ts: seq<Settlement>, g: GroupId): seq<Plans.Transfer> {
    if ts == [] then [] else
      var last := ts[|ts| - 1];
      TransfersOf(ts[..|ts| - 1], g)
      + if last.group == g then [Plans.Transfer(last.payer, last.payee, last.amount)] else []
  }

  lemma {:induction false} PayAllAppend(b: Plans.Nets, ts: seq<Plans.Transfer>, t: Plans.Transfer)
    requires Plans.AllKnown(b, ts) && Plans.Knows(b, t)
    ensures Plans.AllKnown(b, ts + [t])
    ensures Plans.PayAll(b, ts + [t]) == Plans.Pay(Plans.PayAll(b, ts), t)
    decreases |ts|
  {
    if ts == [] {
      assert [t][1..] == [];
      assert ts + [t] == [t];
    } else {
      assert forall x | x in ts[1..] :: x in ts && Plans.Knows(b, x);
      assert Plans.Knows(b, ts[0]);
      PayAllAppend(Plans.Pay(b, ts[0]), ts[1..], t);
      assert (ts + [t])[1..] == ts[1..] + [t];
    }
  }

  /** Applying the settlements of the group adds each member's settlement balance. */
  lemma {:induction false} AppliedSettlements(b: Plans.Nets, ts: seq<Settlement>, g: GroupId)
    requires forall t | t in ts && t.group == g :: t.payer in b && t.payee in b && t.payer != t.payee
    ensures Plans.AllKnown(b, TransfersOf(ts, g))
    ensures forall u | u in b :: Plans.PayAll(b, TransfersOf(ts, g))[u] == b[u] + SettlementNet(ts, g, u)
  {
    if ts != [] {
      var last := ts[|ts| - 1];
      assert last in ts;
      AppliedSettlements(b, ts[..|ts| - 1], g);
      if last.group == g {
        PayAllAppend(b, TransfersOf(ts[..|ts| - 1], g), Plans.Transfer(last.payer, last.payee, last.amount));
      } else {
        assert TransfersOf(ts, g) == TransfersOf(ts[..|ts| - 1], g);
      }
    }
  }

  // ---------- the service ----------

  /** `sorted(users)`. */
  method SortUsers(users: set<UserId>) returns (sorted: seq<UserId>)
    ensures Ascending(sorted)
    ensures forall u :: u in sorted <==> u in users
  {
    sorted := [];
    var rest := users;
    while rest != {}
      invariant Ascending(sorted)
      invariant rest <= users
      invariant forall u :: u in sorted <==> u in users - rest
      invariant forall u, v | u in sorted && v in rest :: u < v
      decreases rest
    {
      var least := Smallest(rest);
      assert forall i | 0 <= i < |sorted| :: sorted[i] in sorted;
      sorted := sorted + [least];
      rest := rest - {least};
    }
  }

  method Smallest(users: set<UserId>) returns (least: UserId)
    requires users != {}
    ensures least in users && forall v | v in users :: least <= v
  {
    least :| least in users;
    var others := users - {least};
    while others != {}
      invariant least in users && others <= users
      invariant forall v | v in users && v !in others :: least <= v
      decreases others
    {
      var v :| v in others;
      others := others - {v};
      if v < least { least := v; }
    }
  }

  /** Accumulates paid minus share for everybody in the group. */
  method ExpenseAmounts(es: seq<Expense>, g: GroupId) returns (amounts: map<UserId, int>, users: set<UserId>)
    ensures forall u :: At(amounts, u) == ExpenseNet(es, g, u)
    ensures users == Parties(es, [], g)
  {
    amounts := map[];
    users := {};
    for i := 0 to |es|
      invariant forall u :: At(amounts, u) == ExpenseNet(es[..i], g, u)
      invariant users == Parties(es[..i], [], g)
    {
      var e := es[i];
      assert es[..i + 1][..i] == es[..i];
      NextExpenseParties(es, i, g);
      if e.group == g && !e.deleted {
        users := users + {e.payer} + e.shares.Keys;
        amounts := PostExpense(amounts, e);
      }
    }
    assert es[..|es|] == es;
  }

  lemma NextExpenseParties(es: seq<Expense>, i: nat, g: GroupId)
    requires i < |es|
    ensures Parties(es[..i + 1], [], g) ==
            Parties(es[..i], [], g)
            + if es[i].group == g && !es[i].deleted then {es[i].payer} + es[i].shares.Keys else {}
  {
    var e, before, after := es[i], es[..i], es[..i + 1];
    assert after == before + [e];
    assert forall x :: x in after <==> x in before || x == e;
  }

  method PostExpense(amounts: map<UserId, int>, e: Expense) returns (r: map<UserId, int>)
    requires !e.deleted
    ensures forall u :: At(r, u) == At(amounts, u) + Posted(e, u)
  {
    r := Plus(amounts, e.payer, e.total);
    ghost var paid := r;
    var rest := e.shares;
    while rest != map[]
      invariant rest.Keys <= e.shares.Keys
      invariant forall u | u in rest :: rest[u] == e.shares[u]
      invariant forall u :: At(r, u) == At(paid, u) - (if u in rest then 0 else At(e.shares, u))
      decreases rest.Keys
    {
      var u :| u in rest;
      r := Plus(r, u, -rest[u]);
      rest := rest - {u};
    }
  }

  method SettlementTransfers(ts: seq<Settlement>, g: GroupId)
      returns (transfers: seq<Plans.Transfer>, users: set<UserId>)
    ensures transfers == TransfersOf(ts, g)
    ensures users == Parties([], ts, g)
  {
    transfers := [];
    users := {};
    for i := 0 to |ts|
      invariant transfers == TransfersOf(ts[..i], g)
      invariant users == Parties([], ts[..i], g)
    {
      var t := ts[i];
      assert ts[..i + 1][..i] == ts[..i];
      assert ts[..i + 1] == ts[..i] + [t];
      assert forall x :: x in ts[..i + 1] <==> x in ts[..i] || x == t;
      if t.group == g {
        users := users + {t.payer, t.payee};
        transfers := transfers + [Plans.Transfer(t.payer, t.payee, t.amount)];
      }
    }
    assert ts[..|ts|] == ts;
  }

  lemma ListedNets(balances: seq<Debts.Balance>, nets: Plans.Nets)
    requires forall i, j | 0 <= i < j < |balances| :: balances[i].user < balances[j].user
    requires forall b | b in balances :: b.user in nets && b.net == nets[b.user]
    requires forall u | u in nets :: exists b :: b in balances && b.user == u
    ensures Debts.Unique(balances) && Debts.NetsOf(balances) == nets
  {
    Debts.NetsOfRows(balances);
    forall u ensures u in nets <==> u in Debts.NetsOf(balances) {
      if u in nets {
        var b :| b in balances && b.user == u;
      }
    }
    forall u | u in nets ensures Debts.NetsOf(balances)[u] == nets[u] {
      var b :| b in balances && b.user == u;
    }
  }

  method GetForGroup(s: Store, g: GroupId) returns (r: Result<Summary, SummaryError>)
    requires Sound(s)
    ensures g !in s.groups ==> r == Failure(GroupUnknown)
    ensures g in s.groups ==> r.Success? && IsSummary(r.value, s, g)
    ensures g in s.groups ==> forall i, j | 0 <= i < j < |r.value.balances| ::
              r.value.balances[i].user < r.value.balances[j].user
    ensures g in s.groups ==> forall u ::
              (exists b :: b in r.value.balances && b.user == u) <==> u in s.groups[g].active || TakesPart(s, g, u)
  {
    if g !in s.groups {
      return Failure(GroupUnknown);
    }
    var amounts, payers := ExpenseAmounts(s.expenses, g);
    var transfers, senders := SettlementTransfers(s.settlements, g);
    var users := s.groups[g].active + payers + senders;
    assert users == FinancialUsers(s, g);
    var sorted := SortUsers(users);
    var balances := seq(|sorted|, i requires 0 <= i < |sorted| => Debts.Balance(sorted[i], At(amounts, sorted[i])));
    ghost var before: Plans.Nets := Column(users, s.expenses, g);
    SortedBalances(sorted, users, balances, before);
    PartiesCovered(s, g, users);
    ColumnSumsToZero(users, s.expenses, g);
    Debts.NetsOfTotal(balances);
    AppliedNets(s, g, users);
    var settled := Debts.ApplySettlements(balances, transfers);
    SettledNets(s, g, users, balances, transfers);
    match settled
    case Failure(error) => return Failure(BadBalances(error));
    case Success(rows) =>
      var plan := Debts.Simplify(rows);
      match plan
      case Failure(error) => return Failure(BadBalances(error));
      case Success(ts) =>
        forall u { FinancialExactlyWhen(s, g, u); }
        return Success(Summary(rows, ts));
  }

  /** The user paid or shared in a live expense of the group, or sent or received a settlement. */
  ghost predicate TakesPart(s: Store, g: GroupId, u: UserId) {
    || (exists e :: e in s.expenses && e.group == g && !e.deleted && (e.payer == u || u in e.shares))
    || (exists t :: t in s.settlements && t.group == g && (t.payer == u || t.payee == u))
  }

  lemma FinancialExactlyWhen(s: Store, g: GroupId, u: UserId)
    requires g in s.groups
    ensures u in FinancialUsers(s, g) <==> u in s.groups[g].active || TakesPart(s, g, u)
  {
  }

  lemma SortedBalances(sorted: seq<UserId>, users: set<UserId>, balances: seq<Debts.Balance>, nets: Plans.Nets)
    requires Ascending(sorted) && (forall u :: u in sorted <==> u in users) && nets.Keys == users
    requires |balances| == |sorted| && forall i | 0 <= i < |sorted| ::
        balances[i] == Debts.Balance(sorted[i], nets[sorted[i]])
    ensures Debts.Unique(balances) && Debts.NetsOf(balances) == nets
  {
    forall u | u in nets ensures exists b :: b in balances && b.user == u {
      var i :| 0 <= i < |sorted| && sorted[i] == u;
      assert balances[i] in balances;
    }
    ListedNets(balances, nets);
  }

  lemma AppliedNets(s: Store, g: GroupId, users: set<UserId>)
    requires Sound(s) && Parties(s.expenses, s.settlements, g) <= users
    ensures Plans.AllKnown(Column(users, s.expenses, g), TransfersOf(s.settlements, g))
    ensures Plans.PayAll(Column(users, s.expenses, g), TransfersOf(s.settlements, g)) == GroupNets(s, g, users)
  {
    var before: Plans.Nets := Column(users, s.expenses, g);
    PartiesCovered(s, g, users);
    AppliedSettlements(before, s.settlements, g);
    var after := Plans.PayAll(before, TransfersOf(s.settlements, g));
    forall u | u in users ensures after[u] == GroupNets(s, g, users)[u] {
      assert u in before && before[u] == ExpenseNet(s.expenses, g, u);
    }
  }

  /** After the settlements every listed balance is the net balance, and the plan is made from those. */
  lemma SettledNets(s: Store, g: GroupId, users: set<UserId>,
      balances: seq<Debts.Balance>, transfers: seq<Plans.Transfer>)
    requires Plans.AllKnown(Debts.NetsOf(balances), transfers)
    requires Debts.NetsOf(balances).Keys == users
    requires Plans.PayAll(Debts.NetsOf(balances), transfers) == GroupNets(s, g, users)
    requires Debts.Validation(balances) == None
    requires forall i, j | 0 <= i < j < |balances| :: balances[i].user < balances[j].user
    ensures var settled := Debts.ApplyResult(balances, transfers);
            && settled.Success?
            && Debts.SimplifyResult(settled.value) == Success(Plans.Plan(GroupNets(s, g, users)))
            && ListsBalances(settled.value, s, g, users)
  {
    Debts.AppliedBalancesAreValid(balances, transfers);
    RewrittenRows(balances, GroupNets(s, g, users), s, g, users);
  }

  lemma RewrittenRows(balances: seq<Debts.Balance>, nets: Plans.Nets, s: Store, g: GroupId, users: set<UserId>)
    requires Debts.NetsOf(balances).Keys == users && nets == GroupNets(s, g, users)
    requires forall i, j | 0 <= i < j < |balances| :: balances[i].user < balances[j].user
    ensures forall b | b in balances :: b.user in nets
    ensures ListsBalances(Debts.Rewritten(balances, nets), s, g, users)
  {
    Debts.NetsOfRows(balances);
    RewrittenNets(balances, s, g, users);
    RewrittenStaysSorted(balances, nets);
    forall u | u in users ensures exists b :: b in Debts.Rewritten(balances, nets) && b.user == u {
      EveryUserIsRewritten(balances, nets, u);
    }
  }

  lemma RewrittenNets(balances: seq<Debts.Balance>, s: Store, g: GroupId, users: set<UserId>)
    requires forall b | b in balances :: b.user in users
    ensures forall b | b in Debts.Rewritten(balances, GroupNets(s, g, users)) ::
        b.user in users && b.net == Net(s, g, b.user)
  {
    var rows := Debts.Rewritten(balances, GroupNets(s, g, users));
    forall b | b in rows ensures b.user in users && b.net == Net(s, g, b.user) {
      var i :| 0 <= i < |rows| && rows[i] == b;
      assert balances[i] in balances;
    }
  }

  lemma RewrittenStaysSorted(balances: seq<Debts.Balance>, nets: Plans.Nets)
    requires forall b | b in balances :: b.user in nets
    requires forall i, j | 0 <= i < j < |balances| :: balances[i].user < balances[j].user
    ensures var rows := Debts.Rewritten(balances, nets);
            forall i, j | 0 <= i < j < |rows| :: rows[i].user < rows[j].user
  {
  }

  lemma EveryUserIsRewritten(balances: seq<Debts.Balance>, nets: Plans.Nets, u: UserId)
    requires forall b | b in balances :: b.user in nets
    requires u in Debts.NetsOf(balances)
    ensures exists b :: b in Debts.Rewritten(balances, nets) && b.user == u
  {
    Debts.NetsOfRows(balances);
    var i :| 0 <= i < |balances| && balances[i].user == u;
    assert Debts.Rewritten(balances, nets)[i] in Debts.Rewritten(balances, nets);
  }
}
