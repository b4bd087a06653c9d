/**
 * Net balances of a group's members, read off the ledger rows, and the two ways of
 * adding them up: by rows, every expense contributes nothing in total; by columns,
 * therefore, the members' balances sum to zero.
 */
module Balances {
  import opened Basics
  import opened Sums
  import opened Ledger

  /** What one expense adds to a member's balance: paid minus share. */
  function Posted(e: Expense, u: UserId): int {
    if e.deleted then 0 else (if e.payer == u then e.total else 0) - At(e.shares, u)
  }

  /** What one settlement adds: the payer's balance rises, the payee's falls. */
  function Moved(t: Settlement, u: UserId): int {
    if t.payer == u then t.amount else if t.payee == u then -t.amount else 0
  }

  function ExpenseNet(es: seq<Expense>, g: GroupId, u: UserId): int {
    if es == [] then 0 else
      var last := es[|es| - 1];
      ExpenseNet(es[..|es| - 1], g, u) + if last.group == g then Posted(last, u) else 0
  }

  function SettlementNet(ts: seq<Settlement>, g: GroupId, u: UserId): int {
    if ts == [] then 0 else
      var last := ts[|ts| - 1];
      SettlementNet(ts[..|ts| - 1], g, u) + if last.group == g then Moved(last, u) else 0
  }

  function Net(s: Store, g: GroupId, u: UserId): int {
    ExpenseNet(s.expenses, g, u) + SettlementNet(s.settlements, g, u)
  }

  /** Everybody who ever paid, shared, sent or received money in the group. */
  function Parties(es: seq<Expense>, ts: seq<Settlement>, g: GroupId): set<UserId> {
    (set e | e in es && e.group == g && !e.deleted :: e.payer)
    + (set e, u | e in es && e.group == g && !e.deleted && u in e.shares :: u)
    + (set t | t in ts && t.group == g :: t.payer)
    + (set t | t in ts && t.group == g :: t.payee)
  }

  /** The users a summary lists: all parties and every active member. */
  function FinancialUsers(s: Store, g: GroupId): set<UserId>
    requires g in s.groups
  {
    s.groups[g].active + Parties(s.expenses, s.settlements, g)
  }

  // ---------- one more row, one other row ----------

  lemma LastExpense(es: seq<Expense>, e: Expense, g: GroupId, u: UserId)
    ensures ExpenseNet(es + [e], g, u) == ExpenseNet(es, g, u) + if e.group == g then Posted(e, u) else 0
  {
    assert (es + [e])[..|es|] == es;
  }

  lemma LastSettlement(ts: seq<Settlement>, t: Settlement, g: GroupId, u: UserId)
    ensures SettlementNet(ts + [t], g, u) == SettlementNet(ts, g, u) + if t.group == g then Moved(t, u) else 0
  {
    assert (ts + [t])[..|ts|] == ts;
  }

  /** Rewriting one expense changes a balance by the difference of what the two rows post. */
  lemma {:induction false} ExpenseNetPut(es: seq<Expense>, i: nat, e: Expense, g: GroupId, u: UserId)
    requires i < |es|
    ensures ExpenseNet(es[i := e], g, u)
         == ExpenseNet(es, g, u) - (if es[i].group == g then Posted(es[i], u) else 0)
             + (if e.group == g then Posted(e, u) else 0)
  {
    var n := |es| - 1;
    if i < n {
      ExpenseNetPut(es[..n], i, e, g, u);
      assert es[i := e][..n] == es[..n][i := e];
    } else {
      assert es[i := e][..n] == es[..n];
    }
  }

  // ---------- strangers ----------

  lemma {:induction false} ExpenseNetOfStranger(es: seq<Expense>, ts: seq<Settlement>, g: GroupId, u: UserId)
    requires u !in Parties(es, ts, g)
    ensures ExpenseNet(es, g, u) == 0
    decreases |es|
  {
    if es != [] {
      var rest, last := es[..|es| - 1], es[|es| - 1];
      assert last in es;
      assert forall e :: e in rest ==> e in es;
      assert u !in Parties(rest, ts, g);
      ExpenseNetOfStranger(rest, ts, g, u);
    }
  }

  lemma {:induction false} SettlementNetOfStranger(es: seq<Expense>, ts: seq<Settlement>, g: GroupId, u: UserId)
    requires u !in Parties(es, ts, g)
    ensures SettlementNet(ts, g, u) == 0
    decreases |ts|
  {
    if ts != [] {
      var rest, last := ts[..|ts| - 1], ts[|ts| - 1];
      assert last in ts;
      assert forall t :: t in rest ==> t in ts;
      assert u !in Parties(es, rest, g);
      SettlementNetOfStranger(es, rest, g, u);
    }
  }

  /** Who appears in no row of the group has balance zero there. */
  lemma NetOfStranger(s: Store, g: GroupId, u: UserId)
    requires u !in Parties(s.expenses, s.settlements, g)
    ensures Net(s, g, u) == 0
  {
    ExpenseNetOfStranger(s.expenses, s.settlements, g, u);
    SettlementNetOfStranger(s.expenses, s.settlements, g, u);
  }

  // ---------- rows against columns ----------

  function Column(users: set<UserId>, es: seq<Expense>, g: GroupId): map<UserId, int> {
    map u | u in users :: ExpenseNet(es, g, u)
  }

  function SettlementColumn(users: set<UserId>, ts: seq<Settlement>, g: GroupId): map<UserId, int> {
    map u | u in users :: SettlementNet(ts, g, u)
  }

  lemma PointSum(users: set<UserId>, p: UserId, amount: int)
    requires p in users
    ensures Sum(map u: UserId | u in users :: if u == p then amount else 0) == amount
  {
    var m: map<UserId, int> := map u: UserId | u in users :: if u == p then amount else 0;
    SumAt(m, p);
    SumZeros(m - {p});
  }

  /** An expense contributes to the group as a whole what its shares leave of the total. */
  lemma PostedSum(users: set<UserId>, e: Expense)
    requires {e.payer} + e.shares.Keys <= users
    ensures Sum(map u: UserId | u in users :: Posted(e, u)) == if e.deleted then 0 else e.total - Sum(e.shares)
  {
    var posted: map<UserId, int> := map u: UserId | u in users :: Posted(e, u);
    if e.deleted {
      SumZeros(posted);
    } else {
      var paid: map<UserId, int> := map u: UserId | u in users :: if u == e.payer then e.total else 0;
      var shared: map<UserId, int> := map u: UserId | u in users :: At(e.shares, u);
      PointSum(users, e.payer, e.total);
      SumSameReads(e.shares, shared);
      SumOfSums(posted, shared, paid);
    }
  }

  lemma MovedSumsToZero(users: set<UserId>, t: Settlement)
    requires t.payer in users && t.payee in users && t.payer != t.payee
    ensures Sum(map u: UserId | u in users :: Moved(t, u)) == 0
  {
    var moved: map<UserId, int> := map u: UserId | u in users :: Moved(t, u);
    var up: map<UserId, int> := map u: UserId | u in users :: if u == t.payer then t.amount else 0;
    var down: map<UserId, int> := map u: UserId | u in users :: if u == t.payee then -t.amount else 0;
    PointSum(users, t.payer, t.amount);
    PointSum(users, t.payee, -t.amount);
    SumOfSums(up, down, moved);
  }

  lemma {:induction false} ColumnSumsToZero(users: set<UserId>, es: seq<Expense>, g: GroupId)
    requires forall e | e in es :: Conserved(e)
    requires forall e | e in es && e.group == g && !e.deleted :: {e.payer} + e.shares.Keys <= users
    ensures Sum(Column(users, es, g)) == 0
  {
    if es == [] {
      SumZeros(Column(users, es, g));
    } else {
      var last := es[|es| - 1];
      assert last in es;
      ColumnSumsToZero(users, es[..|es| - 1], g);
      var posted: map<UserId, int> := map u: UserId | u in users :: if last.group == g then Posted(last, u) else 0;
      if last.group == g && !last.deleted {
        PostedSum(users, last);
        assert posted == map u: UserId | u in users :: Posted(last, u);
      } else {
        SumZeros(posted);
      }
      SumOfSums(Column(users, es[..|es| - 1], g), posted, Column(users, es, g));
    }
  }

  lemma {:induction false} SettlementColumnSumsToZero(users: set<UserId>, ts: seq<Settlement>, g: GroupId)
    requires forall t | t in ts && t.group == g :: t.payer in users && t.payee in users && t.payer != t.payee
    ensures Sum(SettlementColumn(users, ts, g)) == 0
  {
    if ts == [] {
      SumZeros(SettlementColumn(users, ts, g));
    } else {
      var last := ts[|ts| - 1];
      assert last in ts;
      SettlementColumnSumsToZero(users, ts[..|ts| - 1], g);
      var moved: map<UserId, int> := map u: UserId | u in users :: if last.group == g then Moved(last, u) else 0;
      if last.group == g {
        MovedSumsToZero(users, last);
        assert moved == map u: UserId | u in users :: Moved(last, u);
      } else {
        SumZeros(moved);
      }
      SumOfSums(SettlementColumn(users, ts[..|ts| - 1], g), moved, SettlementColumn(users, ts, g));
    }
  }

  lemma PartiesCovered(s: Store, g: GroupId, users: set<UserId>)
    requires Parties(s.expenses, s.settlements, g) <= users
    ensures forall e | e in s.expenses && e.group == g && !e.deleted :: {e.payer} + e.shares.Keys <= users
    ensures forall t | t in s.settlements && t.group == g :: t.payer in users && t.payee in users
  {
    forall e | e in s.expenses && e.group == g && !e.deleted ensures {e.payer} + e.shares.Keys <= users {
      forall u | u in {e.payer} + e.shares.Keys ensures u in users {
        assert u in Parties(s.expenses, s.settlements, g);
      }
    }
    forall t | t in s.settlements && t.group == g ensures t.payer in users && t.payee in users {
      assert t.payer in Parties(s.expenses, s.settlements, g) && t.payee in Parties(s.expenses, s.settlements, g);
    }
  }

  /** The balances of any set of users that contains every party sum to zero. */
  lemma GroupBalancesSumToZero(s: Store, g: GroupId, users: set<UserId>)
    requires Sound(s) && Parties(s.expenses, s.settlements, g) <= users
    ensures Sum(map u: UserId | u in users :: Net(s, g, u)) == 0
  {
    PartiesCovered(s, g, users);
    ColumnSumsToZero(users, s.expenses, g);
    SettlementColumnSumsToZero(users, s.settlements, g);
    SumOfSums(Column(users, s.expenses, g), SettlementColumn(users, s.settlements, g),
              map u: UserId | u in users :: Net(s, g, u));
  }

  /** Over every run that starts from an empty ledger the balances of every group sum to zero. */
  lemma EveryRunBalances(groups: map<GroupId, Group>, trace: Trace, g: GroupId, users: set<UserId>)
    requires WellFormedTrace(trace)
    requires var s := Run(Store(groups, [], [], {}), trace); Parties(s.expenses, s.settlements, g) <= users
    ensures var s := Run(Store(groups, [], [], {}), trace);
            Sum(map u: UserId | u in users :: Net(s, g, u)) == 0
  {
    RunKeepsSound(Store(groups, [], [], {}), trace);
    GroupBalancesSumToZero(Run(Store(groups, [], [], {}), trace), g, users);
  }

  // ---------- shares changed by themselves ----------

  /** The separate share operations of the sync protocol. */
  datatype ShareChange =
    | ShareCreate(user: UserId, amount: int)
    | ShareUpdate(user: UserId, amount: int)
    | ShareDelete(user: UserId)

  /** A share is created only where there is none, and changed or deleted only where there is one. */
  predicate Applies(shares: map<UserId, int>, change: ShareChange) {
    change.user in shares <==> !change.ShareCreate?
  }

  function Changed(shares: map<UserId, int>, change: ShareChange): map<UserId, int> {
    if change.ShareDelete? then shares - {change.user} else shares[change.user := change.amount]
  }

  lemma ShareChangePosts(e: Expense, change: ShareChange, users: set<UserId>)
    requires Conserved(e) && !e.deleted && Applies(e.shares, change) && {e.payer, change.user} + e.shares.Keys <= users
    ensures var changed := e.(shares := Changed(e.shares, change));
            Sum(map u: UserId | u in users :: Posted(changed, u))
                == At(e.shares, change.user) - At(changed.shares, change.user)
  {
    var changed := e.(shares := Changed(e.shares, change));
    PostedSum(users, changed);
    if change.ShareDelete? {
      SumAt(e.shares, change.user);
    } else {
      SumPut(e.shares, change.user, change.amount);
    }
  }

  /** What a share change does to the ledger. */
  function WithShare(s: Store, i: ExpenseId, change: ShareChange): Store
    requires i < |s.expenses|
  {
    s.(expenses := s.expenses[i := s.expenses[i].(shares := Changed(s.expenses[i].shares, change))])
  }

  function NetColumnOf(s: Store, g: GroupId, users: set<UserId>): map<UserId, int> {
    map u: UserId | u in users :: Net(s, g, u)
  }

  function PostedColumn(e: Expense, users: set<UserId>): map<UserId, int> {
    map u: UserId | u in users :: Posted(e, u)
  }

  /**
   * These operations do not compare the shares with the total.  Each unbalances the group by
   * exactly the amount by which the share changes: afterwards the balances of its members no
   * longer sum to zero, unless the amount stays the same.
   */
  lemma ShareChangeDrift(s: Store, i: ExpenseId, change: ShareChange, users: set<UserId>)
    requires Sound(s) && i < |s.expenses| && !s.expenses[i].deleted && Applies(s.expenses[i].shares, change)
    requires Parties(s.expenses, s.settlements, s.expenses[i].group) + {change.user} <= users
    ensures var e, t := s.expenses[i], WithShare(s, i, change);
            Sum(NetColumnOf(t, e.group, users)) == At(e.shares, change.user) - At(t.expenses[i].shares, change.user)
  {
    var e, t := s.expenses[i], WithShare(s, i, change);
    var changed, g := t.expenses[i], e.group;
    PartiesCovered(s, g, users);
    assert e in s.expenses;
    GroupBalancesSumToZero(s, g, users);
    ShareChangePosts(e, change, users);
    PostedSum(users, e);
    forall u: UserId ensures Net(t, g, u) == Net(s, g, u) - Posted(e, u) + Posted(changed, u) {
      ExpenseNetPut(s.expenses, i, changed, g, u);
    }
    var sum: map<UserId, int> := map u: UserId | u in users :: Net(s, g, u) + Posted(changed, u);
    SumOfSums(NetColumnOf(s, g, users), PostedColumn(changed, users), sum);
    SumOfSums(NetColumnOf(t, g, users), PostedColumn(e, users), sum);
  }
}
