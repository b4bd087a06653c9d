/**
 * Balances computed with aggregate queries, one per kind of row, and their agreement
 * with the balances computed group by group from the rows themselves.
 *
 * Both aggregates of the source select the rows of certain groups and group them by a
 * key: the group itself, or the currency of the group.  `keys` gives the selected groups
 * and their keys.
 */
module Aggregates {
  import opened Basics
  import opened Sums
  import opened Ledger
  import opened Balances
  import opened DebtSummaries

  type Key = nat

  type Rows = seq<(Key, int)>

  // ---------- the four queries ----------

  function PaidRows(es: seq<Expense>, u: UserId, keys: map<GroupId, Key>): Rows {
    if es == [] then [] else
      var last := es[|es| - 1];
      PaidRows(es[..|es| - 1], u, keys)
      + if last.group in keys && !last.deleted && last.payer == u then [(keys[last.group], last.total)] else []
  }

  function ShareRows(es: seq<Expense>, u: UserId, keys: map<GroupId, Key>): Rows {
    if es == [] then [] else
      var last := es[|es| - 1];
      ShareRows(es[..|es| - 1], u, keys)
      + if last.group in keys && !last.deleted && u in last.shares then [(keys[last.group], last.shares[u])] else []
  }

  function SentRows(ts: seq<Settlement>, u: UserId, keys: map<GroupId, Key>): Rows {
    if ts == [] then [] else
      var last := ts[|ts| - 1];
      SentRows(ts[..|ts| - 1], u, keys)
      + if last.group in keys && last.payer == u then [(keys[last.group], last.amount)] else []
  }

  function ReceivedRows(ts: seq<Settlement>, u: UserId, keys: map<GroupId, Key>): Rows {
    if ts == [] then [] else
      var last := ts[|ts| - 1];
      ReceivedRows(ts[..|ts| - 1], u, keys)
      + if last.group in keys && last.payee == u then [(keys[last.group], last.amount)] else []
  }

  ghost predicate HasRow(rows: Rows, k: Key) {
    exists i :: 0 <= i < |rows| && rows[i].0 == k
  }

  lemma HasRowLast(rows: Rows, row: (Key, int))
    ensures forall k :: HasRow(rows + [row], k) <==> HasRow(rows, k) || k == row.0
  {
    forall k: Key ensures HasRow(rows + [row], k) <==> HasRow(rows, k) || k == row.0 {
      if HasRow(rows, k) {
        var i :| 0 <= i < |rows| && rows[i].0 == k;
        assert (rows + [row])[i].0 == k;
      }
      if k == row.0 {
        assert (rows + [row])[|rows|].0 == k;
      }
    }
  }

  /** `SELECT key, SUM(amount) ... GROUP BY key`. */
  method GroupBy(rows: Rows) returns (table: map<Key, int>)
    ensures forall k :: At(table, k) == AmountsOf(rows, k)
    ensures forall k :: k in table <==> HasRow(rows, k)
  {
    table := map[];
    for i := 0 to |rows|
      invariant forall k :: At(table, k) == AmountsOf(rows[..i], k)
      invariant forall k :: k in table <==> HasRow(rows[..i], k)
    {
      HasRowLast(rows[..i], rows[i]);
      assert rows[..i + 1] == rows[..i] + [rows[i]];
      assert rows[..i + 1][..i] == rows[..i];
      table := Plus(table, rows[i].0, rows[i].1);
    }
    assert rows[..|rows|] == rows;
  }

  /** `for key, amount in rows: totals[key] += sign * amount`. */
  method AddTo(totals: map<Key, int>, table: map<Key, int>, sign: int) returns (r: map<Key, int>)
    requires sign == 1 || sign == -1
    ensures forall k :: At(r, k) == At(totals, k) + (if sign == 1 then At(table, k) else -At(table, k))
    ensures r.Keys == totals.Keys + table.Keys
  {
    r := totals;
    var rest := table.Keys;
    while rest != {}
      invariant rest <= table.Keys
      invariant forall k :: At(r, k) == At(totals, k)
                  + (if k in rest then 0 else if sign == 1 then At(table, k) else -At(table, k))
      invariant r.Keys == totals.Keys + (table.Keys - rest)
      decreases rest
    {
      var k :| k in rest;
      rest := rest - {k};
      r := Plus(r, k, if sign == 1 then table[k] else -table[k]);
    }
  }

  ghost function RowTotal(s: Store, u: UserId, keys: map<GroupId, Key>, k: Key): int {
    AmountsOf(PaidRows(s.expenses, u, keys), k) - AmountsOf(ShareRows(s.expenses, u, keys), k)
    + AmountsOf(SentRows(s.settlements, u, keys), k) - AmountsOf(ReceivedRows(s.settlements, u, keys), k)
  }

  ghost predicate Touched(s: Store, u: UserId, keys: map<GroupId, Key>, k: Key) {
    || HasRow(PaidRows(s.expenses, u, keys), k) || HasRow(ShareRows(s.expenses, u, keys), k)
    || HasRow(SentRows(s.settlements, u, keys), k) || HasRow(ReceivedRows(s.settlements, u, keys), k)
  }

  method AggregateBy(s: Store, u: UserId, keys: map<GroupId, Key>) returns (totals: map<Key, int>)
    ensures forall k :: At(totals, k) == RowTotal(s, u, keys, k)
    ensures forall k :: k in totals <==> Touched(s, u, keys, k)
  {
    var paid := GroupBy(PaidRows(s.expenses, u, keys));
    var shared := GroupBy(ShareRows(s.expenses, u, keys));
    var sent := GroupBy(SentRows(s.settlements, u, keys));
    var received := GroupBy(ReceivedRows(s.settlements, u, keys));
    totals := AddTo(map[], paid, 1);
    totals := AddTo(totals, shared, -1);
    totals := AddTo(totals, sent, 1);
    totals := AddTo(totals, received, -1);
  }

  // ---------- agreement with the per-group balances ----------

  ghost function GroupsWithKey(keys: map<GroupId, Key>, k: Key): set<GroupId> {
    set g | g in keys && keys[g] == k
  }

  /** The user's balance in each of the given groups. */
  ghost function NetColumn(s: Store, groups: set<GroupId>, u: UserId): map<GroupId, int> {
    map g: GroupId | g in groups :: Net(s, g, u)
  }

  ghost function ExpenseColumn(es: seq<Expense>, groups: set<GroupId>, u: UserId): map<GroupId, int> {
    map g: GroupId | g in groups :: ExpenseNet(es, g, u)
  }

  ghost function SettlementColumn(ts: seq<Settlement>, groups: set<GroupId>, u: UserId): map<GroupId, int> {
    map g: GroupId | g in groups :: SettlementNet(ts, g, u)
  }

  lemma AmountsOfLast(rows: Rows, row: (Key, int), k: Key)
    ensures AmountsOf(rows + [row], k) == AmountsOf(rows, k) + if row.0 == k then row.1 else 0
  {
    assert (rows + [row])[..|rows|] == rows;
  }

  lemma SumChangesAt(before: map<GroupId, int>, after: map<GroupId, int>, g: GroupId, x: int)
    requires before.Keys == after.Keys
    requires forall h | h in after :: after[h] == before[h] + if h == g then x else 0
    ensures Sum(after) == Sum(before) + if g in after then x else 0
  {
    var change: map<GroupId, int> := map h: GroupId | h in after.Keys :: if h == g then x else 0;
    SumOfSums(before, change, after);
    if g in after { PointSum(after.Keys, g, x); } else { SumZeros(change); }
  }

  lemma ExpenseRowsLast(rest: seq<Expense>, last: Expense, u: UserId, keys: map<GroupId, Key>, k: Key)
    ensures AmountsOf(PaidRows(rest + [last], u, keys), k) - AmountsOf(ShareRows(rest + [last], u, keys), k)
         == AmountsOf(PaidRows(rest, u, keys), k) - AmountsOf(ShareRows(rest, u, keys), k)
          + if last.group in GroupsWithKey(keys, k) then Posted(last, u) else 0
  {
    assert (rest + [last])[..|rest|] == rest;
    assert PaidRows(rest, u, keys) + [] == PaidRows(rest, u, keys);
    assert ShareRows(rest, u, keys) + [] == ShareRows(rest, u, keys);
    if last.group in keys {
      AmountsOfLast(PaidRows(rest, u, keys), (keys[last.group], last.total), k);
      if u in last.shares {
        AmountsOfLast(ShareRows(rest, u, keys), (keys[last.group], last.shares[u]), k);
      }
    }
  }

  lemma {:induction false} ExpenseRowsAgree(es: seq<Expense>, u: UserId, keys: map<GroupId, Key>, k: Key)
    ensures AmountsOf(PaidRows(es, u, keys), k) - AmountsOf(ShareRows(es, u, keys), k)
         == Sum(ExpenseColumn(es, GroupsWithKey(keys, k), u))
  {
    var groups := GroupsWithKey(keys, k);
    var column: map<GroupId, int> := ExpenseColumn(es, groups, u);
    if es == [] {
      SumZeros(column);
    } else {
      var rest, last := es[..|es| - 1], es[|es| - 1];
      ExpenseRowsAgree(rest, u, keys, k);
      assert es == rest + [last];
      ExpenseRowsLast(rest, last, u, keys, k);
      SumChangesAt(ExpenseColumn(rest, groups, u), column, last.group, Posted(last, u));
    }
  }

  lemma SettlementRowsLast(rest: seq<Settlement>, last: Settlement, u: UserId, keys: map<GroupId, Key>, k: Key)
    requires last.payer != last.payee
    ensures AmountsOf(SentRows(rest + [last], u, keys), k) - AmountsOf(ReceivedRows(rest + [last], u, keys), k)
         == AmountsOf(SentRows(rest, u, keys), k) - AmountsOf(ReceivedRows(rest, u, keys), k)
          + if last.group in GroupsWithKey(keys, k) then Moved(last, u) else 0
  {
    assert (rest + [last])[..|rest|] == rest;
    assert SentRows(rest, u, keys) + [] == SentRows(rest, u, keys);
    assert ReceivedRows(rest, u, keys) + [] == ReceivedRows(rest, u, keys);
    if last.group in keys {
      AmountsOfLast(SentRows(rest, u, keys), (keys[last.group], last.amount), k);
      AmountsOfLast(ReceivedRows(rest, u, keys), (keys[last.group], last.amount), k);
    }
  }

  lemma {:induction false} SettlementRowsAgree(ts: seq<Settlement>, u: UserId, keys: map<GroupId, Key>, k: Key)
    requires forall t | t in ts :: t.payer != t.payee
    ensures AmountsOf(SentRows(ts, u, keys), k) - AmountsOf(ReceivedRows(ts, u, keys), k)
         == Sum(SettlementColumn(ts, GroupsWithKey(keys, k), u))
  {
    var groups := GroupsWithKey(keys, k);
    var column: map<GroupId, int> := SettlementColumn(ts, groups, u);
    if ts == [] {
      SumZeros(column);
    } else {
      var rest, last := ts[..|ts| - 1], ts[|ts| - 1];
      assert last in ts;
      SettlementRowsAgree(rest, u, keys, k);
      assert ts == rest + [last];
      SettlementRowsLast(rest, last, u, keys, k);
      SumChangesAt(SettlementColumn(rest, groups, u), column, last.group, Moved(last, u));
    }
  }

  /** The aggregate for a key is the sum of the user's net balances over the groups with that key. */
  lemma AggregateAgrees(s: Store, u: UserId, keys: map<GroupId, Key>, k: Key)
    requires Sound(s)
    ensures RowTotal(s, u, keys, k) == Sum(NetColumn(s, GroupsWithKey(keys, k), u))
  {
    ExpenseRowsAgree(s.expenses, u, keys, k);
    SettlementRowsAgree(s.settlements, u, keys, k);
    var groups := GroupsWithKey(keys, k);
    SumOfSums(ExpenseColumn(s.expenses, groups, u),
        SettlementColumn(s.settlements, groups, u), NetColumn(s, groups, u));
  }

  // ---------- the services ----------

  /** The user's row of the debt summary has this amount; without a row the amount is zero. */
  ghost predicate Shows(summary: Summary, u: UserId, amount: int) {
    && (forall b | b in summary.balances && b.user == u :: b.net == amount)
    && ((forall b | b in summary.balances :: b.user != u) ==> amount == 0)
  }

  lemma SummaryShowsNet(summary: Summary, s: Store, g: GroupId, u: UserId)
    requires g in s.groups && IsSummary(summary, s, g)
    ensures Shows(summary, u, Net(s, g, u))
  {
    if u !in FinancialUsers(s, g) {
      NetOfStranger(s, g, u);
    }
  }

  /** One user's balance in each of the given groups; a group that is absent has balance zero. */
  method GetGroupNetBalances(s: Store, u: UserId, groups: set<GroupId>) returns (totals: map<GroupId, int>)
    requires Sound(s)
    ensures forall g | g in groups :: At(totals, g) == Net(s, g, u)
    ensures forall g, summary | g in groups && g in s.groups && IsSummary(summary, s, g) ::
        Shows(summary, u, At(totals, g))
    ensures totals.Keys <= groups
  {
    if groups == {} {
      return map[];
    }
    var keys: map<GroupId, Key> := map g | g in groups :: g;
    totals := AggregateBy(s, u, keys);
    forall g | g in groups ensures At(totals, g) == Net(s, g, u) {
      AggregateAgrees(s, u, keys, g);
      assert GroupsWithKey(keys, g) == {g};
      var only := {g};
      PointSum(only, g, Net(s, g, u));
      assert NetColumn(s, only, u) == map h: GroupId | h in only :: if h == g then Net(s, g, u) else 0;
    }
    forall g, summary | g in groups && g in s.groups && IsSummary(summary, s, g)
      ensures Shows(summary, u, At(totals, g)) {
      SummaryShowsNet(summary, s, g, u);
    }
    forall k | k in totals ensures k in groups {
      TouchedKeys(s, u, keys, k);
    }
  }

  lemma {:induction false} RowKeys(es: seq<Expense>, ts: seq<Settlement>, u: UserId, keys: map<GroupId, Key>)
    ensures forall i | 0 <= i < |PaidRows(es, u, keys)| :: PaidRows(es, u, keys)[i].0 in keys.Values
    ensures forall i | 0 <= i < |ShareRows(es, u, keys)| :: ShareRows(es, u, keys)[i].0 in keys.Values
    ensures forall i | 0 <= i < |SentRows(ts, u, keys)| :: SentRows(ts, u, keys)[i].0 in keys.Values
    ensures forall i | 0 <= i < |ReceivedRows(ts, u, keys)| :: ReceivedRows(ts, u, keys)[i].0 in keys.Values
    decreases |es| + |ts|
  {
    if es != [] {
      RowKeys(es[..|es| - 1], ts, u, keys);
    } else if ts != [] {
      RowKeys(es, ts[..|ts| - 1], u, keys);
    }
  }

  lemma TouchedKeys(s: Store, u: UserId, keys: map<GroupId, Key>, k: Key)
    requires Touched(s, u, keys, k)
    ensures k in keys.Values
  {
    RowKeys(s.expenses, s.settlements, u, keys);
  }

  /** Some live expense or settlement of a group with this key names the user. */
  ghost predicate Named(s: Store, u: UserId, keys: map<GroupId, Key>, k: Key) {
    || (exists e :: e in s.expenses && !e.deleted && e.group in keys && keys[e.group] == k
                    && (e.payer == u || u in e.shares))
    || (exists t :: t in s.settlements && t.group in keys && keys[t.group] == k && (t.payer == u || t.payee == u))
  }

  lemma {:induction false} ExpenseRowsExactlyWhen(es: seq<Expense>, u: UserId, keys: map<GroupId, Key>, k: Key)
    ensures HasRow(PaidRows(es, u, keys), k) || HasRow(ShareRows(es, u, keys), k) <==>
              exists e :: e in es && !e.deleted && e.group in keys && keys[e.group] == k
                          && (e.payer == u || u in e.shares)
  {
    if es != [] {
      var rest, last := es[..|es| - 1], es[|es| - 1];
      ExpenseRowsExactlyWhen(rest, u, keys, k);
      assert forall e :: e in es <==> e in rest || e == last;
      var paid, shared := PaidRows(rest, u, keys), ShareRows(rest, u, keys);
      assert paid + [] == paid && shared + [] == shared;
      if last.group in keys {
        HasRowLast(paid, (keys[last.group], last.total));
        if u in last.shares { HasRowLast(shared, (keys[last.group], last.shares[u])); }
      }
    }
  }

  lemma {:induction false} SettlementRowsExactlyWhen(ts: seq<Settlement>, u: UserId, keys: map<GroupId, Key>, k: Key)
    ensures HasRow(SentRows(ts, u, keys), k) || HasRow(ReceivedRows(ts, u, keys), k) <==>
              exists t :: t in ts && t.group in keys && keys[t.group] == k && (t.payer == u || t.payee == u)
  {
    if ts != [] {
      var rest, last := ts[..|ts| - 1], ts[|ts| - 1];
      SettlementRowsExactlyWhen(rest, u, keys, k);
      assert forall t :: t in ts <==> t in rest || t == last;
      var sent, received := SentRows(rest, u, keys), ReceivedRows(rest, u, keys);
      assert sent + [] == sent && received + [] == received;
      if last.group in keys {
        HasRowLast(sent, (keys[last.group], last.amount));
        HasRowLast(received, (keys[last.group], last.amount));
      }
    }
  }

  /** A key is listed exactly when a row of one of its groups names the user. */
  lemma TouchedExactlyWhen(s: Store, u: UserId, keys: map<GroupId, Key>, k: Key)
    ensures Touched(s, u, keys, k) <==> Named(s, u, keys, k)
  {
    ExpenseRowsExactlyWhen(s.expenses, u, keys, k);
    SettlementRowsExactlyWhen(s.settlements, u, keys, k);
  }

  /** The groups that count towards a user's overall balance, with their currencies. */
  function OverallKeys(s: Store): map<GroupId, Currency> {
    map g | g in s.groups && !s.groups[g].direct && !s.groups[g].archived :: s.groups[g].currency
  }

  /** These are the groups of a currency that are neither direct nor archived. */
  ghost predicate AreCounting(s: Store, c: Currency, groups: set<GroupId>) {
    forall g :: g in groups <==>
      g in s.groups && !s.groups[g].direct && !s.groups[g].archived && s.groups[g].currency == c
  }

  /** One user's balance over all groups that are neither direct nor archived, per currency. */
  method GetOverallBalance(s: Store, u: UserId) returns (totals: map<Currency, int>)
    requires Sound(s)
    ensures forall c: Currency, groups | AreCounting(s, c, groups) :: At(totals, c) == Sum(NetColumn(s, groups, u))
    ensures forall c: Currency :: c in totals <==>
              || (exists e :: e in s.expenses && !e.deleted && (e.payer == u || u in e.shares)
                              && e.group in s.groups && !s.groups[e.group].direct && !s.groups[e.group].archived
                              && s.groups[e.group].currency == c)
              || (exists t :: t in s.settlements && (t.payer == u || t.payee == u)
                              && t.group in s.groups && !s.groups[t.group].direct && !s.groups[t.group].archived
                              && s.groups[t.group].currency == c)
  {
    totals := AggregateBy(s, u, OverallKeys(s));
    forall c: Currency, groups | AreCounting(s, c, groups) ensures At(totals, c) == Sum(NetColumn(s, groups, u)) {
      AggregateAgrees(s, u, OverallKeys(s), c);
      assert GroupsWithKey(OverallKeys(s), c) == groups;
    }
    forall c ensures c in totals <==> Named(s, u, OverallKeys(s), c) {
      TouchedExactlyWhen(s, u, OverallKeys(s), c);
    }
  }
}
