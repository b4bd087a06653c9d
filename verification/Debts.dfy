/**
 * The debt simplification service: validation, the greedy two-heap matcher and
 * the application of recorded settlements.  Every method is proved against a
 * function of its inputs; `Plan` of module `Plans` is the specification of the
 * matcher.
 */
module Debts {
  import opened Basics
  import opened Sums
  import opened Plans

  datatype Balance = Balance(user: UserId, net: int)

  datatype DebtError = DuplicateBalance | NotZeroSum | OutsideGroup | PlanDoesNotSettle

  // ---------- specification ----------

  ghost predicate Unique(bs: seq<Balance>) {
    forall i, j | 0 <= i < j < |bs| :: bs[i].user != bs[j].user
  }

  ghost function TotalNet(bs: seq<Balance>): int {
    if bs == [] then 0 else TotalNet(bs[..|bs| - 1]) + bs[|bs| - 1].net
  }

  ghost function Validation(bs: seq<Balance>): Option<DebtError> {
    if !Unique(bs) then Some(DuplicateBalance)
    else if TotalNet(bs) != 0 then Some(NotZeroSum)
    else None
  }

  /** The table of balances; a later row for the same user replaces an earlier one. */
  ghost function NetsOf(bs: seq<Balance>): Nets {
    if bs == [] then map[] else
      var last := bs[|bs| - 1];
      NetsOf(bs[..|bs| - 1])[last.user := last.net]
  }

  ghost function SimplifyResult(bs: seq<Balance>): Result<seq<Transfer>, DebtError> {
    match Validation(bs)
    case Some(error) => Failure(error)
    case None => Success(Plan(NetsOf(bs)))
  }

  ghost function Rewritten(bs: seq<Balance>, nets: Nets): seq<Balance>
    requires forall b | b in bs :: b.user in nets
  {
    seq(|bs|, i requires 0 <= i < |bs| => Balance(bs[i].user, nets[bs[i].user]))
  }

  ghost function ApplyResult(bs: seq<Balance>, ts: seq<Transfer>): Result<seq<Balance>, DebtError> {
    NetsOfRows(bs);
    match Validation(bs)
    case Some(error) => Failure(error)
    case None =>
      if !AllKnown(NetsOf(bs), ts) then Failure(OutsideGroup)
      else Success(Rewritten(bs, PayAll(NetsOf(bs), ts)))
  }

  // ---------- tables and lists ----------

  ghost function Users(bs: seq<Balance>): set<UserId> {
    set b | b in bs :: b.user
  }

  lemma {:induction false} NetsOfRows(bs: seq<Balance>)
    ensures NetsOf(bs).Keys == Users(bs)
    ensures forall b | b in bs :: b.user in NetsOf(bs)
    ensures Unique(bs) ==> forall b | b in bs :: NetsOf(bs)[b.user] == b.net
    decreases |bs|
  {
    if bs != [] {
      var rest, last := bs[..|bs| - 1], bs[|bs| - 1];
      NetsOfRows(rest);
      assert bs == rest + [last];
      assert forall b :: b in bs <==> b in rest || b == last;
      assert Users(bs) == Users(rest) + {last.user};
    }
  }

  lemma {:induction false} NetsOfTotal(bs: seq<Balance>)
    requires Unique(bs)
    ensures Sum(NetsOf(bs)) == TotalNet(bs)
    decreases |bs|
  {
    if bs != [] {
      var rest, last := bs[..|bs| - 1], bs[|bs| - 1];
      NetsOfTotal(rest);
      NetsOfRows(rest);
      FreshLast(bs);
      SumPut(NetsOf(rest), last.user, last.net);
    }
  }

  lemma FreshLast(bs: seq<Balance>)
    requires Unique(bs) && bs != []
    ensures bs[|bs| - 1].user !in NetsOf(bs[..|bs| - 1])
  {
    NetsOfRows(bs[..|bs| - 1]);
  }

  /** A list names nobody twice exactly when it has as many rows as users. */
  lemma {:induction false} UniqueByCount(bs: seq<Balance>)
    ensures |Users(bs)| <= |bs|
    ensures Unique(bs) <==> |Users(bs)| == |bs|
    decreases |bs|
  {
    if bs != [] {
      var rest, last := bs[..|bs| - 1], bs[|bs| - 1];
      UniqueByCount(rest);
      assert bs == rest + [last];
      assert forall b :: b in bs <==> b in rest || b == last;
      assert Users(bs) == Users(rest) + {last.user};
      if last.user in Users(rest) {
        assert exists b :: b in rest && b.user == last.user;
        assert !Unique(bs);
      } else {
        forall i, j | 0 <= i < j < |bs| && Unique(rest)
          ensures bs[i].user != bs[j].user
        {
          if j == |bs| - 1 { assert rest[i] in rest; }
          else { assert rest[i].user != rest[j].user; }
        }
        assert Unique(bs) ==> Unique(rest);
      }
    }
  }

  lemma SameRows(a: seq<Balance>, b: seq<Balance>)
    requires multiset(a) == multiset(b)
    ensures |a| == |b| && Users(a) == Users(b)
    ensures forall x :: x in a <==> x in b
  {
    assert |a| == |multiset(a)| == |multiset(b)| == |b|;
    forall x ensures x in a <==> x in b {
      assert x in a <==> x in multiset(a);
      assert x in b <==> x in multiset(b);
    }
    assert Users(a) == Users(b);
  }

  lemma SameNets(a: seq<Balance>, b: seq<Balance>)
    requires Unique(a) && Unique(b) && Users(a) == Users(b)
    requires forall x | x in a :: x in b
    ensures NetsOf(a) == NetsOf(b)
  {
    NetsOfRows(a);
    NetsOfRows(b);
    forall u | u in NetsOf(a) ensures NetsOf(a)[u] == NetsOf(b)[u] {
      var x :| x in a && x.user == u;
      assert x in b;
    }
  }

  /** The order of the input rows is irrelevant, for the result and for the errors. */
  lemma SimplifyIgnoresInputOrder(a: seq<Balance>, b: seq<Balance>)
    requires multiset(a) == multiset(b)
    ensures SimplifyResult(a) == SimplifyResult(b)
  {
    SameRows(a, b);
    UniqueByCount(a);
    UniqueByCount(b);
    if Unique(a) {
      SameNets(a, b);
      NetsOfTotal(a);
      NetsOfTotal(b);
    }
  }

  // ---------- theorems about the service ----------

  /** A plan settles everybody, and it does so with payments that are themselves valid. */
  lemma SimplifySettlesEveryBalance(bs: seq<Balance>)
    requires Unique(bs) && TotalNet(bs) == 0
    ensures SimplifyResult(bs).Success?
    ensures var plan := SimplifyResult(bs).value;
            && (forall t | t in plan :: t.Valid())
            && ApplyResult(bs, plan).Success?
            && forall b | b in ApplyResult(bs, plan).value :: b.net == 0
  {
    NetsOfTotal(bs);
    PlanSettles(NetsOf(bs));
    PlanRoles(NetsOf(bs));
    NetsOfRows(bs);
  }

  /** A success is the one list of payments made by the greedy rule; the errors say what is wrong with the rows. */
  lemma SimplifyExactlyWhen(bs: seq<Balance>)
    ensures forall ts ::
              SimplifyResult(bs) == Success(ts) <==>
              |Users(bs)| == |bs| && TotalNet(bs) == 0 && Greedy(NetsOf(bs), ts)
    ensures SimplifyResult(bs) == Failure(DuplicateBalance) <==> |Users(bs)| < |bs|
    ensures SimplifyResult(bs) == Failure(NotZeroSum) <==> |Users(bs)| == |bs| && TotalNet(bs) != 0
  {
    UniqueByCount(bs);
    if Unique(bs) {
      NetsOfTotal(bs);
      if TotalNet(bs) == 0 {
        forall ts ensures Greedy(NetsOf(bs), ts) <==> ts == Plan(NetsOf(bs)) {
          PlanIsTheGreedyPlan(NetsOf(bs), ts);
        }
      }
    }
  }

  /** Of two members with the same debt the one with the lower id pays first. */
  lemma EqualDebtsExample()
    ensures SimplifyResult([Balance(2, -5), Balance(1, -5), Balance(3, 10)]) ==
            Success([Transfer(1, 3, 5), Transfer(2, 3, 5)])
  {
    var rows := [Balance(2, -5), Balance(1, -5), Balance(3, 10)];
    EqualDebtRows(rows);
    UniqueByCount(rows);
    EqualDebtsInTurn();
    SimplifyExactlyWhen(rows);
  }

  lemma EqualDebtRows(rows: seq<Balance>)
    requires rows == [Balance(2, -5), Balance(1, -5), Balance(3, 10)]
    ensures NetsOf(rows) == EqualDebts() && TotalNet(rows) == 0
  {
    var one, two := rows[..1], rows[..2];
    assert one[..|one| - 1] == [] && two[..1] == one;
    assert TotalNet(one[..|one| - 1]) == 0;
    assert NetsOf(one) == map[2 := -5] && TotalNet(one) == -5;
    assert NetsOf(two) == map[2 := -5, 1 := -5] && TotalNet(two) == -10;
    assert NetsOf(rows) == EqualDebts() && TotalNet(rows) == 0;
  }

  function EqualDebts(): Nets {
    map[2 := -5, 1 := -5, 3 := 10]
  }

  lemma EqualDebtsInTurn()
    ensures Greedy(EqualDebts(), [Transfer(1, 3, 5), Transfer(2, 3, 5)])
  {
    var first, second := Transfer(1, 3, 5), Transfer(2, 3, 5);
    var one: Nets, two: Nets := map[2 := -5, 1 := 0, 3 := 5], map[2 := 0, 1 := 0, 3 := 0];
    assert Pay(EqualDebts(), first) == one && Pay(one, second) == two;
    assert Greedy(two, []);
    assert [second][1..] == [] && Greedy(one, [second]);
    assert [first, second][1..] == [second];
  }

  lemma RewrittenUsers(bs: seq<Balance>, nets: Nets)
    requires forall b | b in bs :: b.user in nets
    ensures Users(Rewritten(bs, nets)) == Users(bs)
    ensures Unique(bs) ==> Unique(Rewritten(bs, nets))
  {
    var r := Rewritten(bs, nets);
    forall u | u in Users(bs) ensures u in Users(r) {
      var i :| 0 <= i < |bs| && bs[i].user == u;
      assert r[i] in r;
    }
    forall u | u in Users(r) ensures u in Users(bs) {
      var i :| 0 <= i < |r| && r[i].user == u;
      assert bs[i] in bs;
    }
  }

  lemma RewrittenNets(bs: seq<Balance>, nets: Nets)
    requires Unique(bs) && nets.Keys == Users(bs)
    ensures forall b | b in bs :: b.user in nets
    ensures NetsOf(Rewritten(bs, nets)) == nets
  {
    assert forall b | b in bs :: b.user in Users(bs);
    var r := Rewritten(bs, nets);
    RewrittenUsers(bs, nets);
    NetsOfRows(r);
    assert NetsOf(r).Keys == nets.Keys;
    forall u | u in nets ensures NetsOf(r)[u] == nets[u] {
      var b :| b in r && b.user == u;
    }
  }

  /** `apply_settlements` re-validates its result; that check never fails. */
  lemma AppliedBalancesAreValid(bs: seq<Balance>, ts: seq<Transfer>)
    requires ApplyResult(bs, ts).Success?
    ensures Validation(ApplyResult(bs, ts).value) == None
    ensures NetsOf(ApplyResult(bs, ts).value) == PayAll(NetsOf(bs), ts)
  {
    NetsOfRows(bs);
    var paid: Nets := PayAll(NetsOf(bs), ts);
    RewrittenUsers(bs, paid);
    RewrittenNets(bs, paid);
    NetsOfTotal(bs);
    NetsOfTotal(Rewritten(bs, paid));
    PayAllKeepsSum(NetsOf(bs), ts);
  }

  lemma {:induction false} PayAllKeepsSum(b: Nets, ts: seq<Transfer>)
    requires AllKnown(b, ts)
    ensures Sum(PayAll(b, ts)) == Sum(b)
    decreases |ts|
  {
    if ts != [] {
      PayKeepsSum(b, ts[0]);
      assert forall t | t in ts[1..] :: t in ts && Knows(b, t);
      PayAllKeepsSum(Pay(b, ts[0]), ts[1..]);
    }
  }

  /** Recording the first k payments and simplifying again yields exactly the remaining payments. */
  lemma RecordedPaymentsKeepThePlan(bs: seq<Balance>, k: nat)
    requires SimplifyResult(bs).Success? && k <= |SimplifyResult(bs).value|
    ensures var plan := SimplifyResult(bs).value;
            && ApplyResult(bs, plan[..k]).Success?
            && SimplifyResult(ApplyResult(bs, plan[..k]).value) == Success(plan[k..])
  {
    var plan := Plan(NetsOf(bs));
    PlanStability(NetsOf(bs), k);
    AppliedBalancesAreValid(bs, plan[..k]);
  }

  // ---------- the priority queue ----------

  /** No user has two entries on the same heap. */
  ghost predicate Distinct(items: seq<Entry>) {
    forall i, j | 0 <= i < j < |items| :: items[i].user != items[j].user
  }

  /** Python's `heapq` as a library: a bag of different entries from which the least is popped. */
  class MinHeap {
    var items: seq<Entry>
    ghost var contents: set<Entry>

    ghost predicate Valid()
      reads this
    {
      Distinct(items) && contents == ToSet(items)
    }

    constructor Heapify(entries: seq<Entry>)
      requires Distinct(entries)
      ensures Valid() && items == entries
    {
      items := entries;
      contents := ToSet(entries);
    }

    predicate IsEmpty()
      reads this
      requires Valid()
      ensures IsEmpty() <==> contents == {}
    {
      assert items != [] ==> items[0] in contents;
      items == []
    }

    method Push(e: Entry)
      requires Valid() && forall x | x in contents :: x.user != e.user
      modifies this
      ensures Valid() && contents == old(contents) + {e}
    {
      ToSetGrows(items, e);
      items := items + [e];
      contents := contents + {e};
    }

    method Pop() returns (e: Entry)
      requires Valid() && contents != {}
      modifies this
      ensures IsLeast(e, old(contents))
      ensures Valid() && contents == old(contents) - {e}
      ensures forall x | x in contents :: x.user != e.user
    {
      assert items != [];
      var least := 0;
      for i := 1 to |items|
        invariant 0 <= least < |items|
        invariant forall j | 0 <= j < i :: items[j] == items[least] || Before(items[least], items[j])
      {
        if Before(items[i], items[least]) { least := i; }
      }
      e := items[least];
      assert items == items[..least] + [e] + items[least + 1..];
      items := items[..least] + items[least + 1..];
      contents := contents - {e};
    }
  }

  // ---------- the service ----------

  method Validate(balances: seq<Balance>) returns (error: Option<DebtError>)
    ensures error == Validation(balances)
  {
    var seen: set<UserId> := {};
    var total := 0;
    for i := 0 to |balances|
      invariant forall u :: u in seen <==> exists k :: 0 <= k < i && balances[k].user == u
      invariant forall j, k | 0 <= j < k < i :: balances[j].user != balances[k].user
      invariant total == TotalNet(balances[..i])
    {
      if balances[i].user in seen {
        return Some(DuplicateBalance);
      }
      seen := seen + {balances[i].user};
      total := total + balances[i].net;
      assert balances[..i + 1][..i] == balances[..i];
    }
    assert balances[..|balances|] == balances;
    return if total != 0 then Some(NotZeroSum) else None;
  }

  /** The dictionary of amounts that both validators of a plan start from. */
  method Amounts(balances: seq<Balance>) returns (amounts: Nets)
    ensures amounts == NetsOf(balances)
  {
    amounts := map[];
    for i := 0 to |balances|
      invariant amounts == NetsOf(balances[..i])
    {
      amounts := amounts[balances[i].user := balances[i].net];
      assert balances[..i + 1][..i] == balances[..i];
    }
    assert balances[..|balances|] == balances;
  }

  /** Paying one by one until a payment names a stranger. */
  ghost function PayInTurn(nets: Nets, payments: seq<Transfer>): Result<Nets, DebtError> {
    if payments == [] then Success(nets)
    else if !Knows(nets, payments[0]) then Failure(OutsideGroup)
    else PayInTurn(Pay(nets, payments[0]), payments[1..])
  }

  lemma {:induction false} PayInTurnPaysAll(nets: Nets, payments: seq<Transfer>)
    ensures PayInTurn(nets, payments) ==
            if AllKnown(nets, payments) then Success(PayAll(nets, payments)) else Failure(OutsideGroup)
    decreases |payments|
  {
    if payments != [] {
      var first, rest := payments[0], payments[1..];
      assert forall t :: t in payments <==> t == first || t in rest;
      if Knows(nets, first) {
        PayInTurnPaysAll(Pay(nets, first), rest);
        assert Pay(nets, first).Keys == nets.Keys;
        assert AllKnown(nets, payments) <==> AllKnown(nets, rest);
      }
    }
  }

  /** Applies payments one by one; gives up at the first one that names a stranger. */
  method Record(amounts: Nets, payments: seq<Transfer>) returns (r: Result<Nets, DebtError>)
    ensures r == if AllKnown(amounts, payments) then Success(PayAll(amounts, payments)) else Failure(OutsideGroup)
  {
    PayInTurnPaysAll(amounts, payments);
    var current: Nets := amounts;
    for i := 0 to |payments|
      invariant PayInTurn(current, payments[i..]) == PayInTurn(amounts, payments)
    {
      var payment := payments[i];
      assert payments[i..][0] == payment && payments[i..][1..] == payments[i + 1..];
      if payment.payer !in current || payment.payee !in current {
        return Failure(OutsideGroup);
      }
      current := current[payment.payer := current[payment.payer] + payment.amount];
      current := current[payment.payee := current[payment.payee] - payment.amount];
    }
    assert payments[|payments|..] == [];
    return Success(current);
  }

  method ApplySettlements(balances: seq<Balance>, settlements: seq<Transfer>)
      returns (r: Result<seq<Balance>, DebtError>)
    ensures r == ApplyResult(balances, settlements)
  {
    var invalid := Validate(balances);
    if invalid.Some? {
      return Failure(invalid.value);
    }
    var amounts := Amounts(balances);
    var recorded := Record(amounts, settlements);
    if recorded.Failure? {
      return Failure(recorded.error);
    }
    NetsOfRows(balances);
    var nets := recorded.value;
    var result := seq(|balances|, i requires 0 <= i < |balances| => Balance(balances[i].user, nets[balances[i].user]));
    assert result == Rewritten(balances, nets);
    AppliedBalancesAreValid(balances, settlements);
    var broken := Validate(result);
    r := match broken case None => Success(result) case Some(error) => Failure(error);
  }

  method ValidateResult(balances: seq<Balance>, transfers: seq<Transfer>) returns (error: Option<DebtError>)
    ensures error == None <==> AllKnown(NetsOf(balances), transfers) && Settled(PayAll(NetsOf(balances), transfers))
  {
    var remaining := Amounts(balances);
    var recorded := Record(remaining, transfers);
    if recorded.Failure? {
      return Some(PlanDoesNotSettle);
    }
    var unsettled := set u | u in recorded.value && recorded.value[u] != 0;
    if unsettled != {} {
      var u :| u in unsettled;
      return Some(PlanDoesNotSettle);
    }
    assert forall u | u in recorded.value :: u !in unsettled;
    return None;
  }

  lemma LeastIsUnique(e: Entry, s: set<Entry>)
    requires IsLeast(e, s)
    ensures e == Least(s)
  {
  }

  /** What goes back on a heap: nothing once the side is settled. */
  ghost function Remainder(key: int, user: UserId): set<Entry> {
    if key != 0 then {Entry(key, user)} else {}
  }

  /** What one round of the matcher does to the two heaps. */
  lemma RoundOfHeaps(b: Nets)
    requires Open(b)
    ensures var t := NextTransfer(b);
            var p := Pay(b, t);
            var debt, credit := Least(DebtEntries(b)), Least(CreditEntries(b));
            && DebtEntries(p) == DebtEntries(b) - {debt} + Remainder(p[debt.user], debt.user)
            && CreditEntries(p) == CreditEntries(b) - {credit} + Remainder(-p[credit.user], credit.user)
  {
    var t := NextTransfer(b);
    var half: Nets := b[t.payer := b[t.payer] + t.amount];
    EntriesPut(b, t.payer, b[t.payer] + t.amount);
    EntriesPut(half, t.payee, half[t.payee] - t.amount);
  }

  /** The payment between the owners of two entries: the smaller of their open amounts. */
  ghost function Payment(d: Entry, c: Entry): Transfer {
    Transfer(d.user, c.user, if -d.key <= -c.key then -d.key else -c.key)
  }

  /**
   * One round seen from the plan: with `d` and `c` the least entries of the two heaps,
   * `p` is what is left after their payment.
   */
  lemma Round(b: Nets, d: Entry, c: Entry) returns (p: Nets)
    requires IsLeast(d, DebtEntries(b)) && IsLeast(c, CreditEntries(b))
    ensures var t := Payment(d, c);
            && t.Valid()
            && Plan(b) == [t] + Plan(p)
            && DebtEntries(p) == DebtEntries(b) - {d} + Remainder(d.key + t.amount, d.user)
            && CreditEntries(p) == CreditEntries(b) - {c} + Remainder(c.key + t.amount, c.user)
    ensures Sum(p) == Sum(b) && Debtors(p) + Creditors(p) < Debtors(b) + Creditors(b)
  {
    PaymentIsNext(b, d, c);
    RoundOfHeaps(b);
    RoundOfPlan(b);
    p := Pay(b, NextTransfer(b));
  }

  lemma PaymentIsNext(b: Nets, d: Entry, c: Entry)
    requires IsLeast(d, DebtEntries(b)) && IsLeast(c, CreditEntries(b))
    ensures Open(b) && d == Least(DebtEntries(b)) && c == Least(CreditEntries(b))
    ensures var t := Payment(d, c);
            && t == NextTransfer(b) && t.Valid()
            && Pay(b, t)[d.user] == d.key + t.amount && Pay(b, t)[c.user] == -(c.key + t.amount)
  {
    LeastIsUnique(d, DebtEntries(b));
    LeastIsUnique(c, CreditEntries(b));
  }

  lemma RoundOfPlan(b: Nets)
    requires Open(b)
    ensures Plan(b) == [NextTransfer(b)] + Plan(Pay(b, NextTransfer(b)))
    ensures Sum(Pay(b, NextTransfer(b))) == Sum(b)
    ensures var p := Pay(b, NextTransfer(b)); Debtors(p) + Creditors(p) < Debtors(b) + Creditors(b)
  {
    var t := NextTransfer(b);
    StepCloses(b);
    PayKeepsSum(b, t);
    assert t.payer in Debtors(b) && t.payer !in Creditors(b);
    assert t.payee in Creditors(b) && t.payee !in Debtors(b);
  }

  lemma NewRow(bs: seq<Balance>, i: nat)
    requires Unique(bs) && i < |bs|
    ensures var before, after := NetsOf(bs[..i]), NetsOf(bs[..i + 1]);
            var debt, credit := Entry(bs[i].net, bs[i].user), Entry(-bs[i].net, bs[i].user);
            && (forall x | x in DebtEntries(before) + CreditEntries(before) :: x.user != bs[i].user)
            && DebtEntries(after) == DebtEntries(before) + (if bs[i].net < 0 then {debt} else {})
            && CreditEntries(after) == CreditEntries(before) + (if bs[i].net > 0 then {credit} else {})
  {
    assert bs[..i + 1][..i] == bs[..i];
    FreshLast(bs[..i + 1]);
    EntriesPut(NetsOf(bs[..i]), bs[i].user, bs[i].net);
  }

  ghost function ToSet(es: seq<Entry>): set<Entry> {
    set e | e in es
  }

  lemma ToSetGrows(es: seq<Entry>, e: Entry)
    requires Distinct(es) && forall x | x in ToSet(es) :: x.user != e.user
    ensures ToSet(es + [e]) == ToSet(es) + {e} && Distinct(es + [e])
  {
    assert forall i | 0 <= i < |es| :: es[i] in ToSet(es);
  }

  /** The two lists the heaps are built from. */
  method Sides(balances: seq<Balance>) returns (debtors: seq<Entry>, creditors: seq<Entry>)
    requires Unique(balances)
    ensures Distinct(debtors) && ToSet(debtors) == DebtEntries(NetsOf(balances))
    ensures Distinct(creditors) && ToSet(creditors) == CreditEntries(NetsOf(balances))
  {
    debtors, creditors := [], [];
    for i := 0 to |balances|
      invariant Distinct(debtors) && ToSet(debtors) == DebtEntries(NetsOf(balances[..i]))
      invariant Distinct(creditors) && ToSet(creditors) == CreditEntries(NetsOf(balances[..i]))
    {
      var b := balances[i];
      NewRow(balances, i);
      if b.net < 0 {
        ToSetGrows(debtors, Entry(b.net, b.user));
        debtors := debtors + [Entry(b.net, b.user)];
      }
      if b.net > 0 {
        ToSetGrows(creditors, Entry(-b.net, b.user));
        creditors := creditors + [Entry(-b.net, b.user)];
      }
    }
    assert balances[..|balances|] == balances;
  }

  /** A side that is not yet settled returns to its heap with what remains. */
  method PutBack(heap: MinHeap, remaining: int, user: UserId)
    requires heap.Valid() && forall x | x in heap.contents :: x.user != user
    modifies heap
    ensures heap.Valid() && heap.contents == old(heap.contents) + Remainder(-remaining, user)
  {
    if remaining != 0 {
      heap.Push(Entry(-remaining, user));
    }
  }

  /** One iteration: the largest debtor pays the largest creditor; what remains goes back. */
  method MatchOnce(debtors: MinHeap, creditors: MinHeap) returns (transfer: Transfer, ghost d: Entry, ghost c: Entry)
    requires debtors != creditors && debtors.Valid() && creditors.Valid()
    requires debtors.contents != {} && creditors.contents != {}
    modifies debtors, creditors
    ensures IsLeast(d, old(debtors.contents)) && IsLeast(c, old(creditors.contents))
    ensures transfer == Payment(d, c)
    ensures debtors.Valid()
        && debtors.contents == old(debtors.contents) - {d} + Remainder(d.key + transfer.amount, d.user)
    ensures creditors.Valid()
        && creditors.contents == old(creditors.contents) - {c} + Remainder(c.key + transfer.amount, c.user)
  {
    var debtor := debtors.Pop();
    var creditor := creditors.Pop();
    var debt, credit := -debtor.key, -creditor.key;
    var amount := if debt <= credit then debt else credit;
    transfer := Transfer(debtor.user, creditor.user, amount);
    PutBack(debtors, debt - amount, debtor.user);
    PutBack(creditors, credit - amount, creditor.user);
    d, c := debtor, creditor;
  }

  /** The matcher runs until one side is empty; for balances that sum to zero both sides are. */
  method Match(ghost nets: Nets, debtors: MinHeap, creditors: MinHeap) returns (transfers: seq<Transfer>)
    requires debtors != creditors && debtors.Valid() && creditors.Valid()
    requires debtors.contents == DebtEntries(nets) && creditors.contents == CreditEntries(nets)
    modifies debtors, creditors
    ensures transfers == Plan(nets)
    ensures Sum(nets) == 0 ==> debtors.contents == {} && creditors.contents == {}
  {
    transfers := [];
    ghost var now := nets;
    while !debtors.IsEmpty() && !creditors.IsEmpty()
      invariant debtors.Valid() && debtors.contents == DebtEntries(now)
      invariant creditors.Valid() && creditors.contents == CreditEntries(now)
      invariant transfers + Plan(now) == Plan(nets)
      invariant Sum(now) == Sum(nets)
      decreases Debtors(now) + Creditors(now)
    {
      var transfer;
      ghost var debtor, creditor;
      transfer, debtor, creditor := MatchOnce(debtors, creditors);
      now := Round(now, debtor, creditor);
      assert transfer.Valid();
      Regroup(transfers, transfer, Plan(now));
      transfers := transfers + [transfer];
    }
    if Sum(now) == 0 {
      OpenSides(now);
      ZeroSumSides(now);
    }
  }

  method Simplify(balances: seq<Balance>) returns (r: Result<seq<Transfer>, DebtError>)
    ensures r == SimplifyResult(balances)
  {
    var invalid := Validate(balances);
    if invalid.Some? {
      return Failure(invalid.value);
    }
    var debts, credits := Sides(balances);
    var debtors := new MinHeap.Heapify(debts);
    var creditors := new MinHeap.Heapify(credits);
    NetsOfTotal(balances);
    var transfers := Match(NetsOf(balances), debtors, creditors);
    PlanSettles(NetsOf(balances));
    var broken := ValidateResult(balances, transfers);
    r := match broken case None => Success(transfers) case Some(error) => Failure(error);
  }
}
