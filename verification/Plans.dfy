/**
 * What a settlement plan is, independent of how it is computed.
 *
 * `Nets` gives every member's net balance: negative members owe, positive members
 * are owed.  `Plan` repeatedly lets the member who owes most pay the member who
 * is owed most; ties go to the lower user id.  The two-heap algorithm of the
 * source is proved to compute exactly `Plan` in module `Debts`.
 */
module Plans {
  import opened Basics
  import opened Sums

  type Nets = map<UserId, int>

  datatype Transfer = Transfer(payer: UserId, payee: UserId, amount: int) {
    // What the constructor of a transfer accepts.
    predicate Valid() {
      payer != payee && amount > 0
    }
  }

  /** A heap item: tuples compare by key first and by user id second. */
  datatype Entry = Entry(key: int, user: UserId)

  predicate Before(a: Entry, b: Entry) {
    a.key < b.key || (a.key == b.key && a.user < b.user)
  }

  ghost function DebtEntries(b: Nets): set<Entry> {
    set u | u in b && b[u] < 0 :: Entry(b[u], u)
  }

  ghost function CreditEntries(b: Nets): set<Entry> {
    set u | u in b && b[u] > 0 :: Entry(-b[u], u)
  }

  /** Changing one balance replaces at most that member's entry on each side. */
  lemma EntriesPut(b: Nets, u: UserId, v: int)
    ensures DebtEntries(b[u := v]) == DebtEntries(b) - {Entry(At(b, u), u)} + (if v < 0 then {Entry(v, u)} else {})
    ensures CreditEntries(b[u := v])
        == CreditEntries(b) - {Entry(-At(b, u), u)} + (if v > 0 then {Entry(-v, u)} else {})
  {
    var p: Nets := b[u := v];
    forall e ensures e in DebtEntries(p)
        <==> e in DebtEntries(b) - {Entry(At(b, u), u)} + (if v < 0 then {Entry(v, u)} else {}) {
      assert e in DebtEntries(p) <==> e.user in p && e.key == p[e.user] && e.key < 0;
      assert e in DebtEntries(b) <==> e.user in b && e.key == b[e.user] && e.key < 0;
    }
    forall e ensures e in CreditEntries(p)
        <==> e in CreditEntries(b) - {Entry(-At(b, u), u)} + (if v > 0 then {Entry(-v, u)} else {}) {
      assert e in CreditEntries(p) <==> e.user in p && e.key == -p[e.user] && e.key < 0;
      assert e in CreditEntries(b) <==> e.user in b && e.key == -b[e.user] && e.key < 0;
    }
  }

  ghost predicate IsLeast(e: Entry, s: set<Entry>) {
    e in s && forall x | x in s :: x == e || Before(e, x)
  }

  lemma {:induction false} LeastExists(s: set<Entry>)
    requires s != {}
    ensures exists e :: IsLeast(e, s)
    decreases s
  {
    var x :| x in s;
    if s == {x} {
      assert IsLeast(x, s);
    } else {
      LeastExists(s - {x});
      var e :| IsLeast(e, s - {x});
      if Before(x, e) {
        forall y | y in s ensures y == x || Before(x, y) {
          assert y == x || y in s - {x};
        }
        assert IsLeast(x, s);
      } else {
        assert IsLeast(e, s);
      }
    }
  }

  ghost function Least(s: set<Entry>): (e: Entry)
    requires s != {}
    ensures IsLeast(e, s)
  {
    LeastExists(s);
    var e :| IsLeast(e, s); e
  }

  // ---------- paying ----------

  predicate Knows(b: Nets, t: Transfer) {
    t.payer in b && t.payee in b
  }

  /** Recording a payment raises the payer's balance and lowers the payee's. */
  function Pay(b: Nets, t: Transfer): Nets
    requires Knows(b, t)
  {
    var paid: Nets := b[t.payer := b[t.payer] + t.amount];
    paid[t.payee := paid[t.payee] - t.amount]
  }

  ghost predicate AllKnown(b: Nets, ts: seq<Transfer>) {
    forall t | t in ts :: Knows(b, t)
  }

  function PayAll(b: Nets, ts: seq<Transfer>): (r: Nets)
    requires AllKnown(b, ts)
    ensures r.Keys == b.Keys
  {
    if ts == [] then b else
      assert Knows(b, ts[0]);
      assert forall t | t in ts[1..] :: t in ts && Knows(b, t);
      PayAll(Pay(b, ts[0]), ts[1..])
  }

  lemma PayAllFirst(b: Nets, t: Transfer, ts: seq<Transfer>)
    requires Knows(b, t) && AllKnown(Pay(b, t), ts)
    ensures AllKnown(b, [t] + ts)
    ensures PayAll(b, [t] + ts) == PayAll(Pay(b, t), ts)
  {
    assert ([t] + ts)[1..] == ts;
  }

  ghost predicate Settled(b: Nets) {
    forall u | u in b :: b[u] == 0
  }

  lemma PayKeepsSum(b: Nets, t: Transfer)
    requires Knows(b, t)
    ensures Sum(Pay(b, t)) == Sum(b)
  {
    var paid: Nets := b[t.payer := b[t.payer] + t.amount];
    SumPut(b, t.payer, b[t.payer] + t.amount);
    SumPut(paid, t.payee, paid[t.payee] - t.amount);
  }

  // ---------- the plan ----------

  ghost function Debtors(b: Nets): set<UserId> {
    set u | u in b && b[u] < 0
  }

  ghost function Creditors(b: Nets): set<UserId> {
    set u | u in b && b[u] > 0
  }

  ghost predicate Open(b: Nets) {
    DebtEntries(b) != {} && CreditEntries(b) != {}
  }

  lemma OpenSides(b: Nets)
    ensures DebtEntries(b) != {} <==> Debtors(b) != {}
    ensures CreditEntries(b) != {} <==> Creditors(b) != {}
  {
    if u :| u in Debtors(b) { assert Entry(b[u], u) in DebtEntries(b); }
    if e :| e in DebtEntries(b) { assert e.user in Debtors(b); }
    if u :| u in Creditors(b) { assert Entry(-b[u], u) in CreditEntries(b); }
    if e :| e in CreditEntries(b) { assert e.user in Creditors(b); }
  }

  /** The payment the largest debtor makes to the largest creditor. */
  ghost function NextTransfer(b: Nets): (t: Transfer)
    requires Open(b)
    ensures Knows(b, t) && t.Valid()
    ensures b[t.payer] <= -t.amount && t.amount <= b[t.payee]
    ensures b[t.payer] == -t.amount || b[t.payee] == t.amount
  {
    var debt := Least(DebtEntries(b));
    var credit := Least(CreditEntries(b));
    Transfer(debt.user, credit.user, if -debt.key <= -credit.key then -debt.key else -credit.key)
  }

  /** A payment of the plan closes one side or both, and touches nobody else. */
  lemma StepCloses(b: Nets)
    requires Open(b)
    ensures var t := NextTransfer(b);
            var p := Pay(b, t);
            && Debtors(p) == (if b[t.payer] == -t.amount then Debtors(b) - {t.payer} else Debtors(b))
            && Creditors(p) == (if b[t.payee] == t.amount then Creditors(b) - {t.payee} else Creditors(b))
            && t.payer in Debtors(b) && t.payee in Creditors(b)
  {
  }

  ghost function Plan(b: Nets): (ts: seq<Transfer>)
    ensures AllKnown(b, ts)
    ensures ts == [] <==> !Open(b)
    decreases Debtors(b) + Creditors(b)
  {
    if !Open(b) then [] else
      var t := NextTransfer(b);
      assert t.payer in Debtors(b) + Creditors(b) && t.payee in Debtors(b) + Creditors(b);
      StepCloses(b);
      [t] + Plan(Pay(b, t))
  }

  // ---------- theorems ----------

  lemma ZeroSumSides(b: Nets)
    requires Sum(b) == 0
    ensures (Debtors(b) == {}) <==> (Creditors(b) == {})
    ensures Debtors(b) == {} ==> Settled(b)
  {
    if Debtors(b) == {} {
      forall u | u in b ensures b[u] >= 0 {
        assert u !in Debtors(b);
      }
      SumNonNegative(b);
    }
    if Creditors(b) == {} {
      var n: map<UserId, int> := map u | u in b :: -b[u];
      var z: map<UserId, int> := map u | u in b :: 0;
      SumOfSums(b, n, z);
      SumZeros(z);
      forall u | u in n ensures n[u] >= 0 {
        assert u !in Creditors(b);
      }
      SumNonNegative(n);
      assert forall u | u in b :: n[u] == -b[u];
    }
  }

  /** The two sides run out together, and then every balance is exactly zero. */
  lemma {:induction false} PlanSettles(b: Nets)
    requires Sum(b) == 0
    ensures Settled(PayAll(b, Plan(b)))
    ensures !Open(PayAll(b, Plan(b)))
    decreases Debtors(b) + Creditors(b)
  {
    OpenSides(b);
    ZeroSumSides(b);
    if Open(b) {
      var t := NextTransfer(b);
      StepCloses(b);
      PayKeepsSum(b, t);
      PlanSettles(Pay(b, t));
      assert Plan(b)[1..] == Plan(Pay(b, t));
    }
  }

  /** Everybody who pays owed money, everybody who is paid was owed money. */
  lemma {:induction false} PlanRoles(b: Nets)
    ensures forall t | t in Plan(b) :: t.payer in Debtors(b) && t.payee in Creditors(b) && t.Valid()
    decreases Debtors(b) + Creditors(b)
  {
    if Open(b) {
      var t := NextTransfer(b);
      StepCloses(b);
      PlanRoles(Pay(b, t));
      assert Plan(b) == [t] + Plan(Pay(b, t));
    }
  }

  lemma {:induction false} PlanNeverRepeatsAPair(b: Nets, i: nat, j: nat)
    requires i < j < |Plan(b)|
    ensures (Plan(b)[i].payer, Plan(b)[i].payee) != (Plan(b)[j].payer, Plan(b)[j].payee)
    decreases i
  {
    var t := NextTransfer(b);
    var rest := Plan(Pay(b, t));
    assert Plan(b) == [t] + rest;
    if i == 0 {
      StepCloses(b);
      PlanRoles(Pay(b, t));
      assert rest[j - 1] in rest;
    } else {
      PlanNeverRepeatsAPair(Pay(b, t), i - 1, j - 1);
    }
  }

  lemma StepAmountsShrink(b: Nets)
    requires Open(b) && Open(Pay(b, NextTransfer(b)))
    ensures NextTransfer(Pay(b, NextTransfer(b))).amount <= NextTransfer(b).amount
  {
    var t := NextTransfer(b);
    var p := Pay(b, t);
    var debt, credit := Least(DebtEntries(b)), Least(CreditEntries(b));
    var debt', credit' := Least(DebtEntries(p)), Least(CreditEntries(p));
    assert Entry(b[debt'.user], debt'.user) in DebtEntries(b);
    assert Entry(-b[credit'.user], credit'.user) in CreditEntries(b);
  }

  lemma {:induction false} PlanAmountsNonIncreasing(b: Nets, i: nat)
    requires i + 1 < |Plan(b)|
    ensures Plan(b)[i].amount >= Plan(b)[i + 1].amount
    decreases i
  {
    var t := NextTransfer(b);
    assert Plan(b) == [t] + Plan(Pay(b, t));
    if i == 0 {
      StepAmountsShrink(b);
    } else {
      PlanAmountsNonIncreasing(Pay(b, t), i - 1);
    }
  }

  /** Between max(D, C) and D + C - 1 payments settle D debtors and C creditors. */
  lemma {:induction false} PlanLength(b: Nets)
    requires Sum(b) == 0 && !Settled(b)
    ensures |Debtors(b)| <= |Plan(b)| && |Creditors(b)| <= |Plan(b)|
    ensures |Plan(b)| <= |Debtors(b)| + |Creditors(b)| - 1
    decreases Debtors(b) + Creditors(b)
  {
    OpenSides(b);
    ZeroSumSides(b);
    var t := NextTransfer(b);
    var p := Pay(b, t);
    StepCloses(b);
    PayKeepsSum(b, t);
    assert Plan(b) == [t] + Plan(p);
    if Settled(p) {
      assert Debtors(p) == {} && Creditors(p) == {};
      OpenSides(p);
      assert Plan(p) == [];
      if b[t.payer] == -t.amount { assert Debtors(b) == {t.payer}; }
      if b[t.payee] == t.amount { assert Creditors(b) == {t.payee}; }
    } else {
      PlanLength(p);
    }
  }

  lemma FirstSlices(t: Transfer, rest: seq<Transfer>, k: nat)
    requires 0 < k <= |rest| + 1
    ensures ([t] + rest)[..k] == [t] + rest[..k - 1]
    ensures ([t] + rest)[k..] == rest[k - 1..]
  {
  }

  /** Recording the first k payments and planning again leaves exactly the rest. */
  lemma {:induction false} PlanStability(b: Nets, k: nat)
    requires k <= |Plan(b)|
    ensures AllKnown(b, Plan(b)[..k])
    ensures Plan(PayAll(b, Plan(b)[..k])) == Plan(b)[k..]
    decreases k
  {
    if k == 0 {
      assert Plan(b)[..0] == [];
    } else {
      var t := NextTransfer(b);
      var rest := Plan(Pay(b, t));
      assert Plan(b) == [t] + rest;
      FirstSlices(t, rest, k);
      PlanStability(Pay(b, t), k - 1);
      PayAllFirst(b, t, rest[..k - 1]);
    }
  }

  // ---------- the greedy rule ----------

  /** The payer owes most and the payee is owed most, of equals the lower user id; they settle the smaller amount. */
  ghost predicate PaysLargest(b: Nets, t: Transfer) {
    && Knows(b, t) && t.Valid()
    && (forall u | u in b && u != t.payer :: b[t.payer] < b[u] || (b[t.payer] == b[u] && t.payer < u))
    && (forall u | u in b && u != t.payee :: b[t.payee] > b[u] || (b[t.payee] == b[u] && t.payee < u))
    && t.amount == if -b[t.payer] <= b[t.payee] then -b[t.payer] else b[t.payee]
  }

  /** Payments made by that rule until nobody owes anything. */
  ghost predicate Greedy(b: Nets, ts: seq<Transfer>) {
    if ts == [] then Settled(b)
    else PaysLargest(b, ts[0]) && Greedy(Pay(b, ts[0]), ts[1..])
  }

  lemma NextPaysLargest(b: Nets)
    requires Open(b)
    ensures PaysLargest(b, NextTransfer(b))
  {
    var t := NextTransfer(b);
    forall u | u in b && u != t.payer
      ensures b[t.payer] < b[u] || (b[t.payer] == b[u] && t.payer < u)
    {
      if b[u] < 0 { assert Entry(b[u], u) in DebtEntries(b); }
    }
    forall u | u in b && u != t.payee
      ensures b[t.payee] > b[u] || (b[t.payee] == b[u] && t.payee < u)
    {
      if b[u] > 0 { assert Entry(-b[u], u) in CreditEntries(b); }
    }
  }

  /** At every position of the plan, of the balances the payments before it leave. */
  lemma PlanPaysLargest(b: Nets, k: nat)
    requires k < |Plan(b)|
    ensures AllKnown(b, Plan(b)[..k]) && PaysLargest(PayAll(b, Plan(b)[..k]), Plan(b)[k])
  {
    PlanStability(b, k);
    var left := PayAll(b, Plan(b)[..k]);
    assert Plan(left)[0] == Plan(b)[k];
    NextPaysLargest(left);
  }

  lemma LargestIsUnique(b: Nets, t: Transfer, other: Transfer)
    requires PaysLargest(b, t) && PaysLargest(b, other)
    ensures t == other
  {
  }

  /** On balances that sum to zero the rule leaves no choice: the plan is the only list of payments made by it. */
  lemma {:induction false} PlanIsTheGreedyPlan(b: Nets, ts: seq<Transfer>)
    requires Sum(b) == 0
    ensures Greedy(b, ts) <==> ts == Plan(b)
    decreases Debtors(b) + Creditors(b)
  {
    OpenSides(b);
    ZeroSumSides(b);
    if Open(b) {
      var t := NextTransfer(b);
      var u :| u in Debtors(b);
      StepCloses(b);
      PayKeepsSum(b, t);
      NextPaysLargest(b);
      assert Plan(b) == [t] + Plan(Pay(b, t));
      if ts != [] && PaysLargest(b, ts[0]) {
        LargestIsUnique(b, t, ts[0]);
        PlanIsTheGreedyPlan(Pay(b, t), ts[1..]);
        assert ts == [t] + ts[1..];
      }
    }
  }

  // ---------- least total money ----------

  ghost function Moved(ts: seq<Transfer>): int {
    if ts == [] then 0 else ts[0].amount + Moved(ts[1..])
  }

  ghost function Owed(b: Nets): map<UserId, int> {
    map u | u in b :: if b[u] > 0 then b[u] else 0
  }

  /** The money owed to all creditors together. */
  ghost function Outstanding(b: Nets): int {
    Sum(Owed(b))
  }

  lemma PayLowersOutstanding(b: Nets, t: Transfer)
    requires Knows(b, t) && t.Valid()
    ensures Outstanding(Pay(b, t)) >= Outstanding(b) - t.amount
    ensures b[t.payer] <= -t.amount && t.amount <= b[t.payee] ==>
              Outstanding(Pay(b, t)) == Outstanding(b) - t.amount
  {
    var p := Pay(b, t);
    var o: map<UserId, int> := Owed(b);
    var o1: map<UserId, int> := o[t.payer := Owed(p)[t.payer]];
    SumPut(o, t.payer, Owed(p)[t.payer]);
    SumPut(o1, t.payee, Owed(p)[t.payee]);
    assert Owed(p) == o1[t.payee := Owed(p)[t.payee]];
  }

  lemma SettledOwesNothing(b: Nets)
    requires Settled(b)
    ensures Outstanding(b) == 0
  {
    SumZeros(Owed(b));
  }

  lemma {:induction false} SettlingMovesAtLeast(b: Nets, ts: seq<Transfer>)
    requires AllKnown(b, ts) && forall t | t in ts :: t.Valid()
    requires Settled(PayAll(b, ts))
    ensures Moved(ts) >= Outstanding(b)
    decreases |ts|
  {
    if ts == [] {
      SettledOwesNothing(b);
    } else {
      PayLowersOutstanding(b, ts[0]);
      assert forall t | t in ts[1..] :: t in ts && Knows(b, t);
      SettlingMovesAtLeast(Pay(b, ts[0]), ts[1..]);
    }
  }

  lemma {:induction false} PlanMovesExactly(b: Nets)
    requires Sum(b) == 0
    ensures Moved(Plan(b)) == Outstanding(b)
    decreases Debtors(b) + Creditors(b)
  {
    OpenSides(b);
    ZeroSumSides(b);
    if Open(b) {
      var t := NextTransfer(b);
      StepCloses(b);
      PayKeepsSum(b, t);
      PayLowersOutstanding(b, t);
      PlanMovesExactly(Pay(b, t));
      assert Plan(b)[1..] == Plan(Pay(b, t));
    } else {
      SettledOwesNothing(b);
    }
  }

  /** No list of payments that settles everybody moves less money than the plan. */
  lemma PlanMovesLeastMoney(b: Nets, ts: seq<Transfer>)
    requires Sum(b) == 0
    requires AllKnown(b, ts) && forall t | t in ts :: t.Valid()
    requires Settled(PayAll(b, ts))
    ensures Moved(Plan(b)) <= Moved(ts)
  {
    PlanMovesExactly(b);
    SettlingMovesAtLeast(b, ts);
  }

  // ---------- members who are settled do not matter ----------

  function NonZero(b: Nets): Nets {
    map u | u in b && b[u] != 0 :: b[u]
  }

  lemma SameNonZero(a: Nets, b: Nets)
    requires NonZero(a) == NonZero(b)
    ensures forall u | u in a && a[u] != 0 :: u in b && b[u] == a[u]
  {
    forall u | u in a && a[u] != 0
      ensures u in b && b[u] == a[u]
    {
      assert u in NonZero(a);
      assert u in NonZero(b);
    }
  }

  /** Adding or dropping members whose balance is zero does not change the plan. */
  lemma {:induction false} PlanIgnoresSettledMembers(a: Nets, b: Nets)
    requires NonZero(a) == NonZero(b)
    ensures Plan(a) == Plan(b)
    decreases Debtors(a) + Creditors(a)
  {
    SameNonZero(a, b);
    SameNonZero(b, a);
    assert DebtEntries(a) == DebtEntries(b);
    assert CreditEntries(a) == CreditEntries(b);
    if Open(a) {
      var t := NextTransfer(a);
      assert t == NextTransfer(b);
      var pa, pb := Pay(a, t), Pay(b, t);
      StepCloses(a);
      forall u | u in NonZero(pa) || u in NonZero(pb)
        ensures u in NonZero(pa) && u in NonZero(pb) && NonZero(pa)[u] == NonZero(pb)[u]
      {
      }
      assert NonZero(pa) == NonZero(pb);
      PlanIgnoresSettledMembers(pa, pb);
    }
  }
}
