/**
 * Following the advice of a debt summary: every payment of the plan is recorded as a
 * settlement by the member who makes it.  The theorem says exactly when that settles the
 * group; it need not, because a member who still owes or is owed may have left.
 */
module RecordedPlans {
  import opened Basics
  import opened Sums
  import opened Ledger
  import opened Balances
  import opened DebtSummaries
  import opened LedgerRequests
  import Plans
  import Roles
  import Departures

  function RecordedBy(s: Store, g: GroupId, t: Plans.Transfer): SettlementRequest
    requires g in s.groups
  {
    SettlementRequest(g, t.payer, t.payer, t.payee, t.amount, s.groups[g].currency)
  }

  /** The payments are recorded one after the other. */
  function Recording(s: Store, g: GroupId, ts: seq<Plans.Transfer>, now: Time): Trace
    requires g in s.groups
  {
    seq(|ts|, i requires 0 <= i < |ts| => (Settle(RecordedBy(s, g, ts[i])), now))
  }

  /** The payments of the list that the service accepts. */
  ghost function Kept(s: Store, g: GroupId, ts: seq<Plans.Transfer>): seq<Plans.Transfer>
    requires g in s.groups
  {
    if ts == [] then [] else
      var last := ts[|ts| - 1];
      Kept(s, g, ts[..|ts| - 1]) + if SettlementAllowed(s, RecordedBy(s, g, last)) then [last] else []
  }

  /** The plan of the group's debt summary. */
  ghost function PlanOf(s: Store, g: GroupId): seq<Plans.Transfer>
    requires g in s.groups
  {
    Plans.Plan(GroupNets(s, g, FinancialUsers(s, g)))
  }

  /** The rows are those of `s` with these payments added: every balance is what the payments leave of it. */
  ghost predicate Follows(after: Store, s: Store, g: GroupId, paid: seq<Plans.Transfer>, users: set<UserId>) {
    && after.groups == s.groups
    && Plans.AllKnown(GroupNets(s, g, users), paid)
    && (forall u | u in users :: Net(after, g, u) == Plans.PayAll(GroupNets(s, g, users), paid)[u])
    && (forall u | u !in users :: Net(after, g, u) == Net(s, g, u))
  }

  lemma OneMorePayment(before: Store, s: Store, g: GroupId, paid: seq<Plans.Transfer>, users: set<UserId>,
      t: Plans.Transfer, now: Time)
    requires g in s.groups && Follows(before, s, g, paid, users)
    requires t.payer in users && t.payee in users && t.Valid() && SettlementAllowed(s, RecordedBy(s, g, t))
    ensures Follows(Step(before, Settle(RecordedBy(s, g, t)), now), s, g, paid + [t], users)
  {
    var nets: Plans.Nets := GroupNets(s, g, users);
    var after := Step(before, Settle(RecordedBy(s, g, t)), now);
    PayAllAppend(nets, paid, t);
    forall u
      ensures Net(after, g, u) ==
              Net(before, g, u) + (if u == t.payer then t.amount else if u == t.payee then -t.amount else 0)
    {
      SettlementMovesBalances(before, RecordedBy(s, g, t), now, g, u);
    }
  }

  lemma {:induction false} RecordedNets(s: Store, g: GroupId, ts: seq<Plans.Transfer>, now: Time, users: set<UserId>)
    requires g in s.groups && forall t | t in ts :: t.payer in users && t.payee in users && t.Valid()
    ensures Follows(Run(s, Recording(s, g, ts, now)), s, g, Kept(s, g, ts), users)
  {
    if ts != [] {
      var n := |ts| - 1;
      var trace := Recording(s, g, ts, now);
      RecordedNets(s, g, ts[..n], now, users);
      assert trace[..n] == Recording(s, g, ts[..n], now);
      var before := Run(s, trace[..n]);
      if SettlementAllowed(s, RecordedBy(s, g, ts[n])) {
        OneMorePayment(before, s, g, Kept(s, g, ts[..n]), users, ts[n], now);
      } else {
        SettlementMovesBalances(before, RecordedBy(s, g, ts[n]), now, g, 0);
        assert Kept(s, g, ts) == Kept(s, g, ts[..n]);
      }
    }
  }

  ghost predicate AllAllowed(s: Store, g: GroupId, ts: seq<Plans.Transfer>)
    requires g in s.groups
  {
    forall t | t in ts :: SettlementAllowed(s, RecordedBy(s, g, t))
  }

  lemma AllAllowedLast(s: Store, g: GroupId, ts: seq<Plans.Transfer>)
    requires g in s.groups && ts != []
    ensures AllAllowed(s, g, ts) <==>
            AllAllowed(s, g, ts[..|ts| - 1]) && SettlementAllowed(s, RecordedBy(s, g, ts[|ts| - 1]))
  {
    assert ts == ts[..|ts| - 1] + [ts[|ts| - 1]];
    assert forall t :: t in ts <==> t in ts[..|ts| - 1] || t == ts[|ts| - 1];
  }

  lemma {:induction false} KeptAreListed(s: Store, g: GroupId, ts: seq<Plans.Transfer>)
    requires g in s.groups
    ensures forall t | t in Kept(s, g, ts) :: t in ts
    ensures AllAllowed(s, g, ts) ==> Kept(s, g, ts) == ts
  {
    if ts != [] {
      KeptAreListed(s, g, ts[..|ts| - 1]);
      AllAllowedLast(s, g, ts);
      assert ts == ts[..|ts| - 1] + [ts[|ts| - 1]];
    }
  }

  lemma {:induction false} KeptMoves(s: Store, g: GroupId, ts: seq<Plans.Transfer>)
    requires g in s.groups && forall i | 0 <= i < |ts| :: ts[i].amount > 0
    ensures Plans.Moved(Kept(s, g, ts)) <= Plans.Moved(ts)
    ensures Plans.Moved(Kept(s, g, ts)) == Plans.Moved(ts) <==> AllAllowed(s, g, ts)
  {
    if ts != [] {
      var rest, last := ts[..|ts| - 1], ts[|ts| - 1];
      KeptMoves(s, g, rest);
      AllAllowedLast(s, g, ts);
      assert ts == rest + [last];
      MovedAppend(rest, last);
      if SettlementAllowed(s, RecordedBy(s, g, last)) {
        MovedAppend(Kept(s, g, rest), last);
      } else {
        assert Kept(s, g, ts) == Kept(s, g, rest);
      }
    }
  }

  lemma {:induction false} MovedAppend(ts: seq<Plans.Transfer>, t: Plans.Transfer)
    ensures Plans.Moved(ts + [t]) == Plans.Moved(ts) + t.amount
    decreases |ts|
  {
    if ts == [] {
      assert ts + [t] == [t] && [t][1..] == [];
    } else {
      MovedAppend(ts[1..], t);
      assert (ts + [t])[1..] == ts[1..] + [t];
    }
  }

  /** Everybody who is not settled is an active member of the unarchived group, and the amounts can be stored. */
  ghost predicate Recordable(s: Store, g: GroupId)
    requires g in s.groups
  {
    && (PlanOf(s, g) != [] ==> !s.groups[g].archived)
    && (forall u | Net(s, g, u) != 0 :: u in s.groups[g].active)
    && forall t | t in PlanOf(s, g) :: t.amount <= 9_223_372_036_854_775_807
  }

  lemma PlanPeople(s: Store, g: GroupId, t: Plans.Transfer)
    requires g in s.groups && t in PlanOf(s, g)
    ensures t.Valid() && t.payer in FinancialUsers(s, g) && t.payee in FinancialUsers(s, g)
    ensures Net(s, g, t.payer) < 0 < Net(s, g, t.payee)
  {
    Plans.PlanRoles(GroupNets(s, g, FinancialUsers(s, g)));
  }

  /** Whoever is not settled takes part in some payment of the plan. */
  lemma {:induction false} OpenMembersPay(b: Plans.Nets, ts: seq<Plans.Transfer>, u: UserId)
    requires Plans.AllKnown(b, ts) && u in b && b[u] != 0 && Plans.PayAll(b, ts)[u] == 0
    ensures exists t :: t in ts && u in {t.payer, t.payee}
    decreases |ts|
  {
    if u !in {ts[0].payer, ts[0].payee} {
      assert forall t | t in ts[1..] :: t in ts && Plans.Knows(b, t);
      OpenMembersPay(Plans.Pay(b, ts[0]), ts[1..], u);
    } else {
      assert ts[0] in ts;
    }
  }

  lemma OpenMembersAreInPlan(s: Store, g: GroupId, u: UserId)
    requires Sound(s) && g in s.groups && Net(s, g, u) != 0
    ensures exists t :: t in PlanOf(s, g) && u in {t.payer, t.payee}
  {
    var users := FinancialUsers(s, g);
    if u !in users { NetOfStranger(s, g, u); }
    GroupBalancesSumToZero(s, g, users);
    Plans.PlanSettles(GroupNets(s, g, users));
    OpenMembersPay(GroupNets(s, g, users), PlanOf(s, g), u);
  }

  lemma AllowedExactlyWhenRecordable(s: Store, g: GroupId)
    requires Sound(s) && g in s.groups
    ensures AllAllowed(s, g, PlanOf(s, g)) <==> Recordable(s, g)
  {
    var plan := PlanOf(s, g);
    if AllAllowed(s, g, plan) {
      if plan != [] { assert plan[0] in plan; }
      forall u | Net(s, g, u) != 0 ensures u in s.groups[g].active {
        OpenMembersAreInPlan(s, g, u);
        var t :| t in plan && u in {t.payer, t.payee};
        assert SettlementAllowed(s, RecordedBy(s, g, t));
      }
    }
    if Recordable(s, g) {
      forall t | t in plan ensures SettlementAllowed(s, RecordedBy(s, g, t)) {
        PlanPeople(s, g, t);
      }
    }
  }

  /** The accepted payments settle everybody exactly when all of them are accepted. */
  lemma KeptSettlesExactlyWhen(s: Store, g: GroupId)
    requires Sound(s) && g in s.groups
    ensures var nets := GroupNets(s, g, FinancialUsers(s, g));
            && Plans.AllKnown(nets, Kept(s, g, PlanOf(s, g)))
            && (Plans.Settled(Plans.PayAll(nets, Kept(s, g, PlanOf(s, g)))) <==> AllAllowed(s, g, PlanOf(s, g)))
  {
    var nets: Plans.Nets, plan := GroupNets(s, g, FinancialUsers(s, g)), PlanOf(s, g);
    forall t | t in plan ensures t.Valid() && Plans.Knows(nets, t) {
      PlanPeople(s, g, t);
    }
    assert forall i | 0 <= i < |plan| :: plan[i] in plan;
    KeptAreListed(s, g, plan);
    KeptMoves(s, g, plan);
    GroupBalancesSumToZero(s, g, FinancialUsers(s, g));
    Plans.PlanSettles(nets);
    Plans.PlanMovesExactly(nets);
    if Plans.Settled(Plans.PayAll(nets, Kept(s, g, plan))) {
      Plans.SettlingMovesAtLeast(nets, Kept(s, g, plan));
    }
  }

  /**
   * Recording every payment of the plan, one after the other, brings every net balance of the
   * group to zero exactly when everybody with an open balance is an active member, the group is
   * not archived and the amounts can be stored.
   */
  lemma RecordedPlanSettlesExactlyWhen(s: Store, g: GroupId, now: Time)
    requires Sound(s) && g in s.groups
    ensures (forall u :: Net(Run(s, Recording(s, g, PlanOf(s, g), now)), g, u) == 0) <==> Recordable(s, g)
  {
    var kept := Kept(s, g, PlanOf(s, g));
    RecordingFollows(s, g, now);
    AllowedExactlyWhenRecordable(s, g);
    KeptSettlesExactlyWhen(s, g);
    FollowsSettles(Run(s, Recording(s, g, PlanOf(s, g), now)), s, g, kept, FinancialUsers(s, g));
  }

  lemma RecordingFollows(s: Store, g: GroupId, now: Time)
    requires Sound(s) && g in s.groups
    ensures var after := Run(s, Recording(s, g, PlanOf(s, g), now));
            && Follows(after, s, g, Kept(s, g, PlanOf(s, g)), FinancialUsers(s, g))
            && forall u | u !in FinancialUsers(s, g) :: Net(after, g, u) == 0
  {
    var users, plan := FinancialUsers(s, g), PlanOf(s, g);
    forall t | t in plan ensures t.Valid() && t.payer in users && t.payee in users {
      PlanPeople(s, g, t);
    }
    RecordedNets(s, g, plan, now, users);
    forall u | u !in users ensures Net(s, g, u) == 0 {
      NetOfStranger(s, g, u);
    }
  }

  lemma FollowsSettles(after: Store, s: Store, g: GroupId, paid: seq<Plans.Transfer>, users: set<UserId>)
    requires Follows(after, s, g, paid, users) && forall u | u !in users :: Net(after, g, u) == 0
    ensures (forall u :: Net(after, g, u) == 0) <==> Plans.Settled(Plans.PayAll(GroupNets(s, g, users), paid))
  {
    var left: Plans.Nets := Plans.PayAll(GroupNets(s, g, users), paid);
    if Plans.Settled(left) {
      forall u ensures Net(after, g, u) == 0 {
        if u in users { assert left[u] == 0; }
      }
    }
  }

  /** On a reachable state: a member who left is owed six, and recording the whole plan does not settle the group. */
  lemma DepartedMemberExample(now: Time) returns (w: Roles.World)
    ensures Roles.Reachable(w) && 1 in w.groups && !Roles.IsActive(w.groups[1], 12)
    ensures var s := Roles.StoreOf(w);
            Net(s, 1, 12) == 6 && exists u :: Net(Run(s, Recording(s, 1, PlanOf(s, 1), now)), 1, u) != 0
  {
    var left, event := Departures.DepartedBalanceExample();
    w := Roles.Step(left, event);
    Roles.ReachableStep(left, event, w);
    var worlds, events :| Roles.IsRun(worlds, events) && worlds[|events|] == w;
    Roles.RunKeepsInv(worlds, events, |events|);
    assert w.groups == left.groups;
    RecordedPlanSettlesExactlyWhen(Roles.StoreOf(w), 1, now);
  }
}
