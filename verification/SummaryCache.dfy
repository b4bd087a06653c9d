/**
 * Cached debt summaries.  Requests are handled one at a time and the cache is reachable:
 * a write drops the group's entry, a read fills it.  Whatever is cached then shows the
 * payments and the non-zero balances that would be computed now.
 */
module SummaryCache {
  import opened Basics
  import opened Ledger
  import opened Balances
  import opened DebtSummaries
  import opened LedgerServices
  import Plans
  import Debts

  // ---------- what a cached summary must show ----------

  /** Same payments and same non-zero balances; members who are settled may come and go. */
  ghost predicate UpToDate(summary: Summary, s: Store, g: GroupId) {
    && g in s.groups
    && Plans.NonZero(Debts.NetsOf(summary.balances)) == OpenBalances(s, g)
    && summary.plan == Plans.Plan(OpenBalances(s, g))
  }

  /** The non-zero balances of everybody who appears in the group's rows. */
  ghost function OpenBalances(s: Store, g: GroupId): Plans.Nets {
    Plans.NonZero(GroupNets(s, g, Parties(s.expenses, s.settlements, g)))
  }

  /** Who is listed beyond the parties makes no difference to the open balances. */
  lemma StrangersAreSettled(s: Store, g: GroupId, users: set<UserId>)
    requires Parties(s.expenses, s.settlements, g) <= users
    ensures Plans.NonZero(GroupNets(s, g, users)) == OpenBalances(s, g)
  {
    var parties := Parties(s.expenses, s.settlements, g);
    forall u | u in users && u !in parties ensures Net(s, g, u) == 0 {
      NetOfStranger(s, g, u);
    }
    var a, b := Plans.NonZero(GroupNets(s, g, users)), OpenBalances(s, g);
    forall u ensures u in a <==> u in b {
      assert u in a <==> u in users && Net(s, g, u) != 0;
      assert u in b <==> u in parties && Net(s, g, u) != 0;
    }
  }

  lemma NonZeroTwice(nets: Plans.Nets)
    ensures Plans.NonZero(Plans.NonZero(nets)) == Plans.NonZero(nets)
  {
  }

  lemma FreshSummaryIsUpToDate(summary: Summary, s: Store, g: GroupId)
    requires g in s.groups && IsSummary(summary, s, g)
    ensures UpToDate(summary, s, g)
  {
    var users := FinancialUsers(s, g);
    var nets := GroupNets(s, g, users);
    ListedNets(summary.balances, nets);
    StrangersAreSettled(s, g, users);
    NonZeroTwice(nets);
    Plans.PlanIgnoresSettledMembers(nets, OpenBalances(s, g));
  }

  // ---------- what leaves a group's summary alone ----------

  /** The rows of two ledgers agree for the group. */
  ghost predicate SameRows(s: Store, t: Store, g: GroupId) {
    && (forall u :: Net(s, g, u) == Net(t, g, u))
    && Parties(s.expenses, s.settlements, g) == Parties(t.expenses, t.settlements, g)
  }

  lemma SameRowsSameSummary(summary: Summary, s: Store, t: Store, g: GroupId)
    requires SameRows(s, t, g) && UpToDate(summary, s, g) && g in t.groups
    ensures UpToDate(summary, t, g)
  {
    var parties := Parties(s.expenses, s.settlements, g);
    assert GroupNets(s, g, parties) == GroupNets(t, g, parties);
  }

  lemma NewExpenseElsewhere(es: seq<Expense>, ts: seq<Settlement>, e: Expense, g: GroupId)
    requires e.group != g
    ensures forall u :: ExpenseNet(es + [e], g, u) == ExpenseNet(es, g, u)
    ensures Parties(es + [e], ts, g) == Parties(es, ts, g)
  {
    assert (es + [e])[..|es|] == es;
  }

  lemma NewSettlementElsewhere(es: seq<Expense>, ts: seq<Settlement>, t: Settlement, g: GroupId)
    requires t.group != g
    ensures forall u :: SettlementNet(ts + [t], g, u) == SettlementNet(ts, g, u)
    ensures Parties(es, ts + [t], g) == Parties(es, ts, g)
  {
    assert (ts + [t])[..|ts|] == ts;
  }

  lemma ChangedExpenseElsewhere(es: seq<Expense>, ts: seq<Settlement>, i: nat, e: Expense, g: GroupId)
    requires i < |es| && es[i].group != g && e.group != g
    ensures forall u :: ExpenseNet(es[i := e], g, u) == ExpenseNet(es, g, u)
    ensures Parties(es[i := e], ts, g) == Parties(es, ts, g)
  {
    forall u ensures ExpenseNet(es[i := e], g, u) == ExpenseNet(es, g, u) {
      ExpenseNetPut(es, i, e, g, u);
    }
    forall x ensures x in es[i := e] && x.group == g <==> x in es && x.group == g {
      if x in es && x.group == g {
        var k :| 0 <= k < |es| && es[k] == x;
        assert es[i := e][k] == x;
      }
      if x in es[i := e] && x.group == g {
        var k :| 0 <= k < |es| && es[i := e][k] == x;
        assert es[k] == x;
      }
    }
  }

  /** The group an operation writes to. */
  function TargetOf(op: Operation): GroupId {
    match op
    case FastCreate(q) => q.group
    case ItemizedCreate(q) => q.group
    case Settle(q) => q.group
    case PushUpdate(q) => q.group
    case PushDelete(q) => q.group
    case ChangeGroup(g, _, _, _) => g
  }

  /** A write touches the rows of its own group only; membership and archiving touch no rows at all. */
  lemma OtherGroupsKeepTheirRows(s: Store, op: Operation, now: Time, g: GroupId)
    requires g != TargetOf(op) || op.ChangeGroup?
    ensures SameRows(s, Step(s, op, now), g)
  {
    var t := Step(s, op, now);
    match op {
      case FastCreate(q) =>
        if FastResult(s, q, now).Success? {
          NewExpenseElsewhere(s.expenses, s.settlements, FastResult(s, q, now).value, g);
        }
      case ItemizedCreate(q) =>
        if ItemizedAccepted(s, q) { NewExpenseElsewhere(s.expenses, s.settlements, ItemizedExpense(s, q, now), g); }
      case Settle(q) =>
        if SettlementResult(s, q, now).Success? {
          NewSettlementElsewhere(s.expenses, s.settlements, SettlementResult(s, q, now).value, g);
        }
      case PushUpdate(q) =>
        if UpdateResult(s, q, now).Success? {
          ChangedExpenseElsewhere(s.expenses, s.settlements, q.id, UpdateResult(s, q, now).value, g);
        }
      case PushDelete(q) =>
        if DeleteResult(s, q, now).Success? {
          ChangedExpenseElsewhere(s.expenses, s.settlements, q.id, DeleteResult(s, q, now).value, g);
        }
      case ChangeGroup(_, _, _, _) =>
    }
  }

  // ---------- runs ----------

  type Entries = map<GroupId, Summary>

  datatype State = State(rows: Store, cache: Entries)

  datatype Event =
    // An operation; its route drops the group's entry, except that archiving does not.
    | Write(op: Operation, now: Time, invalidates: bool)
    // The summary endpoint: serves the entry, or computes it and stores it.
    | Read(group: GroupId, summary: Summary)

  ghost predicate Next(a: State, event: Event, b: State) {
    match event
    case Write(op, now, invalidates) =>
      && op.WellFormed()
      && (!op.ChangeGroup? && Step(a.rows, op, now) != a.rows ==> invalidates)
      && b == State(Step(a.rows, op, now), if invalidates then a.cache - {TargetOf(op)} else a.cache)
    case Read(g, summary) =>
      && g in a.rows.groups
      && (if g in a.cache then summary == a.cache[g] && b == a
          else IsSummary(summary, a.rows, g) && b == a.(cache := a.cache[g := summary]))
  }

  ghost predicate IsRun(states: seq<State>, events: seq<Event>) {
    && |states| == |events| + 1
    && forall i | 0 <= i < |events| :: Next(states[i], events[i], states[i + 1])
  }

  ghost predicate Fresh(state: State) {
    Sound(state.rows) && forall g | g in state.cache :: UpToDate(state.cache[g], state.rows, g)
  }

  lemma NextKeepsFresh(a: State, event: Event, b: State)
    requires Fresh(a) && Next(a, event, b)
    ensures Fresh(b)
    ensures event.Read? ==> UpToDate(event.summary, a.rows, event.group)
  {
    match event {
      case Write(op, now, invalidates) =>
        StepKeepsSound(a.rows, op, now);
        forall g | g in b.cache ensures UpToDate(b.cache[g], b.rows, g) {
          assert g in a.cache && b.cache[g] == a.cache[g];
          if b.rows != a.rows {
            OtherGroupsKeepTheirRows(a.rows, op, now, g);
            SameRowsSameSummary(a.cache[g], a.rows, b.rows, g);
          }
        }
      case Read(g, summary) =>
        if g !in a.cache { FreshSummaryIsUpToDate(summary, a.rows, g); }
    }
  }

  lemma StepOfRunKeepsFresh(states: seq<State>, events: seq<Event>, i: nat)
    requires IsRun(states, events) && i < |events| && Fresh(states[i])
    ensures Fresh(states[i + 1])
    ensures events[i].Read? ==> UpToDate(events[i].summary, states[i].rows, events[i].group)
  {
    var a, event, b := states[i], events[i], states[i + 1];
    assert Next(a, event, b);
    NextKeepsFresh(a, event, b);
  }

  lemma {:induction false} RunKeepsFresh(states: seq<State>, events: seq<Event>, i: nat)
    requires IsRun(states, events) && Fresh(states[0]) && i < |states|
    ensures Fresh(states[i])
  {
    if i > 0 {
      RunKeepsFresh(states, events, i - 1);
      StepOfRunKeepsFresh(states, events, i - 1);
    }
  }

  /** Over every run, each summary that is served shows what would be computed at that moment. */
  lemma EveryServedSummaryIsUpToDate(states: seq<State>, events: seq<Event>, i: nat)
    requires IsRun(states, events) && Fresh(states[0]) && i < |events| && events[i].Read?
    ensures UpToDate(events[i].summary, states[i].rows, events[i].group)
  {
    RunKeepsFresh(states, events, i);
    StepOfRunKeepsFresh(states, events, i);
  }

  // ---------- the services ----------

  class DebtSummaryCache {
    var entries: Entries

    constructor ()
      ensures entries == map[]
    {
      entries := map[];
    }

    method Get(g: GroupId) returns (r: Option<Summary>)
      ensures r == if g in entries then Some(entries[g]) else None
    {
      r := if g in entries then Some(entries[g]) else None;
    }

    method Set(g: GroupId, summary: Summary)
      modifies this
      ensures entries == old(entries)[g := summary]
    {
      entries := entries[g := summary];
    }

    method Invalidate(g: GroupId)
      modifies this
      ensures entries == old(entries) - {g}
    {
      entries := entries - {g};
    }
  }

  /** The summary endpoint. */
  method GetDebtSummary(ledger: LedgerService, cache: DebtSummaryCache, g: GroupId)
      returns (r: Result<Summary, SummaryError>)
    requires Sound(ledger.Rows())
    requires forall h | h in cache.entries :: UpToDate(cache.entries[h], ledger.Rows(), h)
    modifies cache
    ensures g !in ledger.groups ==> r == Failure(GroupUnknown) && cache.entries == old(cache.entries)
    ensures g in ledger.groups ==>
              && r.Success? && UpToDate(r.value, ledger.Rows(), g)
              && Next(State(ledger.Rows(), old(cache.entries)), Read(g, r.value), State(ledger.Rows(), cache.entries))
    ensures forall h | h in cache.entries :: UpToDate(cache.entries[h], ledger.Rows(), h)
  {
    var cached := cache.Get(g);
    if cached.Some? {
      return Success(cached.value);
    }
    var rows := Store(ledger.groups, ledger.expenses, ledger.settlements, ledger.itemizedLines);
    r := GetForGroup(rows, g);
    if r.Success? {
      FreshSummaryIsUpToDate(r.value, rows, g);
      cache.Set(g, r.value);
    }
  }

  /** The settlement endpoint: records the settlement, then drops the group's entry. */
  method PostSettlement(ledger: LedgerService, cache: DebtSummaryCache, q: SettlementRequest, now: Time)
      returns (r: Result<nat, Refusal>)
    requires Sound(ledger.Rows())
    modifies ledger`settlements, cache
    ensures Next(State(old(ledger.Rows()), old(cache.entries)),
        Write(Settle(q), now, r.Success?), State(ledger.Rows(), cache.entries))
  {
    r := ledger.CreateSettlement(q, now);
    if r.Success? {
      cache.Invalidate(q.group);
    }
  }
}
