/**
 * Balances after leaving.  A member leaves at net balance zero and a group is archived when
 * everybody is settled, but offline changes to old expenses remain possible afterwards.
 * The theorems say exactly which requests change such a balance, and for departed members
 * when it can ever change again; module `ArchivedGroups` says the latter for archived groups.
 */
module Departures {
  import opened Basics
  import opened Sums
  import opened Ledger
  import opened Balances
  import Roles
  import Itemized

  function NetIn(w: Roles.World, group: GroupId, u: UserId): int {
    Net(Roles.StoreOf(w), group, u)
  }

  // ---------- one step ----------

  /** What an expense posts to a user once an update has rewritten it. */
  function PostedBy(q: UpdateRequest, u: UserId): int {
    (if q.payer == u then q.total else 0) - At(ShareTable(q.shares), u)
  }

  predicate DeletePermitted(s: Store, q: DeleteRequest) {
    MutationGuard(s, q.group, q.user, q.id, q.expected).None? && !Locked(s, s.expenses[q.id])
  }

  /** The guards of an update that rewrites the amounts. */
  ghost predicate UpdatePermitted(s: Store, q: UpdateRequest) {
    && MutationGuard(s, q.group, q.user, q.id, q.expected).None?
    && Once(q.shares) && Amounts(q.shares) == q.total
    && q.currency == s.groups[q.group].currency
    && {q.payer} + UsersOf(q.shares) <= s.groups[q.group].active
    && !Locked(s, s.expenses[q.id])
    && !s.expenses[q.id].splitType.ItemizedSplit? && !q.splitType.ItemizedSplit?
  }

  /** A permitted request for an expense of the group that posts something else to the user than the stored row. */
  ghost predicate Moves(s: Store, op: Operation, g: GroupId, u: UserId) {
    match op
    case PushDelete(q) => q.group == g && DeletePermitted(s, q) && Posted(s.expenses[q.id], u) != 0
    case PushUpdate(q) => q.group == g && UpdatePermitted(s, q) && Posted(s.expenses[q.id], u) != PostedBy(q, u)
    case _ => false
  }

  /** An outsider, or anybody in an archived group. */
  predicate Closed(s: Store, g: GroupId, u: UserId) {
    g in s.groups && (u !in s.groups[g].active || s.groups[g].archived)
  }

  lemma FastExpensePostsNothing(s: Store, q: FastRequest, now: Time, g: GroupId, u: UserId)
    requires q.WellFormed() && Closed(s, g, u) && FastResult(s, q, now).Success?
    ensures ExpenseNet(s.expenses + [FastResult(s, q, now).value], g, u) == ExpenseNet(s.expenses, g, u)
  {
    var e := FastResult(s, q, now).value;
    FastPeople(q);
    LastExpense(s.expenses, e, g, u);
    assert e.group == g ==> u !in People(e);
  }

  lemma ItemizedExpensePostsNothing(s: Store, q: ItemizedRequest, now: Time, g: GroupId, u: UserId)
    requires Closed(s, g, u) && ItemizedAccepted(s, q)
    ensures ExpenseNet(s.expenses + [ItemizedExpense(s, q, now)], g, u) == ExpenseNet(s.expenses, g, u)
  {
    var e := ItemizedExpense(s, q, now);
    Itemized.AcceptedExpenseConserves(ItemsOf(s, q));
    LastExpense(s.expenses, e, g, u);
    assert e.group == g ==> u !in e.shares && q.payer in Itemized.Participants(ItemsOf(s, q));
  }

  lemma SettlementMovesNothing(s: Store, q: SettlementRequest, now: Time, g: GroupId, u: UserId)
    requires Closed(s, g, u) && SettlementResult(s, q, now).Success?
    ensures SettlementNet(s.settlements + [SettlementResult(s, q, now).value], g, u)
        == SettlementNet(s.settlements, g, u)
  {
    var t := SettlementResult(s, q, now).value;
    LastSettlement(s.settlements, t, g, u);
    assert t.group == g ==> u !in {t.payer, t.payee};
  }

  /** Rows that are appended post nothing to somebody who is not active, and nothing at all in an archived group. */
  lemma NewRowsPostNothing(s: Store, op: Operation, now: Time, g: GroupId, u: UserId)
    requires op.WellFormed() && Closed(s, g, u) && (op.FastCreate? || op.ItemizedCreate? || op.Settle?)
    ensures Net(Step(s, op, now), g, u) == Net(s, g, u)
  {
    match op {
      case FastCreate(q) => if FastResult(s, q, now).Success? { FastExpensePostsNothing(s, q, now, g, u); }
      case ItemizedCreate(q) => if ItemizedAccepted(s, q) { ItemizedExpensePostsNothing(s, q, now, g, u); }
      case Settle(q) => if SettlementResult(s, q, now).Success? { SettlementMovesNothing(s, q, now, g, u); }
    }
  }

  lemma DeleteMoves(s: Store, q: DeleteRequest, now: Time, g: GroupId, u: UserId)
    ensures Net(Step(s, PushDelete(q), now), g, u) != Net(s, g, u) <==> Moves(s, PushDelete(q), g, u)
  {
    if DeletePermitted(s, q) {
      ExpenseNetPut(s.expenses, q.id, DeleteResult(s, q, now).value, g, u);
    }
  }

  lemma UpdateMoves(s: Store, q: UpdateRequest, now: Time, g: GroupId, u: UserId)
    ensures Net(Step(s, PushUpdate(q), now), g, u) != Net(s, g, u) <==> Moves(s, PushUpdate(q), g, u)
  {
    if UpdateResult(s, q, now).Success? {
      ExpenseNetPut(s.expenses, q.id, UpdateResult(s, q, now).value, g, u);
    }
  }

  /** Only financial operations touch the books, and they leave the groups alone. */
  lemma PostOrSameBooks(w: Roles.World, event: Roles.Event, group: GroupId, u: UserId)
    requires Roles.Enabled(w, event) && group in w.groups
    ensures event.Post? ==> Roles.StoreOf(Roles.Step(w, event)) == Step(Roles.StoreOf(w), event.op, event.now)
    ensures !event.Post? ==>
        Roles.Step(w, event).books == w.books && NetIn(Roles.Step(w, event), group, u) == NetIn(w, group, u)
  {
    if event.Post? {
      Roles.PostIsLedgerStep(w, event.op, event.now);
    } else {
      Roles.BooksStay(w, event);
    }
  }

  /**
   * For a user who is not an active member, and for anybody in an archived group, the net
   * balance changes in a step exactly when the event is a permitted delete of an expense that
   * posts something to the user, or a permitted update that posts something else.
   */
  lemma DepartedBalanceChangesExactlyWhen(w: Roles.World, event: Roles.Event, group: GroupId, u: UserId)
    requires Roles.Enabled(w, event) && group in w.groups
    requires !Roles.IsActive(w.groups[group], u) || w.groups[group].archived
    ensures NetIn(Roles.Step(w, event), group, u) != NetIn(w, group, u)
            <==> event.Post? && Moves(Roles.StoreOf(w), event.op, group, u)
  {
    PostOrSameBooks(w, event, group, u);
    if event.Post? {
      var s := Roles.StoreOf(w);
      if event.op.PushUpdate? {
        UpdateMoves(s, event.op.update, event.now, group, u);
      } else if event.op.PushDelete? {
        DeleteMoves(s, event.op.delete, event.now, group, u);
      } else {
        NewRowsPostNothing(s, event.op, event.now, group, u);
      }
    }
  }

  // ---------- over runs ----------

  /** A live, unlocked expense of the group that posts something to the user. */
  ghost predicate Pending(s: Store, group: GroupId, u: UserId, i: ExpenseId) {
    && i < |s.expenses|
    && var e := s.expenses[i];
       e.group == group && !e.deleted && !Locked(s, e) && Posted(e, u) != 0
  }

  /** Such an expense that some active member is allowed to change. */
  ghost predicate Loose(w: Roles.World, group: GroupId, u: UserId, i: ExpenseId)
    requires group in w.groups
  {
    && Pending(Roles.StoreOf(w), group, u, i)
    && (Roles.Admins(w.groups[group]) != {} || Roles.IsActive(w.groups[group], w.books.expenses[i].createdBy))
  }

  /** The rest of some run, during which the user does not come back. */
  ghost predicate StaysAway(worlds: seq<Roles.World>,
      events: seq<Roles.Event>, w: Roles.World, group: GroupId, u: UserId) {
    && Roles.IsPath(worlds, events) && worlds[0] == w
    && forall k | 0 <= k < |worlds| :: group in worlds[k].groups && !Roles.IsActive(worlds[k].groups[group], u)
  }

  /** What a change posts to somebody who is not active: the same as before, or nothing. */
  lemma DepartedPosted(s: Store, op: Operation, now: Time, u: UserId, i: ExpenseId)
    requires i < |s.expenses| && (s.expenses[i].group in s.groups ==> u !in s.groups[s.expenses[i].group].active)
    ensures i < |Step(s, op, now).expenses|
    ensures var after := Step(s, op, now).expenses[i];
            Posted(after, u) == Posted(s.expenses[i], u) || Posted(after, u) == 0
  {
    if op.PushUpdate? && op.update.id == i && UpdateResult(s, op.update, now).Success? {
      ShareTableReads(op.update.shares);
    }
  }

  lemma NewExpensePostsNothing(s: Store, op: Operation, now: Time, u: UserId, i: ExpenseId)
    requires op.WellFormed() && |s.expenses| <= i < |Step(s, op, now).expenses|
    requires var g := Step(s, op, now).expenses[i].group; g in s.groups ==> u !in s.groups[g].active
    ensures Posted(Step(s, op, now).expenses[i], u) == 0
  {
    NewRowsAreBetweenActiveMembers(s, op, now);
    assert u !in People(Step(s, op, now).expenses[i]);
  }

  /** No expense becomes pending for somebody who is not active. */
  lemma PendingShrinks(s: Store, op: Operation, now: Time, group: GroupId, u: UserId, i: ExpenseId)
    requires op.WellFormed() && group in s.groups && u !in s.groups[group].active
    requires Pending(Step(s, op, now), group, u, i)
    ensures Pending(s, group, u, i) && Step(s, op, now).expenses[i].createdBy == s.expenses[i].createdBy
  {
    if i < |s.expenses| {
      StepKeepsIdentity(s, op, now, i);
      DepartedPosted(s, op, now, u, i);
    } else {
      NewExpensePostsNothing(s, op, now, u, i);
    }
  }

  /** In an archived group without admins nobody enters and nobody rises. */
  lemma FrozenGroup(w: Roles.World, event: Roles.Event, group: GroupId)
    requires Roles.Enabled(w, event) && group in w.groups && w.groups[group].archived
        && Roles.Admins(w.groups[group]) == {}
    ensures group in Roles.Step(w, event).groups && Roles.Step(w, event).groups[group].archived
    ensures Roles.Admins(Roles.Step(w, event).groups[group]) == {}
    ensures forall v | Roles.IsActive(Roles.Step(w, event).groups[group], v) :: Roles.IsActive(w.groups[group], v)
  {
    assert forall v ::
        v in Roles.Admins(w.groups[group]) <==>
        Roles.IsActive(w.groups[group], v) && !w.groups[group].members[v].role.Member?;
  }

  lemma UnarchivedHasAdmin(w: Roles.World, group: GroupId)
    requires Roles.Inv(w) && group in w.groups && !w.groups[group].archived
    ensures Roles.Admins(w.groups[group]) != {}
  {
    var g := w.groups[group];
    assert Roles.GroupOk(g);
    var owner: UserId :| owner in Roles.Owners(g);
    assert owner in Roles.Admins(g);
  }

  /** Without re-entry no expense becomes loose. */
  lemma LooseShrinks(w: Roles.World, event: Roles.Event, group: GroupId, u: UserId, i: ExpenseId)
    requires Roles.Inv(w) && Roles.Enabled(w, event) && group in w.groups && !Roles.IsActive(w.groups[group], u)
    requires group in Roles.Step(w, event).groups && Loose(Roles.Step(w, event), group, u, i)
    ensures Loose(w, group, u, i)
  {
    PendingBefore(w, event, group, u, i);
    if Roles.Admins(w.groups[group]) == {} {
      if !w.groups[group].archived { UnarchivedHasAdmin(w, group); }
      FrozenGroup(w, event, group);
    }
  }

  lemma PendingBefore(w: Roles.World, event: Roles.Event, group: GroupId, u: UserId, i: ExpenseId)
    requires Roles.Enabled(w, event) && group in w.groups && !Roles.IsActive(w.groups[group], u)
    requires Pending(Roles.StoreOf(Roles.Step(w, event)), group, u, i)
    ensures Pending(Roles.StoreOf(w), group, u, i)
    ensures Roles.Step(w, event).books.expenses[i].createdBy == w.books.expenses[i].createdBy
  {
    PostOrSameBooks(w, event, group, u);
    if event.Post? {
      PendingShrinks(Roles.StoreOf(w), event.op, event.now, group, u, i);
    }
  }

  /** A departed member's balance changes only through a loose expense. */
  lemma ChangeNeedsLoose(w: Roles.World, event: Roles.Event, group: GroupId, u: UserId) returns (i: ExpenseId)
    requires Roles.Enabled(w, event) && group in w.groups && !Roles.IsActive(w.groups[group], u)
    requires NetIn(Roles.Step(w, event), group, u) != NetIn(w, group, u)
    ensures Loose(w, group, u, i)
  {
    DepartedBalanceChangesExactlyWhen(w, event, group, u);
    match event.op {
      case PushUpdate(q) =>
        i := q.id;
        ShareTableReads(q.shares);
        assert u !in ShareTable(q.shares);
      case PushDelete(q) =>
        i := q.id;
    }
  }

  /** Any member who may change the expense can delete it, and that moves the balance. */
  lemma LooseCanBeDeleted(w: Roles.World, group: GroupId, u: UserId, i: ExpenseId) returns (event: Roles.Event)
    requires group in w.groups && !Roles.IsActive(w.groups[group], u) && Loose(w, group, u, i)
    ensures event.Post? && event.op.PushDelete? && event.op.delete.id == i
    ensures Roles.Enabled(w, event) && Roles.Step(w, event).groups == w.groups
    ensures NetIn(Roles.Step(w, event), group, u) == NetIn(w, group, u) - Posted(w.books.expenses[i], u)
  {
    var s, author := Roles.StoreOf(w), w.books.expenses[i].createdBy;
    if !Roles.IsActive(w.groups[group], author) {
      author :| author in Roles.Admins(w.groups[group]);
    }
    event := Roles.Post(PushDelete(DeleteRequest(group, author, i, None)), 0);
    var after := s.expenses[i].(deleted := true, updatedAt := 0);
    assert DeleteResult(s, event.op.delete, 0) == Success(after);
    ExpenseNetPut(s.expenses, i, after, group, u);
    PostOrSameBooks(w, event, group, u);
  }

  lemma {:induction false} QuietPath(worlds: seq<Roles.World>,
      events: seq<Roles.Event>, w: Roles.World, group: GroupId, u: UserId, n: nat)
    requires Roles.Inv(w) && StaysAway(worlds, events, w, group, u) && n < |worlds|
    requires forall i :: !Loose(w, group, u, i)
    ensures Roles.Inv(worlds[n]) && NetIn(worlds[n], group, u) == NetIn(w, group, u)
    ensures forall i :: !Loose(worlds[n], group, u, i)
  {
    if n > 0 {
      QuietPath(worlds, events, w, group, u, n - 1);
      var before, event := worlds[n - 1], events[n - 1];
      assert Roles.Enabled(before, event) && worlds[n - 1 + 1] == Roles.Step(before, event);
      Roles.StepKeepsInv(before, event);
      if NetIn(worlds[n], group, u) != NetIn(before, group, u) {
        var i := ChangeNeedsLoose(before, event, group, u);
      }
      forall i ensures !Loose(worlds[n], group, u, i) {
        if Loose(worlds[n], group, u, i) { LooseShrinks(before, event, group, u, i); }
      }
    }
  }

  /**
   * Over all runs without re-entry: the net balance of somebody who is not active can still
   * move exactly when some live, unlocked expense posts something to them and somebody in the
   * group may change it.
   */
  lemma DepartedBalanceCanMoveExactlyWhen(w: Roles.World, group: GroupId, u: UserId)
    requires Roles.Inv(w) && group in w.groups && !Roles.IsActive(w.groups[group], u)
    ensures (exists worlds, events ::
        StaysAway(worlds, events, w, group, u) && NetIn(worlds[|events|], group, u) != NetIn(w, group, u))
            <==> exists i :: Loose(w, group, u, i)
  {
    if worlds, events :|
        StaysAway(worlds, events, w, group, u) && NetIn(worlds[|events|], group, u) != NetIn(w, group, u) {
      if forall i :: !Loose(w, group, u, i) {
        QuietPath(worlds, events, w, group, u, |events|);
      }
    }
    if i: nat :| Loose(w, group, u, i) {
      var worlds, events := LooseMoves(w, group, u, i);
    }
  }

  lemma LooseMoves(w: Roles.World, group: GroupId, u: UserId, i: ExpenseId)
      returns (worlds: seq<Roles.World>, events: seq<Roles.Event>)
    requires Roles.Inv(w) && group in w.groups && !Roles.IsActive(w.groups[group], u) && Loose(w, group, u, i)
    ensures StaysAway(worlds, events, w, group, u) && NetIn(worlds[|events|], group, u) != NetIn(w, group, u)
  {
    var event := LooseCanBeDeleted(w, group, u, i);
    worlds, events := Roles.PathOfOne(w, event);
  }

  /** An unarchived group always has somebody who may: there the expense alone decides. */
  lemma OpenGroupCanMoveExactlyWhen(w: Roles.World, group: GroupId, u: UserId)
    requires Roles.Inv(w) && group in w.groups && !w.groups[group].archived && !Roles.IsActive(w.groups[group], u)
    ensures (exists worlds, events ::
        StaysAway(worlds, events, w, group, u) && NetIn(worlds[|events|], group, u) != NetIn(w, group, u))
            <==> exists i :: Pending(Roles.StoreOf(w), group, u, i)
  {
    DepartedBalanceCanMoveExactlyWhen(w, group, u);
    UnarchivedHasAdmin(w, group);
    assert forall i :: Loose(w, group, u, i) <==> Pending(Roles.StoreOf(w), group, u, i);
  }

  // ---------- balances that do change ----------

  function Household(): Roles.Group {
    Roles.Group(false, false, 949,
        map[10 := Roles.Membership(Roles.Owner, 1, false), 12 := Roles.Membership(Roles.Member, 2, false)])
  }

  function Lunch(): Expense {
    Expense(1, 10, 10, 6, 949, FixedAmount, map[12 := 6], None, 0, 3, 3, false)
  }

  function Supper(): Expense {
    Expense(1, 12, 10, 6, 949, FixedAmount, map[10 := 6], None, 0, 4, 4, false)
  }

  /** Two members who have paid the same for each other. */
  ghost predicate IsSettledHousehold(w: Roles.World) {
    w.groups == map[1 := Household()] && w.books == Roles.Books([Lunch(), Supper()], [], {})
  }

  lemma NewHousehold() returns (w: Roles.World)
    ensures w.groups == map[1 := Household()] && w.books == Roles.Books([], [], {}) && Roles.Reachable(w)
  {
    var start := Roles.RegisterTwo(10, 12);
    var alone := start.(groups := map[1 := Roles.NewGroup(10, false, 949, 1)]);
    Roles.ReachableStep(start, Roles.Create(1, 10, 949, 1), alone);
    w := start.(groups := map[1 := Household()]);
    assert Household() == Roles.Joined(alone.groups[1], 12, Roles.Member, 2);
    assert Roles.AfterAdd(alone, 1, 10, 12, Roles.Member, 2) == w;
    Roles.ReachableStep(alone, Roles.AddMember(1, 10, 12, Roles.Member, 2), w);
  }

  lemma MealIsPosted(w: Roles.World, payer: UserId, other: UserId, now: Time, e: Expense)
    requires Roles.Reachable(w) && w.groups == map[1 := Household()] && w.books.settlements == []
        && w.books.itemizedLines == {}
    requires payer in {10, 12} && other in {10, 12}
    requires e == Expense(1, payer, 10, 6, 949, FixedAmount, map[other := 6], None, 0, now, now, false)
    ensures Roles.Reachable(w.(books := Roles.Books(w.books.expenses + [e], [], {})))
  {
    var q := FastRequest(1, 10, payer, None, false, 0, 6, 949, FixedAmount, [(other, 6)]);
    PaidForOther(Roles.StoreOf(w), q, other, now);
    Roles.ReachableStep(w, Roles.Post(FastCreate(q), now), w.(books := Roles.Books(w.books.expenses + [e], [], {})));
  }

  lemma SettledHousehold() returns (w: Roles.World)
    ensures IsSettledHousehold(w) && Roles.Reachable(w)
  {
    var start := NewHousehold();
    MealIsPosted(start, 10, 12, 3, Lunch());
    var one := start.(books := Roles.Books([Lunch()], [], {}));
    assert start.books.expenses + [Lunch()] == [Lunch()];
    MealIsPosted(one, 12, 10, 4, Supper());
    w := one.(books := Roles.Books([Lunch(), Supper()], [], {}));
    assert one.books.expenses + [Supper()] == [Lunch(), Supper()];
  }

  lemma EverybodyIsSettled(w: Roles.World, u: UserId)
    requires w.books == Roles.Books([Lunch(), Supper()], [], {})
    ensures NetIn(w, 1, u) == 0
  {
    LastExpense([], Lunch(), 1, u);
    LastExpense([Lunch()], Supper(), 1, u);
    assert [] + [Lunch()] == [Lunch()] && [Lunch()] + [Supper()] == [Lunch(), Supper()];
  }

  /** The owner deletes the lunch: it was never settled, and whoever had a share gets it back. */
  lemma LunchIsDeleted(w: Roles.World, event: Roles.Event)
    requires 1 in w.groups && Roles.Holds(w.groups[1], 10, Roles.Owner)
        && w.books == Roles.Books([Lunch(), Supper()], [], {})
    requires event == Roles.Post(PushDelete(DeleteRequest(1, 10, 0, None)), 5)
    ensures Roles.Enabled(w, event) && NetIn(Roles.Step(w, event), 1, 12) == 6
  {
    var s, after := Roles.StoreOf(w), Lunch().(deleted := true, updatedAt := 5);
    assert DeleteResult(s, event.op.delete, 5) == Success(after);
    ExpenseNetPut(s.expenses, 0, after, 1, 12);
    EverybodyIsSettled(w, 12);
    PostOrSameBooks(w, event, 1, 12);
  }

  /** On a reachable state: a member who left at zero is owed six after one pushed delete. */
  lemma DepartedBalanceExample() returns (left: Roles.World, event: Roles.Event)
    ensures Roles.Reachable(left) && 1 in left.groups && !Roles.IsActive(left.groups[1], 12)
    ensures Roles.Enabled(left, event) && event.Post?
    ensures NetIn(left, 1, 12) == 0 && NetIn(Roles.Step(left, event), 1, 12) == 6
  {
    var w := SettledHousehold();
    EverybodyIsSettled(w, 12);
    assert 12 !in Roles.Owners(Household());
    assert Roles.RemoveRefusal(w, 1, 10, 12).None?;
    left := w.(groups := map[1 := Roles.Departed(Household(), 12)]);
    Roles.ReachableStep(w, Roles.RemoveMember(1, 10, 12), left);
    EverybodyIsSettled(left, 12);
    event := Roles.Post(PushDelete(DeleteRequest(1, 10, 0, None)), 5);
    LunchIsDeleted(left, event);
  }

  /** On a reachable state: a group that was archived with everybody at zero is unsettled after one pushed delete. */
  lemma ArchivedBalanceExample() returns (closed: Roles.World, event: Roles.Event)
    ensures Roles.Reachable(closed) && 1 in closed.groups && closed.groups[1].archived
        && forall u :: NetIn(closed, 1, u) == 0
    ensures Roles.Enabled(closed, event) && NetIn(Roles.Step(closed, event), 1, 12) == 6
  {
    var w := SettledHousehold();
    forall u ensures Net(Roles.StoreOf(w), 1, u) == 0 {
      EverybodyIsSettled(w, u);
    }
    assert !Roles.Unsettled(w, 1);
    assert Roles.ArchiveRefusal(w, 1, 10).None?;
    closed := w.(groups := map[1 := Household().(archived := true)]);
    Roles.ReachableStep(w, Roles.Archive(1, 10), closed);
    forall u ensures NetIn(closed, 1, u) == 0 {
      EverybodyIsSettled(closed, u);
    }
    event := Roles.Post(PushDelete(DeleteRequest(1, 10, 0, None)), 5);
    LunchIsDeleted(closed, event);
  }
}
