/**
 * Balances of archived groups.  A group is archived when everybody is settled, but pushed
 * updates and deletes do not ask whether it is archived, and members can still be added.
 * The theorem says exactly when some balance of an archived group can ever move again.
 */
module ArchivedGroups {
  import opened Basics
  import opened Sums
  import opened Ledger
  import opened Balances
  import opened Departures
  import Roles

  /** A live, unlocked expense of the group that its active creator or some active admin may change. */
  ghost predicate Editable(w: Roles.World, group: GroupId, i: ExpenseId)
    requires group in w.groups
  {
    && i < |w.books.expenses|
    && var e := w.books.expenses[i];
       && e.group == group && !e.deleted && !Locked(Roles.StoreOf(w), e)
       && (Roles.Admins(w.groups[group]) != {} || Roles.IsActive(w.groups[group], e.createdBy))
  }

  ghost predicate TwoActive(g: Roles.Group) {
    exists u, v :: Roles.IsActive(g, u) && Roles.IsActive(g, v) && u != v
  }

  /** Two active members, or an admin who can add a second one. */
  ghost predicate HasRoom(g: Roles.Group) {
    Roles.Admins(g) != {} || TwoActive(g)
  }

  ghost predicate PostsSomething(e: Expense) {
    exists u :: Posted(e, u) != 0
  }

  /** An editable expense that posts something to somebody, or whose amounts can be rewritten between two members. */
  ghost predicate Movable(w: Roles.World, group: GroupId, i: ExpenseId)
    requires group in w.groups
  {
    && Editable(w, group, i)
    && var e := w.books.expenses[i];
       PostsSomething(e) || (!e.splitType.ItemizedSplit? && HasRoom(w.groups[group]))
  }

  // ---------- no such expense, so no balance moves ----------

  /** An update that names nobody but its payer posts nothing. */
  lemma LonelyUpdatePostsNothing(q: UpdateRequest, u: UserId)
    requires q.total > 0 && Once(q.shares) && Amounts(q.shares) == q.total && UsersOf(q.shares) <= {q.payer}
    ensures PostedBy(q, u) == 0
  {
    var table: map<UserId, int> := ShareTable(q.shares);
    ShareTableReads(q.shares);
    ShareTableCount(q.shares);
    if q.payer in table {
      SumAt(table, q.payer);
      assert table - {q.payer} == map[];
    }
  }

  lemma UpdateNeedsRoom(w: Roles.World, q: UpdateRequest, u: UserId)
    requires q.WellFormed() && UpdatePermitted(Roles.StoreOf(w), q) && PostedBy(q, u) != 0
    ensures HasRoom(w.groups[q.group])
  {
    var g := w.groups[q.group];
    if !HasRoom(g) {
      assert Roles.IsActive(g, q.payer);
      forall v | v in UsersOf(q.shares) ensures v == q.payer {
        assert Roles.IsActive(g, v);
      }
      LonelyUpdatePostsNothing(q, u);
    }
  }

  /** A request that changes a balance addresses a movable expense. */
  lemma MovesAMovable(w: Roles.World, op: Operation, group: GroupId, u: UserId) returns (i: ExpenseId)
    requires op.WellFormed() && group in w.groups && Moves(Roles.StoreOf(w), op, group, u)
    ensures Movable(w, group, i) && (op.PushUpdate? || op.PushDelete?)
    ensures i == if op.PushUpdate? then op.update.id else op.delete.id
  {
    var s := Roles.StoreOf(w);
    if op.PushUpdate? {
      i := op.update.id;
      assert op.update.user in s.groups[group].admins ==> op.update.user in Roles.Admins(w.groups[group]);
      if !PostsSomething(s.expenses[i]) {
        assert Posted(s.expenses[i], u) == 0;
        UpdateNeedsRoom(w, op.update, u);
      }
    } else {
      i := op.delete.id;
      assert op.delete.user in s.groups[group].admins ==> op.delete.user in Roles.Admins(w.groups[group]);
    }
  }

  /** What a row posts changes only through a request that moves balances. */
  lemma PostedChangeMoves(s: Store, op: Operation, now: Time, i: ExpenseId, u: UserId)
    requires i < |s.expenses| && i < |Step(s, op, now).expenses|
    requires Posted(Step(s, op, now).expenses[i], u) != Posted(s.expenses[i], u)
    ensures Moves(s, op, s.expenses[i].group, u)
    ensures (op.PushUpdate? && op.update.id == i) || (op.PushDelete? && op.delete.id == i)
  {
  }

  lemma RoomBefore(w: Roles.World, event: Roles.Event, group: GroupId)
    requires Roles.Enabled(w, event) && group in w.groups && w.groups[group].archived
    requires group in Roles.Step(w, event).groups && HasRoom(Roles.Step(w, event).groups[group])
    ensures HasRoom(w.groups[group])
  {
    if Roles.Admins(w.groups[group]) == {} {
      FrozenGroup(w, event, group);
      var after := Roles.Step(w, event).groups[group];
      var u, v :| Roles.IsActive(after, u) && Roles.IsActive(after, v) && u != v;
      assert Roles.IsActive(w.groups[group], u) && Roles.IsActive(w.groups[group], v);
    }
  }

  /** The rows of an archived group were there before, with the same creator and no more open than now. */
  lemma RowBefore(s: Store, op: Operation, now: Time, group: GroupId, i: ExpenseId)
    requires op.WellFormed() && group in s.groups && s.groups[group].archived
    requires i < |Step(s, op, now).expenses| && Step(s, op, now).expenses[i].group == group
    ensures i < |s.expenses|
    ensures var e, after := s.expenses[i], Step(s, op, now).expenses[i];
            && e.group == group && after.createdBy == e.createdBy
            && (!after.deleted ==> !e.deleted) && (!Locked(Step(s, op, now), after) ==> !Locked(s, e))
            && (!after.splitType.ItemizedSplit? ==> !e.splitType.ItemizedSplit?)
  {
    NewRowsAreBetweenActiveMembers(s, op, now);
    assert i < |s.expenses|;
    StepKeepsIdentity(s, op, now, i);
    if s.expenses[i].splitType.ItemizedSplit? {
      ItemizedStep(s, op, now, i);
    }
  }

  lemma EditableBefore(w: Roles.World, event: Roles.Event, group: GroupId, i: ExpenseId)
    requires Roles.Enabled(w, event) && group in w.groups && w.groups[group].archived
    requires group in Roles.Step(w, event).groups && Editable(Roles.Step(w, event), group, i)
    ensures Editable(w, group, i)
    ensures !Roles.Step(w, event).books.expenses[i].splitType.ItemizedSplit? ==>
        !w.books.expenses[i].splitType.ItemizedSplit?
  {
    PostOrSameBooks(w, event, group, 0);
    if event.Post? {
      RowBefore(Roles.StoreOf(w), event.op, event.now, group, i);
    }
    if Roles.Admins(w.groups[group]) == {} {
      FrozenGroup(w, event, group);
    }
  }

  /** In an archived group no expense becomes movable. */
  lemma MovableShrinks(w: Roles.World, event: Roles.Event, group: GroupId, i: ExpenseId)
    requires Roles.Enabled(w, event) && group in w.groups && w.groups[group].archived
    requires group in Roles.Step(w, event).groups && Movable(Roles.Step(w, event), group, i)
    ensures Movable(w, group, i)
  {
    EditableBefore(w, event, group, i);
    var e, after := w.books.expenses[i], Roles.Step(w, event).books.expenses[i];
    if u :| Posted(after, u) != 0 {
      if Posted(e, u) != Posted(after, u) {
        PostOrSameBooks(w, event, group, u);
        PostedChangeMoves(Roles.StoreOf(w), event.op, event.now, i, u);
        var _ := MovesAMovable(w, event.op, group, u);
      }
    } else {
      RoomBefore(w, event, group);
    }
  }

  // ---------- such an expense, so a balance can move ----------

  /** Somebody who may change the expense. */
  ghost predicate MayEdit(w: Roles.World, group: GroupId, i: ExpenseId, a: UserId)
    requires group in w.groups && i < |w.books.expenses|
  {
    Roles.IsActive(w.groups[group], a) && (a in Roles.Admins(w.groups[group]) || a == w.books.expenses[i].createdBy)
  }

  lemma AnEditor(w: Roles.World, group: GroupId, i: ExpenseId) returns (a: UserId)
    requires group in w.groups && Editable(w, group, i)
    ensures MayEdit(w, group, i, a) && (Roles.Admins(w.groups[group]) != {} ==> a in Roles.Admins(w.groups[group]))
  {
    a := w.books.expenses[i].createdBy;
    if Roles.Admins(w.groups[group]) != {} {
      a :| a in Roles.Admins(w.groups[group]);
    }
  }

  lemma DeletingMoves(w: Roles.World, group: GroupId, i: ExpenseId, a: UserId, u: UserId) returns (event: Roles.Event)
    requires group in w.groups && w.groups[group].archived && Editable(w, group, i) && MayEdit(w, group, i, a)
    requires Posted(w.books.expenses[i], u) != 0
    ensures Roles.Enabled(w, event) && NetIn(Roles.Step(w, event), group, u) != NetIn(w, group, u)
  {
    var q := DeleteRequest(group, a, i, None);
    event := Roles.Post(PushDelete(q), 0);
    assert MutationGuard(Roles.StoreOf(w), q.group, q.user, q.id, q.expected).None?;
    DepartedBalanceChangesExactlyWhen(w, event, group, u);
  }

  /** Two members: one pays everything for the other, and the payer's balance moves. */
  lemma RewritingMoves(w: Roles.World, group: GroupId, i: ExpenseId, a: UserId, b: UserId) returns (event: Roles.Event)
    requires Roles.Inv(w) && group in w.groups && w.groups[group].archived && Editable(w, group, i)
        && MayEdit(w, group, i, a)
    requires Roles.IsActive(w.groups[group], b) && a != b
    requires Posted(w.books.expenses[i], a) == 0 && !w.books.expenses[i].splitType.ItemizedSplit?
    ensures Roles.Enabled(w, event) && NetIn(Roles.Step(w, event), group, a) != NetIn(w, group, a)
  {
    var s, e := Roles.StoreOf(w), w.books.expenses[i];
    assert Conserved(s.expenses[i]);
    var shares := [(b, e.total)];
    var q := UpdateRequest(group, a, i, a, e.receipt, e.details,
        e.total, w.groups[group].currency, FixedAmount, shares, None);
    event := Roles.Post(PushUpdate(q), 0);
    SoleShareTable(b, e.total);
    assert shares[..0] == [] && Amounts(shares) == e.total;
    assert MutationGuard(s, q.group, q.user, q.id, q.expected).None?;
    assert UpdatePermitted(s, q);
    DepartedBalanceChangesExactlyWhen(w, event, group, a);
  }

  lemma Newcomer(users: set<UserId>) returns (u: UserId)
    ensures u !in users
  {
    u := 0;
    var rest := users;
    while rest != {}
      invariant rest <= users && forall v | v in users && v !in rest :: v < u
      decreases rest
    {
      var v: UserId :| v in rest;
      rest := rest - {v};
      if v >= u { u := v + 1; }
    }
  }

  /** An admin who is alone registers and adds somebody, and nothing else changes. */
  lemma Company(w: Roles.World, group: GroupId, a: UserId)
    returns (first: Roles.Event, second: Roles.Event, after: Roles.World, b: UserId)
    requires Roles.Inv(w) && group in w.groups && a in Roles.Admins(w.groups[group])
    ensures Roles.Enabled(w, first) && Roles.Enabled(Roles.Step(w, first), second)
    ensures after == Roles.Step(Roles.Step(w, first), second) && after.books == w.books && group in after.groups
    ensures var g := after.groups[group];
            && a != b && Roles.IsActive(g, b) && a in Roles.Admins(g) && g.archived == w.groups[group].archived
  {
    b := Newcomer(w.users.Keys);
    first := Roles.Register(b, 0, true);
    second := Roles.AddMember(group, a, b, Roles.Member, 0);
    var middle := Roles.Step(w, first);
    after := Roles.Step(middle, second);
    assert b !in w.groups[group].members;
    assert Roles.AddRefusal(middle, group, a, b, Roles.Member).None?;
    assert after.groups[group] == Roles.Joined(w.groups[group], b, Roles.Member, 0);
  }

  /** The rest of some run. */
  ghost predicate Continues(worlds: seq<Roles.World>, events: seq<Roles.Event>, w: Roles.World) {
    Roles.IsPath(worlds, events) && worlds[0] == w
  }

  lemma RewritingWithCompany(w: Roles.World, group: GroupId, i: ExpenseId, a: UserId)
    returns (worlds: seq<Roles.World>, events: seq<Roles.Event>)
    requires Roles.Inv(w) && group in w.groups && w.groups[group].archived && Editable(w, group, i)
        && a in Roles.Admins(w.groups[group])
    requires Posted(w.books.expenses[i], a) == 0 && !w.books.expenses[i].splitType.ItemizedSplit?
    ensures Continues(worlds, events, w) && NetIn(worlds[|events|], group, a) != NetIn(w, group, a)
  {
    var first, second, after, b := Company(w, group, a);
    var middle := Roles.Step(w, first);
    Roles.StepKeepsInv(w, first);
    Roles.StepKeepsInv(middle, second);
    SameBooks(w, after, group, i, a);
    var third := RewritingMoves(after, group, i, a, b);
    worlds, events := PathOfThree(w, first, second, third);
  }

  lemma SameBooks(w: Roles.World, after: Roles.World, group: GroupId, i: ExpenseId, a: UserId)
    requires group in w.groups && group in after.groups && after.books == w.books
    requires Editable(w, group, i) && a in Roles.Admins(after.groups[group])
    ensures Editable(after, group, i) && MayEdit(after, group, i, a) && NetIn(after, group, a) == NetIn(w, group, a)
  {
  }

  lemma PathOfThree(w: Roles.World, first: Roles.Event, second: Roles.Event, third: Roles.Event)
    returns (worlds: seq<Roles.World>, events: seq<Roles.Event>)
    requires Roles.Enabled(w, first) && Roles.Enabled(Roles.Step(w, first), second)
    requires Roles.Enabled(Roles.Step(Roles.Step(w, first), second), third)
    ensures Continues(worlds, events, w) && |events| == 3
    ensures worlds[3] == Roles.Step(Roles.Step(Roles.Step(w, first), second), third)
  {
    var middle := Roles.Step(w, first);
    var after := Roles.Step(middle, second);
    worlds, events := [w, middle, after, Roles.Step(after, third)], [first, second, third];
  }

  lemma MovableMoves(w: Roles.World, group: GroupId, i: ExpenseId)
    returns (worlds: seq<Roles.World>, events: seq<Roles.Event>, u: UserId)
    requires Roles.Inv(w) && group in w.groups && w.groups[group].archived && Movable(w, group, i)
    ensures Continues(worlds, events, w) && NetIn(worlds[|events|], group, u) != NetIn(w, group, u)
  {
    var a := AnEditor(w, group, i);
    var g, e := w.groups[group], w.books.expenses[i];
    if v :| Posted(e, v) != 0 {
      u := v;
      var event := DeletingMoves(w, group, i, a, u);
      worlds, events := Roles.PathOfOne(w, event);
    } else if b :| Roles.IsActive(g, b) && b != a {
      u := a;
      var event := RewritingMoves(w, group, i, a, b);
      worlds, events := Roles.PathOfOne(w, event);
    } else {
      u := a;
      worlds, events := RewritingWithCompany(w, group, i, a);
    }
  }

  lemma {:induction false} StillPath(worlds: seq<Roles.World>,
      events: seq<Roles.Event>, w: Roles.World, group: GroupId, n: nat)
    requires Roles.Inv(w) && group in w.groups && w.groups[group].archived && Continues(worlds, events, w)
        && n < |worlds|
    requires forall i :: !Movable(w, group, i)
    ensures Roles.Inv(worlds[n]) && group in worlds[n].groups && worlds[n].groups[group].archived
    ensures forall i :: !Movable(worlds[n], group, i)
    ensures forall u :: NetIn(worlds[n], group, u) == NetIn(w, group, u)
  {
    if n > 0 {
      StillPath(worlds, events, w, group, n - 1);
      var before, event := worlds[n - 1], events[n - 1];
      assert Roles.Enabled(before, event) && worlds[n - 1 + 1] == Roles.Step(before, event);
      Roles.StepKeepsInv(before, event);
      Roles.ArchivedOnlyBy(before, event, group);
      StillStep(before, event, group);
    }
  }

  lemma StillStep(w: Roles.World, event: Roles.Event, group: GroupId)
    requires Roles.Enabled(w, event) && group in w.groups && w.groups[group].archived
        && group in Roles.Step(w, event).groups
    requires forall i :: !Movable(w, group, i)
    ensures forall i :: !Movable(Roles.Step(w, event), group, i)
    ensures forall u :: NetIn(Roles.Step(w, event), group, u) == NetIn(w, group, u)
  {
    forall i ensures !Movable(Roles.Step(w, event), group, i) {
      if Movable(Roles.Step(w, event), group, i) { MovableShrinks(w, event, group, i); }
    }
    forall u ensures NetIn(Roles.Step(w, event), group, u) == NetIn(w, group, u) {
      DepartedBalanceChangesExactlyWhen(w, event, group, u);
      if NetIn(Roles.Step(w, event), group, u) != NetIn(w, group, u) {
        var _ := MovesAMovable(w, event.op, group, u);
      }
    }
  }

  /**
   * Over all runs: some balance of an archived group can still move exactly when a live,
   * unlocked expense of it, which its active creator or an active admin may change, either
   * posts something to somebody, or is not itemized while there is an admin or a second
   * active member.
   */
  lemma ArchivedBalanceCanMoveExactlyWhen(w: Roles.World, group: GroupId)
    requires Roles.Inv(w) && group in w.groups && w.groups[group].archived
    ensures (exists worlds, events, u ::
        Continues(worlds, events, w) && NetIn(worlds[|events|], group, u) != NetIn(w, group, u))
            <==> exists i :: Movable(w, group, i)
  {
    if worlds, events, u :| Continues(worlds, events, w) && NetIn(worlds[|events|], group, u) != NetIn(w, group, u) {
      if forall i :: !Movable(w, group, i) {
        StillPath(worlds, events, w, group, |events|);
      }
    }
    if i: nat :| Movable(w, group, i) {
      var worlds, events, u := MovableMoves(w, group, i);
    }
  }

  // ---------- a settled archived group that does not stay settled ----------

  /** A meal the owner paid for alone. */
  function Snack(): Expense {
    Expense(1, 10, 10, 6, 949, FixedAmount, map[10 := 6], None, 0, 3, 3, false)
  }

  lemma SnackPostsNothing(w: Roles.World, u: UserId)
    requires w.books == Roles.Books([Snack()], [], {})
    ensures Posted(Snack(), u) == 0 && NetIn(w, 1, u) == 0
  {
    LastExpense([], Snack(), 1, u);
    assert [] + [Snack()] == [Snack()];
  }

  lemma SnackIsReassigned(w: Roles.World, event: Roles.Event)
    requires 1 in w.groups && w.groups[1].currency == 949 && w.books == Roles.Books([Snack()], [], {})
    requires Roles.Holds(w.groups[1], 10, Roles.Owner) && Roles.IsActive(w.groups[1], 12)
    requires event ==
        Roles.Post(PushUpdate(UpdateRequest(1, 10, 0, 10, None, 0, 6, 949, FixedAmount, [(12, 6)], None)), 5)
    ensures Roles.Enabled(w, event) && NetIn(Roles.Step(w, event), 1, 12) == -6
  {
    var s, q := Roles.StoreOf(w), event.op.update;
    SoleShareTable(12, 6);
    assert q.shares[..0] == [] && Amounts(q.shares) == 6;
    assert MutationGuard(s, q.group, q.user, q.id, q.expected).None?;
    var after := Snack().(shares := map[12 := 6], updatedAt := 5);
    assert UpdateResult(s, q, 5) == Success(after);
    ExpenseNetPut(s.expenses, 0, after, 1, 12);
    SnackPostsNothing(w, 12);
    PostOrSameBooks(w, event, 1, 12);
  }

  /**
   * On a reachable state: nobody owes anything in an archived group and no expense posts
   * anything to anybody, but an accepted update puts a member at minus six.
   */
  lemma ArchivedUpdateExample() returns (closed: Roles.World, event: Roles.Event)
    ensures Roles.Reachable(closed) && 1 in closed.groups && closed.groups[1].archived
    ensures forall u :: NetIn(closed, 1, u) == 0
    ensures forall i, u | 0 <= i < |closed.books.expenses| :: Posted(closed.books.expenses[i], u) == 0
    ensures Roles.Enabled(closed, event) && NetIn(Roles.Step(closed, event), 1, 12) == -6
  {
    var start := NewHousehold();
    MealIsPosted(start, 10, 10, 3, Snack());
    assert start.books.expenses + [Snack()] == [Snack()];
    var w := start.(books := Roles.Books([Snack()], [], {}));
    forall u ensures Net(Roles.StoreOf(w), 1, u) == 0 {
      SnackPostsNothing(w, u);
    }
    assert !Roles.Unsettled(w, 1);
    assert Roles.ArchiveRefusal(w, 1, 10).None?;
    closed := w.(groups := map[1 := Household().(archived := true)]);
    Roles.ReachableStep(w, Roles.Archive(1, 10), closed);
    forall u ensures Posted(Snack(), u) == 0 && NetIn(closed, 1, u) == 0 {
      SnackPostsNothing(closed, u);
    }
    event := Roles.Post(PushUpdate(UpdateRequest(1, 10, 0, 10, None, 0, 6, 949, FixedAmount, [(12, 6)], None)), 5);
    SnackIsReassigned(closed, event);
  }
}
