/**
 * Pairwise balances between friends.  A direct group is assigned to the first other active
 * member in joining order, by each user's own request; so what two friends are shown is
 * opposite only under a condition on the direct groups, which the theorems give exactly.
 */
module Friends {
  import opened Basics
  import opened Sums
  import opened Ledger
  import opened Balances
  import Roles

  /** What an expense says `friend` owes `actor`: only payer and sharer face each other. */
  function PairPosted(e: Expense, actor: UserId, friend: UserId): int {
    if e.deleted then 0
    else if e.payer == actor then At(e.shares, friend)
    else if e.payer == friend then -At(e.shares, actor)
    else 0
  }

  function PairMoved(t: Settlement, actor: UserId, friend: UserId): int {
    if t.payer == actor && t.payee == friend then t.amount
    else if t.payer == friend && t.payee == actor then -t.amount
    else 0
  }

  function PairExpenses(es: seq<Expense>, groups: set<GroupId>, actor: UserId, friend: UserId): int {
    if es == [] then 0 else
      var last := es[|es| - 1];
      PairExpenses(es[..|es| - 1], groups, actor, friend)
      + if last.group in groups then PairPosted(last, actor, friend) else 0
  }

  function PairSettlements(ts: seq<Settlement>, groups: set<GroupId>, actor: UserId, friend: UserId): int {
    if ts == [] then 0 else
      var last := ts[|ts| - 1];
      PairSettlements(ts[..|ts| - 1], groups, actor, friend)
      + if last.group in groups then PairMoved(last, actor, friend) else 0
  }

  function PairNet(s: Store, groups: set<GroupId>, actor: UserId, friend: UserId): int {
    PairExpenses(s.expenses, groups, actor, friend) + PairSettlements(s.settlements, groups, actor, friend)
  }

  // ---------- which groups count ----------

  /**
   * The memberships of a group as they are loaded: in joining order, members who joined at
   * the same time in any order.
   */
  ghost predicate InJoiningOrder(g: Roles.Group, list: seq<UserId>) {
    && (forall u :: u in list <==> u in g.members)
    && (forall i, j | 0 <= i < j < |list| :: list[i] != list[j])
    && (forall i, j | 0 <= i < j < |list| :: g.members[list[i]].joinedAt <= g.members[list[j]].joinedAt)
  }

  type Listing = map<GroupId, seq<UserId>>

  ghost predicate IsListing(w: Roles.World, listing: Listing) {
    forall id | id in w.groups :: id in listing && InJoiningOrder(w.groups[id], listing[id])
  }

  /** The first other active member. */
  function Counterpart(g: Roles.Group, list: seq<UserId>, actor: UserId): Option<UserId> {
    if list == [] then None
    else if list[0] != actor && Roles.IsActive(g, list[0]) then Some(list[0])
    else Counterpart(g, list[1..], actor)
  }

  predicate IsDirectGroupOf(w: Roles.World, actor: UserId, id: GroupId) {
    id in w.groups && w.groups[id].direct && !w.groups[id].archived && Roles.IsActive(w.groups[id], actor)
  }

  /** Every direct group of the user counts for its counterpart. */
  function AssignedGroups(w: Roles.World, listing: Listing, actor: UserId, friend: UserId): set<GroupId> {
    set id | id in w.groups && id in listing && IsDirectGroupOf(w, actor, id)
             && Counterpart(w.groups[id], listing[id], actor) == Some(friend)
  }

  /** Every ordinary group counts in which both are active. */
  function SharedGroups(w: Roles.World, actor: UserId, friend: UserId): set<GroupId> {
    set id | id in w.groups && !w.groups[id].direct && !w.groups[id].archived
             && Roles.IsActive(w.groups[id], actor) && Roles.IsActive(w.groups[id], friend)
  }

  function RelevantGroups(w: Roles.World, listing: Listing, actor: UserId, friend: UserId): set<GroupId> {
    AssignedGroups(w, listing, actor, friend) + SharedGroups(w, actor, friend)
  }

  function Amount(w: Roles.World, listing: Listing, actor: UserId, friend: UserId): int {
    PairNet(Roles.StoreOf(w), RelevantGroups(w, listing, actor, friend), actor, friend)
  }

  /** What `actor` is shown for `friend`: nothing without a direct group that has the friend as counterpart. */
  function Shown(w: Roles.World, listing: Listing, actor: UserId, friend: UserId): Option<int> {
    if AssignedGroups(w, listing, actor, friend) == {} then None else Some(Amount(w, listing, actor, friend))
  }

  // ---------- what counts, group by group ----------

  /** Everybody listed before this other active member is the user or has left. */
  ghost predicate ComesFirst(g: Roles.Group, list: seq<UserId>, actor: UserId, friend: UserId) {
    && friend != actor && Roles.IsActive(g, friend)
    && exists k :: 0 <= k < |list| && list[k] == friend
                   && forall j | 0 <= j < k :: list[j] == actor || !Roles.IsActive(g, list[j])
  }

  lemma {:induction false} CounterpartExactlyWhen(g: Roles.Group, list: seq<UserId>, actor: UserId, friend: UserId)
    ensures Counterpart(g, list, actor) == Some(friend) <==> ComesFirst(g, list, actor, friend)
    decreases |list|
  {
    if list != [] && (list[0] == actor || !Roles.IsActive(g, list[0])) {
      var rest := list[1..];
      CounterpartExactlyWhen(g, rest, actor, friend);
      if ComesFirst(g, rest, actor, friend) {
        var k :| 0 <= k < |rest| && rest[k] == friend
                 && forall j | 0 <= j < k :: rest[j] == actor || !Roles.IsActive(g, rest[j]);
        assert list[k + 1] == friend;
        assert forall j | 0 <= j < k + 1 :: list[j] == if j == 0 then list[0] else rest[j - 1];
      }
      if ComesFirst(g, list, actor, friend) {
        var k :| 0 <= k < |list| && list[k] == friend
                 && forall j | 0 <= j < k :: list[j] == actor || !Roles.IsActive(g, list[j]);
        assert rest[k - 1] == friend;
        assert forall j | 0 <= j < k - 1 :: rest[j] == list[j + 1];
      }
    }
  }

  /** The counterpart joined no later than any other active member. */
  lemma CounterpartJoinedFirst(g: Roles.Group, list: seq<UserId>, actor: UserId, friend: UserId, other: UserId)
    requires InJoiningOrder(g, list) && Counterpart(g, list, actor) == Some(friend)
    requires other != actor && Roles.IsActive(g, other)
    ensures friend in g.members && g.members[friend].joinedAt <= g.members[other].joinedAt
  {
    CounterpartExactlyWhen(g, list, actor, friend);
    var k :| 0 <= k < |list| && list[k] == friend
             && forall j | 0 <= j < k :: list[j] == actor || !Roles.IsActive(g, list[j]);
    var i :| 0 <= i < |list| && list[i] == other;
  }

  /** The groups in which the two count for the user. */
  ghost predicate Counts(w: Roles.World, listing: Listing, actor: UserId, friend: UserId, id: GroupId) {
    && id in w.groups && id in listing && !w.groups[id].archived
    && Roles.IsActive(w.groups[id], actor) && Roles.IsActive(w.groups[id], friend)
    && (w.groups[id].direct ==> ComesFirst(w.groups[id], listing[id], actor, friend))
  }

  /**
   * A user is shown a friend exactly when some unarchived direct group of theirs has the friend
   * first among the other active members.  The amount is over that and every other unarchived
   * group in which both are active, except the direct groups in which somebody else comes first.
   */
  lemma ShownExactlyWhen(w: Roles.World, listing: Listing, actor: UserId, friend: UserId, amount: int,
      groups: set<GroupId>)
    requires IsListing(w, listing) && forall id :: id in groups <==> Counts(w, listing, actor, friend, id)
    ensures Shown(w, listing, actor, friend) == Some(amount) <==>
              && amount == PairNet(Roles.StoreOf(w), groups, actor, friend)
              && exists id :: Counts(w, listing, actor, friend, id) && w.groups[id].direct
  {
    forall id: GroupId
      ensures id in AssignedGroups(w, listing, actor, friend) <==>
              Counts(w, listing, actor, friend, id) && w.groups[id].direct
    {
      if id in w.groups { CounterpartExactlyWhen(w.groups[id], listing[id], actor, friend); }
    }
    assert RelevantGroups(w, listing, actor, friend) == groups;
    assert AssignedGroups(w, listing, actor, friend) == {} <==>
           !exists id :: Counts(w, listing, actor, friend, id) && w.groups[id].direct;
  }

  // ---------- theorems ----------

  lemma {:induction false} PairExpensesAntisymmetric(es: seq<Expense>, groups: set<GroupId>, a: UserId, b: UserId)
    requires a != b
    ensures PairExpenses(es, groups, a, b) == -PairExpenses(es, groups, b, a)
  {
    if es != [] {
      PairExpensesAntisymmetric(es[..|es| - 1], groups, a, b);
    }
  }

  lemma {:induction false} PairSettlementsAntisymmetric(ts: seq<Settlement>, groups: set<GroupId>, a: UserId, b: UserId)
    requires a != b
    ensures PairSettlements(ts, groups, a, b) == -PairSettlements(ts, groups, b, a)
  {
    if ts != [] {
      PairSettlementsAntisymmetric(ts[..|ts| - 1], groups, a, b);
    }
  }

  /** Over the same groups two users see the same amount with opposite signs. */
  lemma PairNetAntisymmetric(s: Store, groups: set<GroupId>, a: UserId, b: UserId)
    requires a != b
    ensures PairNet(s, groups, a, b) == -PairNet(s, groups, b, a)
  {
    PairExpensesAntisymmetric(s.expenses, groups, a, b);
    PairSettlementsAntisymmetric(s.settlements, groups, a, b);
  }

  lemma {:induction false} PairExpensesAdd(es: seq<Expense>, g: set<GroupId>, h: set<GroupId>, a: UserId, b: UserId)
    requires g !! h
    ensures PairExpenses(es, g + h, a, b) == PairExpenses(es, g, a, b) + PairExpenses(es, h, a, b)
  {
    if es != [] {
      PairExpensesAdd(es[..|es| - 1], g, h, a, b);
    }
  }

  lemma {:induction false} PairSettlementsAdd(ts: seq<Settlement>,
      g: set<GroupId>, h: set<GroupId>, a: UserId, b: UserId)
    requires g !! h
    ensures PairSettlements(ts, g + h, a, b) == PairSettlements(ts, g, a, b) + PairSettlements(ts, h, a, b)
  {
    if ts != [] {
      PairSettlementsAdd(ts[..|ts| - 1], g, h, a, b);
    }
  }

  lemma PairNetAdds(s: Store, g: set<GroupId>, h: set<GroupId>, a: UserId, b: UserId)
    requires g !! h
    ensures PairNet(s, g + h, a, b) == PairNet(s, g, a, b) + PairNet(s, h, a, b)
  {
    PairExpensesAdd(s.expenses, g, h, a, b);
    PairSettlementsAdd(s.settlements, g, h, a, b);
  }

  /** What the two are shown for each other; `here` and `there` are the memberships as the two requests load them. */
  ghost predicate Opposite(w: Roles.World, here: Listing, there: Listing, a: UserId, b: UserId) {
    match (Shown(w, here, a, b), Shown(w, there, b, a))
    case (None, None) => true
    case (Some(mine), Some(yours)) => mine == -yours
    case _ => false
  }

  /**
   * Two users are shown opposite amounts, or neither is shown the other, exactly when both or
   * neither have a direct group assigned to the other and the direct groups that count for
   * one of them only balance each other.
   */
  lemma OppositeExactlyWhen(w: Roles.World, here: Listing, there: Listing, a: UserId, b: UserId)
    requires a != b
    ensures var mine, yours := AssignedGroups(w, here, a, b), AssignedGroups(w, there, b, a);
            Opposite(w, here, there, a, b) <==>
              && (mine == {} <==> yours == {})
              && PairNet(Roles.StoreOf(w), mine - yours, a, b) == PairNet(Roles.StoreOf(w), yours - mine, a, b)
  {
    var s := Roles.StoreOf(w);
    var mine, yours, shared := AssignedGroups(w, here, a, b), AssignedGroups(w, there, b, a), SharedGroups(w, a, b);
    assert shared == SharedGroups(w, b, a);
    var both := mine * yours + shared;
    assert RelevantGroups(w, here, a, b) == (mine - yours) + both;
    assert RelevantGroups(w, there, b, a) == (yours - mine) + both;
    PairNetAdds(s, mine - yours, both, a, b);
    PairNetAdds(s, yours - mine, both, a, b);
    PairNetAntisymmetric(s, (yours - mine) + both, b, a);
  }

  ghost predicate SoundBooks(w: Roles.World, books: Roles.Books) {
    Sound(Roles.StoreOf(w.(books := books)))
  }

  /**
   * The condition on memberships: whatever the books are, the two are shown opposite amounts,
   * or neither the other, exactly when every direct group whose counterpart is the friend for
   * one is so for the other as well.
   */
  lemma AlwaysOppositeExactlyWhen(w: Roles.World, here: Listing, there: Listing, a: UserId, b: UserId)
    requires a != b
    ensures (forall books | SoundBooks(w, books) :: Opposite(w.(books := books), here, there, a, b))
            <==> AssignedGroups(w, here, a, b) == AssignedGroups(w, there, b, a)
  {
    var mine, yours := AssignedGroups(w, here, a, b), AssignedGroups(w, there, b, a);
    if mine == yours {
      forall books | SoundBooks(w, books) ensures Opposite(w.(books := books), here, there, a, b) {
        SameAssignment(w, books, here, a, b);
        SameAssignment(w, books, there, b, a);
        OppositeExactlyWhen(w.(books := books), here, there, a, b);
      }
    } else {
      var g: GroupId :| g in (mine - yours) + (yours - mine);
      var books := Roles.Books([], [Settlement(g, a, b, 1, 0)], {});
      OnePayment(w, g, a, b);
      SameAssignment(w, books, here, a, b);
      SameAssignment(w, books, there, b, a);
      OppositeExactlyWhen(w.(books := books), here, there, a, b);
      PaymentCounts(Roles.StoreOf(w.(books := books)), mine - yours, g, a, b);
      PaymentCounts(Roles.StoreOf(w.(books := books)), yours - mine, g, a, b);
    }
  }

  lemma SameAssignment(w: Roles.World, books: Roles.Books, listing: Listing, a: UserId, b: UserId)
    ensures AssignedGroups(w.(books := books), listing, a, b) == AssignedGroups(w, listing, a, b)
  {
  }

  lemma OnePayment(w: Roles.World, g: GroupId, a: UserId, b: UserId)
    requires g in w.groups && a != b
    ensures SoundBooks(w, Roles.Books([], [Settlement(g, a, b, 1, 0)], {}))
  {
  }

  lemma PaymentCounts(s: Store, groups: set<GroupId>, g: GroupId, a: UserId, b: UserId)
    requires s.expenses == [] && s.settlements == [Settlement(g, a, b, 1, 0)]
    ensures PairNet(s, groups, a, b) == if g in groups then 1 else 0
  {
    assert s.settlements[..|s.settlements| - 1] == [];
    assert PairExpenses(s.expenses, groups, a, b) == 0 && PairSettlements([], groups, a, b) == 0;
  }

  /** In particular: direct groups of the two in which nobody else is active are assigned alike. */
  lemma PairsAreAssignedAlike(w: Roles.World, here: Listing, there: Listing, a: UserId, b: UserId)
    requires a != b && IsListing(w, here) && IsListing(w, there)
    requires forall id | id in w.groups && w.groups[id].direct && !w.groups[id].archived
                         && Roles.IsActive(w.groups[id], a) && Roles.IsActive(w.groups[id], b) ::
               Roles.Actives(w.groups[id]) == {a, b}
    ensures AssignedGroups(w, here, a, b) == AssignedGroups(w, there, b, a)
  {
    forall id ensures id in AssignedGroups(w, here, a, b) <==> id in AssignedGroups(w, there, b, a) {
      if id in w.groups {
        var g := w.groups[id];
        CounterpartIsOther(g, here[id], a);
        CounterpartIsOther(g, there[id], b);
        if w.groups[id].direct && !w.groups[id].archived && Roles.IsActive(g, a) && Roles.IsActive(g, b) {
          assert forall u :: u in Roles.Actives(g) <==> Roles.IsActive(g, u);
        }
      }
    }
  }

  /** The counterpart is an active member other than the user, and there is one if such a member exists. */
  lemma {:induction false} CounterpartIsOther(g: Roles.Group, list: seq<UserId>, actor: UserId)
    ensures var c := Counterpart(g, list, actor);
            && (c.Some? ==> c.value in list && c.value != actor && Roles.IsActive(g, c.value))
            && (c.None? ==> forall u | u in list :: u == actor || !Roles.IsActive(g, u))
  {
    if list != [] {
      CounterpartIsOther(g, list[1..], actor);
    }
  }

  // ---------- friends who are not shown opposite amounts ----------

  function Pair(): Roles.Group {
    Roles.Group(true, false, 949,
        map[10 := Roles.Membership(Roles.Owner, 1, false), 12 := Roles.Membership(Roles.Member, 1, false)])
  }

  function Duo(): Roles.Group {
    Roles.Group(true, false, 949,
        map[10 := Roles.Membership(Roles.Owner, 2, false), 11 := Roles.Membership(Roles.Member, 2, false)])
  }

  function Trio(): Roles.Group {
    Duo().(members := Duo().members[12 := Roles.Membership(Roles.Member, 3, false)])
  }

  function Dinner(): Expense {
    Expense(1, 10, 10, 6, 949, FixedAmount, map[12 := 6], None, 0, 4, 4, false)
  }

  /** User 10 becomes friends with 12, then with 11, and adds 12 to the second direct group. */
  lemma FirstFriendship(w: Roles.World)
    requires {10, 11, 12} <= w.users.Keys && w.groups == map[]
    ensures Roles.AfterDirect(w, 2, 10, 12, 1) == w.(groups := map[2 := Pair()])
  {
    assert Roles.AfterDirect(w, 2, 10, 12, 1).groups[2].members == Pair().members;
  }

  lemma SecondFriendship(w: Roles.World)
    requires {10, 11, 12} <= w.users.Keys && w.groups == map[2 := Pair()]
    ensures Roles.AfterDirect(w, 1, 10, 11, 2) == w.(groups := map[1 := Duo(), 2 := Pair()])
  {
    assert !Roles.IsActive(Pair(), 11);
    assert Roles.AfterDirect(w, 1, 10, 11, 2).groups[1].members == Duo().members;
  }

  lemma ThirdMember(w: Roles.World)
    requires {10, 11, 12} <= w.users.Keys && w.groups == map[1 := Duo(), 2 := Pair()]
    ensures Roles.AfterAdd(w, 1, 10, 12, Roles.Member, 3) == w.(groups := map[1 := Trio(), 2 := Pair()])
  {
    assert Roles.AddRefusal(w, 1, 10, 12, Roles.Member).None?;
  }

  /** In the group of three user 10 pays for 12. */
  lemma DinnerIsPosted(w: Roles.World, q: FastRequest)
    requires w.groups == map[1 := Trio(), 2 := Pair()] && w.books == Roles.Books([], [], {})
    requires q == FastRequest(1, 10, 10, None, false, 0, 6, 949, FixedAmount, [(12, 6)])
    ensures q.WellFormed() && Roles.AfterPost(w, FastCreate(q), 4) == w.(books := Roles.Books([Dinner()], [], {}))
  {
    PaidForOther(Roles.StoreOf(w), q, 12, 4);
  }

  lemma ThreeUsers() returns (w: Roles.World)
    ensures w.users.Keys == {10, 11, 12} && w.groups == map[] && w.books == Roles.Books([], [], {})
        && Roles.Reachable(w)
  {
    var two := Roles.RegisterTwo(10, 11);
    w := two.(users := two.users[12 := Roles.User(12, true)]);
    Roles.ReachableStep(two, Roles.Register(12, 12, true), w);
  }

  lemma ThreeFriends() returns (w: Roles.World)
    ensures w.groups == map[1 := Trio(), 2 := Pair()] && w.books == Roles.Books([], [], {}) && Roles.Reachable(w)
  {
    var start := ThreeUsers();
    var pair, duo := start.(groups := map[2 := Pair()]), start.(groups := map[1 := Duo(), 2 := Pair()]);
    w := start.(groups := map[1 := Trio(), 2 := Pair()]);
    FirstFriendship(start);
    Roles.ReachableStep(start, Roles.CreateDirect(2, 10, 12, 1), pair);
    SecondFriendship(pair);
    Roles.ReachableStep(pair, Roles.CreateDirect(1, 10, 11, 2), duo);
    ThirdMember(duo);
    Roles.ReachableStep(duo, Roles.AddMember(1, 10, 12, Roles.Member, 3), w);
  }

  lemma DinnerIsReachable() returns (w: Roles.World)
    ensures w.groups == map[1 := Trio(), 2 := Pair()] && w.books == Roles.Books([Dinner()], [], {})
        && Roles.Reachable(w)
  {
    var before := ThreeFriends();
    var q := FastRequest(1, 10, 10, None, false, 0, 6, 949, FixedAmount, [(12, 6)]);
    DinnerIsPosted(before, q);
    w := before.(books := Roles.Books([Dinner()], [], {}));
    Roles.ReachableStep(before, Roles.Post(FastCreate(q), 4), w);
  }

  /**
   * On a reachable state two friends are not shown opposite amounts: the direct group of
   * three counts for 10 when 12 looks, but for 11 when 10 looks.
   */
  lemma FriendsSeeDifferentAmounts() returns (w: Roles.World, listing: Listing)
    ensures Roles.Reachable(w) && IsListing(w, listing)
    ensures AssignedGroups(w, listing, 10, 12) == {2} && AssignedGroups(w, listing, 12, 10) == {1, 2}
    ensures Shown(w, listing, 10, 12) == Some(0) && Shown(w, listing, 12, 10) == Some(-6)
  {
    w := DinnerIsReachable();
    listing := map[1 := [10, 11, 12], 2 := [10, 12]];
    CounterpartsInExample(listing);
    AmountsInExample(w, listing);
  }

  lemma AmountsInExample(w: Roles.World, listing: Listing)
    requires w.groups == map[1 := Trio(), 2 := Pair()] && w.books == Roles.Books([Dinner()], [], {})
    requires listing == map[1 := [10, 11, 12], 2 := [10, 12]]
    ensures AssignedGroups(w, listing, 10, 12) == {2} && AssignedGroups(w, listing, 12, 10) == {1, 2}
    ensures Shown(w, listing, 10, 12) == Some(0) && Shown(w, listing, 12, 10) == Some(-6)
  {
    AssignedInExample(w, listing);
    DinnerShown(Roles.StoreOf(w));
  }

  lemma AssignedInExample(w: Roles.World, listing: Listing)
    requires w.groups == map[1 := Trio(), 2 := Pair()] && listing == map[1 := [10, 11, 12], 2 := [10, 12]]
    ensures AssignedGroups(w, listing, 10, 12) == {2} && AssignedGroups(w, listing, 12, 10) == {1, 2}
    ensures RelevantGroups(w, listing, 10, 12) == {2} && RelevantGroups(w, listing, 12, 10) == {1, 2}
  {
    CounterpartsInExample(listing);
    TwoDirectGroups(w, listing, Trio(), Pair(), 10, 12);
    TwoDirectGroups(w, listing, Trio(), Pair(), 12, 10);
  }

  lemma TwoDirectGroups(w: Roles.World, listing: Listing, g: Roles.Group, h: Roles.Group, actor: UserId, friend: UserId)
    requires w.groups == map[1 := g, 2 := h] && listing.Keys == {1, 2}
    requires g.direct && h.direct && !g.archived && !h.archived && Roles.IsActive(g, actor) && Roles.IsActive(h, actor)
    ensures AssignedGroups(w, listing, actor, friend)
         == (if Counterpart(g, listing[1], actor) == Some(friend) then {1} else {})
          + (if Counterpart(h, listing[2], actor) == Some(friend) then {2} else {})
    ensures RelevantGroups(w, listing, actor, friend) == AssignedGroups(w, listing, actor, friend)
  {
    assert SharedGroups(w, actor, friend) == {};
  }

  lemma DinnerShown(s: Store)
    requires s.expenses == [Dinner()] && s.settlements == []
    ensures PairNet(s, {2}, 10, 12) == 0 && PairNet(s, {1, 2}, 12, 10) == -6
  {
    assert s.expenses[..|s.expenses| - 1] == [];
    assert PairExpenses([], {2}, 10, 12) == 0 && PairExpenses([], {1, 2}, 12, 10) == 0;
  }

  lemma CounterpartsInExample(listing: Listing)
    requires listing == map[1 := [10, 11, 12], 2 := [10, 12]]
    ensures InJoiningOrder(Trio(), listing[1]) && InJoiningOrder(Pair(), listing[2])
    ensures Counterpart(Trio(), listing[1], 10) == Some(11) && Counterpart(Trio(), listing[1], 12) == Some(10)
    ensures Counterpart(Pair(), listing[2], 10) == Some(12) && Counterpart(Pair(), listing[2], 12) == Some(10)
  {
    SecondForFirst(Trio(), listing[1]);
    FirstForOthers(Trio(), listing[1], 12);
    SecondForFirst(Pair(), listing[2]);
    FirstForOthers(Pair(), listing[2], 12);
  }

  lemma SecondForFirst(g: Roles.Group, list: seq<UserId>)
    requires |list| >= 2 && list[0] != list[1] && Roles.IsActive(g, list[1])
    ensures Counterpart(g, list, list[0]) == Some(list[1])
  {
    assert list[1..][0] == list[1];
  }

  lemma FirstForOthers(g: Roles.Group, list: seq<UserId>, actor: UserId)
    requires list != [] && actor != list[0] && Roles.IsActive(g, list[0])
    ensures Counterpart(g, list, actor) == Some(list[0])
  {
  }

  ghost function PairColumn(s: Store, g: GroupId, actor: UserId, others: set<UserId>): map<UserId, int> {
    map f: UserId | f in others :: PairNet(s, {g}, actor, f)
  }

  ghost function PairExpenseColumn(es: seq<Expense>, g: GroupId, actor: UserId, others: set<UserId>): map<UserId, int> {
    map f: UserId | f in others :: PairExpenses(es, {g}, actor, f)
  }

  ghost function PairSettlementColumn(ts: seq<Settlement>, g: GroupId, actor: UserId, others: set<UserId>):
      map<UserId, int> {
    map f: UserId | f in others :: PairSettlements(ts, {g}, actor, f)
  }

  lemma PairPostedColumn(e: Expense, actor: UserId, others: set<UserId>)
    requires Conserved(e) && !e.deleted && actor !in others && {e.payer} + e.shares.Keys <= others + {actor}
    ensures Sum(map f: UserId | f in others :: PairPosted(e, actor, f)) == Posted(e, actor)
  {
    var column: map<UserId, int> := map f: UserId | f in others :: PairPosted(e, actor, f);
    if e.payer == actor {
      SumSameReads(e.shares - {actor}, column);
      if actor in e.shares { SumAt(e.shares, actor); } else { assert e.shares - {actor} == e.shares; }
    } else {
      PointSum(others, e.payer, -At(e.shares, actor));
      assert column == map f: UserId | f in others :: if f == e.payer then -At(e.shares, actor) else 0;
    }
  }

  lemma PairMovedColumn(t: Settlement, actor: UserId, others: set<UserId>)
    requires t.payer != t.payee && actor !in others && {t.payer, t.payee} <= others + {actor}
    ensures Sum(map f: UserId | f in others :: PairMoved(t, actor, f)) == Moved(t, actor)
  {
    var column: map<UserId, int> := map f: UserId | f in others :: PairMoved(t, actor, f);
    if t.payer == actor {
      PointSum(others, t.payee, t.amount);
      assert column == map f: UserId | f in others :: if f == t.payee then t.amount else 0;
    } else if t.payee == actor {
      PointSum(others, t.payer, -t.amount);
      assert column == map f: UserId | f in others :: if f == t.payer then -t.amount else 0;
    } else {
      SumZeros(column);
    }
  }

  lemma {:induction false} PairExpensesColumn(es: seq<Expense>, g: GroupId, actor: UserId, others: set<UserId>)
    requires actor !in others && forall e | e in es :: Conserved(e)
    requires forall e | e in es && e.group == g && !e.deleted :: {e.payer} + e.shares.Keys <= others + {actor}
    ensures Sum(PairExpenseColumn(es, g, actor, others)) == ExpenseNet(es, g, actor)
  {
    var column: map<UserId, int> := PairExpenseColumn(es, g, actor, others);
    if es == [] {
      SumZeros(column);
    } else {
      var rest, last := es[..|es| - 1], es[|es| - 1];
      assert last in es;
      PairExpensesColumn(rest, g, actor, others);
      var change: map<UserId, int> :=
          map f: UserId | f in others :: if last.group == g then PairPosted(last, actor, f) else 0;
      if last.group == g && !last.deleted {
        PairPostedColumn(last, actor, others);
        assert change == map f: UserId | f in others :: PairPosted(last, actor, f);
      } else {
        SumZeros(change);
      }
      SumOfSums(PairExpenseColumn(rest, g, actor, others), change, column);
    }
  }

  lemma {:induction false} PairSettlementsColumn(ts: seq<Settlement>, g: GroupId, actor: UserId, others: set<UserId>)
    requires actor !in others
    requires forall t | t in ts && t.group == g :: t.payer != t.payee && {t.payer, t.payee} <= others + {actor}
    ensures Sum(PairSettlementColumn(ts, g, actor, others)) == SettlementNet(ts, g, actor)
  {
    var column: map<UserId, int> := PairSettlementColumn(ts, g, actor, others);
    if ts == [] {
      SumZeros(column);
    } else {
      var rest, last := ts[..|ts| - 1], ts[|ts| - 1];
      assert last in ts;
      PairSettlementsColumn(rest, g, actor, others);
      var change: map<UserId, int> :=
          map f: UserId | f in others :: if last.group == g then PairMoved(last, actor, f) else 0;
      if last.group == g {
        PairMovedColumn(last, actor, others);
        assert change == map f: UserId | f in others :: PairMoved(last, actor, f);
      } else {
        SumZeros(change);
      }
      SumOfSums(PairSettlementColumn(rest, g, actor, others), change, column);
    }
  }

  /** Inside one group a member's pairwise amounts over all other users add up to the member's net balance. */
  lemma PairwiseAmountsSumToNet(s: Store, g: GroupId, actor: UserId, others: set<UserId>)
    requires Sound(s) && actor !in others && Parties(s.expenses, s.settlements, g) <= others + {actor}
    ensures Sum(PairColumn(s, g, actor, others)) == Net(s, g, actor)
  {
    PartiesCovered(s, g, others + {actor});
    PairExpensesColumn(s.expenses, g, actor, others);
    PairSettlementsColumn(s.settlements, g, actor, others);
    SumOfSums(PairExpenseColumn(s.expenses, g, actor, others), PairSettlementColumn(s.settlements, g, actor, others),
              PairColumn(s, g, actor, others));
  }

  // ---------- the service ----------

  method CounterpartOf(g: Roles.Group, list: seq<UserId>, actor: UserId) returns (r: Option<UserId>)
    ensures r == Counterpart(g, list, actor)
  {
    for i := 0 to |list|
      invariant Counterpart(g, list, actor) == Counterpart(g, list[i..], actor)
    {
      if list[i] != actor && Roles.IsActive(g, list[i]) {
        return Some(list[i]);
      }
      assert list[i..][1..] == list[i + 1..];
    }
    assert list[|list|..] == [];
    return None;
  }

  /** The direct groups of the user with their counterparts. */
  method Counterparts(w: Roles.World, listing: Listing, actor: UserId, direct: seq<GroupId>)
      returns (r: map<GroupId, UserId>)
    requires forall id | id in direct :: id in w.groups && id in listing
    ensures forall id :: id in r <==> id in direct && Counterpart(w.groups[id], listing[id], actor).Some?
    ensures forall id | id in r :: Counterpart(w.groups[id], listing[id], actor) == Some(r[id])
  {
    r := map[];
    for i := 0 to |direct|
      invariant forall id :: id in r <==> id in direct[..i] && Counterpart(w.groups[id], listing[id], actor).Some?
      invariant forall id | id in r :: Counterpart(w.groups[id], listing[id], actor) == Some(r[id])
    {
      var counterpart := CounterpartOf(w.groups[direct[i]], listing[direct[i]], actor);
      if counterpart.Some? {
        r := r[direct[i] := counterpart.value];
      }
      assert direct[..i + 1] == direct[..i] + [direct[i]];
    }
    assert direct[..|direct|] == direct;
  }

  method PairBalance(s: Store, groups: set<GroupId>, actor: UserId, friend: UserId) returns (net: int)
    ensures net == PairNet(s, groups, actor, friend)
  {
    net := 0;
    for i := 0 to |s.expenses|
      invariant net == PairExpenses(s.expenses[..i], groups, actor, friend)
    {
      var expense := s.expenses[i];
      assert s.expenses[..i + 1][..i] == s.expenses[..i];
      if expense.group in groups && !expense.deleted {
        if expense.payer == actor {
          net := net + At(expense.shares, friend);
        } else if expense.payer == friend {
          net := net - At(expense.shares, actor);
        }
      }
    }
    assert s.expenses[..|s.expenses|] == s.expenses;
    ghost var fromExpenses := net;
    for i := 0 to |s.settlements|
      invariant net == fromExpenses + PairSettlements(s.settlements[..i], groups, actor, friend)
    {
      var settlement := s.settlements[i];
      assert s.settlements[..i + 1][..i] == s.settlements[..i];
      if settlement.group in groups {
        if settlement.payer == actor && settlement.payee == friend {
          net := net + settlement.amount;
        } else if settlement.payer == friend && settlement.payee == actor {
          net := net - settlement.amount;
        }
      }
    }
    assert s.settlements[..|s.settlements|] == s.settlements;
  }

  /** What the friends list shows: one entry per direct group that has a counterpart. */
  ghost function Entries(w: Roles.World, listing: Listing, actor: UserId, direct: seq<GroupId>): seq<(UserId, int)>
    requires forall id | id in direct :: id in w.groups && id in listing
  {
    if direct == [] then [] else
      var n := |direct| - 1;
      var counterpart := Counterpart(w.groups[direct[n]], listing[direct[n]], actor);
      Entries(w, listing, actor, direct[..n])
      + if counterpart.Some? then [(counterpart.value, Amount(w, listing, actor, counterpart.value))] else []
  }

  /** Exactly the friends with an entry are shown, each with its amount. */
  lemma {:induction false} EntriesAreShown(w: Roles.World, listing: Listing, actor: UserId, direct: seq<GroupId>)
    requires forall id | id in direct :: id in w.groups && id in listing && IsDirectGroupOf(w, actor, id)
    ensures forall entry | entry in Entries(w, listing, actor, direct) ::
        Shown(w, listing, actor, entry.0) == Some(entry.1)
    ensures forall id, friend: UserId | id in direct && id in AssignedGroups(w, listing, actor, friend) ::
              (friend, Amount(w, listing, actor, friend)) in Entries(w, listing, actor, direct)
  {
    if direct != [] {
      var n := |direct| - 1;
      EntriesAreShown(w, listing, actor, direct[..n]);
      var counterpart := Counterpart(w.groups[direct[n]], listing[direct[n]], actor);
      if counterpart.Some? {
        assert direct[n] in AssignedGroups(w, listing, actor, counterpart.value);
      }
      forall id, friend: UserId | id in direct && id in AssignedGroups(w, listing, actor, friend)
        ensures (friend, Amount(w, listing, actor, friend)) in Entries(w, listing, actor, direct)
      {
        if id !in direct[..n] { assert id == direct[n]; }
      }
    }
  }

  lemma ListShowsFriends(w: Roles.World, listing: Listing, actor: UserId, direct: seq<GroupId>)
    requires forall id | id in direct :: id in w.groups && id in listing
    requires forall id :: id in direct <==> IsDirectGroupOf(w, actor, id)
    ensures forall friend: UserId, amount ::
              (friend, amount) in Entries(w, listing, actor, direct) <==>
              Shown(w, listing, actor, friend) == Some(amount)
  {
    EntriesAreShown(w, listing, actor, direct);
    forall friend: UserId, amount | Shown(w, listing, actor, friend) == Some(amount)
      ensures (friend, amount) in Entries(w, listing, actor, direct)
    {
      var id: GroupId :| id in AssignedGroups(w, listing, actor, friend);
      assert id in direct;
    }
  }

  /** `direct` holds the user's direct groups in order of creation. */
  method ListFriends(w: Roles.World, listing: Listing, actor: UserId, direct: seq<GroupId>)
      returns (entries: seq<(UserId, int)>)
    requires IsListing(w, listing)
    requires forall id | id in direct :: id in w.groups && id in listing
    requires forall id :: id in direct <==> IsDirectGroupOf(w, actor, id)
    ensures entries == Entries(w, listing, actor, direct)
    ensures forall friend: UserId, amount ::
              (friend, amount) in entries <==> Shown(w, listing, actor, friend) == Some(amount)
  {
    ListShowsFriends(w, listing, actor, direct);
    var counterparts := Counterparts(w, listing, actor, direct);
    entries := [];
    for i := 0 to |direct|
      invariant entries == Entries(w, listing, actor, direct[..i])
    {
      assert direct[..i + 1][..i] == direct[..i];
      if direct[i] in counterparts {
        var friend := counterparts[direct[i]];
        var groups := (set id | id in counterparts && counterparts[id] == friend) + SharedGroups(w, actor, friend);
        assert groups == RelevantGroups(w, listing, actor, friend);
        var net := PairBalance(Roles.StoreOf(w), groups, actor, friend);
        entries := entries + [(friend, net)];
      }
    }
    assert direct[..|direct|] == direct;
  }
}
