/**
 * Group roles.  Groups are created with one owner; members join by direct addition or by
 * invitation, leave, are removed or promoted, and disappear when their account is deleted.
 * Whoever leaves, and a group that is archived, must be settled in the debt summary, so the
 * financial rows are part of the state and financial operations are events of the runs.
 *
 * The services only check that the last owner does not leave.  What every run keeps is
 * stronger: an unarchived group has exactly one active owner, and ownership moves only by
 * the owner's own transfer or by succession when the owner's account is deleted.
 */
module Roles {
  import opened Basics
  import Ledger
  import Balances
  import DebtSummaries
  import Debts
  import Itemized

  type GroupId = Ledger.GroupId
  type InvitationId = nat
  type Email = nat
  type Time = Ledger.Time
  type Currency = Ledger.Currency

  datatype Role = Owner | Admin | Member

  datatype Membership = Membership(role: Role, joinedAt: Time, left: bool)

  datatype Group = Group(direct: bool, archived: bool, currency: Currency, members: map<UserId, Membership>)

  datatype Invitation = Invitation(group: GroupId, email: Email, role: Role, expiresAt: Time, used: bool)

  datatype User = User(email: Email, verified: bool)

  /** The financial rows of all groups. */
  datatype Books = Books(
    expenses: seq<Ledger.Expense>,
    settlements: seq<Ledger.Settlement>,
    itemizedLines: set<Itemized.LineId>)

  datatype World = World(
    users: map<UserId, User>,
    groups: map<GroupId, Group>,
    invitations: map<InvitationId, Invitation>,
    books: Books)

  datatype Refusal =
    | GroupNotFound
    | GroupForbidden
    | UserNotFound
    | MemberNotFound
    | MemberAlreadyExists
    | LastOwnerRequired
    | MemberHasUnsettledBalance
    | GroupHasUnsettledBalances
    | CannotFriendSelf
    | InvitationExpiredOrUsed
    | InvitationEmailMismatch

  predicate IsActive(g: Group, u: UserId) {
    u in g.members && !g.members[u].left
  }

  predicate Holds(g: Group, u: UserId, role: Role) {
    IsActive(g, u) && g.members[u].role == role
  }

  function Owners(g: Group): set<UserId> {
    set u | u in g.members && Holds(g, u, Owner)
  }

  function Actives(g: Group): set<UserId> {
    set u | u in g.members && IsActive(g, u)
  }

  function Admins(g: Group): set<UserId> {
    set u | u in g.members && IsActive(g, u) && !g.members[u].role.Member?
  }

  /** What the ledger sees of the groups. */
  function LedgerGroups(groups: map<GroupId, Group>): map<GroupId, Ledger.Group> {
    map id | id in groups ::
      Ledger.Group(groups[id].currency, groups[id].direct, groups[id].archived, Actives(groups[id]), Admins(groups[id]))
  }

  function StoreOf(w: World): Ledger.Store {
    Ledger.Store(LedgerGroups(w.groups), w.books.expenses, w.books.settlements, w.books.itemizedLines)
  }

  function Rank(role: Role): nat {
    match role
    case Member => 1
    case Admin => 2
    case Owner => 3
  }

  // ---------- one group ----------

  function NewGroup(creator: UserId, direct: bool, currency: Currency, now: Time): Group {
    Group(direct, false, currency, map[creator := Membership(Owner, now, false)])
  }

  /** Direct groups are kept in Turkish lira. */
  const DIRECT_CURRENCY: Currency := 949

  /** A departed member comes back with the new role and joining time. */
  function Joined(g: Group, u: UserId, role: Role, now: Time): Group {
    g.(members := g.members[u := Membership(role, now, false)])
  }

  function Departed(g: Group, u: UserId): Group
    requires u in g.members
  {
    g.(members := g.members[u := g.members[u].(left := true)])
  }

  function WithRole(g: Group, u: UserId, role: Role): Group
    requires u in g.members
  {
    g.(members := g.members[u := g.members[u].(role := role)])
  }

  /** The promotion of another member by a single owner is a transfer. */
  function RoleChanged(g: Group, actor: UserId, target: UserId, role: Role): Group
    requires actor in g.members && target in g.members
  {
    if g.members[target].role == role then g
    else if role.Owner? && actor != target && |Owners(g)| == 1 then WithRole(WithRole(g, target, role), actor, Admin)
    else WithRole(g, target, role)
  }

  // ---------- succession ----------

  function SuccessionRank(role: Role): nat {
    match role
    case Admin => 0
    case Member => 1
    case Owner => 2
  }

  predicate Precedes(g: Group, a: UserId, b: UserId)
    requires a in g.members && b in g.members
  {
    var x, y := g.members[a], g.members[b];
    if SuccessionRank(x.role) != SuccessionRank(y.role) then SuccessionRank(x.role) < SuccessionRank(y.role)
    else if x.joinedAt != y.joinedAt then x.joinedAt < y.joinedAt
    else a < b
  }

  function Candidates(g: Group, leaver: UserId): set<UserId> {
    set u | u in g.members && u != leaver && IsActive(g, u)
  }

  ghost predicate IsFirst(g: Group, candidates: set<UserId>, s: UserId)
    requires candidates <= g.members.Keys
  {
    s in candidates && forall c | c in candidates && c != s :: Precedes(g, s, c)
  }

  lemma {:induction false} FirstExists(g: Group, candidates: set<UserId>)
    requires candidates <= g.members.Keys && candidates != {}
    ensures exists s :: IsFirst(g, candidates, s)
    decreases candidates
  {
    var s: UserId :| s in candidates;
    var rest := candidates - {s};
    assert forall c | c in candidates :: c == s || c in rest;
    if rest == {} {
      assert IsFirst(g, candidates, s);
    } else {
      FirstExists(g, rest);
      var t: UserId :| IsFirst(g, rest, t);
      assert IsFirst(g, candidates, if Precedes(g, t, s) then t else s);
    }
  }

  lemma FirstIsUnique(g: Group, candidates: set<UserId>, s: UserId, t: UserId)
    requires candidates <= g.members.Keys && IsFirst(g, candidates, s) && IsFirst(g, candidates, t)
    ensures s == t
  {
  }

  ghost function Successor(g: Group, leaver: UserId): (s: UserId)
    requires Candidates(g, leaver) != {}
    ensures IsFirst(g, Candidates(g, leaver), s)
  {
    FirstExists(g, Candidates(g, leaver));
    var first: UserId :| IsFirst(g, Candidates(g, leaver), first);
    first
  }

  /** What preparing for the deletion of an account does to one group. */
  ghost function Resolved(g: Group, leaver: UserId): Group {
    if g.archived || !Holds(g, leaver, Owner) then g
    else if Candidates(g, leaver) == {} then g.(archived := true)
    else WithRole(g, Successor(g, leaver), Owner)
  }

  /** The database drops the memberships of a deleted user. */
  function Forgotten(g: Group, u: UserId): Group {
    g.(members := g.members - {u})
  }

  // ---------- guards ----------

  function Authorization(w: World, group: GroupId, actor: UserId, ownerOnly: bool): Option<Refusal> {
    if group !in w.groups then Some(GroupNotFound)
    else if !IsActive(w.groups[group], actor) || (ownerOnly && !w.groups[group].members[actor].role.Owner?)
        then Some(GroupForbidden)
    else None
  }

  function AddRefusal(w: World, group: GroupId, actor: UserId, target: UserId, role: Role): Option<Refusal> {
    var denied := Authorization(w, group, actor, false);
    if denied.Some? then denied
    else
      var g := w.groups[group];
      if g.members[actor].role.Member? || role.Owner? || (role.Admin? && !g.members[actor].role.Owner?)
          then Some(GroupForbidden)
      else if target !in w.users then Some(UserNotFound)
      else if IsActive(g, target) then Some(MemberAlreadyExists)
      else None
  }

  function RemoveRefusal(w: World, group: GroupId, actor: UserId, target: UserId): Option<Refusal> {
    var denied := Authorization(w, group, actor, false);
    if denied.Some? then denied
    else
      var g := w.groups[group];
      if !IsActive(g, target) then Some(MemberNotFound)
      else if actor != target && Rank(g.members[actor].role) <= Rank(g.members[target].role) then Some(GroupForbidden)
      else if g.members[target].role.Owner? && |Owners(g)| == 1 then Some(LastOwnerRequired)
      else if Balances.Net(StoreOf(w), group, target) != 0 then Some(MemberHasUnsettledBalance)
      else None
  }

  function RoleRefusal(w: World, group: GroupId, actor: UserId, target: UserId, role: Role): Option<Refusal> {
    var denied := Authorization(w, group, actor, true);
    if denied.Some? then denied
    else
      var g := w.groups[group];
      if !IsActive(g, target) then Some(MemberNotFound)
      else if g.members[target].role == role then None
      else if g.members[target].role.Owner? && |Owners(g)| == 1 then Some(LastOwnerRequired)
      else None
  }

  /** Somebody listed in the group's debt summary is not settled. */
  predicate Unsettled(w: World, group: GroupId)
    requires group in w.groups
  {
    exists u | u in Balances.FinancialUsers(StoreOf(w), group) :: Balances.Net(StoreOf(w), group, u) != 0
  }

  function ArchiveRefusal(w: World, group: GroupId, actor: UserId): Option<Refusal> {
    var denied := Authorization(w, group, actor, true);
    if denied.Some? then denied
    else if !w.groups[group].archived && Unsettled(w, group) then Some(GroupHasUnsettledBalances)
    else None
  }

  function InviteRefusal(w: World, group: GroupId, actor: UserId, role: Role): Option<Refusal> {
    var denied := Authorization(w, group, actor, false);
    if denied.Some? then denied
    else
      var g := w.groups[group];
      if g.members[actor].role.Member? || role.Owner? || (g.members[actor].role.Admin? && !role.Member?)
          then Some(GroupForbidden)
      else if g.archived then Some(GroupNotFound)
      else None
  }

  function AcceptRefusal(w: World, invitation: InvitationId, user: UserId, now: Time): Option<Refusal>
    requires user in w.users
  {
    if invitation !in w.invitations then Some(InvitationExpiredOrUsed)
    else
      var i := w.invitations[invitation];
      if i.used || i.expiresAt <= now then Some(InvitationExpiredOrUsed)
      else if !w.users[user].verified || w.users[user].email != i.email then Some(InvitationEmailMismatch)
      else if i.group !in w.groups || w.groups[i.group].archived then Some(InvitationExpiredOrUsed)
      else if IsActive(w.groups[i.group], user) then Some(MemberAlreadyExists)
      else None
  }

  /** Archived direct groups are found as well. */
  predicate IsDirectGroupOf(g: Group, a: UserId, b: UserId) {
    g.direct && IsActive(g, a) && IsActive(g, b)
  }

  function DirectRefusal(w: World, a: UserId, b: UserId): Option<Refusal> {
    if a == b then Some(CannotFriendSelf) else if b !in w.users then Some(UserNotFound) else None
  }

  // ---------- steps ----------

  datatype Event =
    | Register(user: UserId, email: Email, verified: bool)
    | Create(group: GroupId, actor: UserId, currency: Currency, now: Time)
    | CreateDirect(group: GroupId, actor: UserId, friend: UserId, now: Time)
    | AddMember(group: GroupId, actor: UserId, target: UserId, role: Role, now: Time)
    | RemoveMember(group: GroupId, actor: UserId, target: UserId)
    | UpdateRole(group: GroupId, actor: UserId, target: UserId, role: Role)
    | Archive(group: GroupId, actor: UserId)
    | Invite(invitation: InvitationId, group: GroupId, actor: UserId, email: Email, role: Role, expiresAt: Time)
    | Accept(invitation: InvitationId, user: UserId, now: Time)
    | DeleteAccount(user: UserId)
    // A financial operation on the ledger.
    | Post(op: Ledger.Operation, now: Time)

  /** New ids are really new, and the acting user is signed in. */
  ghost predicate Enabled(w: World, event: Event) {
    match event
    case Register(u, _, _) => u !in w.users
    case Create(group, actor, _, _) => group !in w.groups && actor in w.users
    case CreateDirect(group, actor, _, _) => group !in w.groups && actor in w.users
    case Invite(invitation, _, _, _, _, _) => invitation !in w.invitations
    case Accept(_, user, _) => user in w.users
    case DeleteAccount(user) => user in w.users
    case Post(op, _) => op.WellFormed() && !op.ChangeGroup?
    case _ => true
  }

  function Put(w: World, group: GroupId, g: Group): World {
    w.(groups := w.groups[group := g])
  }

  function AfterDirect(w: World, group: GroupId, a: UserId, b: UserId, now: Time): World {
    if DirectRefusal(w, a, b).Some? || exists d | d in w.groups :: IsDirectGroupOf(w.groups[d], a, b) then w
    else Put(w, group, Joined(NewGroup(a, true, DIRECT_CURRENCY, now), b, Member, now))
  }

  function AfterAdd(w: World, group: GroupId, actor: UserId, target: UserId, role: Role, now: Time): World {
    if AddRefusal(w, group, actor, target, role).Some? then w
    else Put(w, group, Joined(w.groups[group], target, role, now))
  }

  function AfterRemove(w: World, group: GroupId, actor: UserId, target: UserId): World {
    if RemoveRefusal(w, group, actor, target).Some? then w
    else Put(w, group, Departed(w.groups[group], target))
  }

  function AfterRole(w: World, group: GroupId, actor: UserId, target: UserId, role: Role): World {
    if RoleRefusal(w, group, actor, target, role).Some? then w
    else Put(w, group, RoleChanged(w.groups[group], actor, target, role))
  }

  function AfterArchive(w: World, group: GroupId, actor: UserId): World {
    if ArchiveRefusal(w, group, actor).Some? then w
    else Put(w, group, w.groups[group].(archived := true))
  }

  function AfterInvite(w: World, invitation: InvitationId, group: GroupId,
      actor: UserId, email: Email, role: Role, expiresAt: Time): World {
    if InviteRefusal(w, group, actor, role).Some? then w
    else w.(invitations := w.invitations[invitation := Invitation(group, email, role, expiresAt, false)])
  }

  function AfterAccept(w: World, invitation: InvitationId, user: UserId, now: Time): World
    requires user in w.users
  {
    if AcceptRefusal(w, invitation, user, now).Some? then w
    else
      var i := w.invitations[invitation];
      Put(w, i.group, Joined(w.groups[i.group], user, i.role, now)).(
        invitations := w.invitations[invitation := i.(used := true)])
  }

  ghost function ResolvedGroups(groups: map<GroupId, Group>, leaver: UserId): map<GroupId, Group> {
    map id | id in groups :: Resolved(groups[id], leaver)
  }

  function ForgottenGroups(groups: map<GroupId, Group>, leaver: UserId): map<GroupId, Group> {
    map id | id in groups :: Forgotten(groups[id], leaver)
  }

  ghost function AfterDeletion(w: World, user: UserId): World {
    w.(users := w.users - {user}, groups := ForgottenGroups(ResolvedGroups(w.groups, user), user))
  }

  ghost function AfterPost(w: World, op: Ledger.Operation, now: Time): World {
    var after := Ledger.Step(StoreOf(w), op, now);
    w.(books := Books(after.expenses, after.settlements, after.itemizedLines))
  }

  ghost function Step(w: World, event: Event): World
    requires Enabled(w, event)
  {
    match event
    case Register(u, email, verified) => w.(users := w.users[u := User(email, verified)])
    case Create(group, actor, currency, now) => Put(w, group, NewGroup(actor, false, currency, now))
    case CreateDirect(group, actor, friend, now) => AfterDirect(w, group, actor, friend, now)
    case AddMember(group, actor, target, role, now) => AfterAdd(w, group, actor, target, role, now)
    case RemoveMember(group, actor, target) => AfterRemove(w, group, actor, target)
    case UpdateRole(group, actor, target, role) => AfterRole(w, group, actor, target, role)
    case Archive(group, actor) => AfterArchive(w, group, actor)
    case Invite(invitation, group, actor, email, role, expiresAt) =>
        AfterInvite(w, invitation, group, actor, email, role, expiresAt)
    case Accept(invitation, user, now) => AfterAccept(w, invitation, user, now)
    case DeleteAccount(user) => AfterDeletion(w, user)
    case Post(op, now) => AfterPost(w, op, now)
  }

  const INITIAL := World(map[], map[], map[], Books([], [], {}))

  ghost predicate IsRun(worlds: seq<World>, events: seq<Event>) {
    IsPath(worlds, events) && worlds[0] == INITIAL
  }

  /** Part of a run: it may start anywhere. */
  ghost predicate IsPath(worlds: seq<World>, events: seq<Event>) {
    && |worlds| == |events| + 1
    && forall i | 0 <= i < |events| :: Enabled(worlds[i], events[i]) && worlds[i + 1] == Step(worlds[i], events[i])
  }

  lemma PathOfOne(w: World, event: Event) returns (worlds: seq<World>, events: seq<Event>)
    requires Enabled(w, event)
    ensures IsPath(worlds, events) && worlds == [w, Step(w, event)] && events == [event]
  {
    worlds, events := [w, Step(w, event)], [event];
  }

  ghost predicate Reachable(w: World) {
    exists worlds, events :: IsRun(worlds, events) && worlds[|events|] == w
  }

  lemma StartIsReachable()
    ensures Reachable(INITIAL)
  {
    assert IsRun([INITIAL], []);
  }

  lemma ReachableStep(w: World, event: Event, after: World)
    requires Reachable(w) && Enabled(w, event) && after == Step(w, event)
    ensures Reachable(after)
  {
    var worlds, events :| IsRun(worlds, events) && worlds[|events|] == w;
    var longer, more := worlds + [after], events + [event];
    forall i | 0 <= i < |more| ensures Enabled(longer[i], more[i]) && longer[i + 1] == Step(longer[i], more[i]) {
      if i < |events| {
        assert longer[i] == worlds[i] && longer[i + 1] == worlds[i + 1] && more[i] == events[i];
      }
    }
    assert IsRun(longer, more);
  }

  /** Two users register. */
  lemma RegisterTwo(u: UserId, v: UserId) returns (w: World)
    requires u != v
    ensures w == World(map[u := User(u, true), v := User(v, true)], map[], map[], Books([], [], {})) && Reachable(w)
  {
    StartIsReachable();
    var one := INITIAL.(users := map[u := User(u, true)]);
    ReachableStep(INITIAL, Register(u, u, true), one);
    w := one.(users := map[u := User(u, true), v := User(v, true)]);
    ReachableStep(one, Register(v, v, true), w);
  }

  // ---------- exactly one owner ----------

  /** An archived group can have lost its owner, but it never has two. */
  ghost predicate GroupOk(g: Group) {
    |Owners(g)| == 1 || (g.archived && Owners(g) == {})
  }

  ghost predicate Inv(w: World) {
    RolesOk(w) && Ledger.Sound(StoreOf(w))
  }

  ghost predicate RolesOk(w: World) {
    && (forall id | id in w.groups :: GroupOk(w.groups[id]) && w.groups[id].members.Keys <= w.users.Keys)
    && (forall id | id in w.invitations :: !w.invitations[id].role.Owner?)
  }

  lemma TheOwner(g: Group, u: UserId)
    requires |Owners(g)| == 1 && Holds(g, u, Owner)
    ensures Owners(g) == {u}
  {
    var rest := Owners(g) - {u};
    assert u in Owners(g) && |rest| == 0;
    assert Owners(g) == rest + {u};
  }

  lemma NewGroupHasOneOwner(creator: UserId, direct: bool, currency: Currency, now: Time)
    ensures Owners(NewGroup(creator, direct, currency, now)) == {creator}
  {
  }

  lemma JoiningKeepsOwners(g: Group, u: UserId, role: Role, now: Time)
    requires !IsActive(g, u) && !role.Owner?
    ensures Owners(Joined(g, u, role, now)) == Owners(g)
  {
  }

  lemma LeavingKeepsOwners(g: Group, u: UserId)
    requires IsActive(g, u) && !g.members[u].role.Owner?
    ensures Owners(Departed(g, u)) == Owners(g)
  {
  }

  /** A transfer leaves exactly the new owner; a change among other roles leaves the owners alone. */
  lemma RoleChangeOwners(g: Group, actor: UserId, target: UserId, role: Role)
    requires |Owners(g)| == 1 && Holds(g, actor, Owner) && IsActive(g, target)
    requires g.members[target].role == role || !g.members[target].role.Owner?
    ensures Owners(RoleChanged(g, actor, target, role)) == if role.Owner? then {target} else {actor}
  {
    TheOwner(g, actor);
    var after := RoleChanged(g, actor, target, role);
    if role.Owner? && actor != target {
      assert target !in Owners(g);
      forall v ensures v in Owners(after) <==> v == target {
        assert v in Owners(g) <==> v == actor;
        assert v !in {actor, target} ==> (v in Owners(after) <==> v in Owners(g));
      }
    } else if !role.Owner? {
      assert Owners(after) == Owners(g);
    }
  }

  lemma DeletionOwners(g: Group, u: UserId)
    requires !g.archived && |Owners(g)| == 1
    ensures var after := Forgotten(Resolved(g, u), u);
            if !Holds(g, u, Owner) then Owners(after) == Owners(g) && !after.archived
            else if Candidates(g, u) == {} then after.archived
            else Owners(after) == {Successor(g, u)} && !after.archived
  {
    var after := Forgotten(Resolved(g, u), u);
    if Holds(g, u, Owner) {
      TheOwner(g, u);
      if Candidates(g, u) != {} {
        var s := Successor(g, u);
        assert s != u && Holds(after, s, Owner);
        forall v ensures v in Owners(after) <==> v == s {
          assert v in Owners(g) <==> v == u;
        }
      }
    } else {
      assert Owners(after) == Owners(g);
    }
  }

  lemma ForgettingOwners(g: Group, u: UserId)
    ensures Owners(Forgotten(g, u)) == Owners(g) - {u}
    ensures GroupOk(g) && g.archived ==> GroupOk(Forgotten(g, u))
  {
    if |Owners(g)| == 1 && u in Owners(g) {
      TheOwner(g, u);
    }
  }

  lemma RoleStepKeepsRoles(w: World, group: GroupId, actor: UserId, target: UserId, role: Role)
    requires RolesOk(w)
    ensures RolesOk(AfterRole(w, group, actor, target, role))
  {
    if RoleRefusal(w, group, actor, target, role).None? {
      var g := w.groups[group];
      assert actor in Owners(g) && GroupOk(g);
      RoleChangeOwners(g, actor, target, role);
    }
  }

  lemma DeletionKeepsRoles(w: World, user: UserId)
    requires RolesOk(w)
    ensures RolesOk(AfterDeletion(w, user))
  {
    var after := AfterDeletion(w, user);
    forall id | id in after.groups
      ensures GroupOk(after.groups[id]) && after.groups[id].members.Keys <= after.users.Keys
    {
      var g := w.groups[id];
      if g.archived {
        ForgettingOwners(g, user);
      } else {
        DeletionOwners(g, user);
      }
      assert after.groups[id].members.Keys <= g.members.Keys - {user};
    }
  }

  lemma AddingKeepsRoles(w: World, group: GroupId, u: UserId, role: Role, now: Time)
    requires RolesOk(w) && group in w.groups && !IsActive(w.groups[group], u) && !role.Owner? && u in w.users
    ensures RolesOk(Put(w, group, Joined(w.groups[group], u, role, now)))
  {
    JoiningKeepsOwners(w.groups[group], u, role, now);
  }

  lemma RemovalKeepsRoles(w: World, group: GroupId, actor: UserId, target: UserId)
    requires RolesOk(w)
    ensures RolesOk(AfterRemove(w, group, actor, target))
  {
    if RemoveRefusal(w, group, actor, target).None? {
      var g := w.groups[group];
      assert target in Actives(g) && GroupOk(g);
      assert g.members[target].role.Owner? ==> target in Owners(g);
      LeavingKeepsOwners(g, target);
    }
  }

  lemma DirectKeepsRoles(w: World, group: GroupId, a: UserId, b: UserId, now: Time)
    requires RolesOk(w) && a in w.users
    ensures RolesOk(AfterDirect(w, group, a, b, now))
  {
    NewGroupHasOneOwner(a, true, DIRECT_CURRENCY, now);
    if DirectRefusal(w, a, b).None? {
      JoiningKeepsOwners(NewGroup(a, true, DIRECT_CURRENCY, now), b, Member, now);
    }
  }

  lemma StepKeepsRoles(w: World, event: Event)
    requires RolesOk(w) && Enabled(w, event)
    ensures RolesOk(Step(w, event))
  {
    match event {
      case Register(_, _, _) =>
      case Create(group, actor, currency, now) => NewGroupHasOneOwner(actor, false, currency, now);
      case CreateDirect(group, actor, friend, now) => DirectKeepsRoles(w, group, actor, friend, now);
      case AddMember(group, actor, target, role, now) =>
        if AddRefusal(w, group, actor, target, role).None? {
          AddingKeepsRoles(w, group, target, role, now);
        }
      case RemoveMember(group, actor, target) => RemovalKeepsRoles(w, group, actor, target);
      case UpdateRole(group, actor, target, role) => RoleStepKeepsRoles(w, group, actor, target, role);
      case Archive(group, actor) =>
        if group in w.groups { assert Owners(w.groups[group].(archived := true)) == Owners(w.groups[group]); }
      case Invite(_, _, _, _, _, _) =>
      case Accept(invitation, user, now) =>
        if AcceptRefusal(w, invitation, user, now).None? {
          var i := w.invitations[invitation];
          AddingKeepsRoles(w, i.group, user, i.role, now);
        }
      case DeleteAccount(user) => DeletionKeepsRoles(w, user);
      case Post(_, _) =>
    }
  }

  /** The ledger's view of the groups only ever gains groups and keeps their currencies. */
  lemma GroupsStay(w: World, event: Event)
    requires Enabled(w, event)
    ensures forall id | id in w.groups ::
              id in Step(w, event).groups && Step(w, event).groups[id].currency == w.groups[id].currency
  {
  }

  /** A financial operation is a step of the ledger. */
  lemma PostIsLedgerStep(w: World, op: Ledger.Operation, now: Time)
    requires !op.ChangeGroup?
    ensures StoreOf(AfterPost(w, op, now)) == Ledger.Step(StoreOf(w), op, now)
  {
  }

  lemma BooksStay(w: World, event: Event)
    requires Enabled(w, event) && !event.Post?
    ensures Step(w, event).books == w.books
  {
  }

  lemma SoundStays(w: World, event: Event)
    requires Ledger.Sound(StoreOf(w)) && Enabled(w, event)
    ensures Ledger.Sound(StoreOf(Step(w, event)))
  {
    if event.Post? {
      PostIsLedgerStep(w, event.op, event.now);
      Ledger.StepKeepsSound(StoreOf(w), event.op, event.now);
    } else {
      GroupsStay(w, event);
      BooksStay(w, event);
    }
  }

  lemma StepKeepsInv(w: World, event: Event)
    requires Inv(w) && Enabled(w, event)
    ensures Inv(Step(w, event))
  {
    StepKeepsRoles(w, event);
    SoundStays(w, event);
  }

  lemma {:induction false} RunKeepsInv(worlds: seq<World>, events: seq<Event>, n: nat)
    requires IsRun(worlds, events) && n < |worlds|
    ensures Inv(worlds[n])
  {
    if n > 0 {
      RunKeepsInv(worlds, events, n - 1);
      assert worlds[n - 1 + 1] == Step(worlds[n - 1], events[n - 1]);
      StepKeepsInv(worlds[n - 1], events[n - 1]);
    }
  }

  // ---------- theorems ----------

  /** Over every run each unarchived group has exactly one active owner. */
  lemma ExactlyOneOwner(worlds: seq<World>, events: seq<Event>, n: nat, group: GroupId)
    requires IsRun(worlds, events) && n < |worlds|
    requires group in worlds[n].groups && !worlds[n].groups[group].archived
    ensures exists u :: Holds(worlds[n].groups[group], u, Owner)
    ensures forall u, v | Holds(worlds[n].groups[group], u, Owner) && Holds(worlds[n].groups[group], v, Owner) :: u == v
  {
    RunKeepsInv(worlds, events, n);
    var g := worlds[n].groups[group];
    assert GroupOk(g);
    var u: UserId :| u in Owners(g);
    TheOwner(g, u);
    forall v | Holds(g, v, Owner) ensures v == u {
      assert v in Owners(g);
    }
  }

  /**
   * When the owner of a group that stays unarchived changes in a step of a run, either the
   * old owner handed the role over and is now an admin, or the old owner's account was
   * deleted and the new owner is the first candidate.
   */
  lemma OwnershipMoves(w: World, event: Event, after: World, group: GroupId, u: UserId, v: UserId)
    requires Inv(w) && Enabled(w, event) && after == Step(w, event) && group in w.groups && group in after.groups
    requires !after.groups[group].archived && u != v
    requires Holds(w.groups[group], u, Owner) && Holds(after.groups[group], v, Owner)
    ensures
      || (event == UpdateRole(group, u, v, Owner) && Holds(after.groups[group], u, Admin))
      || (event == DeleteAccount(u) && v in Candidates(w.groups[group], u) && v == Successor(w.groups[group], u))
  {
    assert v in Owners(after.groups[group]);
    OwnerOfUnarchived(w, event, group);
    match event {
      case DeleteAccount(user) => DeletionMoves(w.groups[group], user, u, v);
      case UpdateRole(id, actor, target, role) => RoleChangeMoves(w, id, actor, target, role, group, u, v);
      case _ =>
        OwnersStay(w, event, group);
        SameGroupSameOwner(w.groups[group], u, v);
    }
  }

  /** What ends up unarchived was unarchived, and so had one owner. */
  lemma OwnerOfUnarchived(w: World, event: Event, group: GroupId)
    requires Inv(w) && Enabled(w, event) && group in w.groups && group in Step(w, event).groups
    requires !Step(w, event).groups[group].archived
    ensures !w.groups[group].archived && |Owners(w.groups[group])| == 1
  {
    ArchivedOnlyBy(w, event, group);
    assert GroupOk(w.groups[group]);
  }

  lemma RoleChangeMoves(w: World, id: GroupId, actor: UserId,
      target: UserId, role: Role, group: GroupId, u: UserId, v: UserId)
    requires group in w.groups && group in AfterRole(w, id, actor, target, role).groups && u != v
    requires |Owners(w.groups[group])| == 1 && Holds(w.groups[group], u, Owner)
    requires v in Owners(AfterRole(w, id, actor, target, role).groups[group])
    ensures id == group && actor == u && target == v && role.Owner?
    ensures Holds(AfterRole(w, id, actor, target, role).groups[group], u, Admin)
  {
    var g := w.groups[group];
    TheOwner(g, u);
    if id == group && RoleRefusal(w, id, actor, target, role).None? {
      assert actor in Owners(g);
      RoleChangeOwners(g, actor, target, role);
    } else {
      SameGroupSameOwner(g, u, v);
    }
  }

  /** Only role changes and account deletion touch the owners of a group that has one. */
  lemma OwnersStay(w: World, event: Event, group: GroupId)
    requires RolesOk(w) && Enabled(w, event) && group in w.groups && |Owners(w.groups[group])| == 1
    requires !event.UpdateRole? && !event.DeleteAccount?
    ensures group in Step(w, event).groups && Owners(Step(w, event).groups[group]) == Owners(w.groups[group])
  {
    match event {
      case CreateDirect(id, actor, friend, now) => DirectKeepsOthers(w, id, actor, friend, now, group);
      case AddMember(id, actor, target, role, now) => AddingKeepsOwners(w, id, actor, target, role, now, group);
      case Accept(id, user, now) => AcceptingKeepsOwners(w, id, user, now, group);
      case RemoveMember(id, actor, target) => RemovalKeepsOwners(w, id, actor, target, group);
      case _ =>
    }
  }

  lemma DirectKeepsOthers(w: World, id: GroupId, a: UserId, b: UserId, now: Time, group: GroupId)
    requires group in w.groups && id !in w.groups
    ensures var after := AfterDirect(w, id, a, b, now); group in after.groups && after.groups[group] == w.groups[group]
  {
  }

  lemma AddingKeepsOwners(w: World, id: GroupId, actor: UserId, target: UserId, role: Role, now: Time, group: GroupId)
    requires group in w.groups
    ensures var after := AfterAdd(w, id, actor, target, role, now);
            group in after.groups && Owners(after.groups[group]) == Owners(w.groups[group])
  {
    if id == group && AddRefusal(w, id, actor, target, role).None? {
      JoiningKeepsOwners(w.groups[group], target, role, now);
    }
  }

  lemma AcceptingKeepsOwners(w: World, id: InvitationId, user: UserId, now: Time, group: GroupId)
    requires RolesOk(w) && group in w.groups && user in w.users
    ensures var after := AfterAccept(w, id, user, now);
            group in after.groups && Owners(after.groups[group]) == Owners(w.groups[group])
  {
    if AcceptRefusal(w, id, user, now).None? && w.invitations[id].group == group {
      JoiningKeepsOwners(w.groups[group], user, w.invitations[id].role, now);
    }
  }

  lemma RemovalKeepsOwners(w: World, id: GroupId, actor: UserId, target: UserId, group: GroupId)
    requires group in w.groups && |Owners(w.groups[group])| == 1
    ensures var after := AfterRemove(w, id, actor, target);
            group in after.groups && Owners(after.groups[group]) == Owners(w.groups[group])
  {
    if id == group && RemoveRefusal(w, id, actor, target).None? {
      LeavingKeepsOwners(w.groups[group], target);
    }
  }

  lemma DeletionMoves(g: Group, user: UserId, u: UserId, v: UserId)
    requires !g.archived && |Owners(g)| == 1 && Holds(g, u, Owner) && u != v
    requires var after := Forgotten(Resolved(g, user), user); !after.archived && v in Owners(after)
    ensures user == u && v in Candidates(g, u) && v == Successor(g, u)
  {
    TheOwner(g, u);
    assert user != u ==> user !in Owners(g);
    DeletionOwners(g, user);
  }

  lemma SameGroupSameOwner(g: Group, u: UserId, v: UserId)
    requires |Owners(g)| == 1 && Holds(g, u, Owner) && v in Owners(g)
    ensures u == v
  {
    TheOwner(g, u);
  }

  /** Succession prefers admins, then the earliest to join. */
  lemma SuccessorIsSenior(g: Group, leaver: UserId, c: UserId)
    requires c in Candidates(g, leaver) && |Owners(g)| == 1 && Holds(g, leaver, Owner)
    ensures var s := Successor(g, leaver);
            && IsActive(g, s) && s != leaver
            && (g.members[c].role.Admin? ==> g.members[s].role.Admin?)
            && (g.members[c].role == g.members[s].role ==>
                || g.members[s].joinedAt < g.members[c].joinedAt
                || (g.members[s].joinedAt == g.members[c].joinedAt && s <= c))
  {
    var s := Successor(g, leaver);
    if c != s { assert Precedes(g, s, c); }
  }

  /** Deleting the owner's account archives the group exactly when nobody else is active in it. */
  lemma DeletionArchivesExactlyWhen(w: World, group: GroupId, user: UserId)
    requires Inv(w) && user in w.users && group in w.groups && !w.groups[group].archived
        && Holds(w.groups[group], user, Owner)
    ensures Step(w, DeleteAccount(user)).groups[group].archived
        <==> (forall v | v != user :: !IsActive(w.groups[group], v))
  {
    var g := w.groups[group];
    assert forall v | v != user :: IsActive(g, v) <==> v in Candidates(g, user);
  }

  /**
   * A membership ends only with the account, or at net balance zero by leaving or by removal
   * through a member of strictly higher rank; the owner of a group never departs.
   */
  lemma MembershipEndsOnlyBy(w: World, event: Event, group: GroupId, u: UserId)
    requires Inv(w) && Enabled(w, event) && group in w.groups && IsActive(w.groups[group], u)
    requires group in Step(w, event).groups ==> !IsActive(Step(w, event).groups[group], u)
    ensures
      var g := w.groups[group];
      || event == DeleteAccount(u)
      || (event.RemoveMember? && event.group == group && event.target == u && Balances.Net(StoreOf(w), group, u) == 0
          && IsActive(g, event.actor)
             && (event.actor == u || Rank(g.members[event.actor].role) > Rank(g.members[u].role))
          && !g.members[u].role.Owner?)
  {
    match event {
      case RemoveMember(_, actor, target) => RemovalEndsMembership(w, event.group, actor, target, group, u);
      case DeleteAccount(user) =>
        if user != u { DeletionKeepsMembership(w, user, group, u); }
      case _ => MembershipStays(w, event, group, u);
    }
  }

  lemma MembershipStays(w: World, event: Event, group: GroupId, u: UserId)
    requires Enabled(w, event) && group in w.groups && IsActive(w.groups[group], u)
    requires !event.RemoveMember? && !event.DeleteAccount?
    ensures group in Step(w, event).groups && IsActive(Step(w, event).groups[group], u)
  {
    match event {
      case CreateDirect(id, actor, friend, now) => DirectKeepsOthers(w, id, actor, friend, now, group);
      case AddMember(id, actor, target, role, now) => AddingKeepsMembership(w, id, actor, target, role, now, group, u);
      case Accept(id, user, now) => AcceptingKeepsMembership(w, id, user, now, group, u);
      case UpdateRole(id, actor, target, role) => RoleChangeKeepsMembership(w, id, actor, target, role, group, u);
      case _ =>
    }
  }

  lemma AddingKeepsMembership(w: World, id: GroupId, actor: UserId,
      target: UserId, role: Role, now: Time, group: GroupId, u: UserId)
    requires group in w.groups && IsActive(w.groups[group], u)
    ensures var after := AfterAdd(w, id, actor, target, role, now);
        group in after.groups && IsActive(after.groups[group], u)
  {
  }

  lemma AcceptingKeepsMembership(w: World, id: InvitationId, user: UserId, now: Time, group: GroupId, u: UserId)
    requires group in w.groups && IsActive(w.groups[group], u) && user in w.users
    ensures var after := AfterAccept(w, id, user, now); group in after.groups && IsActive(after.groups[group], u)
  {
  }

  lemma RemovalEndsMembership(w: World, id: GroupId, actor: UserId, target: UserId, group: GroupId, u: UserId)
    requires RolesOk(w) && group in w.groups && IsActive(w.groups[group], u)
    requires var after := AfterRemove(w, id, actor, target); group in after.groups ==> !IsActive(after.groups[group], u)
    ensures var g := w.groups[group];
            && id == group && target == u && Balances.Net(StoreOf(w), group, u) == 0
            && IsActive(g, actor) && (actor == u || Rank(g.members[actor].role) > Rank(g.members[u].role))
            && !g.members[u].role.Owner?
  {
    var g := w.groups[group];
    assert GroupOk(g);
    assert g.members[u].role.Owner? ==> u in Owners(g);
  }

  lemma RoleChangeKeepsMembership(w: World, id: GroupId, actor: UserId,
      target: UserId, role: Role, group: GroupId, u: UserId)
    requires group in w.groups && IsActive(w.groups[group], u)
    ensures var after := AfterRole(w, id, actor, target, role);
        group in after.groups && IsActive(after.groups[group], u)
  {
  }

  lemma DeletionKeepsMembership(w: World, user: UserId, group: GroupId, u: UserId)
    requires group in w.groups && IsActive(w.groups[group], u) && u != user
    ensures group in AfterDeletion(w, user).groups && IsActive(AfterDeletion(w, user).groups[group], u)
  {
  }

  /** A group is archived only by its owner when everybody's net balance is zero, or with the account of its
      last member; it stays archived. */
  lemma ArchivedOnlyBy(w: World, event: Event, group: GroupId)
    requires Inv(w) && Enabled(w, event) && group in w.groups
    ensures group in Step(w, event).groups && (w.groups[group].archived ==> Step(w, event).groups[group].archived)
    ensures
      var g := w.groups[group];
      !g.archived && Step(w, event).groups[group].archived ==>
        || (event.Archive? && event.group == group && Holds(g, event.actor, Owner)
            && forall u :: Balances.Net(StoreOf(w), group, u) == 0)
        || (event.DeleteAccount? && Holds(g, event.user, Owner) && Candidates(g, event.user) == {})
  {
    match event {
      case Archive(id, actor) => ArchivingNeedsSettledOwner(w, id, actor, group);
      case DeleteAccount(user) => DeletionArchivesOwnGroup(w, user, group);
      case CreateDirect(id, actor, friend, now) => DirectKeepsOthers(w, id, actor, friend, now, group);
      case UpdateRole(id, actor, target, role) => RoleChangeKeepsArchived(w, id, actor, target, role, group);
      case _ =>
    }
  }

  lemma ArchivingNeedsSettledOwner(w: World, id: GroupId, actor: UserId, group: GroupId)
    requires group in w.groups
    ensures var after := AfterArchive(w, id, actor);
            && group in after.groups && (w.groups[group].archived ==> after.groups[group].archived)
            && (!w.groups[group].archived && after.groups[group].archived ==>
                && id == group && Holds(w.groups[group], actor, Owner)
                && forall u :: Balances.Net(StoreOf(w), group, u) == 0)
  {
    if id == group && !w.groups[group].archived && ArchiveRefusal(w, id, actor).None? {
      forall u ensures Balances.Net(StoreOf(w), group, u) == 0 {
        if u !in Balances.FinancialUsers(StoreOf(w), group) {
          Balances.NetOfStranger(StoreOf(w), group, u);
        }
      }
    }
  }

  lemma DeletionArchivesOwnGroup(w: World, user: UserId, group: GroupId)
    requires group in w.groups
    ensures var g, after := w.groups[group], AfterDeletion(w, user);
            && group in after.groups && (g.archived ==> after.groups[group].archived)
            && (!g.archived && after.groups[group].archived ==> Holds(g, user, Owner) && Candidates(g, user) == {})
  {
  }

  lemma RoleChangeKeepsArchived(w: World, id: GroupId, actor: UserId, target: UserId, role: Role, group: GroupId)
    requires group in w.groups
    ensures var after := AfterRole(w, id, actor, target, role);
            group in after.groups && after.groups[group].archived == w.groups[group].archived
  {
  }

  // ---------- where admins come from ----------

  /** The step that makes a user an admin of a group. */
  lemma AdminIsGranted(w: World, event: Event, group: GroupId, u: UserId)
    requires Enabled(w, event) && group in Step(w, event).groups && Holds(Step(w, event).groups[group], u, Admin)
    requires group in w.groups ==> !Holds(w.groups[group], u, Admin)
    ensures group in w.groups
    ensures
      || (event.UpdateRole? && event.group == group && Holds(w.groups[group], event.actor, Owner))
      || (event.AddMember? && event.group == group && event.target == u && Holds(w.groups[group], event.actor, Owner))
      || (event.Accept? && event.user == u && event.invitation in w.invitations
          && w.invitations[event.invitation].group == group && w.invitations[event.invitation].role.Admin?)
  {
  }

  /** This event created this invitation. */
  ghost predicate Invited(w: World, event: Event, id: InvitationId, i: Invitation) {
    && event.Invite? && event == Invite(id, i.group, event.actor, i.email, i.role, i.expiresAt)
    && InviteRefusal(w, i.group, event.actor, i.role).None?
  }

  lemma {:induction false} InvitationWasSent(worlds: seq<World>, events: seq<Event>, n: nat, id: InvitationId)
      returns (m: nat)
    requires IsRun(worlds, events) && n < |worlds| && id in worlds[n].invitations
    ensures m < n && Invited(worlds[m], events[m], id, worlds[n].invitations[id].(used := false))
  {
    var w, event := worlds[n - 1], events[n - 1];
    assert worlds[n - 1 + 1] == Step(w, event);
    if id in w.invitations {
      m := InvitationWasSent(worlds, events, n - 1, id);
    } else {
      m := n - 1;
    }
  }

  /**
   * Over every run, whoever becomes an admin was made one by an owner of the group: directly,
   * or by an invitation that an owner sent earlier in the run.
   */
  lemma AdminComesFromOwner(worlds: seq<World>, events: seq<Event>, n: nat, group: GroupId, u: UserId)
    requires IsRun(worlds, events) && n < |events|
    requires group in worlds[n + 1].groups && Holds(worlds[n + 1].groups[group], u, Admin)
    requires group in worlds[n].groups ==> !Holds(worlds[n].groups[group], u, Admin)
    ensures exists m, owner ::
      && 0 <= m <= n && group in worlds[m].groups && Holds(worlds[m].groups[group], owner, Owner)
      && (events[m].UpdateRole? || events[m].AddMember? || events[m].Invite?) && events[m].actor == owner
          && events[m].group == group
      && (m < n ==> events[m].Invite? && events[m].role.Admin? && events[n].Accept?
                    && events[n].invitation == events[m].invitation && events[n].user == u)
  {
    var w, event := worlds[n], events[n];
    assert worlds[n + 1] == Step(w, event);
    AdminIsGranted(w, event, group, u);
    if event.Accept? {
      var m := InvitationWasSent(worlds, events, n, event.invitation);
      assert Holds(worlds[m].groups[group], events[m].actor, Owner);
    } else {
      assert Holds(worlds[n].groups[group], event.actor, Owner);
    }
  }

  lemma {:induction false} UsedStays(worlds: seq<World>, events: seq<Event>, m: nat, n: nat, id: InvitationId)
    requires IsRun(worlds, events) && m <= n < |worlds| && id in worlds[m].invitations && worlds[m].invitations[id].used
    ensures id in worlds[n].invitations && worlds[n].invitations[id].used
    decreases n
  {
    if m < n {
      UsedStays(worlds, events, m, n - 1, id);
      assert worlds[n - 1 + 1] == Step(worlds[n - 1], events[n - 1]);
    }
  }

  /** Over every run an invitation lets in one user, once. */
  lemma InvitationIsUsedOnce(worlds: seq<World>, events: seq<Event>, m: nat, n: nat)
    requires IsRun(worlds, events) && m < n < |events| && events[m].Accept? && events[n].Accept?
    requires AcceptRefusal(worlds[m], events[m].invitation, events[m].user, events[m].now).None?
    requires events[n].invitation == events[m].invitation
    ensures worlds[n + 1] == worlds[n]
    ensures AcceptRefusal(worlds[n], events[n].invitation, events[n].user, events[n].now)
        == Some(InvitationExpiredOrUsed)
  {
    assert worlds[m + 1] == Step(worlds[m], events[m]) && worlds[n + 1] == Step(worlds[n], events[n]);
    UsedStays(worlds, events, m + 1, n, events[m].invitation);
  }

  // ---------- the services ----------

  class GroupService {
    var users: map<UserId, User>
    var groups: map<GroupId, Group>
    var invitations: map<InvitationId, Invitation>
    var books: Books

    ghost function Now(): World
      reads this
    {
      World(users, groups, invitations, books)
    }

    constructor ()
      ensures Now() == INITIAL && Inv(Now())
    {
      users, groups, invitations, books := map[], map[], map[], Books([], [], {});
    }

    method CreateGroup(id: GroupId, creator: UserId, direct: bool, currency: Currency, now: Time)
      modifies this`groups
      ensures groups == old(groups)[id := NewGroup(creator, direct, currency, now)]
    {
      var members: map<UserId, Membership> := map[];
      members := members[creator := Membership(Owner, now, false)];
      groups := groups[id := Group(direct, false, currency, members)];
    }

    /** The repository's `add_member`. */
    method Enter(id: GroupId, u: UserId, role: Role, now: Time) returns (entered: bool)
      requires id in groups
      modifies this`groups
      ensures entered <==> !IsActive(old(groups)[id], u)
      ensures groups == if entered then old(groups)[id := Joined(old(groups)[id], u, role, now)] else old(groups)
    {
      var g := groups[id];
      if u in g.members {
        var existing := g.members[u];
        if !existing.left {
          return false;
        }
        existing := existing.(left := false);
        existing := existing.(joinedAt := now);
        existing := existing.(role := role);
        groups := groups[id := g.(members := g.members[u := existing])];
        return true;
      }
      groups := groups[id := g.(members := g.members[u := Membership(role, now, false)])];
      return true;
    }

    method SetRole(id: GroupId, u: UserId, role: Role)
      requires id in groups && u in groups[id].members
      modifies this`groups
      ensures groups == old(groups)[id := WithRole(old(groups)[id], u, role)]
    {
      var g := groups[id];
      groups := groups[id := g.(members := g.members[u := g.members[u].(role := role)])];
    }

    method GetOrCreateDirectGroup(id: GroupId, a: UserId, b: UserId, now: Time) returns (r: Result<GroupId, Refusal>)
      requires id !in groups
      modifies this`groups
      ensures Now() == AfterDirect(old(Now()), id, a, b, now)
      ensures match r
              case Failure(e) => DirectRefusal(old(Now()), a, b) == Some(e)
              case Success(d) =>
                DirectRefusal(old(Now()), a, b).None? && d in groups && IsDirectGroupOf(groups[d], a, b)
    {
      if a == b {
        return Failure(CannotFriendSelf);
      }
      if b !in users {
        return Failure(UserNotFound);
      }
      if d :| d in groups && IsDirectGroupOf(groups[d], a, b) {
        return Success(d);
      }
      CreateGroup(id, a, true, DIRECT_CURRENCY, now);
      var _ := Enter(id, b, Member, now);
      return Success(id);
    }

    method Authorize(id: GroupId, actor: UserId, ownerOnly: bool) returns (denied: Option<Refusal>)
      ensures denied == Authorization(Now(), id, actor, ownerOnly)
    {
      if id !in groups {
        return Some(GroupNotFound);
      }
      if !IsActive(groups[id], actor) {
        return Some(GroupForbidden);
      }
      if ownerOnly && !groups[id].members[actor].role.Owner? {
        return Some(GroupForbidden);
      }
      return None;
    }

    method AddGroupMember(id: GroupId, actor: UserId, target: UserId, role: Role, now: Time)
        returns (refusal: Option<Refusal>)
      modifies this`groups
      ensures Now() == AfterAdd(old(Now()), id, actor, target, role, now)
      ensures refusal == AddRefusal(old(Now()), id, actor, target, role)
    {
      refusal := Authorize(id, actor, false);
      if refusal.Some? {
        return;
      }
      var actorRole := groups[id].members[actor].role;
      if actorRole.Member? {
        return Some(GroupForbidden);
      }
      if role.Owner? || (role.Admin? && !actorRole.Owner?) {
        return Some(GroupForbidden);
      }
      if target !in users {
        return Some(UserNotFound);
      }
      var entered := Enter(id, target, role, now);
      if !entered {
        return Some(MemberAlreadyExists);
      }
    }

    /** The balances in the debt summary of a group. */
    method SummaryBalances(id: GroupId) returns (balances: seq<Debts.Balance>)
      requires id in groups && Ledger.Sound(StoreOf(Now()))
      ensures DebtSummaries.ListsBalances(balances, StoreOf(Now()), id, Balances.FinancialUsers(StoreOf(Now()), id))
    {
      var store := Ledger.Store(LedgerGroups(groups), books.expenses, books.settlements, books.itemizedLines);
      var summary := DebtSummaries.GetForGroup(store, id);
      balances := summary.value.balances;
    }

    /** `next((balance ... if user matches), 0)`. */
    static method BalanceOf(balances: seq<Debts.Balance>, u: UserId) returns (net: int)
      ensures (net == 0 && forall b | b in balances :: b.user != u) || Debts.Balance(u, net) in balances
    {
      for i := 0 to |balances|
        invariant forall k | 0 <= k < i :: balances[k].user != u
      {
        if balances[i].user == u {
          return balances[i].net;
        }
      }
      return 0;
    }

    method RemoveGroupMember(id: GroupId, actor: UserId, target: UserId) returns (refusal: Option<Refusal>)
      requires Ledger.Sound(StoreOf(Now()))
      modifies this`groups
      ensures Now() == AfterRemove(old(Now()), id, actor, target)
      ensures refusal == RemoveRefusal(old(Now()), id, actor, target)
    {
      refusal := Authorize(id, actor, false);
      if refusal.Some? {
        return;
      }
      var g := groups[id];
      if !IsActive(g, target) {
        return Some(MemberNotFound);
      }
      if actor != target {
        if Rank(g.members[actor].role) <= Rank(g.members[target].role) {
          return Some(GroupForbidden);
        }
      }
      if g.members[target].role.Owner? && |Owners(g)| == 1 {
        return Some(LastOwnerRequired);
      }
      var balances := SummaryBalances(id);
      assert target in Balances.FinancialUsers(StoreOf(Now()), id);
      var balance := BalanceOf(balances, target);
      if balance != 0 {
        return Some(MemberHasUnsettledBalance);
      }
      groups := groups[id := g.(members := g.members[target := g.members[target].(left := true)])];
    }

    method UpdateMemberRole(id: GroupId, actor: UserId, target: UserId, role: Role) returns (refusal: Option<Refusal>)
      modifies this`groups
      ensures Now() == AfterRole(old(Now()), id, actor, target, role)
      ensures refusal == RoleRefusal(old(Now()), id, actor, target, role)
    {
      refusal := Authorize(id, actor, true);
      if refusal.Some? {
        return;
      }
      var g := groups[id];
      if !IsActive(g, target) {
        return Some(MemberNotFound);
      }
      if g.members[target].role == role {
        assert groups == groups[id := g];
        return;
      }
      var activeOwners := Owners(g);
      if g.members[target].role.Owner? && |activeOwners| == 1 {
        return Some(LastOwnerRequired);
      }
      SetRole(id, target, role);
      if role.Owner? && actor != target && |activeOwners| == 1 {
        SetRole(id, actor, Admin);
      }
    }

    method ArchiveGroup(id: GroupId, actor: UserId) returns (refusal: Option<Refusal>)
      requires Ledger.Sound(StoreOf(Now()))
      modifies this`groups
      ensures Now() == AfterArchive(old(Now()), id, actor)
      ensures refusal == ArchiveRefusal(old(Now()), id, actor)
    {
      refusal := Authorize(id, actor, true);
      if refusal.Some? {
        return;
      }
      if !groups[id].archived {
        var balances := SummaryBalances(id);
        if b :| b in balances && b.net != 0 {
          assert b.user in Balances.FinancialUsers(StoreOf(Now()), id);
          return Some(GroupHasUnsettledBalances);
        }
        groups := groups[id := groups[id].(archived := true)];
      } else {
        assert groups == groups[id := groups[id].(archived := true)];
      }
    }

    method CreateInvitation(invitation: InvitationId, id: GroupId,
        actor: UserId, email: Email, role: Role, expiresAt: Time)
      returns (refusal: Option<Refusal>)
      modifies this`invitations
      ensures Now() == AfterInvite(old(Now()), invitation, id, actor, email, role, expiresAt)
      ensures refusal == InviteRefusal(old(Now()), id, actor, role)
    {
      refusal := Authorize(id, actor, false);
      if refusal.Some? {
        return;
      }
      var actorRole := groups[id].members[actor].role;
      if actorRole.Member? || role.Owner? || (actorRole.Admin? && !role.Member?) {
        return Some(GroupForbidden);
      }
      if groups[id].archived {
        return Some(GroupNotFound);
      }
      invitations := invitations[invitation := Invitation(id, email, role, expiresAt, false)];
    }

    method AcceptInvitation(invitation: InvitationId, user: UserId, now: Time) returns (refusal: Option<Refusal>)
      requires user in users
      modifies this`groups, this`invitations
      ensures Now() == AfterAccept(old(Now()), invitation, user, now)
      ensures refusal == AcceptRefusal(old(Now()), invitation, user, now)
    {
      if invitation !in invitations {
        return Some(InvitationExpiredOrUsed);
      }
      var i := invitations[invitation];
      if i.used || i.expiresAt <= now {
        return Some(InvitationExpiredOrUsed);
      }
      if !users[user].verified || users[user].email != i.email {
        return Some(InvitationEmailMismatch);
      }
      if i.group !in groups || groups[i.group].archived {
        return Some(InvitationExpiredOrUsed);
      }
      var entered := Enter(i.group, user, i.role, now);
      if !entered {
        return Some(MemberAlreadyExists);
      }
      invitations := invitations[invitation := i.(used := true)];
      return None;
    }

    /** The least candidate by role, joining time and id. */
    method FindSuccessor(g: Group, candidates: set<UserId>) returns (s: UserId)
      requires candidates != {} && candidates <= g.members.Keys
      ensures IsFirst(g, candidates, s)
    {
      s :| s in candidates;
      var rest := candidates - {s};
      while rest != {}
        invariant rest <= candidates && s in candidates && s !in rest
        invariant forall c | c in candidates && c !in rest && c != s :: Precedes(g, s, c)
      {
        var c: UserId :| c in rest;
        rest := rest - {c};
        if Precedes(g, c, s) { s := c; }
      }
    }

    method PrepareForUserDeletion(user: UserId) returns (affected: set<GroupId>)
      modifies this`groups
      ensures groups == ResolvedGroups(old(groups), user)
      ensures forall id ::
                id in affected <==> id in old(groups) && !old(groups)[id].archived && IsActive(old(groups)[id], user)
    {
      affected := set id | id in groups && !groups[id].archived && IsActive(groups[id], user);
      var remaining := affected;
      while remaining != {}
        invariant remaining <= affected && groups.Keys == old(groups).Keys
        invariant forall id | id in groups ::
                    groups[id] == if id in remaining then old(groups)[id] else Resolved(old(groups)[id], user)
      {
        var id: GroupId :| id in remaining;
        remaining := remaining - {id};
        var g := groups[id];
        if g.members[user].role.Owner? {
          var candidates := Candidates(g, user);
          if candidates == {} {
            groups := groups[id := g.(archived := true)];
          } else {
            var successor := FindSuccessor(g, candidates);
            FirstIsUnique(g, candidates, successor, Successor(g, user));
            SetRole(id, successor, Owner);
          }
        }
      }
    }

    method DeleteUser(user: UserId) returns (affected: set<GroupId>)
      requires user in users
      modifies this`users, this`groups
      ensures Now() == AfterDeletion(old(Now()), user)
    {
      affected := PrepareForUserDeletion(user);
      users := users - {user};
      groups := ForgottenGroups(groups, user);
    }
  }
}
