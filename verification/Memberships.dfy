/**
 * How memberships begin, change and end, event by event: each theorem gives the exact
 * events, said in terms of the members, invitations and rows before the event.
 */
module Memberships {
  import opened Basics
  import opened Roles
  import Balances

  /** Owners hand out every role but their own, admins that of a member. */
  ghost predicate MayGrant(g: Group, actor: UserId, role: Role) {
    (Holds(g, actor, Owner) && role in {Admin, Member}) || (Holds(g, actor, Admin) && role == Member)
  }

  /** The user has a verified address and the invitation was sent to it, is unused and has not run out. */
  ghost predicate IsFor(i: Invitation, u: User, now: Time) {
    u.verified && u.email == i.email && !i.used && now < i.expiresAt
  }

  // ---------- entering ----------

  /** The event that lets a user into an existing group, the role and the time. */
  ghost predicate LetsIn(w: World, event: Event, group: GroupId, u: UserId, role: Role, now: Time)
    requires group in w.groups
  {
    match event
    case AddMember(id, actor, target, granted, at) =>
      && id == group && target == u && granted == role && at == now
      && u in w.users && MayGrant(w.groups[group], actor, role)
    case Accept(id, user, at) =>
      && user == u && at == now && id in w.invitations && u in w.users
      && w.invitations[id].group == group && w.invitations[id].role == role
      && IsFor(w.invitations[id], w.users[u], now) && !w.groups[group].archived
    case _ => false
  }

  ghost predicate ActiveAfter(w: World, event: Event, group: GroupId, u: UserId)
    requires Enabled(w, event)
  {
    group in Step(w, event).groups && IsActive(Step(w, event).groups[group], u)
  }

  /** Whoever is not an active member becomes one exactly by these events, with this role and time. */
  lemma MembershipBeginsExactlyWhen(w: World, event: Event, group: GroupId, u: UserId)
    requires Enabled(w, event) && group in w.groups && !IsActive(w.groups[group], u)
    ensures ActiveAfter(w, event, group, u) <==> exists role, now :: LetsIn(w, event, group, u, role, now)
    ensures forall role, now | LetsIn(w, event, group, u, role, now) ::
              ActiveAfter(w, event, group, u)
              && Step(w, event).groups[group].members[u] == Membership(role, now, false)
  {
    match event {
      case AddMember(id, actor, target, role, now) =>
        assert LetsIn(w, event, group, u, role, now) <==> ActiveAfter(w, event, group, u);
      case Accept(id, user, now) =>
        if id in w.invitations {
          assert LetsIn(w, event, group, u, w.invitations[id].role, now) <==> ActiveAfter(w, event, group, u);
        }
      case CreateDirect(id, actor, friend, now) => DirectKeepsOthers(w, id, actor, friend, now, group);
      case _ =>
    }
  }

  // ---------- leaving ----------

  ghost predicate Removes(w: World, event: Event, group: GroupId, u: UserId)
    requires group in w.groups && IsActive(w.groups[group], u)
  {
    var g := w.groups[group];
    match event
    case DeleteAccount(user) => user == u
    case RemoveMember(id, actor, target) =>
      && id == group && target == u && !Holds(g, u, Owner) && Balances.Net(StoreOf(w), group, u) == 0
      && (actor == u || Holds(g, actor, Owner) || (Holds(g, actor, Admin) && Holds(g, u, Member)))
    case _ => false
  }

  /**
   * An active member stops being one exactly with the account, or when somebody other than the
   * owner, settled in the group, leaves or is removed by the owner, or a plain member by an admin.
   */
  lemma MembershipEndsExactlyWhen(w: World, event: Event, group: GroupId, u: UserId)
    requires Inv(w) && Enabled(w, event) && group in w.groups && IsActive(w.groups[group], u)
    ensures !ActiveAfter(w, event, group, u) <==> Removes(w, event, group, u)
  {
    match event {
      case RemoveMember(id, actor, target) => RemovalExactlyWhen(w, id, actor, target, group, u);
      case DeleteAccount(user) => DeletionEndsExactlyWhen(w, user, group, u);
      case _ => MembershipStays(w, event, group, u);
    }
  }

  lemma DeletionEndsExactlyWhen(w: World, user: UserId, group: GroupId, u: UserId)
    requires group in w.groups && IsActive(w.groups[group], u)
    ensures group in AfterDeletion(w, user).groups
    ensures !IsActive(AfterDeletion(w, user).groups[group], u) <==> user == u
  {
    if user != u { DeletionKeepsMembership(w, user, group, u); }
  }

  lemma RemovalExactlyWhen(w: World, id: GroupId, actor: UserId, target: UserId, group: GroupId, u: UserId)
    requires group in w.groups && GroupOk(w.groups[group]) && IsActive(w.groups[group], u)
    ensures group in AfterRemove(w, id, actor, target).groups
    ensures !IsActive(AfterRemove(w, id, actor, target).groups[group], u) <==>
            Removes(w, RemoveMember(id, actor, target), group, u)
  {
    if id == group && target == u {
      RemovalAllowedExactlyWhen(w, group, actor, u);
    }
  }

  lemma RemovalAllowedExactlyWhen(w: World, group: GroupId, actor: UserId, u: UserId)
    requires group in w.groups && GroupOk(w.groups[group]) && IsActive(w.groups[group], u)
    ensures RemoveRefusal(w, group, actor, u).None? <==> Removes(w, RemoveMember(group, actor, u), group, u)
  {
    var g := w.groups[group];
    if Holds(g, u, Owner) {
      assert u in Owners(g);
    }
  }

  // ---------- roles ----------

  /** Nobody else who is active comes first: admins before members, then by joining time, then by id. */
  ghost predicate IsSenior(g: Group, leaver: UserId, s: UserId) {
    && s != leaver && IsActive(g, s)
    && forall c | c != leaver && c != s && IsActive(g, c) && g.members[c].role != Owner ::
         var x, y := g.members[s], g.members[c];
         || (x.role == Admin && y.role == Member)
         || (x.role == y.role && (x.joinedAt < y.joinedAt || (x.joinedAt == y.joinedAt && s < c)))
  }

  /** The event gives the member this role. */
  ghost predicate Gives(w: World, event: Event, group: GroupId, u: UserId, role: Role)
    requires group in w.groups
  {
    var g := w.groups[group];
    match event
    case UpdateRole(id, actor, target, granted) =>
      && id == group && Holds(g, actor, Owner) && IsActive(g, target) && actor != target
      && ((u == target && role == granted) || (u == actor && granted == Owner && role == Admin))
    case DeleteAccount(user) => !g.archived && Holds(g, user, Owner) && IsSenior(g, user, u) && role == Owner
    case _ => false
  }

  /**
   * The role of a member who stays changes exactly when the owner grants another member a new
   * role, becoming an admin when it is ownership, or when the owner's account is deleted and
   * the member is the most senior of the others.
   */
  lemma RoleChangesExactlyWhen(w: World, event: Event, group: GroupId, u: UserId, role: Role)
    requires Inv(w) && Enabled(w, event) && group in w.groups
    requires IsActive(w.groups[group], u) && ActiveAfter(w, event, group, u) && w.groups[group].members[u].role != role
    ensures Step(w, event).groups[group].members[u].role == role <==> Gives(w, event, group, u, role)
  {
    assert GroupOk(w.groups[group]);
    match event {
      case UpdateRole(id, actor, target, granted) => GrantExactlyWhen(w, id, actor, target, granted, group, u, role);
      case DeleteAccount(user) => SuccessionExactlyWhen(w, user, group, u, role);
      case _ => RoleStays(w, event, group, u);
    }
  }

  lemma RoleStays(w: World, event: Event, group: GroupId, u: UserId)
    requires Enabled(w, event) && group in w.groups && IsActive(w.groups[group], u)
    requires !event.UpdateRole? && !event.DeleteAccount?
    ensures group in Step(w, event).groups && u in Step(w, event).groups[group].members
    ensures Step(w, event).groups[group].members[u].role == w.groups[group].members[u].role
  {
    if event.CreateDirect? {
      DirectKeepsOthers(w, event.group, event.actor, event.friend, event.now, group);
    }
  }

  lemma GrantExactlyWhen(w: World, id: GroupId, actor: UserId, target: UserId, granted: Role, group: GroupId,
      u: UserId, role: Role)
    requires group in w.groups && GroupOk(w.groups[group])
    requires IsActive(w.groups[group], u) && w.groups[group].members[u].role != role
    ensures group in AfterRole(w, id, actor, target, granted).groups
    ensures var after := AfterRole(w, id, actor, target, granted).groups[group];
            u in after.members
            && (after.members[u].role == role <==> Gives(w, UpdateRole(id, actor, target, granted), group, u, role))
  {
    var g := w.groups[group];
    if id == group {
      GrantAllowedExactlyWhen(w, group, actor, target, granted);
      if Holds(g, actor, Owner) && IsActive(g, target) && (actor != target || granted == Owner) {
        GrantInGroup(g, actor, target, granted, u, role);
      }
    }
  }

  lemma GrantAllowedExactlyWhen(w: World, group: GroupId, actor: UserId, target: UserId, granted: Role)
    requires group in w.groups && GroupOk(w.groups[group])
    ensures RoleRefusal(w, group, actor, target, granted).None? <==>
            && Holds(w.groups[group], actor, Owner) && IsActive(w.groups[group], target)
            && (actor != target || granted == Owner)
  {
    var g := w.groups[group];
    if Holds(g, actor, Owner) {
      assert actor in Owners(g);
      TheOwner(g, actor);
      assert Holds(g, target, Owner) ==> target in Owners(g);
    }
  }

  lemma GrantInGroup(g: Group, actor: UserId, target: UserId, granted: Role, u: UserId, role: Role)
    requires GroupOk(g) && Holds(g, actor, Owner) && IsActive(g, target) && (actor != target || granted == Owner)
    requires IsActive(g, u) && g.members[u].role != role
    ensures u in RoleChanged(g, actor, target, granted).members
    ensures RoleChanged(g, actor, target, granted).members[u].role == role <==>
            actor != target && ((u == target && role == granted) || (u == actor && granted == Owner && role == Admin))
  {
    assert actor in Owners(g);
    TheOwner(g, actor);
    assert Holds(g, target, Owner) ==> target in Owners(g);
  }

  lemma SuccessionExactlyWhen(w: World, user: UserId, group: GroupId, u: UserId, role: Role)
    requires group in w.groups && GroupOk(w.groups[group]) && u != user
    requires IsActive(w.groups[group], u) && w.groups[group].members[u].role != role
    ensures group in AfterDeletion(w, user).groups && u in AfterDeletion(w, user).groups[group].members
    ensures AfterDeletion(w, user).groups[group].members[u].role == role <==>
            Gives(w, DeleteAccount(user), group, u, role)
  {
    var g := w.groups[group];
    if !g.archived && Holds(g, user, Owner) {
      assert user in Owners(g);
      TheOwner(g, user);
      assert u in Candidates(g, user) && u !in Owners(g);
      SeniorIsSuccessor(g, user, u);
    }
  }

  lemma SeniorIsSuccessor(g: Group, user: UserId, u: UserId)
    requires Owners(g) == {user} && u in Candidates(g, user)
    ensures IsSenior(g, user, u) <==> u == Successor(g, user)
  {
    assert forall c | c != user && IsActive(g, c) :: c in Candidates(g, user) && c !in Owners(g);
    var s := Successor(g, user);
    assert IsFirst(g, Candidates(g, user), s);
  }

  // ---------- archiving ----------

  /** A group is archived exactly by its owner when every net balance is zero, or with its last member's account. */
  lemma ArchivedExactlyWhen(w: World, event: Event, group: GroupId)
    requires Inv(w) && Enabled(w, event) && group in w.groups && !w.groups[group].archived
    ensures group in Step(w, event).groups
    ensures Step(w, event).groups[group].archived <==>
              || (event.Archive? && event.group == group && Holds(w.groups[group], event.actor, Owner)
                  && forall u :: Balances.Net(StoreOf(w), group, u) == 0)
              || (event.DeleteAccount? && Holds(w.groups[group], event.user, Owner)
                  && forall v | v != event.user :: !IsActive(w.groups[group], v))
  {
    ArchivedOnlyBy(w, event, group);
    if event.DeleteAccount? {
      assert forall v | v != event.user && IsActive(w.groups[group], v) :: v in Candidates(w.groups[group], event.user);
    }
  }

  // ---------- new groups ----------

  lemma GroupAppearsExactlyWhen(w: World, event: Event, group: GroupId)
    requires Enabled(w, event) && group !in w.groups
    ensures group in Step(w, event).groups <==>
              || (event.Create? && event.group == group)
              || (event.CreateDirect? && event.group == group && event.actor != event.friend && event.friend in w.users
                  && forall d | d in w.groups && w.groups[d].direct ::
                       !(IsActive(w.groups[d], event.actor) && IsActive(w.groups[d], event.friend)))
    ensures group in Step(w, event).groups ==>
              var g := Step(w, event).groups[group];
              && !g.archived && g.direct == event.CreateDirect?
              && g.currency == (if event.CreateDirect? then 949 else event.currency)
              && g.members == (if event.Create? then map[event.actor := Membership(Owner, event.now, false)]
                               else map[event.actor := Membership(Owner, event.now, false),
                                        event.friend := Membership(Member, event.now, false)])
  {
  }

  // ---------- invitations ----------

  /** An invitation is stored exactly when its sender may grant the role in a group that is not archived. */
  lemma InvitationSentExactlyWhen(w: World, event: Event)
    requires Enabled(w, event) && event.Invite?
    ensures Step(w, event) != w <==>
              event.group in w.groups && !w.groups[event.group].archived
              && MayGrant(w.groups[event.group], event.actor, event.role)
    ensures Step(w, event) != w ==>
              Step(w, event) == w.(invitations := w.invitations[event.invitation :=
                Invitation(event.group, event.email, event.role, event.expiresAt, false)])
  {
    if InviteRefusal(w, event.group, event.actor, event.role).None? {
      assert event.invitation in Step(w, event).invitations;
    }
  }

  /** At step `m` the invitation was stored. */
  ghost predicate Sent(worlds: seq<World>, events: seq<Event>, m: nat, id: InvitationId) {
    && m < |events| && |worlds| == |events| + 1
    && events[m].Invite? && events[m].invitation == id && worlds[m + 1] != worlds[m]
  }

  /** At step `m` the invitation let somebody in. */
  ghost predicate Used(worlds: seq<World>, events: seq<Event>, m: nat, id: InvitationId) {
    && m < |events| && |worlds| == |events| + 1
    && events[m].Accept? && events[m].invitation == id && worlds[m + 1] != worlds[m]
  }

  ghost predicate UsedBetween(worlds: seq<World>, events: seq<Event>, m: nat, n: nat, id: InvitationId) {
    exists k :: m < k < n && Used(worlds, events, k, id)
  }

  /** What the table says of an invitation is what the run did with it. */
  ghost predicate Traced(worlds: seq<World>, events: seq<Event>, n: nat, id: InvitationId, m: nat)
    requires n < |worlds|
  {
    && m < n && Sent(worlds, events, m, id) && id in worlds[n].invitations
    && worlds[n].invitations[id] == Invitation(events[m].group, events[m].email, events[m].role, events[m].expiresAt,
                                               UsedBetween(worlds, events, m, n, id))
  }

  lemma AcceptChanges(w: World, event: Event)
    requires Enabled(w, event) && event.Accept?
    ensures Step(w, event) != w <==> AcceptRefusal(w, event.invitation, event.user, event.now).None?
  {
    if AcceptRefusal(w, event.invitation, event.user, event.now).None? {
      assert Step(w, event).invitations[event.invitation].used;
    }
  }

  /** Every other event leaves a stored invitation as it is. */
  lemma InvitationStep(w: World, event: Event, id: InvitationId)
    requires Enabled(w, event)
    ensures id in w.invitations ==>
              && id in Step(w, event).invitations
              && Step(w, event).invitations[id] ==
                 (if event.Accept? && event.invitation == id && Step(w, event) != w
                  then w.invitations[id].(used := true) else w.invitations[id])
    ensures id !in w.invitations && id in Step(w, event).invitations ==>
              event.Invite? && event.invitation == id && Step(w, event) != w
  {
    if event.Accept? { AcceptChanges(w, event); }
  }

  lemma {:induction false} InvitationIsTraced(worlds: seq<World>, events: seq<Event>, n: nat, id: InvitationId)
      returns (m: nat)
    requires IsRun(worlds, events) && n < |worlds| && id in worlds[n].invitations
    ensures Traced(worlds, events, n, id, m)
  {
    var w, event := worlds[n - 1], events[n - 1];
    assert worlds[n - 1 + 1] == Step(w, event);
    InvitationStep(w, event, id);
    if id in w.invitations {
      m := InvitationIsTraced(worlds, events, n - 1, id);
      OneUseMore(worlds, events, n, id, m);
    } else {
      m := n - 1;
      InvitationSentExactlyWhen(w, event);
    }
  }

  lemma OneUseMore(worlds: seq<World>, events: seq<Event>, n: nat, id: InvitationId, m: nat)
    requires m + 1 < n < |worlds| && |worlds| == |events| + 1
    ensures UsedBetween(worlds, events, m, n, id) <==>
            UsedBetween(worlds, events, m, n - 1, id) || Used(worlds, events, n - 1, id)
  {
  }

  /** Once stored, an invitation stays in the table. */
  lemma {:induction false} SentStays(worlds: seq<World>, events: seq<Event>, m: nat, n: nat, id: InvitationId)
    requires IsRun(worlds, events) && m < n < |worlds| && Sent(worlds, events, m, id)
    ensures id in worlds[n].invitations
    decreases n
  {
    assert worlds[n - 1 + 1] == Step(worlds[n - 1], events[n - 1]);
    if m < n - 1 {
      SentStays(worlds, events, m, n - 1, id);
      InvitationStep(worlds[n - 1], events[n - 1], id);
    } else {
      InvitationSentExactlyWhen(worlds[m], events[m]);
    }
  }

  /** The invitation sent at step `m` is for this user at step `n`, and nobody has used it. */
  ghost predicate StillOpen(worlds: seq<World>, events: seq<Event>, m: nat, n: nat, id: InvitationId, u: UserId,
      now: Time)
    requires m < n < |worlds|
  {
    var w := worlds[n];
    && Sent(worlds, events, m, id) && !UsedBetween(worlds, events, m, n, id)
    && u in w.users && w.users[u].verified && w.users[u].email == events[m].email && now < events[m].expiresAt
    && events[m].group in w.groups && !w.groups[events[m].group].archived
    && !IsActive(w.groups[events[m].group], u)
  }

  /** The invitation sent at step `m` is open for the user who accepts at step `n`. */
  ghost predicate OpenFor(worlds: seq<World>, events: seq<Event>, m: nat, n: nat)
    requires m < n < |worlds| && n < |events| && events[n].Accept?
  {
    StillOpen(worlds, events, m, n, events[n].invitation, events[n].user, events[n].now)
  }

  /**
   * Over every run: accepting an invitation lets a user in exactly when an earlier event sent
   * it to the user's verified address, it has not run out, nobody used it before, its group is
   * not archived and the user is not an active member already.  The user then has the role
   * that was offered, in the group that was named, and the sender was entitled to offer it.
   */
  lemma AcceptedExactlyWhen(worlds: seq<World>, events: seq<Event>, n: nat)
    requires IsRun(worlds, events) && n < |events| && events[n].Accept?
    ensures worlds[n + 1] != worlds[n] <==> exists m :: 0 <= m < n && OpenFor(worlds, events, m, n)
    ensures forall m | 0 <= m < n && OpenFor(worlds, events, m, n) ::
              var g := events[m].group;
              && g in worlds[m].groups && MayGrant(worlds[m].groups[g], events[m].actor, events[m].role)
              && g in worlds[n + 1].groups
              && worlds[n + 1].groups[g] == worlds[n].groups[g].(members := worlds[n].groups[g].members[
                   events[n].user := Membership(events[m].role, events[n].now, false)])
  {
    var id, u, now := events[n].invitation, events[n].user, events[n].now;
    assert worlds[n + 1] == Step(worlds[n], events[n]);
    AcceptChanges(worlds[n], events[n]);
    if id in worlds[n].invitations {
      var m := InvitationIsTraced(worlds, events, n, id);
      if worlds[n + 1] != worlds[n] {
        assert OpenFor(worlds, events, m, n);
      }
    }
    forall m | 0 <= m < n && OpenFor(worlds, events, m, n)
      ensures AcceptRefusal(worlds[n], id, u, now).None?
      ensures worlds[n].invitations[id] ==
              Invitation(events[m].group, events[m].email, events[m].role, events[m].expiresAt, false)
      ensures events[m].group in worlds[m].groups
      ensures MayGrant(worlds[m].groups[events[m].group], events[m].actor, events[m].role)
    {
      OpenInvitation(worlds, events, m, n, id, u, now);
    }
  }

  lemma OpenInvitation(worlds: seq<World>, events: seq<Event>, m: nat, n: nat, id: InvitationId, u: UserId, now: Time)
    requires IsRun(worlds, events) && m < n < |events| && StillOpen(worlds, events, m, n, id, u, now)
    ensures id in worlds[n].invitations
    ensures worlds[n].invitations[id] ==
            Invitation(events[m].group, events[m].email, events[m].role, events[m].expiresAt, false)
    ensures AcceptRefusal(worlds[n], id, u, now).None?
    ensures events[m].group in worlds[m].groups
    ensures MayGrant(worlds[m].groups[events[m].group], events[m].actor, events[m].role)
  {
    assert worlds[m + 1] == Step(worlds[m], events[m]);
    InvitationSentExactlyWhen(worlds[m], events[m]);
    SentStays(worlds, events, m, n, id);
    var first := InvitationIsTraced(worlds, events, n, id);
    SentOnce(worlds, events, first, m, id);
  }

  /** No id is given to two invitations. */
  lemma SentOnce(worlds: seq<World>, events: seq<Event>, m: nat, n: nat, id: InvitationId)
    requires IsRun(worlds, events) && Sent(worlds, events, m, id) && Sent(worlds, events, n, id)
    ensures m == n
  {
    assert Enabled(worlds[m], events[m]) && Enabled(worlds[n], events[n]);
    if m < n {
      SentStays(worlds, events, m, n, id);
    } else if n < m {
      SentStays(worlds, events, n, m, id);
    }
  }

  // ---------- answers that refuse ----------

  /** An outsider is told so by every operation on the group, whoever the target and whatever the rows. */
  lemma OutsidersAreForbidden(w: World, group: GroupId, actor: UserId, target: UserId, role: Role)
    requires group in w.groups && !IsActive(w.groups[group], actor)
    ensures AddRefusal(w, group, actor, target, role) == Some(GroupForbidden)
    ensures RemoveRefusal(w, group, actor, target) == Some(GroupForbidden)
    ensures RoleRefusal(w, group, actor, target, role) == Some(GroupForbidden)
    ensures ArchiveRefusal(w, group, actor) == Some(GroupForbidden)
    ensures InviteRefusal(w, group, actor, role) == Some(GroupForbidden)
  {
  }

  /** A refused addition or removal is refused for a reason that holds. */
  lemma MemberRefusalsHold(w: World, group: GroupId, actor: UserId, target: UserId, role: Role)
    requires group in w.groups && GroupOk(w.groups[group])
    ensures var g := w.groups[group];
            match AddRefusal(w, group, actor, target, role)
            case None => MayGrant(g, actor, role) && target in w.users && !IsActive(g, target)
            case Some(GroupForbidden) => !MayGrant(g, actor, role)
            case Some(UserNotFound) => target !in w.users
            case Some(MemberAlreadyExists) => IsActive(g, target)
            case Some(_) => false
    ensures var g := w.groups[group];
            match RemoveRefusal(w, group, actor, target)
            case None => IsActive(g, target) && Removes(w, RemoveMember(group, actor, target), group, target)
            case Some(GroupForbidden) =>
              || !IsActive(g, actor)
              || (IsActive(g, target) && actor != target && !(Holds(g, actor, Owner) && !Holds(g, target, Owner))
                  && !(Holds(g, actor, Admin) && Holds(g, target, Member)))
            case Some(MemberNotFound) => !IsActive(g, target)
            case Some(LastOwnerRequired) => Holds(g, target, Owner)
            case Some(MemberHasUnsettledBalance) => Balances.Net(StoreOf(w), group, target) != 0
            case Some(_) => false
  {
    var g := w.groups[group];
    assert IsActive(g, target) && g.members[target].role.Owner? ==> target in Owners(g);
  }

  /** Who is not let in by an invitation learns the reason. */
  lemma AcceptRefusalsHold(w: World, id: InvitationId, user: UserId, now: Time)
    requires user in w.users
    ensures match AcceptRefusal(w, id, user, now)
            case None => id in w.invitations && IsFor(w.invitations[id], w.users[user], now)
            case Some(InvitationExpiredOrUsed) =>
              || id !in w.invitations || w.invitations[id].used || w.invitations[id].expiresAt <= now
              || w.invitations[id].group !in w.groups || w.groups[w.invitations[id].group].archived
            case Some(InvitationEmailMismatch) =>
              id in w.invitations && (!w.users[user].verified || w.users[user].email != w.invitations[id].email)
            case Some(MemberAlreadyExists) =>
              && id in w.invitations && w.invitations[id].group in w.groups
              && IsActive(w.groups[w.invitations[id].group], user)
            case Some(_) => false
  {
  }

  /** Whoever is not invited by address learns nothing about group or membership. */
  lemma StrangersLearnNothing(w: World, id: InvitationId, user: UserId, now: Time)
    requires user in w.users && id in w.invitations && !w.invitations[id].used && now < w.invitations[id].expiresAt
    requires !w.users[user].verified || w.users[user].email != w.invitations[id].email
    ensures AcceptRefusal(w, id, user, now) == Some(InvitationEmailMismatch)
    ensures Step(w, Accept(id, user, now)) == w
  {
  }
}
