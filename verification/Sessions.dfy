/**
 * Refresh-session rotation.  Every login starts a family; rotating a refresh token
 * revokes its session and appends a successor to the family.  Presenting a revoked token
 * is a detected reuse: it revokes the whole family and, the first time, raises the user's
 * auth version, which invalidates the access tokens issued so far.
 *
 * Token hashes are injective, so a refresh token stands for its session; sessions are
 * numbered in order of creation.
 */
module Sessions {
  import opened Basics

  type SessionId = nat
  type FamilyId = nat
  type Time = int

  datatype Status = Active | Suspended | DeletionPending

  datatype User = User(status: Status, authVersion: nat)

  datatype Session = Session(
    user: UserId,
    family: FamilyId,
    parent: Option<SessionId>,
    replacedBy: Option<SessionId>,
    expiresAt: Time,
    revokedAt: Option<Time>,
    reuseDetectedAt: Option<Time>)

  datatype AccessToken = AccessToken(user: UserId, session: SessionId, version: nat)

  /** `tokens` is the history of access tokens issued. */
  datatype World = World(users: map<UserId, User>, sessions: seq<Session>, tokens: set<AccessToken>)

  // ---------- bulk updates ----------

  /** Revokes what is still unrevoked in the family and flags it. */
  function RevokedFamily(ss: seq<Session>, family: FamilyId, now: Time): seq<Session> {
    seq(|ss|, i requires 0 <= i < |ss| =>
      if ss[i].family == family && ss[i].revokedAt.None?
          then ss[i].(revokedAt := Some(now), reuseDetectedAt := Some(now)) else ss[i])
  }

  function RevokedUser(ss: seq<Session>, user: UserId, now: Time): seq<Session> {
    seq(|ss|, i requires 0 <= i < |ss| =>
      if ss[i].user == user && ss[i].revokedAt.None? then ss[i].(revokedAt := Some(now)) else ss[i])
  }

  function Bumped(users: map<UserId, User>, user: UserId): map<UserId, User> {
    if user in users then users[user := users[user].(authVersion := users[user].authVersion + 1)] else users
  }

  // ---------- operations ----------

  function Issued(w: World, user: UserId, family: FamilyId, parent: Option<SessionId>, expiresAt: Time): World
    requires user in w.users
  {
    w.(sessions := w.sessions + [Session(user, family, parent, None, expiresAt, None, None)],
       tokens := w.tokens + {AccessToken(user, |w.sessions|, w.users[user].authVersion)})
  }

  datatype RotateResult = Rotated(session: SessionId) | InvalidToken | ReuseDetected | Expired

  function RotateOutcome(w: World, i: SessionId, now: Time): RotateResult {
    if i >= |w.sessions| then InvalidToken
    else
      var current := w.sessions[i];
      if current.user !in w.users || !w.users[current.user].status.Active? then InvalidToken
      else if current.revokedAt.Some? then ReuseDetected
      else if current.expiresAt <= now then Expired
      else Rotated(|w.sessions|)
  }

  function AfterRotate(w: World, i: SessionId, now: Time, expiresAt: Time): World {
    match RotateOutcome(w, i, now)
    case InvalidToken => w
    case ReuseDetected =>
      var current := w.sessions[i];
      var flagged :=
        if current.reuseDetectedAt.None? then w.sessions[i := current.(reuseDetectedAt := Some(now))]
        else w.sessions;
      w.(users := if current.reuseDetectedAt.None? then Bumped(w.users, current.user) else w.users,
         sessions := RevokedFamily(flagged, current.family, now))
    case Expired => w.(sessions := w.sessions[i := w.sessions[i].(revokedAt := Some(now))])
    case Rotated(next) =>
      var current := w.sessions[i];
      Issued(w.(sessions := w.sessions[i := current.(revokedAt := Some(now), replacedBy := Some(next))]),
             current.user, current.family, Some(i), expiresAt)
  }

  function AfterLogout(w: World, i: SessionId, allDevices: bool, now: Time): World {
    if i >= |w.sessions| then w
    else if allDevices then AfterRevokeAll(w, w.sessions[i].user, now)
    else if w.sessions[i].revokedAt.None? then w.(sessions := w.sessions[i := w.sessions[i].(revokedAt := Some(now))])
    else w
  }

  /** Also what a password reset does. */
  function AfterRevokeAll(w: World, user: UserId, now: Time): World {
    w.(users := Bumped(w.users, user), sessions := RevokedUser(w.sessions, user, now))
  }

  /** When an access token is accepted. */
  predicate Accepts(w: World, t: AccessToken) {
    && t.user in w.users
    && w.users[t.user].status.Active?
    && w.users[t.user].authVersion == t.version
    && t.session < |w.sessions|
    && w.sessions[t.session].user == t.user
    && w.sessions[t.session].revokedAt.None?
  }

  datatype Event =
    | Register(user: UserId)
    | Login(user: UserId, family: FamilyId, expiresAt: Time)
    | Rotate(session: SessionId, now: Time, expiresAt: Time)
    | Logout(session: SessionId, allDevices: bool, now: Time)
    | RevokeAll(user: UserId, now: Time)
    | Suspend(user: UserId)
    // The account is closed at once and removed unless an external revocation fails.
    | DeleteAccount(user: UserId, now: Time, removed: bool)

  /** New ids are really new; only active users log in. */
  predicate Enabled(w: World, event: Event) {
    match event
    case Register(u) => u !in w.users && forall i | 0 <= i < |w.sessions| :: w.sessions[i].user != u
    case Login(u, f, _) => u in w.users && w.users[u].status.Active?
        && forall i | 0 <= i < |w.sessions| :: w.sessions[i].family != f
    case Suspend(u) => u in w.users
    case DeleteAccount(u, _, _) => u in w.users
    case _ => true
  }

  function Step(w: World, event: Event): World
    requires Enabled(w, event)
  {
    match event
    case Register(u) => w.(users := w.users[u := User(Active, 1)])
    case Login(u, f, expiresAt) => Issued(w, u, f, None, expiresAt)
    case Rotate(i, now, expiresAt) => AfterRotate(w, i, now, expiresAt)
    case Logout(i, allDevices, now) => AfterLogout(w, i, allDevices, now)
    case RevokeAll(u, now) => AfterRevokeAll(w, u, now)
    case Suspend(u) => w.(users := w.users[u := w.users[u].(status := Suspended)])
    case DeleteAccount(u, now, removed) =>
      var closed := AfterRevokeAll(w.(users := w.users[u := w.users[u].(status := DeletionPending)]), u, now);
      if removed then closed.(users := closed.users - {u}) else closed
  }

  const INITIAL := World(map[], [], {})

  ghost predicate IsRun(worlds: seq<World>, events: seq<Event>) {
    && |worlds| == |events| + 1
    && worlds[0] == INITIAL
    && forall i | 0 <= i < |events| :: Enabled(worlds[i], events[i]) && worlds[i + 1] == Step(worlds[i], events[i])
  }

  // ---------- families are chains ----------

  /** The sessions of a family in order of creation. */
  ghost function Members(ss: seq<Session>, family: FamilyId): (c: seq<SessionId>)
    ensures forall k | 0 <= k < |c| :: c[k] < |ss| && ss[c[k]].family == family
  {
    if ss == [] then [] else
      var n := |ss| - 1;
      Members(ss[..n], family) + if ss[n].family == family then [n] else []
  }

  lemma {:induction false} MembersComplete(ss: seq<Session>, i: SessionId)
    requires i < |ss|
    ensures i in Members(ss, ss[i].family)
  {
    if i < |ss| - 1 {
      MembersComplete(ss[..|ss| - 1], i);
    }
  }

  ghost predicate Linked(ss: seq<Session>, c: seq<SessionId>, k: nat) {
    && k < |c| && c[k] < |ss|
    && ss[c[k]].parent == (if k == 0 then None else Some(c[k - 1]))
    && ss[c[k]].replacedBy == (if k == |c| - 1 then None else Some(c[k + 1]))
  }

  /** Each member but the last is replaced by the next, each but the first has the previous as parent. */
  ghost predicate IsChain(ss: seq<Session>, c: seq<SessionId>) {
    forall k | 0 <= k < |c| :: Linked(ss, c, k)
  }

  ghost predicate Last(ss: seq<Session>, i: SessionId)
    requires i < |ss|
  {
    var c := Members(ss, ss[i].family);
    c != [] && c[|c| - 1] == i
  }

  /** Which fields the chains are made of. */
  ghost predicate SameLinks(a: seq<Session>, b: seq<Session>) {
    && |a| == |b|
    && forall i | 0 <= i < |a| ::
         && b[i].family == a[i].family && b[i].user == a[i].user
         && b[i].parent == a[i].parent && b[i].replacedBy == a[i].replacedBy
  }

  ghost predicate RevocationsStay(a: seq<Session>, b: seq<Session>) {
    && |a| <= |b|
    && forall i | 0 <= i < |a| ::
         && b[i].family == a[i].family && b[i].user == a[i].user
         && (a[i].revokedAt.Some? ==> b[i].revokedAt.Some?)
         && (a[i].reuseDetectedAt.Some? ==> b[i].reuseDetectedAt.Some?)
  }

  lemma {:induction false} SameMembers(a: seq<Session>, b: seq<Session>, family: FamilyId)
    requires |a| == |b| && forall i | 0 <= i < |a| :: b[i].family == a[i].family
    ensures Members(a, family) == Members(b, family)
  {
    if a != [] {
      SameMembers(a[..|a| - 1], b[..|b| - 1], family);
    }
  }

  ghost predicate Families(ss: seq<Session>) {
    && (forall f :: IsChain(ss, Members(ss, f)))
    && (forall i | 0 <= i < |ss| && ss[i].revokedAt.None? :: Last(ss, i))
    && OneUserPerFamily(ss)
    && DeadAfterReuse(ss)
  }

  ghost predicate OneUserPerFamily(ss: seq<Session>) {
    forall i, j | 0 <= i < |ss| && 0 <= j < |ss| && ss[i].family == ss[j].family :: ss[i].user == ss[j].user
  }

  ghost predicate DeadAfterReuse(ss: seq<Session>) {
    forall i, j | 0 <= i < |ss| && 0 <= j < |ss| && ss[i].family == ss[j].family && ss[i].reuseDetectedAt.Some? ::
        ss[j].revokedAt.Some?
  }

  ghost predicate TokensOk(w: World) {
    forall t | t in w.tokens ::
      && t.session < |w.sessions| && w.sessions[t.session].user == t.user
      && (t.user in w.users ==> t.version <= w.users[t.user].authVersion)
  }

  ghost predicate Inv(w: World) {
    Families(w.sessions) && TokensOk(w)
  }

  lemma SameLinksSameChain(a: seq<Session>, b: seq<Session>, c: seq<SessionId>)
    requires IsChain(a, c) && |a| <= |b|
    requires forall k | 0 <= k < |c| ::
        c[k] < |a| && b[c[k]].parent == a[c[k]].parent && b[c[k]].replacedBy == a[c[k]].replacedBy
    ensures IsChain(b, c)
  {
    forall k | 0 <= k < |c| ensures Linked(b, c, k) {
      assert Linked(a, c, k);
    }
  }

  /** Revoking and flagging sessions keeps the chains, as long as flags come with a dead family. */
  lemma RevokingKeepsFamilies(a: seq<Session>, b: seq<Session>)
    requires Families(a) && SameLinks(a, b) && RevocationsStay(a, b)
    requires DeadAfterReuse(b)
    ensures Families(b)
  {
    forall f ensures IsChain(b, Members(b, f)) {
      SameMembers(a, b, f);
      assert IsChain(a, Members(a, f));
      SameLinksSameChain(a, b, Members(a, f));
    }
    forall i | 0 <= i < |b| && b[i].revokedAt.None? ensures Last(b, i) {
      assert Last(a, i);
      SameMembers(a, b, b[i].family);
    }
  }

  /** Revoking without flagging. */
  lemma PlainRevocation(a: seq<Session>, b: seq<Session>)
    requires Families(a) && |a| == |b|
    requires forall i | 0 <= i < |a| :: b[i] == a[i] || exists t :: b[i] == a[i].(revokedAt := Some(t))
    ensures Families(b) && RevocationsStay(a, b)
  {
    assert forall i | 0 <= i < |a| :: b[i].family == a[i].family && b[i].reuseDetectedAt == a[i].reuseDetectedAt;
    RevokingKeepsFamilies(a, b);
  }

  lemma MembersAppend(ss: seq<Session>, s: Session, f: FamilyId)
    ensures Members(ss + [s], f) == if s.family == f then Members(ss, f) + [|ss|] else Members(ss, f)
  {
    assert (ss + [s])[..|ss|] == ss;
    assert Members(ss, f) + [] == Members(ss, f);
  }

  lemma {:induction false} NoMembers(ss: seq<Session>, f: FamilyId)
    requires forall i | 0 <= i < |ss| :: ss[i].family != f
    ensures Members(ss, f) == []
  {
    if ss != [] {
      NoMembers(ss[..|ss| - 1], f);
    }
  }

  lemma NewFamilyChain(ss: seq<Session>, s: Session, f: FamilyId)
    requires IsChain(ss, Members(ss, f)) && forall i | 0 <= i < |ss| :: ss[i].family != s.family
    requires s.parent.None? && s.replacedBy.None?
    ensures IsChain(ss + [s], Members(ss + [s], f))
  {
    MembersAppend(ss, s, f);
    if f == s.family {
      NoMembers(ss, f);
    } else {
      SameLinksSameChain(ss, ss + [s], Members(ss, f));
    }
  }

  lemma NewFamilyIsUnflagged(ss: seq<Session>, s: Session)
    requires DeadAfterReuse(ss) && OneUserPerFamily(ss) && s.reuseDetectedAt.None?
    requires forall i | 0 <= i < |ss| :: ss[i].family != s.family
    ensures DeadAfterReuse(ss + [s]) && OneUserPerFamily(ss + [s])
  {
  }

  /** A session that starts a new family. */
  lemma NewFamily(ss: seq<Session>, s: Session)
    requires Families(ss) && forall i | 0 <= i < |ss| :: ss[i].family != s.family
    requires s.parent.None? && s.replacedBy.None? && s.reuseDetectedAt.None?
    ensures Families(ss + [s])
  {
    var after := ss + [s];
    forall f ensures IsChain(after, Members(after, f)) {
      assert IsChain(ss, Members(ss, f));
      NewFamilyChain(ss, s, f);
    }
    forall i | 0 <= i < |after| && after[i].revokedAt.None? ensures Last(after, i) {
      MembersAppend(ss, s, after[i].family);
      if i < |ss| { assert Last(ss, i); }
    }
    NewFamilyIsUnflagged(ss, s);
  }

  /** A link of the old chain is a link of the longer one, if its session points to the same neighbours. */
  lemma LinkStays(before: seq<Session>, after: seq<Session>, c: seq<SessionId>, next: SessionId, k: nat)
    requires k < |c| && c[k] < |before| && c[k] < |after| && Linked(before, c, k)
    requires after[c[k]].parent == before[c[k]].parent
    requires after[c[k]].replacedBy == if k == |c| - 1 then Some(next) else before[c[k]].replacedBy
    ensures Linked(after, c + [next], k)
  {
    var d := c + [next];
    assert d[k] == c[k];
    if k > 0 { assert d[k - 1] == c[k - 1]; }
    if k < |c| - 1 { assert d[k + 1] == c[k + 1]; }
  }

  /** Only the last of these sessions changed its links: it is now replaced by the next one. */
  ghost predicate Relinked(before: seq<Session>, after: seq<Session>, c: seq<SessionId>, next: SessionId) {
    forall k | 0 <= k < |c| ::
      && c[k] < |before| && c[k] < |after| && after[c[k]].parent == before[c[k]].parent
      && after[c[k]].replacedBy == if k == |c| - 1 then Some(next) else before[c[k]].replacedBy
  }

  /** Appending a successor behind the last member extends the chain by one. */
  lemma ChainExtends(before: seq<Session>, after: seq<Session>, c: seq<SessionId>, next: SessionId)
    requires IsChain(before, c) && c != [] && next < |after|
    requires Relinked(before, after, c, next)
    requires after[next].parent == Some(c[|c| - 1]) && after[next].replacedBy.None?
    ensures IsChain(after, c + [next])
  {
    var d := c + [next];
    forall k | 0 <= k < |d| ensures Linked(after, d, k) {
      if k < |c| {
        assert Linked(before, c, k);
        LinkStays(before, after, c, next, k);
      } else {
        assert d[k] == next && d[k - 1] == c[|c| - 1];
      }
    }
  }

  /** What rotating the live session `i` does to the sessions. */
  ghost predicate Succeeded(ss: seq<Session>, i: SessionId, after: seq<Session>)
    requires i < |ss|
  {
    && |after| == |ss| + 1
    && (forall j | 0 <= j < |ss| && j != i :: after[j] == ss[j])
    && after[i].family == ss[i].family && after[i].user == ss[i].user && after[i].parent == ss[i].parent
    && after[i].replacedBy == Some(|ss|) && after[i].revokedAt.Some?
       && after[i].reuseDetectedAt == ss[i].reuseDetectedAt
    && after[|ss|].family == ss[i].family && after[|ss|].user == ss[i].user && after[|ss|].parent == Some(i)
    && after[|ss|].replacedBy.None? && after[|ss|].reuseDetectedAt.None?
  }

  lemma SucceededMembers(ss: seq<Session>, i: SessionId, after: seq<Session>, f: FamilyId)
    requires i < |ss| && Succeeded(ss, i, after)
    ensures Members(after, f) == if f == ss[i].family then Members(ss, f) + [|ss|] else Members(ss, f)
  {
    SameMembers(ss, after[..|ss|], f);
    assert after == after[..|ss|] + [after[|ss|]];
    MembersAppend(after[..|ss|], after[|ss|], f);
  }

  lemma SuccessorLinks(ss: seq<Session>, i: SessionId, after: seq<Session>)
    requires i < |ss| && Succeeded(ss, i, after) && Last(ss, i)
    ensures Relinked(ss, after, Members(ss, ss[i].family), |ss|)
  {
    var c := Members(ss, ss[i].family);
    MembersAscend(ss, ss[i].family);
    forall k | 0 <= k < |c| - 1 ensures c[k] != i {
      assert c[k] < c[|c| - 1];
    }
  }

  lemma SuccessorExtendsChain(ss: seq<Session>, i: SessionId, after: seq<Session>)
    requires i < |ss| && Succeeded(ss, i, after) && Last(ss, i) && IsChain(ss, Members(ss, ss[i].family))
    ensures IsChain(after, Members(ss, ss[i].family) + [|ss|])
  {
    SuccessorLinks(ss, i, after);
    ChainExtends(ss, after, Members(ss, ss[i].family), |ss|);
  }

  lemma SuccessorKeepsChains(ss: seq<Session>, i: SessionId, after: seq<Session>, f: FamilyId)
    requires i < |ss| && Succeeded(ss, i, after) && Last(ss, i) && IsChain(ss, Members(ss, f))
    ensures IsChain(after, Members(after, f))
  {
    SucceededMembers(ss, i, after, f);
    if f == ss[i].family {
      SuccessorExtendsChain(ss, i, after);
    } else {
      var c := Members(ss, f);
      assert forall k | 0 <= k < |c| :: c[k] != i;
      SameLinksSameChain(ss, after, c);
    }
  }

  /** Only the new session is live in its family. */
  lemma SuccessorKeepsLast(ss: seq<Session>, i: SessionId, after: seq<Session>, k: SessionId)
    requires i < |ss| && Succeeded(ss, i, after) && Last(ss, i) && k < |after| && after[k].revokedAt.None?
    requires k < |ss| && ss[k].revokedAt.None? ==> Last(ss, k)
    ensures Last(after, k)
  {
    var f := after[k].family;
    SucceededMembers(ss, i, after, f);
    if k < |ss| {
      assert k != i && after[k] == ss[k];
      assert f != ss[i].family;
    } else {
      assert f == ss[i].family;
    }
  }

  /** A session that succeeds the live session of its family. */
  lemma SuccessorKeepsFamilies(ss: seq<Session>, i: SessionId, after: seq<Session>)
    requires Families(ss) && i < |ss| && ss[i].revokedAt.None? && Succeeded(ss, i, after)
    ensures Families(after)
  {
    assert Last(ss, i);
    forall f ensures IsChain(after, Members(after, f)) {
      SuccessorKeepsChains(ss, i, after, f);
    }
    forall k | 0 <= k < |after| && after[k].revokedAt.None? ensures Last(after, k) {
      SuccessorKeepsLast(ss, i, after, k);
    }
    SuccessorKeepsUsers(ss, i, after);
    SuccessorIsDeadSafe(ss, i, after);
  }

  lemma SuccessorKeepsUsers(ss: seq<Session>, i: SessionId, after: seq<Session>)
    requires OneUserPerFamily(ss) && i < |ss| && Succeeded(ss, i, after)
    ensures OneUserPerFamily(after)
  {
  }

  lemma SuccessorIsDeadSafe(ss: seq<Session>, i: SessionId, after: seq<Session>)
    requires DeadAfterReuse(ss) && i < |ss| && ss[i].revokedAt.None? && Succeeded(ss, i, after)
    ensures DeadAfterReuse(after)
  {
    forall j | 0 <= j < |ss| && ss[j].family == ss[i].family ensures ss[j].reuseDetectedAt.None? {
    }
  }

  lemma {:induction false} MembersAscend(ss: seq<Session>, f: FamilyId)
    ensures forall j, k | 0 <= j < k < |Members(ss, f)| :: Members(ss, f)[j] < Members(ss, f)[k]
  {
    if ss != [] {
      MembersAscend(ss[..|ss| - 1], f);
    }
  }

  lemma ReuseKeepsFamilies(ss: seq<Session>, i: SessionId, now: Time)
    requires Families(ss) && i < |ss| && ss[i].revokedAt.Some?
    ensures var flagged := if ss[i].reuseDetectedAt.None? then ss[i := ss[i].(reuseDetectedAt := Some(now))] else ss;
            var b := RevokedFamily(flagged, ss[i].family, now);
            Families(b) && RevocationsStay(ss, b)
  {
    var flagged := if ss[i].reuseDetectedAt.None? then ss[i := ss[i].(reuseDetectedAt := Some(now))] else ss;
    var b := RevokedFamily(flagged, ss[i].family, now);
    forall j, k | 0 <= j < |b| && 0 <= k < |b| && b[j].family == b[k].family && b[j].reuseDetectedAt.Some?
      ensures b[k].revokedAt.Some?
    {
      if b[j].family != ss[i].family { assert ss[j].reuseDetectedAt.Some?; }
    }
    RevokingKeepsFamilies(ss, b);
  }

  lemma RotateKeepsFamilies(w: World, i: SessionId, now: Time, expiresAt: Time)
    requires Families(w.sessions)
    ensures var after := AfterRotate(w, i, now, expiresAt).sessions;
            Families(after) && RevocationsStay(w.sessions, after)
  {
    match RotateOutcome(w, i, now) {
      case InvalidToken =>
      case ReuseDetected => ReuseKeepsFamilies(w.sessions, i, now);
      case Expired => PlainRevocation(w.sessions, AfterRotate(w, i, now, expiresAt).sessions);
      case Rotated(next) =>
        SuccessorKeepsFamilies(w.sessions, i, AfterRotate(w, i, now, expiresAt).sessions);
    }
  }

  lemma LogoutOnlyRevokes(w: World, i: SessionId, allDevices: bool, now: Time)
    requires Families(w.sessions)
    ensures var after := AfterLogout(w, i, allDevices, now).sessions;
            Families(after) && RevocationsStay(w.sessions, after)
  {
    if i < |w.sessions| {
      if allDevices {
        UserRevocation(w.sessions, w.sessions[i].user, now);
      } else {
        PlainRevocation(w.sessions, AfterLogout(w, i, allDevices, now).sessions);
      }
    }
  }

  lemma UserRevocation(ss: seq<Session>, user: UserId, now: Time)
    requires Families(ss)
    ensures Families(RevokedUser(ss, user, now)) && RevocationsStay(ss, RevokedUser(ss, user, now))
  {
    PlainRevocation(ss, RevokedUser(ss, user, now));
  }

  lemma StepKeepsFamilies(w: World, event: Event)
    requires Inv(w) && Enabled(w, event)
    ensures Families(Step(w, event).sessions) && RevocationsStay(w.sessions, Step(w, event).sessions)
  {
    var after := Step(w, event).sessions;
    match event {
      case Register(_) =>
      case Suspend(_) =>
      case Login(u, f, expiresAt) => NewFamily(w.sessions, Session(u, f, None, None, expiresAt, None, None));
      case Rotate(i, now, expiresAt) => RotateKeepsFamilies(w, i, now, expiresAt);
      case Logout(i, allDevices, now) => LogoutOnlyRevokes(w, i, allDevices, now);
      case RevokeAll(u, now) => UserRevocation(w.sessions, u, now);
      case DeleteAccount(u, now, _) => UserRevocation(w.sessions, u, now);
    }
  }

  lemma StepKeepsTokens(w: World, event: Event)
    requires TokensOk(w) && Enabled(w, event) && RevocationsStay(w.sessions, Step(w, event).sessions)
    ensures TokensOk(Step(w, event))
  {
    var after := Step(w, event);
    forall t | t in after.tokens
      ensures t.session < |after.sessions| && after.sessions[t.session].user == t.user
      ensures t.user in after.users ==> t.version <= after.users[t.user].authVersion
    {
      if t in w.tokens {
        assert w.sessions[t.session].user == t.user;
      }
    }
  }

  lemma {:induction false} RunKeepsInv(worlds: seq<World>, events: seq<Event>, n: nat)
    requires IsRun(worlds, events) && n < |worlds|
    ensures Inv(worlds[n])
  {
    if n > 0 {
      RunKeepsInv(worlds, events, n - 1);
      assert worlds[n - 1 + 1] == Step(worlds[n - 1], events[n - 1]);
      StepKeepsFamilies(worlds[n - 1], events[n - 1]);
      StepKeepsTokens(worlds[n - 1], events[n - 1]);
    }
  }

  // ---------- theorems ----------

  /** Over every run a family is one chain, and only its last session can be unrevoked. */
  lemma FamilyIsOneChain(worlds: seq<World>, events: seq<Event>, n: nat, family: FamilyId)
    requires IsRun(worlds, events) && n < |worlds|
    ensures var ss := worlds[n].sessions;
            var c := Members(ss, family);
            && IsChain(ss, c)
            && (forall i :: i in c <==> 0 <= i < |ss| && ss[i].family == family)
            && (forall k | 0 <= k < |c| && ss[c[k]].revokedAt.None? :: k == |c| - 1)
  {
    RunKeepsInv(worlds, events, n);
    var ss := worlds[n].sessions;
    var c := Members(ss, family);
    forall i | 0 <= i < |ss| && ss[i].family == family ensures i in c {
      MembersComplete(ss, i);
    }
    MembersAscend(ss, family);
    forall k | 0 <= k < |c| && ss[c[k]].revokedAt.None? ensures k == |c| - 1 {
      assert Last(ss, c[k]);
    }
  }

  lemma RunStepRevokes(worlds: seq<World>, events: seq<Event>, n: nat)
    requires IsRun(worlds, events) && n < |events|
    ensures RevocationsStay(worlds[n].sessions, worlds[n + 1].sessions)
  {
    RunKeepsInv(worlds, events, n);
    assert worlds[n + 1] == Step(worlds[n], events[n]);
    StepKeepsFamilies(worlds[n], events[n]);
  }

  lemma RevocationsCompose(a: seq<Session>, b: seq<Session>, c: seq<Session>)
    requires RevocationsStay(a, b) && RevocationsStay(b, c)
    ensures RevocationsStay(a, c)
  {
  }

  lemma {:induction false} RunKeepsRevocations(worlds: seq<World>, events: seq<Event>, m: nat, n: nat)
    requires IsRun(worlds, events) && m <= n < |worlds|
    ensures RevocationsStay(worlds[m].sessions, worlds[n].sessions)
    decreases n
  {
    if m < n {
      RunKeepsRevocations(worlds, events, m, n - 1);
      RunStepRevokes(worlds, events, n - 1);
      RevocationsCompose(worlds[m].sessions, worlds[n - 1].sessions, worlds[n].sessions);
    }
  }

  /** After a detected reuse the family never has a live session again, nor an accepted access token. */
  lemma ReuseEndsFamily(worlds: seq<World>, events: seq<Event>, m: nat, n: nat, i: SessionId)
    requires IsRun(worlds, events) && m <= n < |worlds|
    requires i < |worlds[m].sessions| && worlds[m].sessions[i].reuseDetectedAt.Some?
    ensures forall j | 0 <= j < |worlds[n].sessions| && worlds[n].sessions[j].family == worlds[m].sessions[i].family ::
              worlds[n].sessions[j].revokedAt.Some?
    ensures forall t | t in worlds[n].tokens && t.session < |worlds[n].sessions|
                       && worlds[n].sessions[t.session].family == worlds[m].sessions[i].family :: !Accepts(worlds[n], t)
  {
    RunKeepsInv(worlds, events, n);
    RunKeepsRevocations(worlds, events, m, n);
  }

  /** The token's user is gone or has moved on to a later auth version. */
  ghost predicate Outdated(w: World, t: AccessToken) {
    t.user !in w.users || t.version < w.users[t.user].authVersion
  }

  lemma OutdatedStays(w: World, event: Event, t: AccessToken)
    requires TokensOk(w) && Enabled(w, event) && t in w.tokens && Outdated(w, t)
    ensures t in Step(w, event).tokens && Outdated(Step(w, event), t) && !Accepts(Step(w, event), t)
  {
    assert w.sessions[t.session].user == t.user;
  }

  lemma RunStepKeepsOutdated(worlds: seq<World>, events: seq<Event>, n: nat, t: AccessToken)
    requires IsRun(worlds, events) && n < |events| && t in worlds[n].tokens && Outdated(worlds[n], t)
    ensures t in worlds[n + 1].tokens && Outdated(worlds[n + 1], t) && !Accepts(worlds[n + 1], t)
  {
    RunKeepsInv(worlds, events, n);
    assert worlds[n + 1] == Step(worlds[n], events[n]);
    OutdatedStays(worlds[n], events[n], t);
  }

  lemma {:induction false} OutdatedForever(worlds: seq<World>, events: seq<Event>, m: nat, n: nat, t: AccessToken)
    requires IsRun(worlds, events) && m <= n < |worlds| && t in worlds[m].tokens && Outdated(worlds[m], t)
    ensures t in worlds[n].tokens && Outdated(worlds[n], t) && !Accepts(worlds[n], t)
    decreases n
  {
    if m < n {
      OutdatedForever(worlds, events, m, n - 1, t);
      RunStepKeepsOutdated(worlds, events, n - 1, t);
    }
  }

  /** No access token issued to the user before a token's first detected reuse is ever accepted afterwards. */
  lemma FirstReuseInvalidatesTokens(worlds: seq<World>, events: seq<Event>, m: nat, n: nat, t: AccessToken)
    requires IsRun(worlds, events) && m < n < |worlds|
    requires events[m].Rotate? && RotateOutcome(worlds[m], events[m].session, events[m].now).ReuseDetected?
    requires worlds[m].sessions[events[m].session].reuseDetectedAt.None?
    requires t in worlds[m].tokens && t.user == worlds[m].sessions[events[m].session].user
    ensures !Accepts(worlds[n], t)
  {
    RunKeepsInv(worlds, events, m);
    assert worlds[m + 1] == Step(worlds[m], events[m]);
    assert Outdated(worlds[m + 1], t);
    OutdatedForever(worlds, events, m + 1, n, t);
  }

  /** The same holds after logging out of all devices, a password reset and account deletion. */
  lemma RevokeAllInvalidatesTokens(worlds: seq<World>, events: seq<Event>, m: nat, n: nat, t: AccessToken)
    requires IsRun(worlds, events) && m < n < |worlds| && t in worlds[m].tokens
    requires || (events[m].RevokeAll? && events[m].user == t.user)
             || (events[m].DeleteAccount? && events[m].user == t.user)
             || (events[m].Logout? && events[m].allDevices && events[m].session < |worlds[m].sessions|
                 && worlds[m].sessions[events[m].session].user == t.user)
    ensures !Accepts(worlds[n], t)
  {
    RunKeepsInv(worlds, events, m);
    assert worlds[m + 1] == Step(worlds[m], events[m]);
    assert Outdated(worlds[m + 1], t);
    OutdatedForever(worlds, events, m + 1, n, t);
  }

  /** The auth version rises at the first detection only; replaying a flagged token again changes nothing at all. */
  lemma RepeatedReuseChangesNothing(w: World, i: SessionId, now: Time, expiresAt: Time)
    requires Inv(w) && RotateOutcome(w, i, now).ReuseDetected?
    ensures AfterRotate(w, i, now, expiresAt) == w <==> w.sessions[i].reuseDetectedAt.Some?
  {
    var current := w.sessions[i];
    var after := AfterRotate(w, i, now, expiresAt);
    if current.reuseDetectedAt.Some? {
      assert after.sessions == w.sessions;
    } else {
      assert after.users[current.user].authVersion == w.users[current.user].authVersion + 1;
    }
  }

  /** Two accepted access tokens of the same family belong to the same session. */
  lemma AcceptedTokensShareSession(w: World, t: AccessToken, u: AccessToken)
    requires Inv(w) && Accepts(w, t) && Accepts(w, u)
    requires w.sessions[t.session].family == w.sessions[u.session].family
    ensures t.session == u.session
  {
    assert Last(w.sessions, t.session) && Last(w.sessions, u.session);
  }

  // ---------- the services ----------

  class SessionService {
    var users: map<UserId, User>
    var sessions: seq<Session>
    ghost var tokens: set<AccessToken>

    ghost function Now(): World
      reads this
    {
      World(users, sessions, tokens)
    }

    constructor ()
      ensures Now() == INITIAL && Inv(Now())
    {
      users, sessions, tokens := map[], [], {};
    }

    method RevokeFamily(family: FamilyId, now: Time)
      modifies this`sessions
      ensures sessions == RevokedFamily(old(sessions), family, now)
      ensures forall k | 0 <= k < |sessions| ::
                var before := old(sessions)[k];
                if before.family != family || before.revokedAt.Some? then sessions[k] == before
                else sessions[k] == before.(revokedAt := Some(now), reuseDetectedAt := Some(now))
    {
      for i := 0 to |sessions|
        invariant |sessions| == |old(sessions)|
        invariant forall k | 0 <= k < i :: sessions[k] == RevokedFamily(old(sessions), family, now)[k]
        invariant forall k | i <= k < |sessions| :: sessions[k] == old(sessions)[k]
      {
        if sessions[i].family == family && sessions[i].revokedAt.None? {
          sessions := sessions[i := sessions[i].(revokedAt := Some(now), reuseDetectedAt := Some(now))];
        }
      }
    }

    method RevokeUserSessions(user: UserId, now: Time)
      modifies this`sessions
      ensures sessions == RevokedUser(old(sessions), user, now)
      ensures forall k | 0 <= k < |sessions| ::
                var before := old(sessions)[k];
                if before.user != user || before.revokedAt.Some? then sessions[k] == before
                else sessions[k] == before.(revokedAt := Some(now))
    {
      for i := 0 to |sessions|
        invariant |sessions| == |old(sessions)|
        invariant forall k | 0 <= k < i :: sessions[k] == RevokedUser(old(sessions), user, now)[k]
        invariant forall k | i <= k < |sessions| :: sessions[k] == old(sessions)[k]
      {
        if sessions[i].user == user && sessions[i].revokedAt.None? {
          sessions := sessions[i := sessions[i].(revokedAt := Some(now))];
        }
      }
    }

    method Issue(user: UserId, family: FamilyId, parent: Option<SessionId>, expiresAt: Time)
        returns (token: AccessToken)
      requires user in users
      modifies this`sessions, this`tokens
      ensures Now() == Issued(old(Now()), user, family, parent, expiresAt)
      ensures token == AccessToken(user, |old(sessions)|, users[user].authVersion)
    {
      token := AccessToken(user, |sessions|, users[user].authVersion);
      sessions := sessions + [Session(user, family, parent, None, expiresAt, None, None)];
      tokens := tokens + {token};
    }

    method RotateToken(i: SessionId, now: Time, expiresAt: Time) returns (r: RotateResult)
      modifies this
      ensures Now() == AfterRotate(old(Now()), i, now, expiresAt)
      ensures r == RotateOutcome(old(Now()), i, now)
    {
      if i >= |sessions| {
        return InvalidToken;
      }
      var current := sessions[i];
      if current.user !in users || !users[current.user].status.Active? {
        return InvalidToken;
      }
      if current.revokedAt.Some? {
        if current.reuseDetectedAt.None? {
          sessions := sessions[i := current.(reuseDetectedAt := Some(now))];
          users := users[current.user := users[current.user].(authVersion := users[current.user].authVersion + 1)];
        }
        RevokeFamily(current.family, now);
        return ReuseDetected;
      }
      if current.expiresAt <= now {
        sessions := sessions[i := current.(revokedAt := Some(now))];
        return Expired;
      }
      current := current.(revokedAt := Some(now));
      sessions := sessions[i := current];
      var next := |sessions|;
      var _ := Issue(current.user, current.family, Some(i), expiresAt);
      sessions := sessions[i := current.(replacedBy := Some(next))];
      assert sessions == AfterRotate(old(Now()), i, now, expiresAt).sessions;
      return Rotated(next);
    }

    method RevokeAllForUser(user: UserId, now: Time)
      modifies this`users, this`sessions
      ensures Now() == AfterRevokeAll(old(Now()), user, now)
    {
      if user in users {
        users := users[user := users[user].(authVersion := users[user].authVersion + 1)];
      }
      RevokeUserSessions(user, now);
    }

    method LogoutSession(i: SessionId, allDevices: bool, now: Time)
      modifies this`users, this`sessions
      ensures Now() == AfterLogout(old(Now()), i, allDevices, now)
    {
      if i >= |sessions| {
        return;
      }
      if allDevices {
        RevokeAllForUser(sessions[i].user, now);
      } else if sessions[i].revokedAt.None? {
        sessions := sessions[i := sessions[i].(revokedAt := Some(now))];
      }
    }

    /** `get_current_user`. */
    method GetCurrentUser(t: AccessToken) returns (user: Option<UserId>)
      ensures user == if Accepts(Now(), t) then Some(t.user) else None
    {
      if t.user !in users || !users[t.user].status.Active? || users[t.user].authVersion != t.version {
        return None;
      }
      if t.session >= |sessions| || sessions[t.session].user != t.user || sessions[t.session].revokedAt.Some? {
        return None;
      }
      return Some(t.user);
    }
  }
}
