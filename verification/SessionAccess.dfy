/**
 * Who has access, over whole runs: an access token is accepted from the login or rotation
 * that issues it until the first event that ends it, and both are listed exactly.
 */
module SessionAccess {
  import opened Basics
  import opened Sessions

  predicate OfActiveUser(w: World, i: SessionId) {
    i < |w.sessions| && w.sessions[i].user in w.users && w.users[w.sessions[i].user].status == Active
  }

  /** An unrevoked session of an active user that has not expired. */
  predicate MayRotate(w: World, i: SessionId, now: Time) {
    OfActiveUser(w, i) && w.sessions[i].revokedAt == None && now < w.sessions[i].expiresAt
  }

  /** The token that belongs to the next session. */
  function NextToken(w: World, user: UserId): AccessToken
    requires user in w.users
  {
    AccessToken(user, |w.sessions|, w.users[user].authVersion)
  }

  // ---------- one rotation ----------

  /**
   * Rotating issues a session and a token exactly when the session presented is unrevoked and
   * unexpired and its user active.  The new session continues the family and the old one is over.
   */
  lemma RotationIssuesExactlyWhen(w: World, i: SessionId, now: Time, expiresAt: Time)
    requires Inv(w)
    ensures var after := Step(w, Rotate(i, now, expiresAt));
            && (after.tokens != w.tokens <==> MayRotate(w, i, now))
            && (|after.sessions| != |w.sessions| <==> MayRotate(w, i, now))
            && (RotateOutcome(w, i, now) == Rotated(|w.sessions|) <==> MayRotate(w, i, now))
    ensures MayRotate(w, i, now) ==>
              var s, after := w.sessions[i], Step(w, Rotate(i, now, expiresAt));
              && after.tokens == w.tokens + {NextToken(w, s.user)} && Accepts(after, NextToken(w, s.user))
              && after.sessions ==
                   w.sessions[i := s.(revokedAt := Some(now), replacedBy := Some(|w.sessions|))]
                   + [Session(s.user, s.family, Some(i), None, expiresAt, None, None)]
  {
    assert MayRotate(w, i, now) ==> NextToken(w, w.sessions[i].user) !in w.tokens;
  }

  /** An expired session is not rotated: it is revoked, and nothing else changes. */
  lemma ExpiredSessionIsRevoked(w: World, i: SessionId, now: Time, expiresAt: Time)
    requires OfActiveUser(w, i) && w.sessions[i].revokedAt == None && w.sessions[i].expiresAt <= now
    ensures RotateOutcome(w, i, now) == Expired
    ensures Step(w, Rotate(i, now, expiresAt)) ==
            w.(sessions := w.sessions[i := w.sessions[i].(revokedAt := Some(now))])
  {
  }

  /** A token that is unknown or whose user is not active changes nothing at all. */
  lemma InvalidRotationChangesNothing(w: World, i: SessionId, now: Time, expiresAt: Time)
    ensures RotateOutcome(w, i, now) == InvalidToken <==> !OfActiveUser(w, i)
    ensures !OfActiveUser(w, i) ==> Step(w, Rotate(i, now, expiresAt)) == w
    ensures RotateOutcome(w, i, now) == ReuseDetected <==> OfActiveUser(w, i) && w.sessions[i].revokedAt != None
  {
  }

  /** Logging out of one device revokes that session and leaves everything else alone. */
  lemma LogoutRevokesOne(w: World, i: SessionId, now: Time)
    requires i < |w.sessions|
    ensures var after := Step(w, Logout(i, false, now));
            && after.sessions[i].revokedAt != None && after.users == w.users && after.tokens == w.tokens
            && |after.sessions| == |w.sessions|
            && forall j | 0 <= j < |w.sessions| && (j != i || w.sessions[i].revokedAt != None) ::
                 after.sessions[j] == w.sessions[j]
  {
  }

  // ---------- when access begins ----------

  /** The event issues this token. */
  ghost predicate Issues(w: World, event: Event, t: AccessToken) {
    match event
    case Login(u, _, _) => u in w.users && t == NextToken(w, u)
    case Rotate(i, now, _) => MayRotate(w, i, now) && t == NextToken(w, w.sessions[i].user)
    case _ => false
  }

  /** The token was issued and is accepted. */
  ghost predicate HasAccess(w: World, t: AccessToken) {
    t in w.tokens && Accepts(w, t)
  }

  lemma AccessBeginsExactlyWhen(w: World, event: Event, t: AccessToken)
    requires Inv(w) && Enabled(w, event) && !HasAccess(w, t)
    ensures HasAccess(Step(w, event), t) <==> Issues(w, event, t)
  {
    if t in w.tokens {
      assert t.session < |w.sessions| && w.sessions[t.session].user == t.user;
    }
  }

  // ---------- when access ends ----------

  /** Presenting this revoked session again hits the holder of the token. */
  ghost predicate ReuseHits(w: World, i: SessionId, t: AccessToken) {
    && i < |w.sessions| && t.session < |w.sessions| && w.sessions[i].revokedAt != None
    && (|| w.sessions[i].family == w.sessions[t.session].family
        || (w.sessions[i].user == t.user && w.sessions[i].reuseDetectedAt == None))
  }

  /** The event ends the access that the token gives. */
  ghost predicate Ends(w: World, event: Event, t: AccessToken) {
    match event
    case Rotate(i, _, _) => i == t.session || ReuseHits(w, i, t)
    case Logout(i, allDevices, _) =>
      i == t.session || (allDevices && i < |w.sessions| && w.sessions[i].user == t.user)
    case RevokeAll(u, _) => u == t.user
    case Suspend(u) => u == t.user
    case DeleteAccount(u, _, _) => u == t.user
    case _ => false
  }

  lemma AccessEndsExactlyWhen(w: World, event: Event, t: AccessToken)
    requires Inv(w) && Enabled(w, event) && HasAccess(w, t)
    ensures !HasAccess(Step(w, event), t) <==> Ends(w, event, t)
  {
    match event {
      case Rotate(i, now, expiresAt) => RotationEndsExactlyWhen(w, i, now, expiresAt, t);
      case _ =>
    }
  }

  lemma RotationEndsExactlyWhen(w: World, i: SessionId, now: Time, expiresAt: Time, t: AccessToken)
    requires Inv(w) && HasAccess(w, t)
    ensures !Accepts(AfterRotate(w, i, now, expiresAt), t) <==> i == t.session || ReuseHits(w, i, t)
    ensures t in AfterRotate(w, i, now, expiresAt).tokens
  {
    if i < |w.sessions| && w.sessions[i].family == w.sessions[t.session].family {
      assert w.sessions[i].user == t.user;
    }
  }

  // ---------- over runs ----------

  /** The token was issued at some step and no later step ended its access. */
  ghost predicate IssuedAndNotEnded(worlds: seq<World>, events: seq<Event>, n: nat, t: AccessToken)
    requires n <= |events| && n < |worlds| && |worlds| == |events| + 1
  {
    exists m :: 0 <= m < n && Issues(worlds[m], events[m], t)
                && forall k | m < k < n :: !Ends(worlds[k], events[k], t)
  }

  /**
   * Over every run: a token is accepted exactly when a login or a rotation of an unrevoked,
   * unexpired session of an active user issued it, and nothing since then ended its access.
   */
  lemma {:induction false} AcceptedExactlyWhen(worlds: seq<World>, events: seq<Event>, n: nat, t: AccessToken)
    requires IsRun(worlds, events) && n < |worlds|
    ensures HasAccess(worlds[n], t) <==> IssuedAndNotEnded(worlds, events, n, t)
  {
    if n > 0 {
      var w, event := worlds[n - 1], events[n - 1];
      AcceptedExactlyWhen(worlds, events, n - 1, t);
      RunKeepsInv(worlds, events, n - 1);
      assert worlds[n - 1 + 1] == Step(w, event);
      if HasAccess(w, t) {
        AccessEndsExactlyWhen(w, event, t);
        NotIssuedTwice(w, event, t);
      } else {
        AccessBeginsExactlyWhen(w, event, t);
      }
      OneStepMore(worlds, events, n, t);
    }
  }

  lemma NotIssuedTwice(w: World, event: Event, t: AccessToken)
    requires Inv(w) && HasAccess(w, t)
    ensures !Issues(w, event, t)
  {
  }

  lemma OneStepMore(worlds: seq<World>, events: seq<Event>, n: nat, t: AccessToken)
    requires 0 < n <= |events| && |worlds| == |events| + 1
    ensures IssuedAndNotEnded(worlds, events, n, t) <==>
            || Issues(worlds[n - 1], events[n - 1], t)
            || (IssuedAndNotEnded(worlds, events, n - 1, t) && !Ends(worlds[n - 1], events[n - 1], t))
  {
    if IssuedAndNotEnded(worlds, events, n, t) {
      var m :| 0 <= m < n && Issues(worlds[m], events[m], t) && forall k | m < k < n :: !Ends(worlds[k], events[k], t);
      if m < n - 1 { assert !Ends(worlds[n - 1], events[n - 1], t); }
    }
    if IssuedAndNotEnded(worlds, events, n - 1, t) && !Ends(worlds[n - 1], events[n - 1], t) {
      var m :| 0 <= m < n - 1 && Issues(worlds[m], events[m], t)
               && forall k | m < k < n - 1 :: !Ends(worlds[k], events[k], t);
    }
  }

  /** A session that was revoked once, by logout, expiry, rotation or reuse, never gives access again. */
  lemma RevokedSessionGivesNoAccess(worlds: seq<World>, events: seq<Event>, m: nat, n: nat, t: AccessToken)
    requires IsRun(worlds, events) && m <= n < |worlds|
    requires t.session < |worlds[m].sessions| && worlds[m].sessions[t.session].revokedAt != None
    ensures !Accepts(worlds[n], t)
  {
    RunKeepsRevocations(worlds, events, m, n);
  }

  /**
   * Over every run: once an expired session is presented, or its user logs out of it, none of
   * its tokens is ever accepted again and no rotation of it ever issues anything.
   */
  lemma OverIsOver(worlds: seq<World>, events: seq<Event>, m: nat, n: nat, i: SessionId)
    requires IsRun(worlds, events) && m < n < |worlds| && i < |worlds[m].sessions|
    requires || (events[m].Logout? && events[m].session == i)
             || (events[m].Rotate? && events[m].session == i && OfActiveUser(worlds[m], i)
                 && worlds[m].sessions[i].expiresAt <= events[m].now)
    ensures forall t: AccessToken | t.session == i :: !Accepts(worlds[n], t)
    ensures forall now :: !MayRotate(worlds[n], i, now)
  {
    assert worlds[m + 1] == Step(worlds[m], events[m]);
    RunKeepsRevocations(worlds, events, m + 1, n);
    if events[m].Logout? && events[m].allDevices {
      assert worlds[m + 1].sessions[i].revokedAt != None;
    } else if events[m].Logout? {
      LogoutRevokesOne(worlds[m], i, events[m].now);
    }
  }
}
