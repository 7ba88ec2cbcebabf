/**
 What each call on the sessions changes and what it leaves alone, column by column: the session table, the token
 table and the marks in Redis before and after the call.
 */
module SessionEffects {
  import opened Collections
  import opened Sessions

  /** Seven days in nanoseconds. */
  const WEEK := 604_800_000_000_000

  predicate SameKey(s: State, t: State, k: nat) {
    (k in s.keys <==> k in t.keys) && (k in s.keys ==> s.keys[k] == t.keys[k])
  }

  /** A login adds one session of a week and, unless storing it fails, one token; nothing else changes. */
  lemma LoginAdds(s: State, user: UserId, tokenStored: bool)
    requires user in s.users
    ensures var t := Do(s, if tokenStored then Login(user) else LoginFails(user));
            && t.now == s.now && t.users == s.users && t.keys == s.keys
            && t.sessions == s.sessions + [Session(user, s.now, s.now + WEEK, None)]
            && t.tokens == s.tokens +
                 (if tokenStored then [Token(|s.sessions|, user, s.now + WEEK, None, None)] else [])
  {
  }

  /** The tables have the same rows, and session `k`, its tokens and its mark are as before. */
  ghost predicate Untouched(s: State, t: State, k: nat)
    requires k < |s.sessions|
  {
    && |t.sessions| == |s.sessions| && |t.tokens| == |s.tokens| && t.now == s.now && t.users == s.users
    && t.sessions[k] == s.sessions[k] && SameKey(s, t, k)
    && forall i :: 0 <= i < |s.tokens| && s.tokens[i].session == k ==> t.tokens[i] == s.tokens[i]
  }

  /** The session, and each of its tokens that was not, is revoked now; the mark lasts for the rounded rest. */
  ghost predicate RevokedNow(s: State, t: State, k: nat)
    requires k < |s.sessions|
  {
    && |t.sessions| == |s.sessions| && |t.tokens| == |s.tokens| && t.now == s.now && t.users == s.users
    && t.sessions[k] == s.sessions[k].(revokedAt := Some(s.now))
    && (forall i :: 0 <= i < |s.tokens| && s.tokens[i].session == k ==>
          t.tokens[i] == if s.tokens[i].revokedAt.Some? then s.tokens[i]
                         else s.tokens[i].(revokedAt := Some(s.now)))
    && (var rest := RoundToSecond(s.sessions[k].expiresAt - s.now);
        if rest > 0 then k in t.keys && t.keys[k] == s.now + rest else SameKey(s, t, k))
  }

  /** Logging out of a live session revokes that session now and touches no other; else nothing changes. */
  lemma LogoutTouchesOneSession(s: State, k: nat)
    ensures var t := Do(s, Logout(k));
            if k < |s.sessions| && s.sessions[k].revokedAt.None? && s.now < s.sessions[k].expiresAt
            then
              && RevokedNow(s, t, k) && (forall j :: 0 <= j < |s.sessions| && j != k ==> Untouched(s, t, j))
              && forall j :: j != k ==> SameKey(s, t, j)
            else t == s
  {
  }

  /** What refreshed before and is not of the session still does, and nothing new does. */
  lemma LogoutKeepsOthersRefreshing(s: State, k: nat, t: nat)
    requires Inv(s) && t < |s.tokens| && s.tokens[t].session != k
    ensures Refreshes(Do(s, Logout(k)), t) <==> Refreshes(s, t)
  {
    assert TokenOk(s, t);
    LogoutTouchesOneSession(s, k);
    assert Untouched(s, Do(s, Logout(k)), s.tokens[t].session);
  }

  /** Logging a user out everywhere revokes the user's unrevoked sessions now and touches no other user's. */
  lemma LogoutAllTouchesOneUser(s: State, user: UserId, k: nat)
    requires Inv(s) && k < |s.sessions|
    ensures var t := Do(s, LogoutAll(user));
            var x := s.sessions[k];
            if x.user != user then Untouched(s, t, k)
            else if x.revokedAt.Some? then
              && t.sessions[k] == x && SameKey(s, t, k)
            else if s.now < x.expiresAt then RevokedNow(s, t, k)
            else t.sessions[k] == x.(revokedAt := Some(s.now)) && SameKey(s, t, k)
  {
    forall i | 0 <= i < |s.tokens| ensures s.tokens[i].session < |s.sessions|
      ensures s.tokens[i].user == s.sessions[s.tokens[i].session].user
    {
      assert TokenOk(s, i);
    }
  }

  /** Of the tokens exactly the user's are revoked, those already revoked as they were. */
  lemma LogoutAllTokens(s: State, user: UserId, i: nat)
    requires i < |s.tokens|
    ensures var t := Do(s, LogoutAll(user));
            |t.tokens| == |s.tokens| && |t.sessions| == |s.sessions| && t.now == s.now && t.users == s.users &&
            t.tokens[i] == if s.tokens[i].user == user && s.tokens[i].revokedAt.None?
                           then s.tokens[i].(revokedAt := Some(s.now)) else s.tokens[i]
  {
  }

  lemma LogoutAllKeepsOthersRefreshing(s: State, user: UserId, t: nat)
    requires Inv(s) && t < |s.tokens| && s.tokens[t].user != user
    ensures Refreshes(Do(s, LogoutAll(user)), t) <==> Refreshes(s, t)
  {
    assert TokenOk(s, t);
    LogoutAllTouchesOneUser(s, user, s.tokens[t].session);
  }

  /** Presenting a revoked token, even an old one, logs its user out everywhere and touches no other user. */
  lemma ReuseTouchesOneUser(s: State, stale: nat, k: nat)
    requires Inv(s) && stale < |s.tokens| && s.tokens[stale].revokedAt.Some? && k < |s.sessions|
    ensures var t := Do(s, Refresh(stale));
            var x := s.sessions[k];
            if x.user != s.tokens[stale].user then Untouched(s, t, k)
            else if x.revokedAt.Some? then t.sessions[k] == x && SameKey(s, t, k)
            else if s.now < x.expiresAt then RevokedNow(s, t, k)
            else t.sessions[k] == x.(revokedAt := Some(s.now)) && SameKey(s, t, k)
  {
    LogoutAllTouchesOneUser(s, s.tokens[stale].user, k);
  }

  lemma ReuseKeepsOthersRefreshing(s: State, stale: nat, t: nat)
    requires Inv(s) && stale < |s.tokens| && s.tokens[stale].revokedAt.Some?
    requires t < |s.tokens| && s.tokens[t].user != s.tokens[stale].user
    ensures Refreshes(Do(s, Refresh(stale)), t) <==> Refreshes(s, t)
  {
    LogoutAllKeepsOthersRefreshing(s, s.tokens[stale].user, t);
  }

  /**
   A refresh that succeeds spends one token and issues one of the same session, which lives for a week but no longer
   than the session; it changes nothing else. A refresh that fails without reuse changes nothing at all.
   */
  lemma RefreshTouchesOneToken(s: State, n: nat)
    requires Inv(s) && (n < |s.tokens| ==> s.tokens[n].revokedAt.None?)
    ensures var t := Do(s, Refresh(n));
            if Refreshes(s, n) then
              var k := s.tokens[n].session;
              && t == s.(tokens := t.tokens) && |t.tokens| == |s.tokens| + 1
              && (forall i :: 0 <= i < |s.tokens| && i != n ==> t.tokens[i] == s.tokens[i])
              && t.tokens[n] == s.tokens[n].(revokedAt := Some(s.now), replacedBy := Some(|s.tokens|))
              && t.tokens[|s.tokens|] ==
                   Token(k, s.tokens[n].user,
                     if s.now + WEEK > s.sessions[k].expiresAt then s.sessions[k].expiresAt else s.now + WEEK,
                     None, None)
            else t == s
  {
    assert n < |s.tokens| ==> TokenOk(s, n);
  }

  /** Tokens of other sessions refresh after a rotation exactly if they did before. */
  lemma RefreshKeepsOthersRefreshing(s: State, n: nat, t: nat)
    requires Inv(s) && Refreshes(s, n) && t < |s.tokens| && s.tokens[t].session != s.tokens[n].session
    ensures Refreshes(Do(s, Refresh(n)), t) <==> Refreshes(s, t)
  {
    RefreshTouchesOneToken(s, n);
  }

  /**
   An access token is refused if it is invalid, or if its session is known to be marked; a missing session or a
   missing answer is not held against it.
   */
  lemma AuthenticatedIff(session: Option<nat>, marked: Option<bool>)
    ensures !Authenticate(false, session, marked)
    ensures Authenticate(true, None, marked) && Authenticate(true, session, None)
    ensures Authenticate(true, session, Some(false))
    ensures session.Some? ==> !Authenticate(true, session, Some(true))
  {
  }

  /** Lifetimes are rounded to whole seconds, to the nearest one and at half a second away from zero. */
  lemma RoundsToNearest(seconds: int, rest: int)
    requires 0 <= rest < 1_000_000_000
    ensures RoundToSecond(seconds * 1_000_000_000 + rest) ==
            if rest > 500_000_000 || (rest == 500_000_000 && seconds >= 0) then (seconds + 1) * 1_000_000_000
            else seconds * 1_000_000_000
  {
    var d := seconds * 1_000_000_000 + rest;
    if seconds < 0 {
      if rest == 0 {
        assert -d == (-seconds) * 1_000_000_000;
      } else {
        assert -d == (-seconds - 1) * 1_000_000_000 + (1_000_000_000 - rest);
      }
    }
  }
}
