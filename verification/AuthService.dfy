/**
 The authentication service over its session table, its token table and the revocation store, which each call reads
 and updates in turn. Every call leaves the state that module Sessions says.
 */
module AuthService {
  import opened Collections
  import opened Sessions
  import opened SessionEffects

  datatype LoginOutcome = InvalidCredentials | LoginError | LoggedInWith(session: nat, token: nat)
  datatype RefreshOutcome = InvalidRefreshToken | UserNotFound | RefreshError | RotatedTo(token: nat)

  /** The steps of a login that can fail: finding the user, storing session and token, signing. */
  datatype LoginFaults = LoginFaults(find: bool, session: bool, token: bool, sign: bool)

  /** The reads of a refresh that can fail, the listing of the sessions after a reuse, and signing. */
  datatype RefreshFaults = RefreshFaults(token: bool, list: bool, session: bool, user: bool, sign: bool)

  class AuthService {
    var now: int
    var users: set<UserId>
    var sessions: seq<Session>
    var tokens: seq<Token>
    var keys: map<nat, int>

    constructor (now: int)
      ensures Current() == Start(now)
    {
      this.now, users, sessions, tokens, keys := now, {}, [], [], map[];
    }

    function Current(): State
      reads this
    {
      State(now, users, sessions, tokens, keys)
    }

    // ----- The repositories -----

    method FindActiveByID(id: nat, fails: bool) returns (found: Option<Session>)
      ensures found.Some? <==> !fails && id < |sessions| && Active(sessions[id], now)
      ensures found.Some? ==> found.value == sessions[id]
    {
      found := if !fails && id < |sessions| && Active(sessions[id], now) then Some(sessions[id]) else None;
    }

    method ListActiveByUserID(user: UserId) returns (ids: seq<nat>)
      ensures (set k | k in ids) == ActiveIds(Current(), user)
      ensures forall k :: k in ids <==> 0 <= k < |sessions| && sessions[k].user == user &&
                                        sessions[k].revokedAt.None? && now < sessions[k].expiresAt
    {
      ids := [];
      for k := 0 to |sessions|
        invariant forall i :: i in ids <==> 0 <= i < k && sessions[i].user == user && Active(sessions[i], now)
      {
        if sessions[k].user == user && Active(sessions[k], now) {
          ids := ids + [k];
        }
      }
    }

    /** Sets the key with the remaining lifetime rounded to seconds, unless nothing remains. */
    method MarkRevoked(id: nat, expiresAt: int)
      requires id < |sessions| && expiresAt == sessions[id].expiresAt
      modifies this`keys
      ensures keys == Mark(old(keys), sessions, now, {id})
      ensures var rest := RoundToSecond(expiresAt - now);
              keys == if rest > 0 then old(keys)[id := now + rest] else old(keys)
    {
      MarkOne(keys, sessions, now, id);
      var ttl := RoundToSecond(expiresAt - now);
      if ttl <= 0 {
        return;
      }
      keys := keys[id := now + ttl];
    }

    // ----- The service -----

    /** A successful login hands out a token that refreshes; a failed one may leave a session without a token. */
    method Login(user: Option<UserId>, passwordMatches: bool, faults: LoginFaults) returns (r: LoginOutcome)
      requires user.Some? ==> user.value in users
      modifies this
      ensures r.InvalidCredentials? <==> !faults.find && (user.None? || !passwordMatches)
      ensures r.LoggedInWith? <==> user.Some? && passwordMatches && faults == LoginFaults(false, false, false, false)
      ensures r.LoggedInWith? ==> r.token == |old(tokens)| && r.session == |old(sessions)| &&
                                  (Inv(old(Current())) ==> Refreshes(Current(), r.token))
      ensures Current() ==
                if faults.find || r.InvalidCredentials? || faults.session then old(Current())
                else if faults.token then Do(old(Current()), LoginFails(user.value))
                else Do(old(Current()), Step.Login(user.value))
      ensures r.LoggedInWith? ==>
                && users == old(users) && keys == old(keys)
                && sessions == old(sessions) + [Session(user.value, now, now + WEEK, None)]
                && tokens == old(tokens) + [Token(r.session, user.value, now + WEEK, None, None)]
    {
      if faults.find {
        return LoginError;
      }
      if user.None? || !passwordMatches {
        return InvalidCredentials;
      }
      var refreshExpiresAt := now + LIFE;
      if faults.session {
        return LoginError;
      }
      r := LoggedInWith(|sessions|, |tokens|);
      sessions := sessions + [Session(user.value, now, refreshExpiresAt, None)];
      if faults.token {
        return LoginError;
      }
      tokens := tokens + [Token(r.session, user.value, refreshExpiresAt, None, None)];
      if faults.sign {
        return LoginError;
      }
    }

    /** The faults keep the call from taking effect: a failing read, or a reuse whose sessions cannot be listed. */
    predicate Blocked(token: nat, faults: RefreshFaults)
      reads this
    {
      faults.token || token >= |tokens| ||
      if tokens[token].revokedAt.Some? then faults.list else faults.session || faults.user
    }

    /** Rotates a token that refreshes. */
    method Rotate(token: nat) returns (issued: nat)
      requires Inv(Current()) && Refreshes(Current(), token)
      modifies this
      ensures Current() == Rotated(old(Current()), token) && Inv(Current())
      ensures issued == |old(tokens)| && Refreshes(Current(), issued) && !Refreshes(Current(), token)
    {
      RotateKeepsInv(Current(), token);
      var session := sessions[tokens[token].session];
      assert TokenOk(Current(), token);
      var expiresAt := now + LIFE;
      if expiresAt > session.expiresAt {
        expiresAt := session.expiresAt;
      }
      issued := |tokens|;
      tokens := tokens[token := tokens[token].(revokedAt := Some(now))];
      tokens := tokens + [Token(tokens[token].session, session.user, expiresAt, None, None)];
      tokens := tokens[token := tokens[token].(revokedAt := Some(now), replacedBy := Some(issued))];
    }

    /** A refresh hands out a token that itself refreshes; anything else than a rotation fails. */
    method Refresh(token: nat, faults: RefreshFaults) returns (r: RefreshOutcome)
      requires Inv(Current())
      modifies this
      ensures Inv(Current())
      ensures Current() == if old(Blocked(token, faults)) then old(Current())
                           else Do(old(Current()), Step.Refresh(token))
      ensures r.RotatedTo? || r.RefreshError? <==> Refreshes(old(Current()), token) && !old(Blocked(token, faults))
      ensures r.RotatedTo? ==> r.token == |old(tokens)| && !faults.sign
      ensures r.RotatedTo? ==> Refreshes(Current(), r.token) && !Refreshes(Current(), token)
      ensures r.RotatedTo? ==>
                && sessions == old(sessions) && keys == old(keys) && users == old(users)
                && |tokens| == |old(tokens)| + 1
                && forall i :: 0 <= i < |old(tokens)| && i != token ==> tokens[i] == old(tokens)[i]
      ensures r.UserNotFound? <==>
                && !faults.token && !faults.session && token < |old(tokens)|
                && old(tokens)[token].revokedAt.None? && now <= old(tokens)[token].expiresAt
                && var k := old(tokens)[token].session;
                   k < |old(sessions)| && old(sessions)[k].revokedAt.None? && now < old(sessions)[k].expiresAt &&
                   (faults.user || old(sessions)[k].user !in old(users))
      ensures r.InvalidRefreshToken? || r.UserNotFound? ==>
                Current() == old(Current()) || old(tokens)[token].revokedAt.Some?
    {
      if faults.token || token >= |tokens| {
        return InvalidRefreshToken;
      }
      var found := tokens[token];
      assert TokenOk(Current(), token);
      if found.revokedAt.Some? {
        LogoutAllKeepsInv(Current(), found.user);
        var ok := LogoutAll(found.user, faults.list);
        return InvalidRefreshToken;
      }
      if found.expiresAt < now {
        return InvalidRefreshToken;
      }
      var session := FindActiveByID(found.session, faults.session);
      if session.None? {
        return InvalidRefreshToken;
      }
      if faults.user || session.value.user !in users {
        return UserNotFound;
      }
      var issued := Rotate(token);
      r := if faults.sign then RefreshError else RotatedTo(issued);
    }

    /** An id that no active session has, or that cannot be looked up, is not an error. */
    method Logout(id: nat, readFails: bool)
      modifies this
      ensures Current() == if readFails then old(Current()) else Do(old(Current()), Step.Logout(id))
      ensures (!readFails && id < |old(sessions)| && old(sessions)[id].revokedAt.None? &&
               now < old(sessions)[id].expiresAt) ==>
                && RevokedNow(old(Current()), Current(), id)
                && forall j :: 0 <= j < |sessions| && j != id ==> Untouched(old(Current()), Current(), j)
      ensures (readFails || id >= |old(sessions)| || old(sessions)[id].revokedAt.Some? ||
               now >= old(sessions)[id].expiresAt) ==> Current() == old(Current())
    {
      LogoutTouchesOneSession(Current(), id);
      var session := FindActiveByID(id, readFails);
      if session.None? {
        return;
      }
      ghost var before := sessions;
      sessions := sessions[id := sessions[id].(revokedAt := Some(now))];
      tokens := RevokeTokens(tokens, now, TokenOf(id));
      MarkIgnoresRevocation(keys, before, sessions, now, {id});
      MarkRevoked(id, session.value.expiresAt);
    }

    method MarkAllRevoked(ids: seq<nat>, ghost which: set<nat>)
      requires (forall k :: k in which ==> k < |sessions|) && forall k :: k in ids <==> k in which
      modifies this`keys
      ensures keys == Mark(old(keys), sessions, now, which)
    {
      ghost var done: set<nat> := {};
      MarkNone(keys, sessions, now);
      for i := 0 to |ids|
        invariant done <= which && forall k :: k in ids[..i] <==> k in done
        invariant keys == Mark(old(keys), sessions, now, done)
      {
        var id := ids[i];
        assert id in ids && ids[..i + 1] == ids[..i] + [id];
        MarkOneMore(old(keys), sessions, now, done, id);
        MarkRevoked(id, sessions[id].expiresAt);
        done := done + {id};
      }
      assert ids[..|ids|] == ids;
    }

    /** Without the list of the user's sessions nothing is revoked. */
    method LogoutAll(user: UserId, listFails: bool) returns (ok: bool)
      modifies this
      ensures ok == !listFails
      ensures Current() == if ok then Do(old(Current()), Step.LogoutAll(user)) else old(Current())
      ensures Inv(old(Current())) ==> forall k :: 0 <= k < |old(sessions)| && old(sessions)[k].user != user ==>
                Untouched(old(Current()), Current(), k)
    {
      if listFails {
        return false;
      }
      OthersUntouched(Current(), user);
      ghost var s, active := Current(), ActiveIds(Current(), user);
      var ids := ListActiveByUserID(user);
      assert forall k :: k in ids <==> k in active by {
        assert forall k :: k in ids <==> k in set j | j in ids;
      }
      sessions := RevokeSessions(sessions, now, UsersSession(user));
      tokens := RevokeTokens(tokens, now, UsersToken(user));
      MarkIgnoresRevocation(keys, s.sessions, sessions, now, active);
      MarkAllRevoked(ids, active);
      assert Current() == s.(sessions := sessions, tokens := tokens, keys := keys);
      ok := true;
    }
  }

  lemma OthersUntouched(s: State, user: UserId)
    ensures Inv(s) ==> forall k :: 0 <= k < |s.sessions| && s.sessions[k].user != user ==>
              Untouched(s, Do(s, Step.LogoutAll(user)), k)
  {
    if Inv(s) {
      forall k | 0 <= k < |s.sessions| && s.sessions[k].user != user
        ensures Untouched(s, Do(s, Step.LogoutAll(user)), k)
      {
        LogoutAllTouchesOneUser(s, user, k);
      }
    }
  }

  lemma MarkOne(keys: map<nat, int>, sessions: seq<Session>, now: int, id: nat)
    requires id < |sessions|
    ensures var rest := Ttl(sessions[id], now);
            Mark(keys, sessions, now, {id}) == if rest > 0 then keys[id := now + rest] else keys
  {
  }

  lemma MarkNone(keys: map<nat, int>, sessions: seq<Session>, now: int)
    ensures Mark(keys, sessions, now, {}) == keys
  {
  }

  lemma MarkOneMore(keys: map<nat, int>, sessions: seq<Session>, now: int, done: set<nat>, id: nat)
    requires id < |sessions| && forall k :: k in done ==> k < |sessions|
    ensures Mark(Mark(keys, sessions, now, done), sessions, now, {id}) == Mark(keys, sessions, now, done + {id})
  {
  }

  /** The keys depend on the sessions' expiry only, so they may be written after the revocation. */
  lemma MarkIgnoresRevocation(keys: map<nat, int>, before: seq<Session>, after: seq<Session>, now: int, ids: set<nat>)
    requires |before| == |after| && forall k :: 0 <= k < |before| ==> before[k].expiresAt == after[k].expiresAt
    requires forall k :: k in ids ==> k < |before|
    ensures Mark(keys, before, now, ids) == Mark(keys, after, now, ids)
  {
    assert forall k :: k in ids ==> Ttl(before[k], now) == Ttl(after[k], now);
  }
}
