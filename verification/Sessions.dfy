/**
 Login sessions, rotating refresh tokens and the revocation cache of the identity service.

 Rows are identified by their position in creation order; a token's hash is injective, so presenting a token means
 naming its row, and a number past the table is a token that was never issued. Time is in nanoseconds, every
 service call runs at one instant, and its writes take effect. `keys` holds, for each session marked in Redis, the
 time at which the mark expires.
 */
module Sessions {
  import opened Collections

  type UserId = nat

  datatype Session = Session(user: UserId, createdAt: int, expiresAt: int, revokedAt: Option<int>)

  datatype Token = Token(session: nat, user: UserId, expiresAt: int, revokedAt: Option<int>, replacedBy: Option<nat>)

  datatype State = State(now: int, users: set<UserId>, sessions: seq<Session>, tokens: seq<Token>, keys: map<nat, int>)

  datatype Step =
    | Login(user: UserId)
    | LoginFails(user: UserId)
    | Refresh(token: nat)
    | Logout(session: nat)
    | LogoutAll(user: UserId)
    | AddUser(user: UserId)
    | RemoveUser(user: UserId)
    | Tick(elapsed: nat)

  const SECOND := 1_000_000_000
  const LIFE := 7 * 24 * 3600 * SECOND

  // ----- The operations -----

  /** `time.Duration.Round(time.Second)`: to the nearest second, halves away from zero. */
  function RoundToSecond(d: int): int {
    if d < 0 then -RoundUpHalf(-d) else RoundUpHalf(d)
  }

  function RoundUpHalf(d: nat): (r: int)
    ensures r % SECOND == 0 && 2 * d - SECOND < 2 * r <= 2 * d + SECOND
  {
    var rest := d % SECOND;
    if 2 * rest < SECOND then d - rest else d + SECOND - rest
  }

  predicate Active(s: Session, now: int) {
    s.revokedAt.None? && s.expiresAt > now
  }

  function Ttl(s: Session, now: int): int {
    RoundToSecond(s.expiresAt - now)
  }

  /** The keys after marking the sessions in `ids`; a lifetime that rounds to nothing is not stored. */
  function Mark(keys: map<nat, int>, sessions: seq<Session>, now: int, ids: set<nat>): map<nat, int>
    requires forall k :: k in ids ==> k < |sessions|
  {
    map k | k in keys.Keys + ids && (k in keys || Ttl(sessions[k], now) > 0) ::
      if k in ids && Ttl(sessions[k], now) > 0 then now + Ttl(sessions[k], now) else keys[k]
  }

  function ActiveIds(s: State, user: UserId): set<nat> {
    set k | 0 <= k < |s.sessions| && s.sessions[k].user == user && Active(s.sessions[k], s.now)
  }

  function RevokeSessions(sessions: seq<Session>, now: int, which: Session -> bool): (r: seq<Session>)
    ensures |r| == |sessions|
    ensures forall k :: 0 <= k < |r| ==>
              r[k] == if which(sessions[k]) then sessions[k].(revokedAt := Some(now)) else sessions[k]
  {
    seq(|sessions|, k requires 0 <= k < |sessions| =>
      if which(sessions[k]) then sessions[k].(revokedAt := Some(now)) else sessions[k])
  }

  function RevokeTokens(tokens: seq<Token>, now: int, which: Token -> bool): (r: seq<Token>)
    ensures |r| == |tokens|
    ensures forall k :: 0 <= k < |r| ==>
              r[k] == if which(tokens[k]) then tokens[k].(revokedAt := Some(now)) else tokens[k]
  {
    seq(|tokens|, k requires 0 <= k < |tokens| =>
      if which(tokens[k]) then tokens[k].(revokedAt := Some(now)) else tokens[k])
  }

  function TokenOf(session: nat): Token -> bool {
    (t: Token) => t.session == session && t.revokedAt.None?
  }

  function UsersSession(user: UserId): Session -> bool {
    (x: Session) => x.user == user && x.revokedAt.None?
  }

  function UsersToken(user: UserId): Token -> bool {
    (t: Token) => t.user == user && t.revokedAt.None?
  }

  function LoggedIn(s: State, user: UserId): State {
    s.(sessions := s.sessions + [Session(user, s.now, s.now + LIFE, None)],
       tokens := s.tokens + [Token(|s.sessions|, user, s.now + LIFE, None, None)])
  }

  /** A login whose session was stored but not its token: nobody can use that session. */
  function LoginAborted(s: State, user: UserId): State {
    s.(sessions := s.sessions + [Session(user, s.now, s.now + LIFE, None)])
  }

  function LoggedOut(s: State, k: nat): State {
    if k < |s.sessions| && Active(s.sessions[k], s.now) then
      s.(sessions := s.sessions[k := s.sessions[k].(revokedAt := Some(s.now))],
         tokens := RevokeTokens(s.tokens, s.now, TokenOf(k)),
         keys := Mark(s.keys, s.sessions, s.now, {k}))
    else s
  }

  function LoggedOutAll(s: State, user: UserId): State {
    s.(sessions := RevokeSessions(s.sessions, s.now, UsersSession(user)),
       tokens := RevokeTokens(s.tokens, s.now, UsersToken(user)),
       keys := Mark(s.keys, s.sessions, s.now, ActiveIds(s, user)))
  }

  /** The checks of a refresh, in the order in which they are made. */
  predicate Refreshes(s: State, t: nat) {
    && t < |s.tokens|
    && s.tokens[t].revokedAt.None?
    && s.now <= s.tokens[t].expiresAt
    && s.tokens[t].session < |s.sessions|
    && Active(s.sessions[s.tokens[t].session], s.now)
    && s.sessions[s.tokens[t].session].user in s.users
  }

  function Rotated(s: State, t: nat): State
    requires Refreshes(s, t)
  {
    var k := s.tokens[t].session;
    var limit := if s.now + LIFE > s.sessions[k].expiresAt then s.sessions[k].expiresAt else s.now + LIFE;
    var spent := s.tokens[t].(revokedAt := Some(s.now), replacedBy := Some(|s.tokens|));
    s.(tokens := s.tokens[t := spent] + [Token(k, s.sessions[k].user, limit, None, None)])
  }

  /** Presenting a revoked token counts as reuse and logs its user out everywhere. */
  function Refreshed(s: State, t: nat): State {
    if t < |s.tokens| && s.tokens[t].revokedAt.Some? then LoggedOutAll(s, s.tokens[t].user)
    else if Refreshes(s, t) then Rotated(s, t)
    else s
  }

  function Do(s: State, step: Step): State {
    match step
    case Login(user) => if user in s.users then LoggedIn(s, user) else s
    case LoginFails(user) => if user in s.users then LoginAborted(s, user) else s
    case Refresh(token) => Refreshed(s, token)
    case Logout(session) => LoggedOut(s, session)
    case LogoutAll(user) => LoggedOutAll(s, user)
    case AddUser(user) => s.(users := s.users + {user})
    case RemoveUser(user) => s.(users := s.users - {user})
    case Tick(elapsed) => s.(now := s.now + elapsed)
  }

  function Exec(s: State, steps: seq<Step>): State
    decreases |steps|
  {
    if steps == [] then s else Exec(Do(s, steps[0]), steps[1..])
  }

  function Start(now: int): State {
    State(now, {}, [], [], map[])
  }

  // ----- The invariant -----

  /** No later token belongs to the same session. */
  ghost predicate Last(tokens: seq<Token>, i: nat)
    requires i < |tokens|
  {
    forall j :: i < j < |tokens| ==> tokens[j].session != tokens[i].session
  }

  /** Token `j` is the one issued next for the session of token `i`. */
  ghost predicate NextOf(tokens: seq<Token>, i: nat, j: nat)
    requires i < |tokens|
  {
    i < j < |tokens| && tokens[j].session == tokens[i].session &&
    forall m :: i < m < j ==> tokens[m].session != tokens[i].session
  }

  ghost predicate TokenOk(s: State, i: nat)
    requires i < |s.tokens|
  {
    var t := s.tokens[i];
    && t.session < |s.sessions|
    && t.user == s.sessions[t.session].user
    && t.expiresAt == s.sessions[t.session].expiresAt
    && (Last(s.tokens, i) ==> t.replacedBy.None? && (t.revokedAt.Some? <==> s.sessions[t.session].revokedAt.Some?))
    && (!Last(s.tokens, i) ==> t.revokedAt.Some? && t.replacedBy.Some? && NextOf(s.tokens, i, t.replacedBy.value))
  }

  ghost predicate SessionOk(s: State, k: nat)
    requires k < |s.sessions|
  {
    var x := s.sessions[k];
    && x.createdAt <= s.now
    && x.expiresAt == x.createdAt + LIFE
    && (x.revokedAt.Some? ==> x.revokedAt.value <= s.now)
    && (k in s.keys ==> x.revokedAt.Some? && s.keys[k] == x.revokedAt.value + Ttl(x, x.revokedAt.value))
    && (x.revokedAt.Some? && Ttl(x, x.revokedAt.value) > 0 ==> k in s.keys)
  }

  ghost predicate Inv(s: State) {
    && (forall i :: 0 <= i < |s.tokens| ==> TokenOk(s, i))
    && (forall k :: 0 <= k < |s.sessions| ==> SessionOk(s, k))
    && (forall k :: k in s.keys ==> k < |s.sessions|)
  }

  /** Appending a token of another session does not change whether token `i` is its session's last. */
  lemma LastAfterAppend(before: seq<Token>, after: seq<Token>, i: nat)
    requires i < |before| && |after| == |before| + 1 && after[|before|].session != before[i].session
    requires forall j :: 0 <= j < |before| ==> after[j].session == before[j].session
    ensures Last(after, i) <==> Last(before, i)
  {
    if Last(before, i) {
      forall j | i < j < |after| ensures after[j].session != after[i].session {
        assert j < |before| ==> before[j].session != before[i].session;
      }
    } else {
      var j :| i < j < |before| && before[j].session == before[i].session;
      assert after[j].session == after[i].session;
    }
  }

  lemma LoginKeepsInv(s: State, user: UserId)
    requires Inv(s)
    ensures Inv(LoggedIn(s, user))
  {
    var t := LoggedIn(s, user);
    assert forall j :: 0 <= j < |s.tokens| ==> t.tokens[j] == s.tokens[j];
    forall i | 0 <= i < |t.tokens| ensures TokenOk(t, i) {
      if i < |s.tokens| {
        assert TokenOk(s, i);
        LastAfterAppend(s.tokens, t.tokens, i);
      }
    }
    forall k | 0 <= k < |t.sessions| ensures SessionOk(t, k) {
      assert k < |s.sessions| ==> SessionOk(s, k);
    }
  }

  lemma LoginAbortedKeepsInv(s: State, user: UserId)
    requires Inv(s)
    ensures Inv(LoginAborted(s, user))
  {
    var t := LoginAborted(s, user);
    forall i | 0 <= i < |t.tokens| ensures TokenOk(t, i) {
      assert TokenOk(s, i);
    }
    forall k | 0 <= k < |t.sessions| ensures SessionOk(t, k) {
      assert k < |s.sessions| ==> SessionOk(s, k);
    }
  }

  lemma RotateKeepsInv(s: State, n: nat)
    requires Inv(s) && Refreshes(s, n)
    ensures Inv(Rotated(s, n)) && Last(s.tokens, n)
  {
    var t := Rotated(s, n);
    var k := s.tokens[n].session;
    assert TokenOk(s, n);
    assert SessionOk(s, k);
    forall i | 0 <= i < |t.tokens| ensures TokenOk(t, i) {
      if i < |s.tokens| {
        assert TokenOk(s, i);
        assert t.tokens[i].session == s.tokens[i].session;
        if s.tokens[i].session == k {
          assert !Last(t.tokens, i) by {
            assert t.tokens[|s.tokens|].session == k;
          }
          if i == n {
            assert NextOf(t.tokens, n, |s.tokens|);
          } else {
            assert !Last(s.tokens, i);
            assert NextOf(t.tokens, i, s.tokens[i].replacedBy.value);
          }
        } else {
          LastAfterAppend(s.tokens, t.tokens, i);
        }
      }
    }
    forall j | 0 <= j < |t.sessions| ensures SessionOk(t, j) {
      assert SessionOk(s, j);
    }
  }

  lemma LogoutKeepsInv(s: State, k: nat)
    requires Inv(s)
    ensures Inv(LoggedOut(s, k))
  {
    var t := LoggedOut(s, k);
    if t != s {
      forall i | 0 <= i < |t.tokens| ensures TokenOk(t, i) {
        assert TokenOk(s, i);
        assert Last(t.tokens, i) <==> Last(s.tokens, i);
      }
      forall j | 0 <= j < |t.sessions| ensures SessionOk(t, j) {
        assert SessionOk(s, j);
      }
    }
  }

  lemma LogoutAllKeepsInv(s: State, user: UserId)
    requires Inv(s)
    ensures Inv(LoggedOutAll(s, user))
  {
    var t := LoggedOutAll(s, user);
    forall i | 0 <= i < |t.tokens| ensures TokenOk(t, i) {
      assert TokenOk(s, i);
      assert Last(t.tokens, i) <==> Last(s.tokens, i);
    }
    forall j | 0 <= j < |t.sessions| ensures SessionOk(t, j) {
      assert SessionOk(s, j);
    }
  }

  lemma StepKeepsInv(s: State, step: Step)
    requires Inv(s)
    ensures Inv(Do(s, step))
  {
    match step
    case Login(user) => LoginKeepsInv(s, user);
    case LoginFails(user) => LoginAbortedKeepsInv(s, user);
    case Refresh(n) =>
      if n < |s.tokens| && s.tokens[n].revokedAt.Some? {
        LogoutAllKeepsInv(s, s.tokens[n].user);
      } else if Refreshes(s, n) {
        RotateKeepsInv(s, n);
      }
    case Logout(k) => LogoutKeepsInv(s, k);
    case LogoutAll(user) => LogoutAllKeepsInv(s, user);
    case _ =>
      var t := Do(s, step);
      assert forall i :: 0 <= i < |s.tokens| ==> TokenOk(s, i) ==> TokenOk(t, i);
      assert forall k :: 0 <= k < |s.sessions| ==> SessionOk(s, k) ==> SessionOk(t, k);
  }

  lemma {:induction false} RunKeepsInv(s: State, steps: seq<Step>)
    requires Inv(s)
    ensures Inv(Exec(s, steps))
    decreases |steps|
  {
    if steps != [] {
      StepKeepsInv(s, steps[0]);
      RunKeepsInv(Do(s, steps[0]), steps[1..]);
    }
  }

  // ----- Linear rotation -----

  /** The tokens of session `k` in creation order. */
  function TokensOf(tokens: seq<Token>, k: nat): seq<nat> {
    if tokens == [] then []
    else TokensOf(tokens[..|tokens| - 1], k) + (if tokens[|tokens| - 1].session == k then [|tokens| - 1] else [])
  }

  lemma {:induction false} TokensOfLists(tokens: seq<Token>, k: nat)
    ensures var c := TokensOf(tokens, k);
            && (forall p :: 0 <= p < |c| ==> c[p] < |tokens| && tokens[c[p]].session == k)
            && (forall p, q :: 0 <= p < q < |c| ==> c[p] < c[q])
            && forall i: nat :: i < |tokens| && tokens[i].session == k ==> i in c
  {
    if tokens != [] {
      TokensOfLists(tokens[..|tokens| - 1], k);
    }
  }

  /** Link `p` of session `k`'s chain `c`: replaced by the next link, and revoked unless last in a live session. */
  ghost predicate Link(s: State, k: nat, c: seq<nat>, p: nat)
    requires p < |c|
  {
    && c[p] < |s.tokens| && k < |s.sessions|
    && s.tokens[c[p]].session == k && s.tokens[c[p]].user == s.sessions[k].user
    && s.tokens[c[p]].replacedBy == (if p + 1 < |c| then Some(c[p + 1]) else None)
    && (s.tokens[c[p]].revokedAt.Some? <==> p + 1 < |c| || s.sessions[k].revokedAt.Some?)
  }

  lemma ChainLink(s: State, k: nat, c: seq<nat>, p: nat)
    requires Inv(s) && c == TokensOf(s.tokens, k) && p < |c|
    ensures Link(s, k, c, p)
  {
    TokensOfLists(s.tokens, k);
    var i := c[p];
    assert TokenOk(s, i);
    assert p + 1 < |c| ==> i < c[p + 1] < |s.tokens| && s.tokens[c[p + 1]].session == k;
    if !Last(s.tokens, i) {
      var j := s.tokens[i].replacedBy.value;
      assert j in c;
      var q :| 0 <= q < |c| && c[q] == j;
    }
  }

  /**
   After any run the tokens of a session, in creation order, form one chain of replacements without cycles; all but
   the last are revoked, the last exactly if the session is; and each belongs to the session's user.
   */
  lemma RotationIsLinear(now: int, steps: seq<Step>, k: nat)
    ensures var s := Exec(Start(now), steps);
            var c := TokensOf(s.tokens, k);
            && (forall p: nat :: p < |c| ==> Link(s, k, c, p))
            && (forall p, q :: 0 <= p < q < |c| ==> c[p] < c[q])
            && forall i: nat :: i < |s.tokens| && s.tokens[i].session == k ==> i in c
  {
    RunKeepsInv(Start(now), steps);
    var s := Exec(Start(now), steps);
    var c := TokensOf(s.tokens, k);
    TokensOfLists(s.tokens, k);
    forall p: nat | p < |c| ensures Link(s, k, c, p) {
      ChainLink(s, k, c, p);
    }
  }

  /** A refresh succeeds exactly for the newest token of a live session whose user still exists. */
  lemma RefreshesIff(s: State, t: nat)
    requires Inv(s) && t < |s.tokens|
    ensures s.tokens[t].session < |s.sessions|
    ensures var x := s.sessions[s.tokens[t].session];
            Refreshes(s, t) <==>
              Last(s.tokens, t) && x.revokedAt.None? && s.now < x.createdAt + LIFE && x.user in s.users
  {
    assert TokenOk(s, t);
    assert SessionOk(s, s.tokens[t].session);
  }

  // ----- Revocation is final -----

  /** A session that no token can refresh any more. */
  predicate Dead(s: State, k: nat) {
    k < |s.sessions| && !Active(s.sessions[k], s.now)
  }

  lemma {:induction false} DeadForever(s: State, steps: seq<Step>, k: nat)
    requires Dead(s, k)
    ensures Dead(Exec(s, steps), k)
    decreases |steps|
  {
    if steps != [] {
      DeadForever(Do(s, steps[0]), steps[1..], k);
    }
  }

  /** After logging out of a session, whatever happens next, none of its tokens refreshes. */
  lemma LogoutIsFinal(s: State, k: nat, steps: seq<Step>, t: nat)
    requires Inv(s) && k < |s.sessions|
    ensures var u := Exec(Do(s, Logout(k)), steps); Refreshes(u, t) ==> u.tokens[t].session != k
  {
    DeadForever(Do(s, Logout(k)), steps, k);
  }

  lemma {:induction false} SessionsKept(s: State, steps: seq<Step>, k: nat)
    requires k < |s.sessions|
    ensures k < |Exec(s, steps).sessions| && Exec(s, steps).sessions[k].user == s.sessions[k].user
    decreases |steps|
  {
    if steps != [] {
      SessionsKept(Do(s, steps[0]), steps[1..], k);
    }
  }

  /**
   After logging a user out everywhere, any later successful refresh for that user belongs to a session that a
   later login created.
   */
  lemma LogoutAllIsFinal(s: State, user: UserId, steps: seq<Step>, t: nat)
    requires Inv(s)
    ensures var u := Exec(LoggedOutAll(s, user), steps);
            Refreshes(u, t) && u.sessions[u.tokens[t].session].user == user ==> u.tokens[t].session >= |s.sessions|
  {
    var u := Exec(LoggedOutAll(s, user), steps);
    if Refreshes(u, t) && u.tokens[t].session < |s.sessions| {
      var k := u.tokens[t].session;
      SessionsKept(LoggedOutAll(s, user), steps, k);
      if s.sessions[k].user == user {
        assert Dead(LoggedOutAll(s, user), k);
        DeadForever(LoggedOutAll(s, user), steps, k);
      }
    }
  }

  /** Presenting a revoked token, of whatever age, has the same effect for its user. */
  lemma ReuseIsFinal(s: State, stale: nat, steps: seq<Step>, t: nat)
    requires Inv(s) && stale < |s.tokens| && s.tokens[stale].revokedAt.Some?
    ensures var u := Exec(Do(s, Refresh(stale)), steps);
            Refreshes(u, t) && u.sessions[u.tokens[t].session].user == s.tokens[stale].user ==>
              u.tokens[t].session >= |s.sessions|
  {
    LogoutAllIsFinal(s, s.tokens[stale].user, steps, t);
  }

  // ----- The revocation cache -----

  predicate KeyExists(s: State, k: nat) {
    k in s.keys && s.now < s.keys[k]
  }

  /** The access-token check: signature and expiry, then the key, ignored when there is no session or no answer. */
  function Authenticate(tokenValid: bool, session: Option<nat>, marked: Option<bool>): bool {
    tokenValid && !(session.Some? && marked == Some(true))
  }

  /** At every moment of every run the key of a session exists exactly from its revocation on for the rounded rest. */
  lemma KeyExistsIff(now: int, steps: seq<Step>, k: nat)
    ensures var s := Exec(Start(now), steps);
            k < |s.sessions| ==>
              var x := s.sessions[k];
              && (x.revokedAt.Some? ==> x.revokedAt.value <= s.now)
              && (KeyExists(s, k) <==> x.revokedAt.Some? && s.now < x.revokedAt.value + Ttl(x, x.revokedAt.value))
  {
    RunKeepsInv(Start(now), steps);
    var s := Exec(Start(now), steps);
    assert k < |s.sessions| ==> SessionOk(s, k);
  }

  /** The key of a session revoked before its end lives to within half a second of that end. */
  lemma TtlIsTight(x: Session, revoked: int)
    requires revoked <= x.expiresAt
    ensures 2 * x.expiresAt - SECOND < 2 * (revoked + Ttl(x, revoked)) <= 2 * x.expiresAt + SECOND
  {
  }

  /**
   At every moment up to half a second before a session ends, a valid access token of the session is accepted
   exactly while the session is not revoked in the database.
   */
  lemma CacheAgreesWithDatabase(now: int, steps: seq<Step>, k: nat)
    ensures var s := Exec(Start(now), steps);
            k < |s.sessions| && 2 * s.now <= 2 * s.sessions[k].expiresAt - SECOND ==>
              (KeyExists(s, k) <==> s.sessions[k].revokedAt.Some?) &&
              (Authenticate(true, Some(k), Some(KeyExists(s, k))) <==> s.sessions[k].revokedAt.None?)
  {
    KeyExistsIff(now, steps, k);
    var s := Exec(Start(now), steps);
    if k < |s.sessions| && s.sessions[k].revokedAt.Some? && s.now <= s.sessions[k].expiresAt {
      TtlIsTight(s.sessions[k], s.sessions[k].revokedAt.value);
    }
  }

  /** Half a second is the best bound: one nanosecond later a revoked, unexpired session may have lost its key. */
  lemma HalfSecondIsTight()
    ensures var gap := LIFE - SECOND - SECOND / 2 + 1;
            var s := Exec(Start(0), [AddUser(0), Login(0), Tick(gap), Logout(0), Tick(SECOND)]);
            |s.sessions| == 1 && s.now < s.sessions[0].expiresAt &&
            2 * (s.now - 1) == 2 * s.sessions[0].expiresAt - SECOND &&
            s.sessions[0].revokedAt.Some? && !KeyExists(s, 0)
  {
    var gap := LIFE - SECOND - SECOND / 2 + 1;
    var steps := [AddUser(0), Login(0), Tick(gap), Logout(0), Tick(SECOND)];
    var s1 := Do(Start(0), AddUser(0));
    var s2 := Do(s1, Login(0));
    var s3 := Do(s2, Tick(gap));
    var s4 := Do(s3, Logout(0));
    var s5 := Do(s4, Tick(SECOND));
    assert Ttl(s3.sessions[0], s3.now) == SECOND;
    assert steps[1..][1..][1..][1..][1..] == [];
    assert Exec(Start(0), steps) == Exec(s2, steps[1..][1..]);
    assert Exec(s2, steps[1..][1..]) == Exec(s4, steps[1..][1..][1..][1..]);
    assert Exec(s4, steps[1..][1..][1..][1..]) == s5;
  }
}
