/**
 * The access guard `get_current_user`: from a session token to the user it authenticates,
 * or to the first of four failures. It only reads the user and session collections.
 */
module Guard {
  import opened Results
  import opened Records
  import opened Lookup

  /** `not session_token`: no token at all, or the empty string. */
  predicate TokenMissing(token: Option<string>)
  {
    token.None? || token.value == ""
  }

  /** The expiry test: strictly after `expires_at`; a session without the field never expires. */
  predicate Expired(s: Session, now: Time)
  {
    match s.expiresAt
    case None => false
    case Some(e) => now > e
  }

  /** `i` is the position of the first session carrying token `t`. */
  ghost predicate FirstSessionWith(sessions: seq<Session>, t: string, i: int)
  {
    0 <= i < |sessions| && sessions[i].sessionToken == t && forall j :: 0 <= j < i ==> sessions[j].sessionToken != t
  }

  /** `k` is the position of the first user with id `id`. */
  ghost predicate FirstUserWith(users: seq<User>, id: string, k: int)
  {
    0 <= k < |users| && users[k].id == id && forall j :: 0 <= j < k ==> users[j].id != id
  }

  ghost predicate HasToken(sessions: seq<Session>, t: string)
  {
    exists i :: 0 <= i < |sessions| && sessions[i].sessionToken == t
  }

  ghost predicate KnownUser(users: seq<User>, id: string)
  {
    exists k :: 0 <= k < |users| && users[k].id == id
  }

  /** `db.sessions.find_one({"session_token": t})`. */
  function SessionFor(sessions: seq<Session>, t: string): (r: Option<nat>)
    ensures r.Some? ==> FirstSessionWith(sessions, t, r.value)
    ensures r.None? <==> !HasToken(sessions, t)
  {
    FindFirst(sessions, (s: Session) => s.sessionToken == t)
  }

  /** `db.users.find_one({"id": id})`. */
  function UserFor(users: seq<User>, id: string): (r: Option<nat>)
    ensures r.Some? ==> FirstUserWith(users, id, r.value)
    ensures r.None? <==> !KnownUser(users, id)
  {
    FindFirst(users, (u: User) => u.id == id)
  }

  /**
   * `get_current_user(session_token)` at time `now`. The failures are tried in the order of the
   * source: missing token, no session with the token, expired session, no user for the session;
   * otherwise the user whose id is the first matching session's `user_id`.
   */
  function Resolve(users: seq<User>, sessions: seq<Session>, token: Option<string>, now: Time): (r: Result<User, AuthFailure>)
    ensures r == Failure(MissingToken) <==> TokenMissing(token)
    ensures r == Failure(InvalidToken) <==> !TokenMissing(token) && !HasToken(sessions, token.value)
    ensures r == Failure(SessionExpired) <==>
      !TokenMissing(token) && exists i :: FirstSessionWith(sessions, token.value, i) && Expired(sessions[i], now)
    ensures r == Failure(UserNotFound) <==>
      !TokenMissing(token) && exists i :: FirstSessionWith(sessions, token.value, i) && !Expired(sessions[i], now)
                                          && !KnownUser(users, sessions[i].userId)
    ensures r.Success? ==>
      !TokenMissing(token) && exists i, k :: FirstSessionWith(sessions, token.value, i) && !Expired(sessions[i], now)
                                             && FirstUserWith(users, sessions[i].userId, k) && r.value == users[k]
  {
    if TokenMissing(token) then Failure(MissingToken)
    else
      match SessionFor(sessions, token.value)
      case None => Failure(InvalidToken)
      case Some(i) =>
        if Expired(sessions[i], now) then Failure(SessionExpired)
        else
          match UserFor(users, sessions[i].userId)
          case None => Failure(UserNotFound)
          case Some(k) => Success(users[k])
  }

  /** Only one position can be the first one carrying a token. */
  lemma FirstSessionUnique(sessions: seq<Session>, t: string, i: int, i': int)
    requires FirstSessionWith(sessions, t, i) && FirstSessionWith(sessions, t, i')
    ensures i == i'
  {
  }

  lemma FirstUserUnique(users: seq<User>, id: string, k: int, k': int)
    requires FirstUserWith(users, id, k) && FirstUserWith(users, id, k')
    ensures k == k'
  {
  }

  /** The boundary instant is still valid: a session expiring exactly at `now` authenticates. */
  lemma ValidAtExpiryInstant(users: seq<User>, sessions: seq<Session>, t: string, now: Time)
    requires t != ""
    requires exists i :: FirstSessionWith(sessions, t, i) && sessions[i].expiresAt == Some(now)
                         && KnownUser(users, sessions[i].userId)
    ensures Resolve(users, sessions, Some(t), now).Success?
  {
  }

  /** Expiry is monotone in time: once refused as expired, a token stays refused; once valid, it was valid before. */
  lemma ExpiryMonotone(users: seq<User>, sessions: seq<Session>, token: Option<string>, now: Time, later: Time)
    requires now <= later
    ensures Resolve(users, sessions, token, now) == Failure(SessionExpired) ==>
            Resolve(users, sessions, token, later) == Failure(SessionExpired)
    ensures Resolve(users, sessions, token, later).Success? ==>
            Resolve(users, sessions, token, now) == Resolve(users, sessions, token, later)
  {
  }

  /**
   * A session appended behind the existing ones authenticates its token, provided no earlier
   * session carries that token: the guard then resolves it to the first user with its user id.
   */
  lemma AppendedSessionResolves(users: seq<User>, sessions: seq<Session>, s: Session, now: Time)
    requires s.sessionToken != "" && !HasToken(sessions, s.sessionToken)
    requires !Expired(s, now)
    requires KnownUser(users, s.userId)
    ensures exists k :: FirstUserWith(users, s.userId, k)
                        && Resolve(users, sessions + [s], Some(s.sessionToken), now) == Success(users[k])
  {
    var all := sessions + [s];
    assert FirstSessionWith(all, s.sessionToken, |sessions|) by {
      forall j | 0 <= j < |sessions| ensures all[j].sessionToken != s.sessionToken {
        assert all[j] == sessions[j];
      }
    }
    var found := SessionFor(all, s.sessionToken);
    FirstSessionUnique(all, s.sessionToken, found.value, |sessions|);
    var k := UserFor(users, s.userId).value;
    assert FirstUserWith(users, s.userId, k);
  }

  /**
   * Appending a session never changes how a token already present is resolved: the guard uses
   * the first matching session, so a re-issued token keeps answering with its older session.
   */
  lemma AppendedSessionShadowed(users: seq<User>, sessions: seq<Session>, s: Session, token: Option<string>, now: Time)
    requires TokenMissing(token) || HasToken(sessions, token.value) || s.sessionToken != token.value
    ensures Resolve(users, sessions + [s], token, now) == Resolve(users, sessions, token, now)
  {
    if !TokenMissing(token) {
      var t := token.value;
      var all := sessions + [s];
      assert forall j :: 0 <= j < |sessions| ==> all[j] == sessions[j];
      match SessionFor(sessions, t)
      case Some(i) =>
        assert FirstSessionWith(all, t, i);
        FirstSessionUnique(all, t, SessionFor(all, t).value, i);
      case None =>
        assert !HasToken(all, t);
    }
  }

  /** Inserting a user does not change the outcome for any token whose user was already found, or for any other failure. */
  lemma AppendedUserKeepsResolution(users: seq<User>, u: User, sessions: seq<Session>, token: Option<string>, now: Time)
    requires Resolve(users, sessions, token, now) != Failure(UserNotFound)
    ensures Resolve(users + [u], sessions, token, now) == Resolve(users, sessions, token, now)
  {
    if !TokenMissing(token) && SessionFor(sessions, token.value).Some? {
      var s := sessions[SessionFor(sessions, token.value).value];
      if !Expired(s, now) {
        var all := users + [u];
        var k := UserFor(users, s.userId).value;
        assert forall j :: 0 <= j < |users| ==> all[j] == users[j];
        assert FirstUserWith(all, s.userId, k);
        FirstUserUnique(all, s.userId, UserFor(all, s.userId).value, k);
      }
    }
  }

  /** When every session refers to an existing user, the guard never reports a missing user. */
  lemma IntegrityExcludesUserNotFound(users: seq<User>, sessions: seq<Session>, token: Option<string>, now: Time)
    requires forall i :: 0 <= i < |sessions| ==> KnownUser(users, sessions[i].userId)
    ensures Resolve(users, sessions, token, now) != Failure(UserNotFound)
  {
  }
}
