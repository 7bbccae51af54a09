/**
 * The request handlers of the service over its three collections. The store is a class whose
 * fields are the `users`, `sessions` and `vault_links` collections in insertion order; the
 * handlers are its methods. Fresh ids (uuid4) and the clock are parameters.
 */
module Service {
  import opened Results
  import opened Records
  import opened Lookup
  import opened Validation
  import opened Guard
  import opened Listing

  ghost predicate DistinctUserIds(users: seq<User>)
  {
    forall i, j :: 0 <= i < j < |users| ==> users[i].id != users[j].id
  }

  ghost predicate DistinctEmails(users: seq<User>)
  {
    forall i, j :: 0 <= i < j < |users| ==> users[i].email != users[j].email
  }

  ghost predicate DistinctSessionIds(sessions: seq<Session>)
  {
    forall i, j :: 0 <= i < j < |sessions| ==> sessions[i].id != sessions[j].id
  }

  ghost predicate DistinctLinkIds(links: seq<VaultLink>)
  {
    forall i, j :: 0 <= i < j < |links| ==> links[i].id != links[j].id
  }

  ghost predicate KnownEmail(users: seq<User>, email: string)
  {
    exists k :: 0 <= k < |users| && users[k].email == email
  }

  ghost predicate SessionIdUsed(sessions: seq<Session>, id: string)
  {
    exists i :: 0 <= i < |sessions| && sessions[i].id == id
  }

  ghost predicate LinkIdUsed(links: seq<VaultLink>, id: string)
  {
    exists i :: 0 <= i < |links| && links[i].id == id
  }

  /** The filter `{"id": link_id, "user_id": uid}` of the delete handler. */
  predicate OwnedLink(l: VaultLink, id: string, uid: string)
  {
    l.id == id && l.userId == uid
  }

  ghost predicate HasOwnedLink(links: seq<VaultLink>, id: string, uid: string)
  {
    exists i :: 0 <= i < |links| && OwnedLink(links[i], id, uid)
  }

  /** A user that any earlier lookup finds is still found once another user is appended. */
  lemma KnownUserAppend(users: seq<User>, u: User, id: string)
    requires KnownUser(users, id)
    ensures KnownUser(users + [u], id)
  {
    var k :| 0 <= k < |users| && users[k].id == id;
    assert (users + [u])[k] == users[k];
  }

  /** Removing one link keeps the link invariants, and with unique ids no link with its id remains. */
  lemma RemovalKeepsLinkFacts(users: seq<User>, links: seq<VaultLink>, i: nat)
    requires i < |links|
    requires DistinctLinkIds(links)
    requires forall j :: 0 <= j < |links| ==> KnownUser(users, links[j].userId)
    requires forall j :: 0 <= j < |links| ==> WellFormed(links[j])
    ensures DistinctLinkIds(RemoveAt(links, i))
    ensures forall j :: 0 <= j < |RemoveAt(links, i)| ==> KnownUser(users, RemoveAt(links, i)[j].userId)
    ensures forall j :: 0 <= j < |RemoveAt(links, i)| ==> WellFormed(RemoveAt(links, i)[j])
    ensures forall l :: l in RemoveAt(links, i) ==> l.id != links[i].id
  {
    var rest := RemoveAt(links, i);
    assert forall a :: 0 <= a < |rest| ==> rest[a] == links[if a < i then a else a + 1];
  }

  class Store {
    var users: seq<User>
    var sessions: seq<Session>
    var links: seq<VaultLink>

    /**
     * What the handlers keep true of the collections: ids are unique (uuid4), so is the email
     * of a user (login inserts only unknown emails), every session and link refers to a stored
     * user (both are created for a user the handler has just resolved), and every stored link
     * passes both validators (create validates before inserting).
     */
    ghost predicate Valid()
      reads this
    {
      && DistinctUserIds(users)
      && DistinctEmails(users)
      && DistinctSessionIds(sessions)
      && DistinctLinkIds(links)
      && (forall i :: 0 <= i < |sessions| ==> KnownUser(users, sessions[i].userId))
      && (forall i :: 0 <= i < |links| ==> KnownUser(users, links[i].userId))
      && (forall i :: 0 <= i < |links| ==> WellFormed(links[i]))
    }

    /** An empty database. */
    constructor ()
      ensures Valid()
      ensures users == [] && sessions == [] && links == []
    {
      users, sessions, links := [], [], [];
    }

    /** `GET /auth/me`: the access guard on the stored users and sessions; nothing is modified. */
    method CurrentUser(token: string, now: Time) returns (r: Result<User, AuthFailure>)
      ensures r == Resolve(users, sessions, Some(token), now)
    {
      r := Resolve(users, sessions, Some(token), now);
    }

    /**
     * `POST /auth/profile`, given the identity provider's reply: a failed reply changes nothing;
     * a profile reuses the user with its email or inserts a new one, and always appends one
     * session carrying the provider's token and a seven-day expiry.
     */
    method Login(reply: ProviderReply, now: Time, newUserId: string, newSessionId: string)
      returns (r: Result<LoginResult, ApiError>)
      requires Valid()
      requires !KnownUser(users, newUserId) && !SessionIdUsed(sessions, newSessionId)
      modifies this`users, this`sessions
      ensures Valid()
      ensures links == old(links)
      ensures reply.TransportError? ==>
        r == Failure(AuthServiceUnavailable) && users == old(users) && sessions == old(sessions)
      ensures reply.NonSuccess? ==>
        r == Failure(InvalidSessionId) && users == old(users) && sessions == old(sessions)
      ensures reply.Profile? ==>
        && r.Success?
        && r.value.user.email == reply.email
        && r.value.sessionToken == reply.sessionToken
        && r.value.expiresAt == now + SessionLifetime
        && sessions == old(sessions) + [Session(newSessionId, r.value.user.id, reply.sessionToken, now, Some(now + SessionLifetime))]
      ensures reply.Profile? && KnownEmail(old(users), reply.email) ==>
        users == old(users) && r.value.user in old(users)
      ensures reply.Profile? && !KnownEmail(old(users), reply.email) ==>
        && r.value.user == User(newUserId, reply.email, reply.name, reply.picture, now)
        && users == old(users) + [r.value.user]
    {
      match reply
      case TransportError =>
        r := Failure(AuthServiceUnavailable);
      case NonSuccess =>
        r := Failure(InvalidSessionId);
      case Profile(email, name, picture, token) =>
        var existing := FindFirst(users, (u: User) => u.email == email);
        var user: User;
        if existing.None? {
          user := User(newUserId, email, name, picture, now);
          forall i | 0 <= i < |sessions| ensures KnownUser(users + [user], sessions[i].userId) {
            KnownUserAppend(users, user, sessions[i].userId);
          }
          forall i | 0 <= i < |links| ensures KnownUser(users + [user], links[i].userId) {
            KnownUserAppend(users, user, links[i].userId);
          }
          users := users + [user];
          assert users[|users| - 1] == user;
        } else {
          user := users[existing.value];
        }
        var expiresAt := now + SessionLifetime;
        var session := Session(newSessionId, user.id, token, now, Some(expiresAt));
        sessions := sessions + [session];
        assert sessions[|sessions| - 1] == session;
        r := Success(LoginResult(user, session.sessionToken, expiresAt));
    }

    /**
     * `POST /vault-links`: authenticate first, then build and validate the record; only a
     * valid record is appended, owned by the caller, and returned.
     */
    method CreateLink(token: string, req: LinkRequest, now: Time, newLinkId: string)
      returns (r: Result<VaultLink, ApiError>)
      requires Valid()
      requires !LinkIdUsed(links, newLinkId)
      modifies this`links
      ensures Valid()
      ensures Resolve(users, sessions, Some(token), now).Failure? ==>
        r == Failure(Unauthorized(Resolve(users, sessions, Some(token), now).error))
      ensures Resolve(users, sessions, Some(token), now).Success? ==>
        var caller := Resolve(users, sessions, Some(token), now).value;
        match BuildLink(newLinkId, caller.id, req, now)
        case Failure(fields) => r == Failure(ValidationError(fields))
        case Success(link) =>
          && r == Success(link)
          && link == VaultLink(newLinkId, caller.id, req.url, req.name, RequestedLevel(req), now)
      ensures r.Failure? ==> links == old(links)
      ensures r.Success? ==> links == old(links) + [r.value]
    {
      var auth := CurrentUser(token, now);
      if auth.Failure? {
        r := Failure(Unauthorized(auth.error));
        return;
      }
      match BuildLink(newLinkId, auth.value.id, req, now)
      case Failure(fields) =>
        r := Failure(ValidationError(fields));
      case Success(link) =>
        links := links + [link];
        assert links[|links| - 1] == link;
        r := Success(link);
    }

    /**
     * `GET /vault-links`: the caller's links, newest first, at most `ListLimit`; nothing is
     * modified. The source rebuilds each returned record through the validators; under
     * `Valid()` every stored record passes them, so the records come back as stored.
     */
    method ListLinks(token: string, now: Time) returns (r: Result<seq<VaultLink>, ApiError>)
      ensures Resolve(users, sessions, Some(token), now).Failure? ==>
        r == Failure(Unauthorized(Resolve(users, sessions, Some(token), now).error))
      ensures Resolve(users, sessions, Some(token), now).Success? ==>
        r == Success(ListFor(links, Resolve(users, sessions, Some(token), now).value.id))
      ensures Valid() && r.Success? ==> forall l :: l in r.value ==> WellFormed(l)
    {
      var auth := CurrentUser(token, now);
      if auth.Failure? {
        r := Failure(Unauthorized(auth.error));
        return;
      }
      r := Success(ListFor(links, auth.value.id));
    }

    /**
     * `DELETE /vault-links/{link_id}`: authenticate, then remove the first link with that id
     * owned by the caller. A link of another user is reported as not found, exactly like a
     * missing one, and nothing changes.
     */
    method DeleteLink(token: string, linkId: string, now: Time) returns (r: Result<string, ApiError>)
      requires Valid()
      modifies this`links
      ensures Valid()
      ensures Resolve(users, sessions, Some(token), now).Failure? ==>
        r == Failure(Unauthorized(Resolve(users, sessions, Some(token), now).error))
      ensures Resolve(users, sessions, Some(token), now).Success? ==>
        (r == Failure(NotFound) <==>
         !HasOwnedLink(old(links), linkId, Resolve(users, sessions, Some(token), now).value.id))
      ensures Resolve(users, sessions, Some(token), now).Success?
              && HasOwnedLink(old(links), linkId, Resolve(users, sessions, Some(token), now).value.id) ==>
        r == Success(DeletedMessage)
      ensures r.Failure? ==> links == old(links)
      ensures r.Success? ==>
        && r.value == DeletedMessage
        && exists i :: 0 <= i < |old(links)|
                       && OwnedLink(old(links)[i], linkId, Resolve(users, sessions, Some(token), now).value.id)
                       && links == old(links)[..i] + old(links)[i + 1..]
      ensures r.Success? ==> forall l :: l in links ==> l.id != linkId
    {
      var auth := CurrentUser(token, now);
      if auth.Failure? {
        r := Failure(Unauthorized(auth.error));
        return;
      }
      var uid := auth.value.id;
      var found := FindFirst(links, (l: VaultLink) => OwnedLink(l, linkId, uid));
      if found.None? {
        r := Failure(NotFound);
        return;
      }
      var i := found.value;
      RemovalKeepsLinkFacts(users, links, i);
      links := RemoveAt(links, i);
      r := Success(DeletedMessage);
    }
  }

  /** A first login on a fresh store for "a@x.com" with provider token "tok1", then `/auth/me`. */
  method FirstLogin(now: Time) returns (store: Store, me: Result<User, AuthFailure>)
    ensures fresh(store) && store.Valid()
    ensures store.users == [User("user-1", "a@x.com", "A", None, now)]
    ensures store.sessions == [Session("session-1", "user-1", "tok1", now, Some(now + SessionLifetime))]
    ensures store.links == []
    ensures me == Success(User("user-1", "a@x.com", "A", None, now))
    ensures Resolve(store.users, store.sessions, Some("tok1"), now) == me
  {
    var alice := User("user-1", "a@x.com", "A", None, now);
    var session := Session("session-1", "user-1", "tok1", now, Some(now + SessionLifetime));
    store := new Store();
    var login := store.Login(Profile("a@x.com", "A", None, "tok1"), now, "user-1", "session-1");
    assert store.users == [alice] && store.sessions == [session];
    assert [alice][0].id == "user-1";
    AppendedSessionResolves([alice], [], session, now);
    assert [] + [session] == [session];
    me := store.CurrentUser("tok1", now);
  }

  /**
   * The client's first session, driven through the handlers: a first login, an empty listing,
   * a create of "https://example.com" without an access level, a listing that returns exactly
   * that link, and a delete of it that leaves no link behind.
   */
  method FirstLoginCreateList(now: Time)
    returns (me: Result<User, AuthFailure>, before: Result<seq<VaultLink>, ApiError>,
             created: Result<VaultLink, ApiError>, after: Result<seq<VaultLink>, ApiError>,
             deleted: Result<string, ApiError>)
    ensures me == Success(User("user-1", "a@x.com", "A", None, now))
    ensures before == Success([])
    ensures created == Success(VaultLink("link-1", "user-1", "https://example.com", "doc", "Restricted", now))
    ensures after == Success([created.value])
    ensures deleted == Success(DeletedMessage)
  {
    var alice := User("user-1", "a@x.com", "A", None, now);
    var link := VaultLink("link-1", "user-1", "https://example.com", "doc", "Restricted", now);
    var store;
    store, me := FirstLogin(now);
    ghost var caller := Resolve(store.users, store.sessions, Some("tok1"), now);
    assert caller == Success(alice);
    before := store.ListLinks("tok1", now);
    DefaultLevelAccepted("link-1", "user-1", "https://example.com", "doc", now);
    created := store.CreateLink("tok1", LinkRequest("https://example.com", "doc", None), now, "link-1");
    assert store.links == [link];
    ListAfterFirstCreate([], link);
    assert [] + [link] == [link];
    after := store.ListLinks("tok1", now);
    assert OwnedLink(store.links[0], "link-1", "user-1");
    deleted := store.DeleteLink("tok1", "link-1", now);
  }

  /** With distinct emails, the email a login matches identifies one stored user. */
  lemma EmailIdentifiesUser(users: seq<User>, u: User, v: User)
    requires DistinctEmails(users)
    requires u in users && v in users && u.email == v.email
    ensures u == v
  {
    var i :| 0 <= i < |users| && users[i] == u;
    var j :| 0 <= j < |users| && users[j] == v;
    if i < j {
      assert users[i].email == users[j].email;
    } else if j < i {
      assert users[j].email == users[i].email;
    }
  }
}
