# VaultLinks request-handling core, modelled in Dafny

VaultLinks is a small link-bookmarking service. Users sign in through an external identity
provider and then store, list and delete named urls ("vault links"), each tagged with an
access level. The core is the FastAPI backend in `backend/server.py`. It has four parts:

- **Link validators.** `validate_url` accepts a url only if it starts with `"http"`.
  `validate_access_level` accepts only `"Restricted"`, `"Anyone with link"` or `"Public"`.
- **Access guard.** `get_current_user` turns a session token into a user. Otherwise it fails
  with missing token, invalid token, session expired or user not found, in that order.
- **Login.** `authenticate_user` takes the identity provider's reply. It reuses the user with
  the returned email, or creates one. Then it always appends one session that expires after
  seven days.
- **Link operations.** `create_vault_link`, `get_vault_links` and `delete_vault_link` all act
  only for the authenticated caller.

## What the model is made of

- The database becomes a class, `Service.Store`. Its fields `users`, `sessions` and `links`
  are sequences in insertion order, standing for the three MongoDB collections.
- The handlers are methods of that class. The ones that insert or delete (`Login`,
  `CreateLink`, `DeleteLink`) say in their `modifies` clauses which fields they may change.
  The read-only ones (`CurrentUser`, `ListLinks`) have no `modifies` clause at all.
- `Store.Valid()` is the invariant this code keeps:
  - ids are unique;
  - user emails are unique;
  - every session and every link belongs to a stored user;
  - every stored link passes both validators.
- `find_one` is "the first element that matches" (`Lookup.FindFirst`). `delete_one` removes
  that element and keeps the order of the rest (`Lookup.RemoveAt`).
- The guard is a pure function of the two collections, the token and the time
  (`Guard.Resolve`). The handlers call it first.
- The list query is a pure function: filter by owner, a stable sort newest first, then keep at
  most 1000 (`Listing.ListFor`).
- Each call uses one integer clock `now`, counted in microseconds like Python's `datetime`.
  Fresh ids (uuid4 in the code) are
  parameters that must not already be in use.
- The identity provider's reply is an input value: `Profile(email, name, picture, token)`,
  `NonSuccess` or `TransportError`.

Edge cases the contracts fix, taken from the code:

- The expiry test is strict (`now > expires_at`), so a session whose expiry equals `now` is
  still valid.
- A session stored without `expires_at` never expires.
- The empty token counts as missing.
- The url rule is a bare, case-sensitive `"http"` prefix, so `"httpfoo"` is accepted and
  `"HTTP://x"` is rejected.
- Create authenticates before it validates. A request with a bad url and a bad token
  therefore fails as unauthorized, not as a validation error.
- Validation runs both validators and reports every failing field, url first.
- A link of another user is reported as not found, exactly like a missing link.
- Login never updates an existing user's name or picture.
- The guard resolves a token through the first session that carries it
  (`Guard.AppendedSessionShadowed`). So in this model a token issued a second time keeps
  resolving through its older session. The code does not fix this: `find_one` without a sort
  returns whichever matching document MongoDB finds first, and MongoDB does not promise
  insertion order (see "## Left out").

## Model

| member | source | states |
|---|---|---|
| `Validation.ValidateUrl` | backend/server.py:54-58 | accepts exactly the strings whose first four characters are `h`,`t`,`t`,`p`, returns them unchanged, and otherwise fails on the url field |
| `Validation.ValidateAccessLevel` | backend/server.py:60-65 | accepts exactly "Restricted", "Anyone with link" and "Public", returns them unchanged, and otherwise fails on the access-level field |
| `Validation.BuildLink` | backend/server.py:46-65 | the record is built exactly when both validators accept; it then carries the fresh id, the owner, the url and name as supplied, the requested or default level and the creation time, and is well formed; otherwise the failure lists exactly the failing fields, url first |
| `Validation.UrlPrefixEdgeCases` | backend/server.py:56 | "httpfoo" and "https://example.com" pass; "HTTP://example.com", "ftp://example.com" and "" fail |
| `Validation.DefaultLevelAccepted` | backend/server.py:67-70 | a request without an access level yields a link with level "Restricted" whenever the url is valid |
| `Lookup.FindFirst` | backend/server.py:81 | `find_one`: the result is the first position whose element matches; none exactly when no element matches |
| `Lookup.RemoveAt` | backend/server.py:185 | `delete_one`: one element fewer, the rest in order, and the multiset loses exactly that element |
| `Guard.SessionFor` | backend/server.py:81 | the first session carrying the token, or none exactly when no session carries it |
| `Guard.UserFor` | backend/server.py:90 | the first user with the id, or none exactly when no user has it |
| `Guard.Resolve` | backend/server.py:76-94 | missing token iff the token is absent or empty; invalid token iff no session carries it; expired iff the first matching session is expired (`now > expires_at`, never when the field is absent); user not found iff it is unexpired and no user has its user id; otherwise the first user with that id |
| `Guard.ValidAtExpiryInstant` | backend/server.py:86 | a session whose expiry equals `now` authenticates its user |
| `Guard.ExpiryMonotone` | backend/server.py:86 | an expired refusal stays expired at every later time, and a success at a later time is the same success at every earlier time |
| `Guard.AppendedSessionResolves` | backend/server.py:128-133 | a session appended with a non-empty, unused token, unexpired at `now`, for a stored user, authenticates that user |
| `Guard.AppendedSessionShadowed` | backend/server.py:81 | appending a session does not change the outcome for any token already present or different from the new one |
| `Guard.AppendedUserKeepsResolution` | backend/server.py:117-124 | inserting a user changes no outcome other than user not found |
| `Guard.IntegrityExcludesUserNotFound` | backend/server.py:89-92 | when every session refers to a stored user the guard never reports user not found |
| `Listing.Owned` | backend/server.py:171 | the filter `{"user_id": uid}`: exactly the stored links owned by `uid`, a sub-multiset of the store |
| `Listing.Insert` | backend/server.py:171 | inserting into a newest-first sequence keeps it newest first and adds exactly that element |
| `Listing.SortNewestFirst` | backend/server.py:171 | `sort("created_at", -1)`: newest first and a permutation of its input |
| `Listing.Newest` | backend/server.py:171 | sorted newest first, a sub-multiset of the input of length min(n, 1000), the whole input when it has at most 1000 elements |
| `Listing.ListFor` | backend/server.py:166-172 | only the caller's stored links, newest first, at most 1000, a sub-multiset of the caller's links, all of them when there are at most 1000, exactly 1000 otherwise |
| `Listing.ListKeepsNewest` | backend/server.py:171 | every caller's link the cap leaves out is no newer than any link returned |
| `Listing.OwnedAppend` | backend/server.py:171 | the owner filter distributes over concatenation |
| `Listing.ListIgnoresOthersInsert` | backend/server.py:171 | another user's new link leaves the caller's listing unchanged |
| `Listing.ListIgnoresOthersRemoval` | backend/server.py:185 | removing another user's link leaves the caller's listing unchanged |
| `Listing.ListAfterFirstCreate` | backend/server.py:163-171 | a caller with no links who adds one lists exactly that one |
| `Service.Store.CurrentUser` | backend/server.py:144-148 | `GET /auth/me` returns what the guard returns, and changes nothing |
| `Service.Store.Login` | backend/server.py:97-142 | see the list below the table |
| `Service.Store.CreateLink` | backend/server.py:150-164 | see the list below the table |
| `Service.Store.ListLinks` | backend/server.py:166-172 | a guard failure is returned as is; otherwise the listing of the caller's links; nothing changes; under the invariant every returned record passes the validators |
| `Service.Store.DeleteLink` | backend/server.py:174-186 | see the list below the table |
| `Service.EmailIdentifiesUser` | backend/server.py:115-126 | with unique emails, two stored users with the same email are the same user, so repeated logins for an email resolve to one user id |
| `Service.FirstLogin` | backend/server.py:97-148 | on a fresh store, a first login for a new email appends exactly the new user and one session with the provider's token and a seven-day expiry, and `/auth/me` with that token then returns the new user |
| `Service.FirstLoginCreateList` | backend/server.py:97-186 | through the handlers of a fresh store: after a first login the listing is empty; a create without an access level returns a "Restricted" link; the listing is then exactly that link; deleting it succeeds |

What the three state-changing methods promise (they also keep `Valid()`):

- `Service.Store.Login`:
  - A transport error fails with service unavailable; a non-success reply fails with invalid
    session id. In both cases nothing changes.
  - For a profile, if a user with the email exists, the users are unchanged and the returned
    user is that stored user. Otherwise exactly one new user is appended, and it is returned.
  - For a profile, exactly one session is appended in every case. It carries the provider's
    token, the user's id and the expiry `now` + 7 days.
  - The result returns that token and that expiry. The links never change.
- `Service.Store.CreateLink`:
  - A guard failure is returned first. Then comes the validation failure, naming the failing
    fields.
  - Every failure leaves the links unchanged.
  - On success exactly the returned link is appended. It is owned by the caller and carries the
    fields as supplied.
  - Users and sessions never change.
- `Service.Store.DeleteLink`:
  - A guard failure comes first. Not found is returned exactly when no link has that id and the
    caller as owner. When such a link exists, the delete succeeds with the acknowledgement.
  - Every failure leaves the links unchanged.
  - On success the first such link is removed, the others keep their order, and no link with
    that id remains.
  - Users and sessions never change.

## Left out

- MongoDB and motor I/O, async/await, the FastAPI router, CORS, dotenv, logging and the shutdown
  hook (backend/server.py:16-28, 188-208) are left out. The collections are in-memory
  sequences, and each handler runs alone and to completion.
- Concurrency between requests is left out; every operation is sequential.
- The HTTPS call to the identity provider (backend/server.py:103-107) is passed in as a
  reply value.
  - A malformed reply body is left out. In the code a missing `email` or `session_token`
    raises an uncaught KeyError on every login. A missing `name` raises one only when the email
    is new, because `name` is read only when a user is created (backend/server.py:117-122).
  - A body that is not JSON is not a separate case here. It raises a `requests` exception,
    which the code reports as service unavailable, so it is one form of `TransportError`.
- `uuid.uuid4()` becomes fresh-id parameters that must not already be in use.
- `datetime.utcnow()` becomes one integer clock per call. The code reads the clock separately
  for `created_at` and `expires_at` (backend/server.py:43-44), so "exactly seven days" holds
  only in this single-clock model.
- The HTTP status codes and detail messages that the framework derives from the failures are
  not modelled.
  - So is FastAPI's 422 for an absent required `session_token` query parameter. Because of it,
    the handlers receive a string, and the guard's missing-token branch is reached only for
    the empty string.
  - Request-body parsing and type coercion by pydantic are left out. A request is a
    `LinkRequest` whose access level may be absent.
- `Service.Store.Login`: the model stores the expiry it returns, so the two are equal. In the
  code MongoDB keeps datetimes to the millisecond. The stored `created_at` and `expires_at`
  are truncated, while the login reply returns the untruncated `session.expires_at`
  (backend/server.py:138). The stored and returned expiry can therefore differ by less than a
  millisecond. The truncation is not modelled.
- `Guard.SessionFor`, `Guard.UserFor`, `Service.Store.DeleteLink`: `find_one` and `delete_one`
  act on the first match in insertion order. MongoDB does not promise that order for a query
  without a sort. The model's choice matters only when two stored sessions share a token. Then
  `Guard.AppendedSessionShadowed` (the older session wins) holds in the model but is not
  promised by the code. Ids and emails are unique under `Valid()`, so no other lookup is affected.
- A stored session whose `expires_at` is present but null is not modelled. The code's
  comparison would raise on it. The model distinguishes only a timestamp from an absent field.
- `Listing.SortNewestFirst`: MongoDB does not fix the order of links with equal `created_at`.
  The model uses one stable order, in which equal timestamps keep insertion order. The
  contracts do not depend on that choice: they state order, content and cap only.
- `Service.Store.ListLinks`: the code rebuilds each listed record through the validators
  (backend/server.py:172). The model returns the records as stored. Instead it proves that,
  under `Valid()`, every listed record passes the validators, so the rebuild cannot fail.
- `Service.Store.Login`, `Service.Store.CreateLink`, `Service.Store.DeleteLink`: they require
  `Valid()`, the invariant that the constructor establishes and every handler keeps. They do
  not model a database filled by some other program.
- `backend_test.py`, `frontend/src/App.js` and `frontend/public/sw.js` are not part of this
  model. They are a remote smoke test, the browser UI and a service worker.
