/**
 * The credential store: user rows by id, with the unique (lower-cased) email index the
 * handlers look users up by.
 */
module Users {
  import opened Wrappers
  import opened Text
  import opened Password
  import opened Jwt

  /** A user row. `refreshHash` is the digest of the one refresh token currently accepted
      for the user, or `null` when the user has no session. */
  datatype User = User(
    email: string,
    passwordHash: Digest<string>,
    name: Option<string>,
    refreshHash: Option<Digest<Wire>>,
    createdAt: nat)

  type UserStore = map<UserId, User>

  /** The database's unique constraint on `email`. */
  ghost predicate UniqueEmails(users: UserStore) {
    forall a, b :: a in users && b in users && users[a].email == users[b].email ==> a == b
  }

  /**
   * What the store keeps true: unique emails, every email stored lower case (the handlers
   * lower-case before every write), and every id below the next one to be allocated.
   */
  ghost predicate StoreValid(users: UserStore, nextId: UserId) {
    && UniqueEmails(users)
    && (forall id :: id in users ==> IsLower(users[id].email))
    && (forall id :: id in users ==> id < nextId)
  }

  /** `prisma.user.findUnique({ where: { email } })`. */
  function FindByEmail(users: UserStore, email: string): (r: Option<UserId>)
    requires UniqueEmails(users)
    ensures r.Some? ==> r.value in users && users[r.value].email == email
    ensures r.None? ==> forall id :: id in users ==> users[id].email != email
  {
    if exists id :: id in users && users[id].email == email then
      var id :| id in users && users[id].email == email; Some(id)
    else
      None
  }

  /** The public projection `{ id, email, name }` returned by register and login. */
  datatype PublicUser = PublicUser(id: UserId, email: string, name: Option<string>)

  /** The projection `{ id, email, name, createdAt }` selected by the "who am I" query. */
  datatype ProfileUser = ProfileUser(id: UserId, email: string, name: Option<string>, createdAt: nat)

  function Public(id: UserId, u: User): PublicUser {
    PublicUser(id, u.email, u.name)
  }

  function Profile(id: UserId, u: User): ProfileUser {
    ProfileUser(id, u.email, u.name, u.createdAt)
  }

  /** `prisma.user.update({ where: { id }, data: { refreshToken: h } })` on an existing row:
      only that row's `refreshHash` changes. */
  function WithRefreshHash(users: UserStore, id: UserId, h: Option<Digest<Wire>>): (r: UserStore)
    requires id in users
    ensures r.Keys == users.Keys
    ensures r[id].refreshHash == h
    ensures r[id] == users[id].(refreshHash := h)
    ensures forall other :: other in users && other != id ==> r[other] == users[other]
  {
    users[id := users[id].(refreshHash := h)]
  }

  /** Changing a refresh hash keeps the store valid. */
  lemma WithRefreshHashValid(users: UserStore, nextId: UserId, id: UserId, h: Option<Digest<Wire>>)
    requires StoreValid(users, nextId) && id in users
    ensures StoreValid(WithRefreshHash(users, id, h), nextId)
  {
    var r := WithRefreshHash(users, id, h);
    forall a, b | a in r && b in r && r[a].email == r[b].email ensures a == b {
      assert users[a].email == r[a].email && users[b].email == r[b].email;
    }
  }
}
