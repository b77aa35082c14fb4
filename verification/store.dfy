/** The database as an immutable value: one map per collection and the id
    counter, plus the invariant every route keeps. */
module Db {
  import opened Base
  import opened Text
  import opened Crypto
  import opened UserModel
  import opened GalleryModel
  import opened MediaModel

  datatype Store = Store(
    users: map<Id, User>,
    galleries: map<Id, Gallery>,
    media: map<Id, Media>,
    nextId: Id)

  /** A successful write: the new store and what the handler replies with. */
  datatype Updated<+T> = Updated(store: Store, out: T)

  function Empty(): Store {
    Store(map[], map[], map[], 0)
  }

  /** The usernames stored in `users`; `findOne({username})` finds a
      document exactly when the name is in this set. */
  function Usernames(users: map<Id, User>): set<string> {
    set id | id in users :: users[id].username
  }

  /** The first id in [from, bound) whose user has this username. */
  function FindFrom(users: map<Id, User>, name: string, from: Id, bound: Id): (r: Option<Id>)
    ensures r.Some? ==> from <= r.value < bound && r.value in users && users[r.value].username == name
    ensures r.Some? ==> forall j :: from <= j < r.value && j in users ==> users[j].username != name
    ensures r.None? ==> forall j :: from <= j < bound && j in users ==> users[j].username != name
    decreases bound - from
  {
    if from >= bound then None
    else if from in users && users[from].username == name then Some(from)
    else FindFrom(users, name, from + 1, bound)
  }

  /** `User.findOne({username})` when the handler needs the document itself:
      the user with that exact username, first in id order. */
  function FindByUsername(s: Store, name: string): Option<Id> {
    FindFrom(s.users, name, 0, s.nextId)
  }

  predicate IdsBelow<T>(m: map<Id, T>, bound: Id) {
    forall id :: id in m ==> id < bound
  }

  predicate UniqueUsernames(users: map<Id, User>) {
    forall a, b :: a in users && b in users && users[a].username == users[b].username ==> a == b
  }

  predicate Distinct<T(==)>(xs: seq<T>) {
    forall i, j :: 0 <= i < j < |xs| ==> xs[i] != xs[j]
  }

  /** A user as registration leaves it and the session code keeps it: a
      non-empty lower-case username, a password digest, and a stored refresh
      token (if any) that verifies under the refresh secret and names this
      very user. */
  predicate UserOk(id: Id, u: User) {
    && !Blank(u.username)
    && IsLower(u.username)
    && u.password.Some?
    && (u.refreshToken.Some? ==> Verify(u.refreshToken.value, RefreshSecret) == Some(Claims(id, u.username)))
  }

  /** A gallery's members are distinct registered usernames, between one and
      MemberLimit + 1 of them, and include the creator's. */
  predicate GalleryOk(users: map<Id, User>, g: Gallery) {
    && 1 <= |g.members| <= MemberLimit + 1
    && Distinct(g.members)
    && (forall i :: 0 <= i < |g.members| ==> g.members[i] in Usernames(users))
    && g.createdBy in users
    && users[g.createdBy].username in g.members
  }

  /** A media record was uploaded by a registered user and lists each
      gallery at most once. Gallery ids may dangle. */
  predicate MediaOk(users: map<Id, User>, m: Media) {
    && m.uploadedBy in Usernames(users)
    && Distinct(m.belongsToGallery)
  }

  predicate Valid(s: Store) {
    && IdsBelow(s.users, s.nextId)
    && IdsBelow(s.galleries, s.nextId)
    && IdsBelow(s.media, s.nextId)
    && UniqueUsernames(s.users)
    && (forall id :: id in s.users ==> UserOk(id, s.users[id]))
    && (forall g :: g in s.galleries ==> GalleryOk(s.users, s.galleries[g]))
    && (forall m :: m in s.media ==> MediaOk(s.users, s.media[m]))
  }

  /** `me` is the identity of a current user of `s`, as the access gate
      attaches it. */
  predicate Identifies(s: Store, me: Profile) {
    me.id in s.users && s.users[me.id].username == me.username
  }

  lemma EmptyValid()
    ensures Valid(Empty())
  {
  }

  /** In a valid store the first-match search finds a name exactly when
      `findOne` would, and what it finds is the one user with that name. */
  lemma FindByUsernameExact(s: Store, name: string)
    requires Valid(s)
    ensures FindByUsername(s, name).Some? <==> name in Usernames(s.users)
    ensures forall id :: id in s.users && s.users[id].username == name ==> FindByUsername(s, name) == Some(id)
  {
  }

  /** Rewriting a user without renaming it keeps the set of usernames. */
  lemma UsernamesKeep(users: map<Id, User>, id: Id, u: User)
    requires id in users && u.username == users[id].username
    ensures Usernames(users[id := u]) == Usernames(users)
  {
    var users' := users[id := u];
    forall n | n in Usernames(users)
      ensures n in Usernames(users')
    {
      var k :| k in users && users[k].username == n;
      assert users'[k].username == n;
    }
  }

  /** Rewriting one user's record in place, without renaming it and keeping
      it well formed, keeps the store valid. */
  lemma ValidAfterUserRewrite(s: Store, id: Id, u: User)
    requires Valid(s) && id in s.users
    requires u.username == s.users[id].username && UserOk(id, u)
    ensures Valid(s.(users := s.users[id := u]))
  {
    var s' := s.(users := s.users[id := u]);
    UsernamesKeep(s.users, id, u);
    forall g | g in s'.galleries
      ensures GalleryOk(s'.users, s'.galleries[g])
    {
      assert GalleryOk(s.users, s.galleries[g]);
    }
    forall m | m in s'.media
      ensures MediaOk(s'.users, s'.media[m])
    {
      assert MediaOk(s.users, s.media[m]);
    }
  }
}
