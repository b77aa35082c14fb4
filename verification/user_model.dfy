/** The user document: its fields, the pre-save hook that hashes the
    password, password checking and the claims of the two tokens. */
module UserModel {
  import opened Base
  import opened Crypto

  /** A stored user. `password` holds a digest once set; the schema does not
      require it (its `required` key is misspelt), hence the Option.
      `refreshToken` is a single field: at most one live refresh token. */
  datatype User = User(username: string, password: Option<Digest>, refreshToken: Option<Token>)

  /** The sanitized projection handed to callers and attached by the access
      gate: the id and the username, without password or refresh token. */
  datatype Profile = Profile(id: Id, username: string)

  /** What a `save()` modifies: the password path or the refresh-token path. */
  datatype Change = SetPassword(plain: string) | SetRefreshToken(token: Token)

  /** Apply a change and run the pre-save hook: the password is hashed only
      when the password path was modified; otherwise the hook returns at
      once and the stored digest is left as it is. */
  function Save(u: User, change: Change): User {
    match change
    case SetPassword(plain) => u.(password := Some(Hash(plain)))
    case SetRefreshToken(t) => u.(refreshToken := Some(t))
  }

  /** `User.create({username, password})`: a new document whose password path
      is modified, saved through the hook. */
  function Create(username: string, plain: string): User {
    Save(User(username, None, None), SetPassword(plain))
  }

  /** `isCorrectPassword`: bcrypt.compare against the stored digest; bcrypt
      rejects a missing digest, which is not an ApiError. */
  function IsCorrectPassword(u: User, plain: string): Result<bool> {
    match u.password
    case None => Err(Uncaught)
    case Some(h) => Ok(Compare(plain, h))
  }

  /** The claims `{_id, username}` both token kinds carry. */
  function ClaimsOf(id: Id, u: User): Claims {
    Claims(id, u.username)
  }

  function AccessToken(id: Id, u: User, now: nat): Token {
    Sign(ClaimsOf(id, u), AccessSecret, now)
  }

  function RefreshToken(id: Id, u: User, now: nat): Token {
    Sign(ClaimsOf(id, u), RefreshSecret, now)
  }

  /** The pre-save hook hashes exactly on password changes: a saved password
      is stored as its digest (never as the plaintext) and then accepts
      exactly the passwords bcrypt cannot tell from it; saving the refresh
      token never re-hashes. */
  lemma SaveHashesOnlyPasswordChanges(u: User, change: Change, q: string)
    ensures change.SetPassword? ==>
      Save(u, change).password == Some(Hash(change.plain))
      && (IsCorrectPassword(Save(u, change), q) == Ok(Significant(q) == Significant(change.plain)))
    ensures change.SetRefreshToken? ==>
      Save(u, change).password == u.password
      && IsCorrectPassword(Save(u, change), q) == IsCorrectPassword(u, q)
    ensures Save(u, change).username == u.username
  {
  }

  /** Both tokens carry the same claims, each verifies under its own secret
      only: an access token never passes as a refresh token and vice versa. */
  lemma TokenKindsDoNotMix(id: Id, u: User, now: nat)
    ensures Verify(AccessToken(id, u, now), AccessSecret) == Some(Claims(id, u.username))
    ensures Verify(RefreshToken(id, u, now), RefreshSecret) == Some(Claims(id, u.username))
    ensures Verify(AccessToken(id, u, now), RefreshSecret).None?
    ensures Verify(RefreshToken(id, u, now), AccessSecret).None?
  {
  }
}
