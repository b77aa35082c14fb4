/** The session half of the user controller: register, login, refresh-token
    rotation and logout. */
module UserController {
  import opened Base
  import opened Text
  import opened Crypto
  import opened UserModel
  import opened Db
  import opened Tokens

  /** `registerUser`. The duplicate check looks for the username exactly as
      given, but the document is created with the lower-cased name; when
      that lower-cased name is already taken the unique index on `username`
      rejects the create with a duplicate-key error, not a 409. */
  function Register(s: Store, username: string, password: string): (r: Result<Updated<Profile>>)
    ensures r == Err(ApiError(BadRequest)) <==> Blank(username) || Blank(password)
    ensures r == Err(ApiError(Conflict)) <==>
      !Blank(username) && !Blank(password) && username in Usernames(s.users)
    ensures r.Ok? <==>
      && !Blank(username) && !Blank(password)
      && username !in Usernames(s.users)
      && ToLower(username) !in Usernames(s.users)
    ensures r.Ok? ==>
      var s', me := r.value.store, r.value.out;
      && me.username == ToLower(username)
      && s'.users == s.users[me.id := User(ToLower(username), Some(Hash(password)), None)]
      && s'.galleries == s.galleries && s'.media == s.media
    ensures r.Ok? && IdsBelow(s.users, s.nextId) ==>
      var s', me := r.value.store, r.value.out;
      && me.id !in s.users
      && (forall id :: id in s.users ==> id in s'.users && s'.users[id] == s.users[id])
  {
    if Blank(username) then Err(ApiError(BadRequest))
    else if Blank(password) then Err(ApiError(BadRequest))
    else if username in Usernames(s.users) then Err(ApiError(Conflict))
    else
      var name := ToLower(username);
      if name in Usernames(s.users) then Err(Uncaught)
      else
        var id := s.nextId;
        var s' := s.(users := s.users[id := Create(name, password)], nextId := id + 1);
        Ok(Updated(s', Profile(id, name)))
  }

  /** Registration keeps the store valid: the new name is lower case and was
      free, so usernames stay unique. */
  lemma RegisterPreservesValid(s: Store, username: string, password: string)
    requires Valid(s)
    ensures Register(s, username, password).Ok? ==> Valid(Register(s, username, password).value.store)
  {
  }

  /** What a successful login hands back: the sanitized user and the two
      tokens set as cookies. */
  datatype Session = Session(profile: Profile, tokens: TokenPair)

  /** `loginUser`. The lookup uses the username exactly as given. On success
      the user's stored refresh token is overwritten by the one returned and
      nothing else changes; a failure issues no token and stores nothing. */
  function Login(s: Store, username: string, password: string, now: nat): (r: Result<Updated<Session>>)
    ensures r == Err(ApiError(BadRequest)) <==> Blank(username) || Blank(password)
    ensures Valid(s) ==>
      (r == Err(ApiError(NotFound)) <==> !Blank(username) && !Blank(password) && username !in Usernames(s.users))
    ensures Valid(s) ==>
      (r.Ok? <==> !Blank(username) && !Blank(password) && HasCredentials(s, username, password))
    ensures Valid(s) ==>
      (r == Err(ApiError(Unauthorized)) <==>
        && !Blank(username) && !Blank(password)
        && username in Usernames(s.users)
        && !HasCredentials(s, username, password))
    ensures r.Ok? ==>
      var s', session := r.value.store, r.value.out;
      var id := session.profile.id;
      && id in s.users
      && s.users[id].username == username == session.profile.username
      && s.users[id].password == Some(Hash(password))
      && Verify(session.tokens.access, AccessSecret) == Some(Claims(id, username))
      && Verify(session.tokens.refresh, RefreshSecret) == Some(Claims(id, username))
      && s' == s.(users := s.users[id := s.users[id].(refreshToken := Some(session.tokens.refresh))])
  {
    if Blank(username) then Err(ApiError(BadRequest))
    else if Blank(password) then Err(ApiError(BadRequest))
    else match FindByUsername(s, username)
      case None => Err(ApiError(NotFound))
      case Some(id) =>
        match IsCorrectPassword(s.users[id], password)
        case Err(f) => Err(f)
        case Ok(valid) =>
          if !valid then Err(ApiError(Unauthorized))
          else match GenerateTokens(s, id, now)
            case Err(f) => Err(f)
            case Ok(issued) =>
              var s' := issued.store;
              LoginFacts(s, username, password);
              Ok(Updated(s', Session(Profile(id, s'.users[id].username), issued.out)))
  }

  /** Some user is stored under exactly this username with the digest of
      exactly this password. */
  predicate HasCredentials(s: Store, username: string, password: string) {
    exists id :: id in s.users && s.users[id].username == username && s.users[id].password == Some(Hash(password))
  }

  /** In a valid store the login lookup finds the one user with that name,
      whose password digest is present. */
  lemma LoginFacts(s: Store, username: string, password: string)
    ensures Valid(s) ==>
      && (FindByUsername(s, username).Some? <==> username in Usernames(s.users))
      && (FindByUsername(s, username).Some? ==>
           && s.users[FindByUsername(s, username).value].password.Some?
           && (HasCredentials(s, username, password) <==>
                s.users[FindByUsername(s, username).value].password == Some(Hash(password))))
      && (HasCredentials(s, username, password) ==> username in Usernames(s.users))
  {
  }

  lemma LoginPreservesValid(s: Store, username: string, password: string, now: nat)
    requires Valid(s)
    ensures Login(s, username, password, now).Ok? ==> Valid(Login(s, username, password, now).value.store)
  {
    var r := Login(s, username, password, now);
    if r.Ok? {
      GenerateTokensPreservesValid(s, r.value.out.profile.id, now);
    }
  }

  /** The refresh tokens currently stored on user documents. */
  function StoredRefreshTokens(s: Store): set<Token> {
    set id | id in s.users && s.users[id].refreshToken.Some? :: s.users[id].refreshToken.value
  }

  /** The body of the try block of `refreshAccessToken`, with what it
      throws: jwt.verify's own error for a token not signed with the refresh
      secret, 404 for an unknown user, 403 for a token other than the stored
      one; otherwise a new pair from `generateTokens`. */
  function RefreshAttempt(s: Store, t: Token, now: nat): (r: Result<Updated<TokenPair>>)
    ensures r.Ok? <==>
      && Verify(t, RefreshSecret).Some?
      && Verify(t, RefreshSecret).value.uid in s.users
      && s.users[Verify(t, RefreshSecret).value.uid].refreshToken == Some(t)
    ensures Verify(t, RefreshSecret).None? ==> r == Err(Uncaught)
    ensures r.Err? && Verify(t, RefreshSecret).Some? ==>
      (r.failure == ApiError(NotFound) <==> Verify(t, RefreshSecret).value.uid !in s.users)
    ensures r.Err? && Verify(t, RefreshSecret).Some? && Verify(t, RefreshSecret).value.uid in s.users ==>
      r.failure == ApiError(Forbidden)
  {
    match Verify(t, RefreshSecret)
    case None => Err(Uncaught)
    case Some(c) =>
      if c.uid !in s.users then Err(ApiError(NotFound))
      else if s.users[c.uid].refreshToken != Some(t) then Err(ApiError(Forbidden))
      else GenerateTokens(s, c.uid, now)
  }

  /** `refreshAccessToken`. A missing cookie is a 401; the catch around the
      rest turns every other failure, the 404 and the 403 included, into a
      500. It succeeds exactly when the presented token is the one stored
      for the user it names, and then stores the newly issued refresh token
      in its place. */
  function Refresh(s: Store, cookie: Option<Token>, now: nat): (r: Result<Updated<TokenPair>>)
    ensures r.Err? ==> (r.failure == ApiError(Unauthorized) <==> MissingCookie(cookie))
    ensures r.Err? && !MissingCookie(cookie) ==> r.failure == ApiError(ServerError)
    ensures r.Ok? <==>
      && !MissingCookie(cookie)
      && Verify(cookie.value, RefreshSecret).Some?
      && Verify(cookie.value, RefreshSecret).value.uid in s.users
      && s.users[Verify(cookie.value, RefreshSecret).value.uid].refreshToken == cookie
    ensures Valid(s) ==> (r.Ok? <==> !MissingCookie(cookie) && cookie.value in StoredRefreshTokens(s))
    ensures r.Ok? ==>
      var id := Verify(cookie.value, RefreshSecret).value.uid;
      var pair := r.value.out;
      && Verify(pair.access, AccessSecret) == Some(Claims(id, s.users[id].username))
      && Verify(pair.refresh, RefreshSecret) == Some(Claims(id, s.users[id].username))
      && r.value.store == s.(users := s.users[id := s.users[id].(refreshToken := Some(pair.refresh))])
  {
    RefreshFacts(s, cookie);
    if MissingCookie(cookie) then Err(ApiError(Unauthorized))
    else match RefreshAttempt(s, cookie.value, now)
      case Err(_) => Err(ApiError(ServerError))
      case Ok(issued) => Ok(issued)
  }

  /** In a valid store a token is stored for some user exactly when it
      verifies as a refresh token naming a user who stores it. */
  lemma RefreshFacts(s: Store, cookie: Option<Token>)
    ensures Valid(s) && !MissingCookie(cookie) ==>
      (cookie.value in StoredRefreshTokens(s) <==>
        && Verify(cookie.value, RefreshSecret).Some?
        && Verify(cookie.value, RefreshSecret).value.uid in s.users
        && s.users[Verify(cookie.value, RefreshSecret).value.uid].refreshToken == cookie)
  {
  }

  lemma RefreshPreservesValid(s: Store, cookie: Option<Token>, now: nat)
    requires Valid(s)
    ensures Refresh(s, cookie, now).Ok? ==> Valid(Refresh(s, cookie, now).value.store)
  {
    if Refresh(s, cookie, now).Ok? {
      GenerateTokensPreservesValid(s, Verify(cookie.value, RefreshSecret).value.uid, now);
    }
  }

  /** `logoutUser`: `$unset` the caller's refresh token. It never fails (an
      id with no document is simply not updated), and only that field of
      that one user changes. */
  function Logout(s: Store, me: Profile): (s': Store)
    ensures s'.users.Keys == s.users.Keys
    ensures me.id in s.users ==>
      && s'.users[me.id].refreshToken == None
      && s'.users[me.id].username == s.users[me.id].username
      && s'.users[me.id].password == s.users[me.id].password
    ensures forall id :: id in s.users && id != me.id ==> s'.users[id] == s.users[id]
    ensures s'.galleries == s.galleries && s'.media == s.media && s'.nextId == s.nextId
  {
    if me.id in s.users then s.(users := s.users[me.id := s.users[me.id].(refreshToken := None)])
    else s
  }

  lemma LogoutPreservesValid(s: Store, me: Profile)
    requires Valid(s)
    ensures Valid(Logout(s, me))
  {
  }
}
