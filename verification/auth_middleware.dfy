/** `verifyJWT`: the gate in front of every protected route. */
module Auth {
  import opened Base
  import opened Crypto
  import opened UserModel
  import opened Db

  /** Read the access-token cookie, verify it under the access secret, load
      the user it names and attach the sanitized identity. Everything in the
      gate runs inside one try block whose catch rethrows as 401, so every
      rejection (no cookie, bad signature, wrong kind, unknown user) is a
      401. The stored refresh token is never consulted. */
  function Authenticate(s: Store, cookie: Option<Token>): (r: Result<Profile>)
    ensures r.Err? ==> r.failure == ApiError(Unauthorized)
    ensures r.Ok? <==>
      && !MissingCookie(cookie)
      && Verify(cookie.value, AccessSecret).Some?
      && Verify(cookie.value, AccessSecret).value.uid in s.users
    ensures r.Ok? ==> r.value.id == Verify(cookie.value, AccessSecret).value.uid && Identifies(s, r.value)
  {
    if MissingCookie(cookie) then Err(ApiError(Unauthorized))
    else match Verify(cookie.value, AccessSecret)
      case None => Err(ApiError(Unauthorized))
      case Some(c) =>
        if c.uid in s.users then Ok(Profile(c.uid, s.users[c.uid].username))
        else Err(ApiError(Unauthorized))
  }

  /** A refresh token (or any token not signed with the access secret)
      never passes the gate. */
  lemma RefreshTokenRejectedByGate(s: Store, t: Token)
    requires t.Jwt? && t.secret == RefreshSecret
    ensures Authenticate(s, Some(t)) == Err(ApiError(Unauthorized))
  {
  }

  /** The gate reads only the usernames and ids of the store: rewriting any
      user's refresh token (login, refresh, logout) leaves its verdict on
      every cookie unchanged. */
  lemma GateIgnoresRefreshTokens(s: Store, id: Id, t: Option<Token>, cookie: Option<Token>)
    requires id in s.users
    ensures Authenticate(s.(users := s.users[id := s.users[id].(refreshToken := t)]), cookie)
         == Authenticate(s, cookie)
  {
  }
}
