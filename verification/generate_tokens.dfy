/** `generateTokens(userId)`: mint an access/refresh pair for a user and
    persist the refresh token on that user's document. */
module Tokens {
  import opened Base
  import opened Crypto
  import opened UserModel
  import opened Db

  datatype TokenPair = TokenPair(access: Token, refresh: Token)

  /** Any failure (here: the user does not exist, so the document is null)
      is rethrown as a 500. On success both tokens carry the user's id and
      username, the stored refresh token is the one returned, and nothing
      else in the store changes; the save does not re-hash the password. */
  function GenerateTokens(s: Store, uid: Id, now: nat): (r: Result<Updated<TokenPair>>)
    ensures r.Ok? <==> uid in s.users
    ensures r.Err? ==> r.failure == ApiError(ServerError)
    ensures r.Ok? ==>
      var pair := r.value.out;
      && Verify(pair.access, AccessSecret) == Some(Claims(uid, s.users[uid].username))
      && Verify(pair.refresh, RefreshSecret) == Some(Claims(uid, s.users[uid].username))
    ensures r.Ok? ==>
      r.value.store == s.(users := s.users[uid := s.users[uid].(refreshToken := Some(r.value.out.refresh))])
  {
    if uid !in s.users then Err(ApiError(ServerError))
    else
      var u := s.users[uid];
      var access := AccessToken(uid, u, now);
      var refresh := RefreshToken(uid, u, now);
      TokenKindsDoNotMix(uid, u, now);
      Ok(Updated(s.(users := s.users[uid := Save(u, SetRefreshToken(refresh))]), TokenPair(access, refresh)))
  }

  /** Minting tokens keeps the store valid: the refresh token written back
      names the user it is stored on. */
  lemma GenerateTokensPreservesValid(s: Store, uid: Id, now: nat)
    requires Valid(s)
    ensures GenerateTokens(s, uid, now).Ok? ==> Valid(GenerateTokens(s, uid, now).value.store)
  {
    var r := GenerateTokens(s, uid, now);
    if r.Ok? {
      var u' := s.users[uid].(refreshToken := Some(r.value.out.refresh));
      assert UserOk(uid, s.users[uid]);
      ValidAfterUserRewrite(s, uid, u');
    }
  }
}
