/** The session lifecycle across requests: register then login, refresh
    rotation, logout, and how the access gate relates to all three. */
module Sessions {
  import opened Base
  import opened Text
  import opened Crypto
  import opened UserModel
  import opened Db
  import opened Tokens
  import opened Auth
  import opened UserController

  /** Registering a lower-case username and then logging in with the same
      credentials succeeds. */
  lemma RegisterThenLogin(s: Store, username: string, password: string, now: nat)
    requires Valid(s) && IsLower(username)
    requires Register(s, username, password).Ok?
    ensures Login(Register(s, username, password).value.store, username, password, now).Ok?
  {
    var reg := Register(s, username, password);
    RegisterPreservesValid(s, username, password);
    ToLowerFixesLower(username);
    assert reg.value.store.users[reg.value.out.id].username == username;
    assert HasCredentials(reg.value.store, username, password);
  }

  /** bcrypt reads only the first 72 characters of a password, so after
      registering, a login with any non-empty password that agrees with the
      registered one on those characters succeeds too. */
  lemma LoginAcceptsSamePrefix(s: Store, username: string, password: string, other: string, now: nat)
    requires Valid(s) && IsLower(username)
    requires Register(s, username, password).Ok?
    requires !Blank(other) && Significant(other) == Significant(password)
    ensures Login(Register(s, username, password).value.store, username, other, now).Ok?
  {
    var reg := Register(s, username, password);
    RegisterPreservesValid(s, username, password);
    ToLowerFixesLower(username);
    assert reg.value.store.users[reg.value.out.id].username == username;
    assert Hash(other) == Hash(password);
    assert HasCredentials(reg.value.store, username, other);
  }

  /** Every stored username is lower case, so a username with an upper-case
      letter is never found at login: 404, whatever the password. */
  lemma MixedCaseLoginNotFound(s: Store, username: string, password: string, now: nat)
    requires Valid(s) && !IsLower(username)
    requires !Blank(username) && !Blank(password)
    ensures Login(s, username, password, now) == Err(ApiError(NotFound))
  {
  }

  /** For the same reason the 409 check never fires on such a username:
      registration either succeeds (storing the lower-cased name) or is
      refused by the unique index with an error that is not an ApiError. */
  lemma MixedCaseRegisterNeverConflicts(s: Store, username: string, password: string)
    requires Valid(s) && !IsLower(username)
    requires !Blank(username) && !Blank(password)
    ensures Register(s, username, password).Ok?
         || Register(s, username, password) == Err(Uncaught)
  {
  }

  /** Registration and login disagree on case: after registering a
      username that has an upper-case letter, logging in with exactly the
      same credentials answers 404. */
  lemma MixedCaseRegisterThenLoginFails(s: Store, username: string, password: string, now: nat)
    requires Valid(s) && !IsLower(username)
    requires Register(s, username, password).Ok?
    ensures Login(Register(s, username, password).value.store, username, password, now) == Err(ApiError(NotFound))
  {
  }

  /** The concrete case: with "bob" registered, "Bob" passes the duplicate
      check and is then refused by the unique index instead of with 409. */
  lemma RegisterBobAfterBob()
    ensures
      var s := Register(Empty(), "bob", "pw").value.store;
      Register(s, "Bob", "pw") == Err(Uncaught)
  {
    var s := Register(Empty(), "bob", "pw").value.store;
    assert s.users[0].username == "bob";
    assert "bob" in Usernames(s.users);
    assert ToLower("Bob") == "bob";
    assert "Bob" != "bob";
    assert "Bob" !in Usernames(s.users) by {
      assert s.users.Keys == {0};
    }
  }

  /** After a successful login only the token it returned refreshes that
      user's session: any other token naming the user, including every
      token issued before, now fails. */
  lemma LoginThenRefresh(s: Store, username: string, password: string, now: nat, t: Token, later: nat)
    requires Valid(s)
    requires Login(s, username, password, now).Ok?
    requires Verify(t, RefreshSecret).Some?
    requires Verify(t, RefreshSecret).value.uid == Login(s, username, password, now).value.out.profile.id
    ensures Refresh(Login(s, username, password, now).value.store, Some(t), later).Ok?
        <==> t == Login(s, username, password, now).value.out.tokens.refresh
  {
  }

  /** Rotation: after a successful refresh only the newly issued refresh
      token works for that user; the presented one works again only if the
      issuer happened to mint an identical token. */
  lemma RefreshThenRefresh(s: Store, cookie: Option<Token>, now: nat, t: Token, later: nat)
    requires Refresh(s, cookie, now).Ok?
    requires Verify(t, RefreshSecret).Some?
    requires Verify(t, RefreshSecret).value.uid == Verify(cookie.value, RefreshSecret).value.uid
    ensures Refresh(Refresh(s, cookie, now).value.store, Some(t), later).Ok?
        <==> t == Refresh(s, cookie, now).value.out.refresh
  {
  }

  /** After logout no refresh token naming that user is accepted; the
      failure, like every failure inside refresh, is a 500. */
  lemma LogoutBlocksRefresh(s: Store, me: Profile, t: Token, now: nat)
    requires Verify(t, RefreshSecret).Some? && Verify(t, RefreshSecret).value.uid == me.id
    ensures Refresh(Logout(s, me), Some(t), now) == Err(ApiError(ServerError))
  {
  }

  /** Logging out twice is the same as logging out once. */
  lemma LogoutIdempotent(s: Store, me: Profile)
    ensures Logout(Logout(s, me), me) == Logout(s, me)
  {
  }

  /** Logout does not revoke access tokens: the gate decides every cookie
      the same way before and after. */
  lemma LogoutKeepsAccessTokens(s: Store, me: Profile, cookie: Option<Token>)
    ensures Authenticate(Logout(s, me), cookie) == Authenticate(s, cookie)
  {
  }

  /** A token minted at login passes the gate as long as its user exists;
      the refresh token minted with it never does. */
  lemma LoginTokensAtTheGate(s: Store, username: string, password: string, now: nat)
    requires Login(s, username, password, now).Ok?
    ensures
      var r := Login(s, username, password, now).value;
      && Authenticate(r.store, Some(r.out.tokens.access)) == Ok(r.out.profile)
      && Authenticate(r.store, Some(r.out.tokens.refresh)) == Err(ApiError(Unauthorized))
  {
  }
}
