# PicHub backend core in Dafny

A verified model of the core of the PicHub photo-sharing backend (an
Express/Mongoose server): the session lifecycle of user accounts (register,
login, refresh-token rotation, logout and the access-token gate in front of
every protected route), and the membership and ownership rules of galleries
and media. The database is an immutable value `Store` with one map per
collection (users, galleries, media) and an id counter. Every handler is a
pure function of a store and a request. Handlers that create something or
hand back data with a write return `Result<Updated<T>>` (the new store and
the reply); `DeleteGallery`, `AddToGallery` and `DeleteMedia` return
`Result<Store>`; the read-only `GalleryImages` returns `Result<set<Id>>`;
`Logout`, which cannot fail, returns a `Store`. A failure carries either
the `ApiError` status the handler throws or `Uncaught` for any other
exception, and never a new store, so a failed request changes nothing.

Module layout follows the source tree:

| file | module | models |
|---|---|---|
| base.dfy | `Base` | ids, `Option`, `Result`, `Failure`, HTTP statuses |
| text.dfy | `Text` | the `!field` test, ASCII `toLowerCase` |
| crypto.dfy | `Crypto` | bcrypt as `Hash`/`Compare`, jsonwebtoken as `Sign`/`Verify` |
| user_model.dfy | `UserModel` | `src/models/user.model.js` |
| gallery_model.dfy | `GalleryModel` | `src/models/gallery.model.js` |
| media_model.dfy | `MediaModel` | `src/models/media.model.js` |
| store.dfy | `Db` | the collections, `findOne({username})`, the store invariant `Valid` |
| generate_tokens.dfy | `Tokens` | `src/utils/generateTokens.js` |
| auth_middleware.dfy | `Auth` | `src/middleware/auth.middleware.js` |
| user_controller.dfy | `UserController` | `src/controller/user.controller.js` (session routes) |
| gallery_controller.dfy | `GalleryController` | `src/controller/gallery.controller.js` |
| media_controller.dfy | `MediaController` | `src/controller/media.controller.js` |
| routes.dfy | `Routes` | the three route files: public versus gated requests, runs of requests |
| sessions.dfy | `Sessions` | properties of sequences of session operations |
| sharing.dfy | `Sharing` | properties of sequences of gallery and media operations |

Foreign pieces are abstract. bcrypt is `Hash(p)` with
`Compare(p, h) <==> h == Hash(p)`; like bcrypt, `Hash` reads only the first
72 characters of a password, and is injective on those. A digest is its own
type, so a stored password is never the plaintext. A JWT is
`Jwt(secret, claims, iat)`, and `Verify(t, k)` accepts it exactly when it
was signed with secret `k`. In the source access and refresh tokens differ
in the secret and in their lifetime (`expiresIn`); the model keeps the
secret and leaves expiry out (see "## Left out").
The clock (`now`, the issue time in seconds) and the asset host's answers
(the upload result and whether a delete succeeded) are parameters.

Where the pieces of the source disagree, the model makes these choices:

- `addMembers` reports an unknown username with `new Error(404, …)`, a
  plain `Error` and not an `ApiError`, so the model gives `Uncaught`, not
  404.
- Registration checks for duplicates with the username as given but stores
  it lower-cased. A mixed-case name never meets the 409 check. If its
  lower-cased form is taken, the unique index on `username` refuses the
  create with a duplicate-key error (`Uncaught`). Login looks the name up as
  given, so a user who registered with an upper-case letter gets 404 when
  logging in with the same credentials (`Sessions.MixedCaseRegisterThenLoginFails`).
- The member limit check refuses only when a gallery already holds more than
  50 names, so a gallery can reach 51 members, never more.
- `media.model.js` declares `uploadedBy` as an ObjectId, but the upload and
  delete handlers store and compare the uploader's username. Here the model
  follows the handlers' text and keeps a username; the schema cast that
  Mongoose would apply is not modelled (see "## Left out").
- A missing gallery in `addMembers` and `addToGallery` is dereferenced
  before any status is chosen, so the model gives `Uncaught` there.

## Model

| member | source | states |
|---|---|---|
| Text.ToLowerIsLower | src/controller/user.controller.js:33 | the lower-cased username keeps its length and contains no upper-case letter |
| Crypto.CompareAcceptsSamePrefix | src/models/user.model.js:32-34 | a password hash accepts exactly the passwords that agree with the hashed one on their first 72 characters; for passwords of at most 72 characters, exactly the hashed one |
| Crypto.LongPasswordsCollide | src/models/user.model.js:27 | two passwords that differ only after the 72nd character are accepted by each other's hash |
| Crypto.VerifySign | src/models/user.model.js:36-60 | a token verifies, with its claims, under the secret it was signed with and under no other |
| Crypto.VerifiedWasSigned | src/middleware/auth.middleware.js:13 | whatever verifies under a secret is a token signed with that secret over the returned claims |
| UserModel.SaveHashesOnlyPasswordChanges | src/models/user.model.js:23-30 | a save that sets the password stores its digest, which then accepts exactly the passwords agreeing with it on the first 72 characters; a save of the refresh token never re-hashes and leaves password checking unchanged |
| UserModel.TokenKindsDoNotMix | src/models/user.model.js:36-60 | access and refresh tokens carry the same `{_id, username}` claims; each verifies only under its own secret |
| Db.FindFrom | src/controller/user.controller.js:67-69 | the search returns the first id in range whose user has the name, and returns nothing only when no user in range has it |
| Db.FindByUsernameExact | src/controller/user.controller.js:67-72 | in a valid store the lookup finds a user exactly when the name is registered, and then the unique user with that name |
| Tokens.GenerateTokens | src/utils/generateTokens.js:4-16 | succeeds exactly for an existing user, else 500; both tokens name that user; the stored refresh token becomes the returned one and nothing else in the store changes |
| Tokens.GenerateTokensPreservesValid | src/utils/generateTokens.js:10-11 | the written-back refresh token is bound to its user, so the store stays valid |
| Auth.Authenticate | src/middleware/auth.middleware.js:6-27 | every rejection is 401; it accepts exactly a present cookie that verifies under the access secret and names an existing user, and attaches that user's id and current username |
| Auth.RefreshTokenRejectedByGate | src/middleware/auth.middleware.js:13 | a token signed with the refresh secret is refused by the gate with 401 |
| Auth.GateIgnoresRefreshTokens | src/middleware/auth.middleware.js:13-23 | changing any user's stored refresh token does not change the gate's verdict on any cookie |
| UserController.Register | src/controller/user.controller.js:14-35 | 400 exactly when username or password is missing; 409 exactly when the name as given is registered; success exactly when neither the name nor its lower-cased form is registered, storing the lower-cased name and the password's digest with no refresh token, other users and collections unchanged |
| UserController.RegisterPreservesValid | src/controller/user.controller.js:23-35 | registration keeps usernames unique and lower case and the store valid |
| UserController.Login | src/controller/user.controller.js:60-83 | 400 for a missing field; in a valid store 404 exactly for an unregistered name, 401 exactly for a wrong password, success exactly for matching credentials; on success the tokens name that user and only that user's stored refresh token changes, to the one returned |
| UserController.LoginFacts | src/controller/user.controller.js:67-77 | in a valid store the login lookup finds the registered user, whose digest is present and matches exactly the right password |
| UserController.LoginPreservesValid | src/controller/user.controller.js:79 | login keeps the store valid |
| UserController.RefreshAttempt | src/controller/user.controller.js:110-143 | inside the try block: success exactly when the token verifies as a refresh token naming an existing user who stores exactly it; a token failing verification is a non-ApiError failure, a verified token naming no user fails with 404, and one naming an existing user that does not store it fails with 403 |
| UserController.Refresh | src/controller/user.controller.js:105-147 | a missing cookie is the only 401 and every other failure is 500; success exactly when the presented token is the one stored for the user it names (in a valid store: is some user's stored token); then the new refresh token replaces it and nothing else changes |
| UserController.RefreshFacts | src/controller/user.controller.js:115-122 | in a valid store a token is some user's stored token exactly when it verifies and is stored on the user it names |
| UserController.RefreshPreservesValid | src/controller/user.controller.js:131 | refresh keeps the store valid |
| UserController.Logout | src/controller/user.controller.js:150-159 | never fails; the caller's refresh token becomes unset; the caller's name and password and every other user and collection are unchanged |
| UserController.LogoutPreservesValid | src/controller/user.controller.js:151-159 | logout keeps the store valid |
| GalleryController.CreateGallery | src/controller/gallery.controller.js:12-20 | 400 exactly for a missing name; otherwise a new gallery with that name, members exactly the creator's username, created by the creator's id, and nothing else changed |
| GalleryController.CreateGalleryPreservesValid | src/controller/gallery.controller.js:16-20 | a new gallery's only member is its registered creator, so the store stays valid |
| GalleryController.AddMembers | src/controller/gallery.controller.js:36-66 | 400 exactly for a missing id or username; 403 exactly when the user is already a member or the list holds more than 50; success exactly when the name is registered, the gallery exists, the name is new and the list holds at most 50; then the name is appended once, the list never exceeds 51, and name, creator, other galleries and other collections are unchanged |
| GalleryController.AddMembersPreservesValid | src/controller/gallery.controller.js:52-66 | members stay distinct, registered and at most 51, so the store stays valid |
| GalleryController.GalleryImages | src/controller/gallery.controller.js:138-183 | 400 for a missing id, 404 for a missing gallery, 403 exactly for a non-member; a member gets exactly the media that list the gallery |
| GalleryController.DeleteGallery | src/controller/gallery.controller.js:202-220 | 400, 404, and 403 exactly when the caller is not the creator; success removes only that gallery, media untouched |
| GalleryController.DeleteGalleryPreservesValid | src/controller/gallery.controller.js:220 | deleting a gallery keeps the store valid even though media may now list a missing gallery |
| MediaController.CaptionOrDefault | src/controller/media.controller.js:33 | the stored caption is the given caption when one is given and exactly a single space otherwise |
| MediaController.UploadMedia | src/controller/media.controller.js:20-47 | 400 exactly without a file, 500 exactly when the asset host gives no URL; success does not depend on any gallery; the new record is owned by the caller's username, has the given or default caption and lists exactly the given gallery, if any |
| MediaController.UploadMediaPreservesValid | src/controller/media.controller.js:32-47 | a new record's uploader is a registered user, so the store stays valid |
| MediaController.AddToGallery | src/controller/media.controller.js:60-94 | 400 for a missing id or a gallery already listed, 403 exactly for a non-member, 404 exactly for missing media; success appends the gallery id to that record only |
| MediaController.AddToGalleryPreservesValid | src/controller/media.controller.js:83-94 | a record's gallery list stays free of duplicates, so the store stays valid |
| MediaController.DeleteMedia | src/controller/media.controller.js:131-157 | 400, 404, 403 exactly when the caller is not the uploader, 500 exactly when the asset host reports failure; success removes only that record |
| MediaController.DeleteMediaPreservesValid | src/controller/media.controller.js:151 | deleting media keeps the store valid |
| Routes.Handle | src/routes/user.route.js:15-23 | a failed request leaves the store unchanged; a gated request the gate rejects is a 401 before any handler; an authenticated logout always succeeds |
| Routes.PublicRoutesIgnoreAccessCookie | src/routes/user.route.js:15-17 | register, login and refresh give the same outcome whatever the access cookie |
| Routes.AddMemberIgnoresCaller | src/controller/gallery.controller.js:33-66 | any two authenticated callers get the same outcome from adding a member: neither membership nor ownership is checked |
| Routes.HandlePreservesValid | src/app.js:24-31 | every request, public or gated, keeps the store valid |
| Routes.RunPreservesValid | src/app.js:24-31 | any sequence of requests keeps the store valid |
| Routes.MembersStayBounded | src/controller/gallery.controller.js:57-62 | after any sequence of requests from the empty store, every gallery has at most 51 members and includes its creator |
| Sessions.LoginAcceptsSamePrefix | src/models/user.model.js:32-34 | after registering, login with any non-empty password agreeing with the registered one on the first 72 characters succeeds |
| Sessions.RegisterThenLogin | src/controller/user.controller.js:23-79 | registering a lower-case username and then logging in with the same credentials succeeds |
| Sessions.MixedCaseLoginNotFound | src/controller/user.controller.js:67-72 | in a valid store, login with a username containing an upper-case letter is always 404 |
| Sessions.MixedCaseRegisterNeverConflicts | src/controller/user.controller.js:23-35 | in a valid store, registering such a username never yields 409: it succeeds or the create is refused by the unique index |
| Sessions.MixedCaseRegisterThenLoginFails | src/controller/user.controller.js:33-72 | after registering a username with an upper-case letter, login with exactly the same credentials is 404 |
| Sessions.RegisterBobAfterBob | src/controller/user.controller.js:23-35 | with "bob" registered, registering "Bob" is refused by the unique index and not with 409 |
| Sessions.LoginThenRefresh | src/controller/user.controller.js:79-122 | after a login, a refresh token naming that user refreshes exactly when it is the token the login returned |
| Sessions.RefreshThenRefresh | src/controller/user.controller.js:120-131 | after a refresh, a refresh token naming that user refreshes exactly when it is the newly issued one |
| Sessions.LogoutBlocksRefresh | src/controller/user.controller.js:150-159 | after logout every refresh token naming the user is refused with 500 |
| Sessions.LogoutIdempotent | src/controller/user.controller.js:151-159 | logging out twice equals logging out once |
| Sessions.LogoutKeepsAccessTokens | src/middleware/auth.middleware.js:13-23 | logout does not change the gate's verdict on any access cookie |
| Sessions.LoginTokensAtTheGate | src/middleware/auth.middleware.js:13-20 | the access token a login returns passes the gate as that user; the refresh token returned with it is refused with 401 |
| Sharing.AddedMemberSeesImages | src/controller/gallery.controller.js:148-150 | once a user has been added to a gallery, that user may list its images |
| Sharing.CreatorIsOnlyFirstMember | src/controller/gallery.controller.js:16-20 | the creator of a new gallery may list its images and every other username gets 403 |
| Sharing.OnlyCreatorDeletes | src/controller/gallery.controller.js:216-220 | the creator may delete a new gallery; any caller with another id gets 403 |
| Sharing.AttachedMediaIsListed | src/controller/media.controller.js:93-94 | attaching media to a gallery adds exactly that record to the gallery's image listing |
| Sharing.DeletedGalleryIsGone | src/controller/gallery.controller.js:220 | after deletion, listing the gallery is 404 and attaching to it fails; media that listed it keep its id |

## Left out

- Password hashing salt, bcrypt's constant-time comparison and the one-way
  property: `Hash` is a deterministic function, injective on the first 72
  characters of a password.
- Crypto.CompareAcceptsSamePrefix: bcrypt truncates at 72 bytes; the model
  truncates at 72 characters, which is the same for ASCII passwords only.
- JWT signing, expiry and its TTL configuration: access and refresh tokens
  are signed with different `expiresIn` values (src/models/user.model.js:44
  and :57), but tokens never expire in the model, and the model makes no claim that a rotated token differs from the
  one it replaces (two signings of the same claims in the same second
  coincide).
- Lower-casing covers ASCII letters only; Unicode case mapping is not
  modelled.
- Absent and empty request fields are one case (`Blank`), since every
  handler tests them with `!field`; other falsy values are not modelled.
  Id parameters are parsed ids (`Option<Id>`): a string that is not a valid
  ObjectId, on which the handlers throw, is not modelled.
- The upload to the asset host and the file-parsing middleware: the model
  takes whether a file arrived and the host's answer as inputs. The
  delete at the asset host is a boolean oracle; a delete that succeeds at
  the host while the database delete fails is not modelled.
- Database and network failures (store unavailable, `create` or `findById`
  returning nothing after a successful write): every database call succeeds.
  The model has no concurrency; races between two refresh calls are out.
- The status an `Uncaught` failure gets is decided by the request wrapper
  (`asyncHandler`), which is not part of this model.
- `getUser`, `getUserbyId` and `getGalleryMembers` (read-only aggregation
  queries) and `getMedia` (a read-only `findById`) change nothing. `userStatus` is modelled only as
  returning the caller's identity.
- GalleryController.GalleryImages: returns the ids of the matching media
  rather than the projected fields of each record.
- Response shaping, cookie options, CORS, body limits, the health check,
  database connection and bootstrap.
- The schema does not require a password (its `required` key is misspelt),
  so `User.password` is optional; every user created through registration
  has one, and login on a user without one fails with `Uncaught`.
- MediaController.UploadMedia: the ObjectId cast that the schema applies to
  `uploadedBy` is not modelled; the model stores the username. As written,
  an ordinary username is not a valid ObjectId, so `Media.create` throws a
  cast error, a non-ApiError failure, and the upload fails.
- MediaController.DeleteMedia: compares the stored uploader with the
  caller's username. As written, a username that did cast is stored as an
  ObjectId, so the strict `!==` at src/controller/media.controller.js:139 is
  always true and every delete of existing media is refused with 403.
- Logging: `console.log` of the username and the plaintext password at
  src/controller/user.controller.js:12 and of the upload details at
  src/controller/media.controller.js:17-18 and :25 is output only and is not
  modelled.
