/** The route tables: which requests are public (register, login, refresh)
    and which run behind the access gate (every other user route, every
    gallery and media route); and runs of requests against the store. */
module Routes {
  import opened Base
  import opened Crypto
  import opened UserModel
  import opened GalleryModel
  import opened Db
  import opened Tokens
  import opened Auth
  import UserController
  import GalleryController
  import MediaController

  /** The two cookies a request may carry. */
  datatype Cookies = Cookies(access: Option<Token>, refresh: Option<Token>)

  /** What the world outside the store contributes to one request: the
      clock (seconds) and the asset host's answers to upload and delete. */
  datatype World = World(now: nat, asset: Option<MediaController.Asset>, cloudDeleted: bool)

  /** A request to a route behind the gate. */
  datatype Operation =
    | Status
    | Logout
    | CreateGallery(galleryName: string)
    | AddMember(galleryId: Option<Id>, username: string)
    | GalleryImages(galleryId: Option<Id>)
    | DeleteGallery(galleryId: Option<Id>)
    | UploadMedia(hasFile: bool, caption: string, galleryId: Option<Id>)
    | AddToGallery(galleryId: Option<Id>, mediaId: Option<Id>)
    | DeleteMedia(mediaId: Option<Id>)

  datatype Request =
    | Register(username: string, password: string)
    | Login(username: string, password: string)
    | RefreshTokens
    | Secured(op: Operation)

  datatype Reply =
    | Registered(user: Profile)
    | LoggedIn(session: UserController.Session)
    | Refreshed(tokens: TokenPair)
    | CurrentUser(user: Profile)
    | LoggedOut
    | GalleryCreated(galleryId: Id)
    | MembersAdded(gallery: Gallery)
    | Images(media: set<Id>)
    | GalleryDeleted
    | MediaUploaded(mediaId: Id)
    | AddedToGallery
    | MediaDeleted

  datatype Response = Response(store: Store, reply: Result<Reply>)

  /** A handler's write becomes the new store; its failure leaves the old. */
  function Commit<T>(s: Store, r: Result<Updated<T>>, wrap: T -> Reply): Response {
    match r
    case Err(f) => Response(s, Err(f))
    case Ok(u) => Response(u.store, Ok(wrap(u.out)))
  }

  function Replace(s: Store, r: Result<Store>, reply: Reply): Response {
    match r
    case Err(f) => Response(s, Err(f))
    case Ok(s') => Response(s', Ok(reply))
  }

  /** A protected handler, run with the identity the gate attached. */
  function Serve(s: Store, me: Profile, op: Operation, world: World): Response {
    match op
    case Status => Response(s, Ok(CurrentUser(me)))
    case Logout => Response(UserController.Logout(s, me), Ok(LoggedOut))
    case CreateGallery(name) =>
      Commit(s, GalleryController.CreateGallery(s, me, name), gid => GalleryCreated(gid))
    case AddMember(gid, username) =>
      Commit(s, GalleryController.AddMembers(s, gid, username), g => MembersAdded(g))
    case GalleryImages(gid) =>
      (match GalleryController.GalleryImages(s, me, gid)
       case Err(f) => Response(s, Err(f))
       case Ok(ids) => Response(s, Ok(Images(ids))))
    case DeleteGallery(gid) =>
      Replace(s, GalleryController.DeleteGallery(s, me, gid), GalleryDeleted)
    case UploadMedia(hasFile, caption, gid) =>
      Commit(s, MediaController.UploadMedia(s, me, hasFile, world.asset, caption, gid), mid => MediaUploaded(mid))
    case AddToGallery(gid, mid) =>
      Replace(s, MediaController.AddToGallery(s, me, gid, mid), AddedToGallery)
    case DeleteMedia(mid) =>
      Replace(s, MediaController.DeleteMedia(s, me, mid, world.cloudDeleted), MediaDeleted)
  }

  /** One request through the routes. A failed request leaves the store as
      it was; a protected request the gate rejects is a 401 and reaches no
      handler. */
  function Handle(s: Store, req: Request, cookies: Cookies, world: World): (resp: Response)
    ensures resp.reply.Err? ==> resp.store == s
    ensures req.Secured? && Authenticate(s, cookies.access).Err? ==>
      resp == Response(s, Err(ApiError(Unauthorized)))
    ensures req.Secured? && req.op.Logout? && Authenticate(s, cookies.access).Ok? ==>
      resp.reply == Ok(LoggedOut)
  {
    match req
    case Register(username, password) =>
      Commit(s, UserController.Register(s, username, password), me => Registered(me))
    case Login(username, password) =>
      Commit(s, UserController.Login(s, username, password, world.now), session => LoggedIn(session))
    case RefreshTokens =>
      Commit(s, UserController.Refresh(s, cookies.refresh, world.now), pair => Refreshed(pair))
    case Secured(op) =>
      match Authenticate(s, cookies.access)
      case Err(f) => Response(s, Err(f))
      case Ok(me) => Serve(s, me, op, world)
  }

  /** Public routes never look at the access-token cookie. */
  lemma PublicRoutesIgnoreAccessCookie(s: Store, req: Request, cookies: Cookies, access: Option<Token>, world: World)
    requires !req.Secured?
    ensures Handle(s, req, cookies.(access := access), world) == Handle(s, req, cookies, world)
  {
  }

  /** `addMembers` does not depend on who asks: any two callers the gate
      accepts get the same outcome. */
  lemma AddMemberIgnoresCaller(s: Store, gid: Option<Id>, username: string, c1: Cookies, c2: Cookies, world: World)
    requires Authenticate(s, c1.access).Ok? && Authenticate(s, c2.access).Ok?
    ensures Handle(s, Secured(AddMember(gid, username)), c1, world)
         == Handle(s, Secured(AddMember(gid, username)), c2, world)
  {
  }

  /** Every route keeps the store invariant. */
  lemma HandlePreservesValid(s: Store, req: Request, cookies: Cookies, world: World)
    requires Valid(s)
    ensures Valid(Handle(s, req, cookies, world).store)
  {
    match req
    case Register(username, password) =>
      UserController.RegisterPreservesValid(s, username, password);
    case Login(username, password) =>
      UserController.LoginPreservesValid(s, username, password, world.now);
    case RefreshTokens =>
      UserController.RefreshPreservesValid(s, cookies.refresh, world.now);
    case Secured(op) =>
      var gate := Authenticate(s, cookies.access);
      if gate.Ok? {
        var me := gate.value;
        match op
        case Status =>
        case Logout => UserController.LogoutPreservesValid(s, me);
        case CreateGallery(name) => GalleryController.CreateGalleryPreservesValid(s, me, name);
        case AddMember(gid, username) => GalleryController.AddMembersPreservesValid(s, gid, username);
        case GalleryImages(gid) =>
        case DeleteGallery(gid) => GalleryController.DeleteGalleryPreservesValid(s, me, gid);
        case UploadMedia(hasFile, caption, gid) =>
          MediaController.UploadMediaPreservesValid(s, me, hasFile, world.asset, caption, gid);
        case AddToGallery(gid, mid) => MediaController.AddToGalleryPreservesValid(s, me, gid, mid);
        case DeleteMedia(mid) => MediaController.DeleteMediaPreservesValid(s, me, mid, world.cloudDeleted);
      }
  }

  /** One request as it arrives: the route, the cookies, the world. */
  datatype Call = Call(req: Request, cookies: Cookies, world: World)

  /** The store after a sequence of requests, handled one at a time. */
  function Run(s: Store, calls: seq<Call>): Store
    decreases |calls|
  {
    if |calls| == 0 then s
    else Run(Handle(s, calls[0].req, calls[0].cookies, calls[0].world).store, calls[1..])
  }

  /** Any sequence of requests from a valid store (the empty one, say)
      leaves it valid: usernames unique and lower case, refresh tokens bound
      to their users, gallery members distinct, registered and at most
      MemberLimit + 1, media gallery lists free of duplicates. */
  lemma {:induction false} RunPreservesValid(s: Store, calls: seq<Call>)
    requires Valid(s)
    ensures Valid(Run(s, calls))
    decreases |calls|
  {
    if |calls| > 0 {
      HandlePreservesValid(s, calls[0].req, calls[0].cookies, calls[0].world);
      RunPreservesValid(Handle(s, calls[0].req, calls[0].cookies, calls[0].world).store, calls[1..]);
    }
  }

  /** Whatever requests arrive, no gallery ever holds more than
      MemberLimit + 1 members, and each holds its creator. */
  lemma MembersStayBounded(calls: seq<Call>, gid: Id)
    requires gid in Run(Empty(), calls).galleries
    ensures |Run(Empty(), calls).galleries[gid].members| <= MemberLimit + 1
    ensures var s := Run(Empty(), calls);
      var g := s.galleries[gid];
      g.createdBy in s.users && s.users[g.createdBy].username in g.members
  {
    EmptyValid();
    RunPreservesValid(Empty(), calls);
    assert GalleryOk(Run(Empty(), calls).users, Run(Empty(), calls).galleries[gid]);
  }
}
