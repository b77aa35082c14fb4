/** The gallery controller: creation, membership, the member-only image
    listing and owner-only deletion. Every route runs behind the access
    gate, so each handler receives the caller's identity `me`. */
module GalleryController {
  import opened Base
  import opened Text
  import opened UserModel
  import opened GalleryModel
  import opened MediaModel
  import opened Db

  /** `createGallery`: a named gallery whose only member is its creator. */
  function CreateGallery(s: Store, me: Profile, galleryName: string): (r: Result<Updated<Id>>)
    ensures r.Err? <==> Blank(galleryName)
    ensures r.Err? ==> r.failure == ApiError(BadRequest)
    ensures r.Ok? ==>
      var s', gid := r.value.store, r.value.out;
      && gid in s'.galleries
      && s'.galleries[gid].name == galleryName
      && s'.galleries[gid].members == [me.username]
      && s'.galleries[gid].createdBy == me.id
      && s'.galleries.Keys == s.galleries.Keys + {gid}
      && s'.users == s.users && s'.media == s.media
    ensures r.Ok? && IdsBelow(s.galleries, s.nextId) ==>
      var s', gid := r.value.store, r.value.out;
      && gid !in s.galleries
      && (forall g :: g in s.galleries ==> s'.galleries[g] == s.galleries[g])
  {
    if Blank(galleryName) then Err(ApiError(BadRequest))
    else
      var gid := s.nextId;
      Ok(Updated(s.(galleries := s.galleries[gid := Gallery(galleryName, [me.username], me.id)], nextId := gid + 1), gid))
  }

  lemma CreateGalleryPreservesValid(s: Store, me: Profile, galleryName: string)
    requires Valid(s) && Identifies(s, me)
    ensures CreateGallery(s, me, galleryName).Ok? ==> Valid(CreateGallery(s, me, galleryName).value.store)
  {
  }

  /** `addMembers`. It checks neither that the caller belongs to the gallery
      nor that the caller owns it, so it takes no identity. An unknown
      username is thrown as a plain `Error`, and a missing gallery is
      dereferenced; neither is an ApiError. The limit check refuses only
      when the list already holds more than MemberLimit names, so this path
      can grow a gallery to MemberLimit + 1 members but never beyond. */
  function AddMembers(s: Store, galleryId: Option<Id>, username: string): (r: Result<Updated<Gallery>>)
    ensures r == Err(ApiError(BadRequest)) <==> galleryId.None? || Blank(username)
    ensures r.Ok? <==>
      && galleryId.Some? && !Blank(username)
      && username in Usernames(s.users)
      && galleryId.value in s.galleries
      && username !in s.galleries[galleryId.value].members
      && |s.galleries[galleryId.value].members| <= MemberLimit
    ensures r == Err(ApiError(Forbidden)) <==>
      && galleryId.Some? && !Blank(username)
      && username in Usernames(s.users)
      && galleryId.value in s.galleries
      && (username in s.galleries[galleryId.value].members
          || |s.galleries[galleryId.value].members| > MemberLimit)
    ensures r.Ok? ==>
      var gid := galleryId.value;
      var g, g' := s.galleries[gid], r.value.out;
      && r.value.store.galleries == s.galleries[gid := g']
      && (forall x :: x in g'.members <==> x in g.members || x == username)
      && |g'.members| == |g.members| + 1 <= MemberLimit + 1
      && g'.members[..|g.members|] == g.members
      && g'.name == g.name && g'.createdBy == g.createdBy
      && r.value.store.users == s.users && r.value.store.media == s.media && r.value.store.nextId == s.nextId
  {
    if galleryId.None? then Err(ApiError(BadRequest))
    else if Blank(username) then Err(ApiError(BadRequest))
    else if username !in Usernames(s.users) then Err(Uncaught)
    else if galleryId.value !in s.galleries then Err(Uncaught)
    else
      var gid := galleryId.value;
      var g := s.galleries[gid];
      if username in g.members then Err(ApiError(Forbidden))
      else if |g.members| > MemberLimit then Err(ApiError(Forbidden))
      else
        var g' := g.(members := g.members + [username]);
        assert g'.members[..|g.members|] == g.members;
        Ok(Updated(s.(galleries := s.galleries[gid := g']), g'))
  }

  lemma AddMembersPreservesValid(s: Store, galleryId: Option<Id>, username: string)
    requires Valid(s)
    ensures AddMembers(s, galleryId, username).Ok? ==> Valid(AddMembers(s, galleryId, username).value.store)
  {
  }

  /** The authorization part of `getGalleryImages`, and what the lookup
      returns: the ids of the media records that list the gallery. Only
      members see them. */
  function GalleryImages(s: Store, me: Profile, galleryId: Option<Id>): (r: Result<set<Id>>)
    ensures r == Err(ApiError(BadRequest)) <==> galleryId.None?
    ensures r == Err(ApiError(NotFound)) <==> galleryId.Some? && galleryId.value !in s.galleries
    ensures r == Err(ApiError(Forbidden)) <==>
      galleryId.Some? && galleryId.value in s.galleries && !IsMember(s.galleries[galleryId.value], me.username)
    ensures r.Ok? <==>
      galleryId.Some? && galleryId.value in s.galleries && IsMember(s.galleries[galleryId.value], me.username)
    ensures r.Ok? ==>
      forall m :: m in r.value <==> m in s.media && galleryId.value in s.media[m].belongsToGallery
  {
    if galleryId.None? then Err(ApiError(BadRequest))
    else if galleryId.value !in s.galleries then Err(ApiError(NotFound))
    else if !IsMember(s.galleries[galleryId.value], me.username) then Err(ApiError(Forbidden))
    else Ok(set m | m in s.media && galleryId.value in s.media[m].belongsToGallery)
  }

  /** `deleteGallery`: only the creator may delete. Only the gallery goes;
      media records that list it keep its (now dangling) id. */
  function DeleteGallery(s: Store, me: Profile, galleryId: Option<Id>): (r: Result<Store>)
    ensures r == Err(ApiError(BadRequest)) <==> galleryId.None?
    ensures r == Err(ApiError(NotFound)) <==> galleryId.Some? && galleryId.value !in s.galleries
    ensures r == Err(ApiError(Forbidden)) <==>
      galleryId.Some? && galleryId.value in s.galleries && s.galleries[galleryId.value].createdBy != me.id
    ensures r.Ok? <==>
      galleryId.Some? && galleryId.value in s.galleries && s.galleries[galleryId.value].createdBy == me.id
    ensures r.Ok? ==>
      && r.value.galleries.Keys == s.galleries.Keys - {galleryId.value}
      && (forall g :: g in r.value.galleries ==> r.value.galleries[g] == s.galleries[g])
      && r.value.users == s.users && r.value.media == s.media && r.value.nextId == s.nextId
  {
    if galleryId.None? then Err(ApiError(BadRequest))
    else if galleryId.value !in s.galleries then Err(ApiError(NotFound))
    else if s.galleries[galleryId.value].createdBy != me.id then Err(ApiError(Forbidden))
    else Ok(s.(galleries := s.galleries - {galleryId.value}))
  }

  lemma DeleteGalleryPreservesValid(s: Store, me: Profile, galleryId: Option<Id>)
    requires Valid(s)
    ensures DeleteGallery(s, me, galleryId).Ok? ==> Valid(DeleteGallery(s, me, galleryId).value)
  {
  }
}
