/** The media controller: the record-building part of an upload, attaching
    media to galleries and uploader-only deletion. Every route runs behind
    the access gate; the asset host is an oracle. */
module MediaController {
  import opened Base
  import opened Text
  import opened UserModel
  import opened GalleryModel
  import opened MediaModel
  import opened Db

  /** What the asset host reports for an upload: its URL, its secure URL,
      its resource type and its public id. */
  datatype Asset = Asset(url: string, secureUrl: string, resourceType: string, publicId: string)

  /** The caption an upload stores: the given one, or a single space. */
  function CaptionOrDefault(caption: string): (c: string)
    ensures !Blank(c)
    ensures !Blank(caption) ==> c == caption
    ensures Blank(caption) ==> c == " "
  {
    if Blank(caption) then " " else caption
  }

  /** `uploadMedia` after the file has been received. `asset` is the asset
      host's answer (None when it answers null, which the handler then
      dereferences). The new record is owned by the caller and lists the
      given gallery, if any; neither the gallery's existence nor the
      caller's membership is checked. An empty resource type or public id
      fails the schema's `required` validation. */
  function UploadMedia(s: Store, me: Profile, hasFile: bool, asset: Option<Asset>, caption: string, galleryId: Option<Id>)
    : (r: Result<Updated<Id>>)
    ensures r == Err(ApiError(BadRequest)) <==> !hasFile
    ensures r == Err(ApiError(ServerError)) <==> hasFile && asset.Some? && Blank(asset.value.url)
    ensures r.Ok? <==>
      && hasFile && asset.Some? && !Blank(asset.value.url)
      && !Blank(asset.value.resourceType) && !Blank(asset.value.publicId)
    ensures r.Ok? ==>
      var s', mid := r.value.store, r.value.out;
      && mid in s'.media
      && s'.media[mid].uploadedBy == me.username
      && (!Blank(caption) ==> s'.media[mid].caption == caption)
      && (Blank(caption) ==> s'.media[mid].caption == " ")
      && !Blank(s'.media[mid].url)
      && s'.media[mid].publicId == asset.value.publicId
      && s'.media[mid].resourceType == asset.value.resourceType
      && (galleryId.Some? ==> s'.media[mid].belongsToGallery == [galleryId.value])
      && (galleryId.None? ==> s'.media[mid].belongsToGallery == [])
      && s'.media.Keys == s.media.Keys + {mid}
      && s'.users == s.users && s'.galleries == s.galleries
    ensures r.Ok? && IdsBelow(s.media, s.nextId) ==>
      var s', mid := r.value.store, r.value.out;
      && mid !in s.media
      && (forall m :: m in s.media ==> s'.media[m] == s.media[m])
  {
    if !hasFile then Err(ApiError(BadRequest))
    else if asset.None? then Err(Uncaught)
    else if Blank(asset.value.url) then Err(ApiError(ServerError))
    else
      var a := asset.value;
      if Blank(a.resourceType) || Blank(a.publicId) then Err(Uncaught)
      else
        var galleries := if galleryId.Some? then [galleryId.value] else [];
        var m := Media(CaptionOrDefault(caption), if Blank(a.secureUrl) then " " else a.secureUrl,
                       a.resourceType, a.publicId, me.username, galleries);
        var mid := s.nextId;
        Ok(Updated(s.(media := s.media[mid := m], nextId := mid + 1), mid))
  }

  lemma UploadMediaPreservesValid(s: Store, me: Profile, hasFile: bool, asset: Option<Asset>, caption: string, galleryId: Option<Id>)
    requires Valid(s) && Identifies(s, me)
    ensures UploadMedia(s, me, hasFile, asset, caption, galleryId).Ok? ==>
      Valid(UploadMedia(s, me, hasFile, asset, caption, galleryId).value.store)
  {
  }

  /** `addToGallery`: only a member of the gallery may attach media, and a
      gallery is listed at most once, so `belongsToGallery` stays free of
      duplicates. A missing gallery is dereferenced before the membership
      test, which is not an ApiError. */
  function AddToGallery(s: Store, me: Profile, galleryId: Option<Id>, mediaId: Option<Id>): (r: Result<Store>)
    ensures r == Err(ApiError(BadRequest)) <==>
      || galleryId.None? || mediaId.None?
      || (&& galleryId.value in s.galleries && IsMember(s.galleries[galleryId.value], me.username)
          && mediaId.value in s.media && galleryId.value in s.media[mediaId.value].belongsToGallery)
    ensures r == Err(ApiError(Forbidden)) <==>
      && galleryId.Some? && mediaId.Some?
      && galleryId.value in s.galleries && !IsMember(s.galleries[galleryId.value], me.username)
    ensures r == Err(ApiError(NotFound)) <==>
      && galleryId.Some? && mediaId.Some?
      && galleryId.value in s.galleries && IsMember(s.galleries[galleryId.value], me.username)
      && mediaId.value !in s.media
    ensures r.Ok? <==>
      && galleryId.Some? && mediaId.Some?
      && galleryId.value in s.galleries && IsMember(s.galleries[galleryId.value], me.username)
      && mediaId.value in s.media && galleryId.value !in s.media[mediaId.value].belongsToGallery
    ensures r.Ok? ==>
      var mid, gid := mediaId.value, galleryId.value;
      var m := s.media[mid];
      && mid in r.value.media
      && r.value.media[mid] == m.(belongsToGallery := m.belongsToGallery + [gid])
      && r.value.media.Keys == s.media.Keys
      && (forall other :: other in s.media && other != mid ==> r.value.media[other] == s.media[other])
      && r.value.users == s.users && r.value.galleries == s.galleries && r.value.nextId == s.nextId
  {
    if galleryId.None? then Err(ApiError(BadRequest))
    else if mediaId.None? then Err(ApiError(BadRequest))
    else if galleryId.value !in s.galleries then Err(Uncaught)
    else if !IsMember(s.galleries[galleryId.value], me.username) then Err(ApiError(Forbidden))
    else if mediaId.value !in s.media then Err(ApiError(NotFound))
    else
      var m := s.media[mediaId.value];
      if galleryId.value in m.belongsToGallery then Err(ApiError(BadRequest))
      else Ok(s.(media := s.media[mediaId.value := m.(belongsToGallery := m.belongsToGallery + [galleryId.value])]))
  }

  lemma AddToGalleryPreservesValid(s: Store, me: Profile, galleryId: Option<Id>, mediaId: Option<Id>)
    requires Valid(s)
    ensures AddToGallery(s, me, galleryId, mediaId).Ok? ==> Valid(AddToGallery(s, me, galleryId, mediaId).value)
  {
  }

  /** `deleteMedia`: only the uploader may delete, and the record goes only
      after the asset host reports the asset deleted (`cloudDeleted`, an
      oracle); otherwise the reply is 500 and the record stays. */
  function DeleteMedia(s: Store, me: Profile, mediaId: Option<Id>, cloudDeleted: bool): (r: Result<Store>)
    ensures r == Err(ApiError(BadRequest)) <==> mediaId.None?
    ensures r == Err(ApiError(NotFound)) <==> mediaId.Some? && mediaId.value !in s.media
    ensures r == Err(ApiError(Forbidden)) <==>
      mediaId.Some? && mediaId.value in s.media && s.media[mediaId.value].uploadedBy != me.username
    ensures r == Err(ApiError(ServerError)) <==>
      mediaId.Some? && mediaId.value in s.media && s.media[mediaId.value].uploadedBy == me.username && !cloudDeleted
    ensures r.Ok? <==>
      mediaId.Some? && mediaId.value in s.media && s.media[mediaId.value].uploadedBy == me.username && cloudDeleted
    ensures r.Ok? ==>
      && r.value.media.Keys == s.media.Keys - {mediaId.value}
      && (forall m :: m in r.value.media ==> r.value.media[m] == s.media[m])
      && r.value.users == s.users && r.value.galleries == s.galleries && r.value.nextId == s.nextId
  {
    if mediaId.None? then Err(ApiError(BadRequest))
    else if mediaId.value !in s.media then Err(ApiError(NotFound))
    else if s.media[mediaId.value].uploadedBy != me.username then Err(ApiError(Forbidden))
    else if !cloudDeleted then Err(ApiError(ServerError))
    else Ok(s.(media := s.media - {mediaId.value}))
  }

  lemma DeleteMediaPreservesValid(s: Store, me: Profile, mediaId: Option<Id>, cloudDeleted: bool)
    requires Valid(s)
    ensures DeleteMedia(s, me, mediaId, cloudDeleted).Ok? ==> Valid(DeleteMedia(s, me, mediaId, cloudDeleted).value)
  {
  }
}
