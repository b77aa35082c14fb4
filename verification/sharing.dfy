/** How the gallery and media rules combine across requests: membership
    grants the image listing, attaching media shows it there, and deleting
    a gallery leaves the media that listed it behind. */
module Sharing {
  import opened Base
  import opened UserModel
  import opened GalleryModel
  import opened MediaModel
  import opened Db
  import opened GalleryController
  import opened MediaController

  /** Once a user has been added to a gallery, that user may list its
      images. */
  lemma AddedMemberSeesImages(s: Store, gid: Id, username: string, me: Profile)
    requires AddMembers(s, Some(gid), username).Ok?
    requires me.username == username
    ensures GalleryImages(AddMembers(s, Some(gid), username).value.store, me, Some(gid)).Ok?
  {
  }

  /** The creator of a new gallery may list its images, and nobody else
      may yet. */
  lemma CreatorIsOnlyFirstMember(s: Store, me: Profile, name: string, other: Profile)
    requires CreateGallery(s, me, name).Ok?
    ensures
      var r := CreateGallery(s, me, name).value;
      && GalleryImages(r.store, me, Some(r.out)).Ok?
      && (other.username != me.username ==>
            GalleryImages(r.store, other, Some(r.out)) == Err(ApiError(Forbidden)))
  {
  }

  /** Only the creator may delete a new gallery: any caller with another id
      gets 403. */
  lemma OnlyCreatorDeletes(s: Store, me: Profile, name: string, other: Profile)
    requires CreateGallery(s, me, name).Ok?
    ensures
      var r := CreateGallery(s, me, name).value;
      && DeleteGallery(r.store, me, Some(r.out)).Ok?
      && (other.id != me.id ==> DeleteGallery(r.store, other, Some(r.out)) == Err(ApiError(Forbidden)))
  {
  }

  /** Attaching media to a gallery adds exactly that record to the
      gallery's image listing. */
  lemma AttachedMediaIsListed(s: Store, me: Profile, gid: Id, mid: Id)
    requires AddToGallery(s, me, Some(gid), Some(mid)).Ok?
    ensures GalleryImages(AddToGallery(s, me, Some(gid), Some(mid)).value, me, Some(gid))
         == Ok(GalleryImages(s, me, Some(gid)).value + {mid})
  {
    var s' := AddToGallery(s, me, Some(gid), Some(mid)).value;
    var before := GalleryImages(s, me, Some(gid)).value;
    var after := GalleryImages(s', me, Some(gid)).value;
    assert after == before + {mid} by {
      forall m | m in after
        ensures m in before + {mid}
      {
        if m != mid {
          assert s'.media[m] == s.media[m];
        }
      }
      forall m | m in before + {mid}
        ensures m in after
      {
        if m != mid {
          assert s'.media[m] == s.media[m];
        } else {
          assert gid in s'.media[mid].belongsToGallery;
        }
      }
    }
  }

  /** After its creator deletes a gallery, listing it is 404 and attaching
      to it dereferences a missing gallery; the media that listed it still
      list its id. */
  lemma DeletedGalleryIsGone(s: Store, me: Profile, gid: Id, anyone: Profile, mid: Option<Id>, m: Id)
    requires DeleteGallery(s, me, Some(gid)).Ok?
    ensures
      var s' := DeleteGallery(s, me, Some(gid)).value;
      && GalleryImages(s', anyone, Some(gid)) == Err(ApiError(NotFound))
      && (mid.Some? ==> AddToGallery(s', anyone, Some(gid), mid) == Err(Uncaught))
      && (m in s.media ==> m in s'.media && s'.media[m].belongsToGallery == s.media[m].belongsToGallery)
  {
  }
}
