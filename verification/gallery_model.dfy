/** The gallery document. */
module GalleryModel {
  import opened Base

  /** `members` holds usernames; `createdBy` is the creator's user id. */
  datatype Gallery = Gallery(name: string, members: seq<string>, createdBy: Id)

  /** Adding a member is refused once the list holds more than this many. */
  const MemberLimit: nat := 50

  predicate IsMember(g: Gallery, username: string) {
    username in g.members
  }
}
