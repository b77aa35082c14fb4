/** The media document. */
module MediaModel {
  import opened Base

  /** An uploaded asset: its caption, delivery URL, resource type and public
      id at the asset host, the uploader's username, and the ids of the
      galleries it has been attached to. */
  datatype Media = Media(
    caption: string,
    url: string,
    resourceType: string,
    publicId: string,
    uploadedBy: string,
    belongsToGallery: seq<Id>)
}
