/** The photo rule the repositories share. A base64 photo in a DTO is
    written by `IFilesHelper.UploadPhoto` under a fresh Guid file name; the
    entity then refers to `~/images/{folder}/{guid}.jpg` when the upload
    succeeded and to the empty string when it failed. A failed upload never
    fails the operation. Whether the upload succeeds is supplied by the
    caller. */
module Photos {
  import opened Common
  import opened Guids
  import opened Entities

  const TeamsFolder: string := "teams"
  const TournamentsFolder: string := "tournaments"
  const GroupsFolder: string := "groups"

  /** `$"{guid}.jpg"`. */
  function PhotoFile(g: Guid): (file: string)
    ensures |file| == 40 && file[..36] == GuidText(g) && file[36..] == ".jpg"
  {
    GuidText(g) + ".jpg"
  }

  /** The image of a new entity: the stored path when a photo was sent and
      its upload succeeded, and empty otherwise. */
  function NewImage(photo: Option<string>, folder: string, g: Guid, uploaded: bool): (image: string)
    ensures image != "" <==> photo.Some? && uploaded
    ensures image != "" ==> image == ImagePath(folder, PhotoFile(g))
  {
    if photo.Some? then
      if uploaded then ImagePath(folder, PhotoFile(g)) else ""
    else ""
  }

  /** The image after an update that keeps the current image when no photo
      is sent (teams and groups). */
  function KeptImage(current: Option<string>, photo: Option<string>, folder: string, g: Guid, uploaded: bool)
    : (image: Option<string>)
    ensures photo.None? ==> image == current
    ensures photo.Some? ==> image.Some? && (image.value != "" <==> uploaded)
    ensures photo.Some? && uploaded ==> image == Some(ImagePath(folder, PhotoFile(g)))
  {
    if photo.None? then current else Some(NewImage(photo, folder, g, uploaded))
  }

  /** A stored photo is shown under the host at `/images/{folder}/{guid}.jpg`. */
  lemma {:induction false} NewImageUrl(photo: Option<string>, folder: string, g: Guid, uploaded: bool)
    ensures photo.Some? && uploaded ==>
      ImageUrl(Some(NewImage(photo, folder, g, uploaded))) == Host + "/images/" + folder + "/" + PhotoFile(g)
    ensures !(photo.Some? && uploaded) ==> ImageUrl(Some(NewImage(photo, folder, g, uploaded))) == NoImageUrl
  {
    ImageUrlOfStoredPath(folder, PhotoFile(g));
  }
}
