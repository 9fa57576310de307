/**
 * The upload filter for the video routes: which (field, MIME type) pairs are
 * accepted, and the per-file size cap. Disk storage and file naming are not
 * part of this model.
 */
module UploadFilter {
  import opened Wrappers
  import opened Http

  const ThumbnailTypes: set<string> := {"image/jpeg", "image/png", "image/jpg", "image/webp"}

  const VideoTypes: set<string> := {"video/mp4", "video/mkv", "video/webm"}

  /** The cap on each uploaded file, in bytes. */
  const MaxFileSize: nat := 100 * 1024 * 1024

  /**
   * `videoAndThumbnailFilter`: a thumbnail must be an image of one of four
   * types and a video file one of three container types; anything else is
   * refused with a 400 naming the field.
   */
  function VideoAndThumbnailFilter(fieldname: string, mimetype: string): (r: Result<bool, Failure>)
    ensures r.Ok? ==> r.value
    ensures r.Ok? <==> (fieldname == "thumbnail" && mimetype in ThumbnailTypes)
                       || (fieldname == "videoFile" && mimetype in VideoTypes)
    ensures r.Err? ==> r.error == Error(400, "Unsupported file type for " + fieldname)
  {
    if (fieldname == "thumbnail" && mimetype in ThumbnailTypes) || (fieldname == "videoFile" && mimetype in VideoTypes)
    then Ok(true)
    else Err(Error(400, "Unsupported file type for " + fieldname))
  }

  /** Only the two declared fields ever get through, and never with each other's types. */
  lemma FilterSeparatesFields(fieldname: string, mimetype: string)
    ensures VideoAndThumbnailFilter(fieldname, mimetype).Ok? ==> fieldname == "thumbnail" || fieldname == "videoFile"
    ensures mimetype in ThumbnailTypes ==> VideoAndThumbnailFilter("videoFile", mimetype).Err?
    ensures mimetype in VideoTypes ==> VideoAndThumbnailFilter("thumbnail", mimetype).Err?
  {
  }

  /** multer's `fileSize` limit: a file longer than the cap aborts the request with a non-`ApiError`. */
  function CheckFileSize(size: nat): (r: Result<nat, Failure>)
    ensures r.Ok? <==> size <= 104857600
    ensures r.Ok? ==> r.value == size
  {
    if size <= MaxFileSize then Ok(size) else Err(Thrown("File too large"))
  }
}
