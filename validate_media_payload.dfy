/** src/middleware/media/validateMediaPayload.ts: the media-create payload. */
module MediaPayload {
  import opened Wrappers
  import opened JsString
  import opened Types

  const DefaultMediaType := "IMAGE"

  const MsgFileNameRequired := "fileName is required"
  const MsgMimeTypeRequired := "mimeType is required"
  const MsgFileSizeInvalid := "fileSize must be a positive number"

  /** The normalised media payload. */
  datatype MediaDraft = MediaDraft(fileName: string, mimeType: string, fileSize: int, mediaType: string, postId: Option<string>)

  /** `validateCreateMediaPayload(body)`: body, JSON, fileName, mimeType, fileSize > 0. */
  function ValidateCreateMediaPayload(body: Body): (r: Validation<MediaDraft>)
    ensures ParseBody(body).Invalid? ==> r == Invalid(ParseBody(body).message)
    ensures r.Valid? <==>
              && ParseBody(body).Valid?
              && var p := ParseBody(body).value;
                 p.fileName.Some? && !AllWhitespace(p.fileName.value)
                 && p.mimeType.Some? && !AllWhitespace(p.mimeType.value)
                 && p.fileSize.Some? && p.fileSize.value > 0
    ensures r.Valid? ==>
              var p := ParseBody(body).value;
              && r.value.fileName == Trim(p.fileName.value) && r.value.fileName != "" && IsTrimmed(r.value.fileName)
              && r.value.mimeType == Trim(p.mimeType.value) && r.value.mimeType != "" && IsTrimmed(r.value.mimeType)
              && r.value.fileSize == p.fileSize.value > 0
              && r.value.mediaType == p.mediaType.GetOr(DefaultMediaType)
              && r.value.postId == TrimOptional(p.postId)
    ensures r == Invalid(MsgFileNameRequired) <==>
              ParseBody(body).Valid? && (ParseBody(body).value.fileName.None? || AllWhitespace(ParseBody(body).value.fileName.value))
  {
    match ParseBody(body)
    case Invalid(m) => Invalid(m)
    case Valid(parsed) =>
      var fileName := TrimOptional(parsed.fileName);
      var mimeType := TrimOptional(parsed.mimeType);
      var fileSize := parsed.fileSize;
      var mediaType := parsed.mediaType.GetOr(DefaultMediaType);
      var postId := TrimOptional(parsed.postId);
      if !IsTruthy(fileName) then Invalid(MsgFileNameRequired)
      else if !IsTruthy(mimeType) then Invalid(MsgMimeTypeRequired)
      else if fileSize.None? || fileSize.value == 0 || fileSize.value <= 0 then Invalid(MsgFileSizeInvalid)
      else Valid(MediaDraft(fileName.value, mimeType.value, fileSize.value, mediaType, postId))
  }

  /** With a file name present, a blank mimeType is reported before anything about the size. */
  lemma MimeTypeCheckedBeforeSize(body: Body)
    requires ParseBody(body).Valid?
    requires var p := ParseBody(body).value; p.fileName.Some? && !AllWhitespace(p.fileName.value)
    requires var p := ParseBody(body).value; p.mimeType.None? || AllWhitespace(p.mimeType.value)
    ensures ValidateCreateMediaPayload(body) == Invalid(MsgMimeTypeRequired)
  {
  }

  /** Absent, zero and negative sizes all get the same message once the names are present. */
  lemma NonPositiveSizeRejected(body: Body)
    requires ParseBody(body).Valid?
    requires var p := ParseBody(body).value;
             p.fileName.Some? && !AllWhitespace(p.fileName.value) && p.mimeType.Some? && !AllWhitespace(p.mimeType.value)
    requires var p := ParseBody(body).value; p.fileSize.None? || p.fileSize.value <= 0
    ensures ValidateCreateMediaPayload(body) == Invalid(MsgFileSizeInvalid)
  {
  }
}
