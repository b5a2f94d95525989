/** src/middleware/posts/validatePostPayload.ts: the create and update payloads of a post. */
module PostPayload {
  import opened Wrappers
  import opened JsString
  import opened Types

  const MinTitleLength := 3
  const MinContentLength := 10

  const MsgTitleRequired := "Title is required"
  const MsgTitleTooShort := "Title must be at least 3 characters long"
  const MsgContentRequired := "Content is required"
  const MsgContentTooShort := "Content must be at least 10 characters long"
  const MsgNothingToUpdate := "At least one of title or content must be updated"

  /** The normalised create payload: both fields trimmed. */
  datatype PostDraft = PostDraft(title: string, content: string)

  /** The normalised update payload: an absent field means "leave unchanged". */
  datatype PostChanges = PostChanges(title: Option<string>, content: Option<string>)

  /** `validateCreatePostPayload(body)`: body, JSON, title present, title length, content present, content length. */
  function ValidateCreatePostPayload(body: Body): (r: Validation<PostDraft>)
    ensures ParseBody(body).Invalid? ==> r == Invalid(ParseBody(body).message)
    ensures r.Valid? <==>
              && ParseBody(body).Valid?
              && var p := ParseBody(body).value;
                 p.title.Some? && JsLength(Trim(p.title.value)) >= MinTitleLength
                 && p.content.Some? && JsLength(Trim(p.content.value)) >= MinContentLength
    ensures r.Valid? ==>
              && r.value.title == Trim(ParseBody(body).value.title.value)
              && r.value.content == Trim(ParseBody(body).value.content.value)
              && IsTrimmed(r.value.title) && JsLength(r.value.title) >= MinTitleLength
              && IsTrimmed(r.value.content) && JsLength(r.value.content) >= MinContentLength
    ensures r == Invalid(MsgTitleRequired) <==>
              ParseBody(body).Valid? && !IsTruthy(TrimOptional(ParseBody(body).value.title))
    ensures r == Invalid(MsgTitleTooShort) <==>
              && ParseBody(body).Valid?
              && var title := TrimOptional(ParseBody(body).value.title);
                 IsTruthy(title) && JsLength(title.value) < MinTitleLength
    ensures r == Invalid(MsgContentRequired) <==>
              && ParseBody(body).Valid?
              && var p := ParseBody(body).value;
                 p.title.Some? && JsLength(Trim(p.title.value)) >= MinTitleLength
                 && !IsTruthy(TrimOptional(p.content))
    ensures r == Invalid(MsgContentTooShort) <==>
              && ParseBody(body).Valid?
              && var p := ParseBody(body).value;
                 p.title.Some? && JsLength(Trim(p.title.value)) >= MinTitleLength
                 && IsTruthy(TrimOptional(p.content)) && JsLength(Trim(p.content.value)) < MinContentLength
  {
    match ParseBody(body)
    case Invalid(m) => Invalid(m)
    case Valid(parsed) =>
      var title := TrimOptional(parsed.title);
      var content := TrimOptional(parsed.content);
      if !IsTruthy(title) then Invalid(MsgTitleRequired)
      else if JsLength(title.value) < MinTitleLength then Invalid(MsgTitleTooShort)
      else if !IsTruthy(content) then Invalid(MsgContentRequired)
      else if JsLength(content.value) < MinContentLength then Invalid(MsgContentTooShort)
      else Valid(PostDraft(title.value, content.value))
  }

  /** A whitespace-only title is a missing title, whatever the content. */
  lemma BlankTitleIsMissing(body: Body, raw: string)
    requires ParseBody(body).Valid? && ParseBody(body).value.title == Some(raw)
    requires AllWhitespace(raw)
    ensures ValidateCreatePostPayload(body) == Invalid(MsgTitleRequired)
  {
    TrimEmptyIff(raw);
  }

  /** The checks short-circuit: a short title is reported even when the content is missing or short too. */
  lemma ShortTitleReportedFirst(body: Body)
    requires ParseBody(body).Valid?
    requires var t := TrimOptional(ParseBody(body).value.title); t.Some? && 0 < JsLength(t.value) < MinTitleLength
    ensures ValidateCreatePostPayload(body) == Invalid(MsgTitleTooShort)
  {
  }

  /** Validation is idempotent: a draft sent back exactly as validation returned it is accepted unchanged. */
  lemma NormalisedDraftAccepted(body: Body, draft: PostDraft)
    requires ParseBody(body).Valid?
    requires ParseBody(body).value.title == Some(draft.title) && ParseBody(body).value.content == Some(draft.content)
    requires IsTrimmed(draft.title) && JsLength(draft.title) >= MinTitleLength
    requires IsTrimmed(draft.content) && JsLength(draft.content) >= MinContentLength
    ensures ValidateCreatePostPayload(body) == Valid(draft)
  {
    var r := ValidateCreatePostPayload(body);
    assert r.Valid? && r.value.title == draft.title && r.value.content == draft.content by {
      TrimFixesTrimmed(draft.title);
      TrimFixesTrimmed(draft.content);
    }
  }

  /** `validateUpdatePostPayload(body)`: body, JSON, something to change, then each present field's length. */
  function ValidateUpdatePostPayload(body: Body): (r: Validation<PostChanges>)
    ensures ParseBody(body).Invalid? ==> r == Invalid(ParseBody(body).message)
    ensures r == Invalid(MsgNothingToUpdate) <==>
              ParseBody(body).Valid? && ParseBody(body).value.title.None? && ParseBody(body).value.content.None?
    ensures r == Invalid(MsgTitleTooShort) <==>
              && ParseBody(body).Valid?
              && var p := ParseBody(body).value;
                 p.title.Some? && JsLength(Trim(p.title.value)) < MinTitleLength
    ensures r == Invalid(MsgContentTooShort) <==>
              && ParseBody(body).Valid?
              && var p := ParseBody(body).value;
                 (p.title.Some? ==> JsLength(Trim(p.title.value)) >= MinTitleLength)
                 && p.content.Some? && JsLength(Trim(p.content.value)) < MinContentLength
    ensures r.Valid? <==>
              && ParseBody(body).Valid?
              && var p := ParseBody(body).value;
                 (p.title.Some? || p.content.Some?)
                 && (p.title.Some? ==> JsLength(Trim(p.title.value)) >= MinTitleLength)
                 && (p.content.Some? ==> JsLength(Trim(p.content.value)) >= MinContentLength)
    ensures r.Valid? ==>
              && r.value.title == TrimOptional(ParseBody(body).value.title)
              && r.value.content == TrimOptional(ParseBody(body).value.content)
              && (r.value.title.Some? || r.value.content.Some?)
              && (r.value.title.Some? ==> JsLength(r.value.title.value) >= MinTitleLength)
              && (r.value.content.Some? ==> JsLength(r.value.content.value) >= MinContentLength)
  {
    match ParseBody(body)
    case Invalid(m) => Invalid(m)
    case Valid(parsed) =>
      var title := TrimOptional(parsed.title);
      var content := TrimOptional(parsed.content);
      if title.None? && content.None? then Invalid(MsgNothingToUpdate)
      else if title.Some? && JsLength(title.value) < MinTitleLength then Invalid(MsgTitleTooShort)
      else if content.Some? && JsLength(content.value) < MinContentLength then Invalid(MsgContentTooShort)
      else Valid(PostChanges(title, content))
  }

  /** On update a present whitespace-only title is not "absent": it fails the length check. */
  lemma BlankTitleOnUpdateIsTooShort(body: Body, raw: string)
    requires ParseBody(body).Valid? && ParseBody(body).value.title == Some(raw)
    requires AllWhitespace(raw)
    ensures ValidateUpdatePostPayload(body) == Invalid(MsgTitleTooShort)
  {
    TrimEmptyIff(raw);
  }

  /** Update validation is idempotent too: changes sent back as validation returned them are accepted unchanged. */
  lemma NormalisedChangesAccepted(body: Body, changes: PostChanges)
    requires ParseBody(body).Valid?
    requires ParseBody(body).value.title == changes.title && ParseBody(body).value.content == changes.content
    requires changes.title.Some? || changes.content.Some?
    requires changes.title.Some? ==> IsTrimmed(changes.title.value) && JsLength(changes.title.value) >= MinTitleLength
    requires changes.content.Some? ==> IsTrimmed(changes.content.value) && JsLength(changes.content.value) >= MinContentLength
    ensures ValidateUpdatePostPayload(body) == Valid(changes)
  {
    var r := ValidateUpdatePostPayload(body);
    assert r.Valid? && r.value.title == changes.title && r.value.content == changes.content by {
      TrimOptionalFixesTrimmed(changes.title);
      TrimOptionalFixesTrimmed(changes.content);
    }
  }

  /** Lengths are UTF-16 lengths: two emoji are four code units, a title long enough. */
  lemma AstralTitleCountsTwice(body: Body)
    requires ParseBody(body).Valid?
    requires ParseBody(body).value.title == Some("\U{1F600}\U{1F600}")
    requires ParseBody(body).value.content == Some("0123456789")
    ensures ValidateCreatePostPayload(body) == Valid(PostDraft("\U{1F600}\U{1F600}", "0123456789"))
  {
    NormalisedDraftAccepted(body, PostDraft("\U{1F600}\U{1F600}", "0123456789"));
  }
}
