/**
 * The records of src/types: users, posts, the parsed request body, the
 * HTTP event and response, the process configuration, and the tagged results
 * the validators and permission checks return.
 */
module Types {
  import opened Wrappers

  /** `UserRole`; `Unrecognised` holds any other role claim a token carries (`role as any`). */
  datatype Role = Admin | Editor | Author | Unrecognised(claim: string)

  function RoleName(r: Role): string {
    match r
    case Admin => "ADMIN"
    case Editor => "EDITOR"
    case Author => "AUTHOR"
    case Unrecognised(c) => c
  }

  /** The role a claim string denotes; every claim reads back as itself. */
  function RoleFromClaim(claim: string): (r: Role)
    ensures RoleName(r) == claim
    ensures r.Unrecognised? <==> claim !in {"ADMIN", "EDITOR", "AUTHOR"}
  {
    if claim == "ADMIN" then Admin
    else if claim == "EDITOR" then Editor
    else if claim == "AUTHOR" then Author
    else Unrecognised(claim)
  }

  /** `AuthenticatedUser`: the identity taken from a verified token. */
  datatype AuthenticatedUser = AuthenticatedUser(userId: string, email: string, role: Role)

  datatype PostStatus = Draft | Published

  /** `PostItem` */
  datatype Post = Post(
    postId: string,
    authorId: string,
    title: string,
    content: string,
    status: PostStatus,
    createdAt: string,
    updatedAt: string)

  /** `UserItem` */
  datatype UserItem = UserItem(
    userId: string,
    email: string,
    passwordHash: string,
    name: Option<string>,
    role: Role,
    createdAt: string,
    updatedAt: string)

  /**
   * What `JSON.parse` yields for a request body, restricted to the fields the
   * validators read; an absent field is None. A body that parses to a number,
   * string, boolean or array reads as this record with every field None.
   */
  datatype JsonObject = JsonObject(
    title: Option<string>,
    content: Option<string>,
    email: Option<string>,
    password: Option<string>,
    name: Option<string>,
    fileName: Option<string>,
    mimeType: Option<string>,
    fileSize: Option<int>,
    mediaType: Option<string>,
    postId: Option<string>)

  /** The raw body (`string | null | undefined`) together with the outcome of `JSON.parse` on it (None: it threw). */
  datatype Body = NoBody | Text(raw: string, parsed: Option<JsonObject>)

  /** `HttpApiEvent`, restricted to what the handlers read. An absent key stands for `undefined`. */
  datatype HttpEvent = HttpEvent(
    headers: Option<map<string, string>>,
    pathParameters: Option<map<string, string>>,
    queryStringParameters: Option<map<string, string>>,
    body: Body)

  /** `record?.[key]` */
  function Lookup(m: Option<map<string, string>>, key: string): (r: Option<string>)
    ensures r.Some? <==> m.Some? && key in m.value
    ensures r.Some? ==> r.value == m.value[key]
  {
    if m.Some? && key in m.value then Some(m.value[key]) else None
  }

  /** The public profile of a user: `UserItem` without `passwordHash`. */
  datatype PublicUser = PublicUser(userId: string, email: string, name: Option<string>, role: Role)

  /**
   * The JSON payload of a response. No variant has a field for a password
   * hash, so no response can carry one.
   */
  datatype ResponseBody =
    | Message(message: string)
    | PostView(post: Post)
    | PostPage(items: seq<Post>, count: int)
    | RegisteredUser(userId: string, email: string, name: Option<string>, role: Role, createdAt: string)
    | Session(token: string, user: PublicUser)
    | EmptyString

  /** `buildJsonResponse(statusCode, data)`: the status and the data before JSON encoding. */
  datatype Response = Response(status: int, body: ResponseBody)

  /** `buildJsonResponse(status, { message })` */
  function Fail(status: int, message: string): Response {
    Response(status, Message(message))
  }

  /** The environment read at module load: POSTS_TABLE, USERS_TABLE and JWT_SECRET. */
  datatype Config = Config(postsTable: Option<string>, usersTable: Option<string>, jwtSecret: Option<string>)

  /** `RequireRoleResult`: `{ ok: true }` or `{ ok: false, message }`. */
  datatype Decision = Allowed | Denied(message: string)

  /** The `{ ok: true, value }` / `{ ok: false, message }` validator results. */
  datatype Validation<T> = Valid(value: T) | Invalid(message: string)

  const MsgBodyRequired := "Request body is required"
  const MsgInvalidJson := "Invalid JSON body"

  /**
   * The two checks every validator opens with: `!body` (absent or "") and
   * `JSON.parse(body)` throwing.
   */
  function ParseBody(body: Body): (r: Validation<JsonObject>)
    ensures r == Invalid(MsgBodyRequired) <==> body.NoBody? || body.raw == ""
    ensures r == Invalid(MsgInvalidJson) <==> body.Text? && body.raw != "" && body.parsed.None?
    ensures r.Valid? <==> body.Text? && body.raw != "" && body.parsed.Some?
    ensures r.Valid? ==> r.value == body.parsed.value
  {
    match body
    case NoBody => Invalid(MsgBodyRequired)
    case Text(raw, parsed) =>
      if raw == "" then Invalid(MsgBodyRequired)
      else if parsed.None? then Invalid(MsgInvalidJson)
      else Valid(parsed.value)
  }
}
