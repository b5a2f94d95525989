/**
 * src/lambda/posts.ts: the post handlers over a posts table. The table is a
 * map from `postId` to the stored post; the order in which each handler
 * checks its request is a pure gate, and the handlers that write change the
 * map.
 */
module Posts {
  import opened Wrappers
  import opened JsString
  import opened Types
  import opened BearerAuth
  import opened PostPermission
  import opened PostPayload

  const MsgPostsTableUnset := "Server configuration error: POSTS_TABLE is not set"
  const MsgPostIdRequired := "postId path parameter is required"
  const MsgPostNotFound := "Post not found"
  const MsgCreateFailed := "An unexpected error occurred while creating the post"

  /** The outcome of a handler's checks: go on with a value, or answer with a response. */
  datatype Gate<T> = Pass(value: T) | Halt(response: Response)

  /** The opening of createPost, updatePost and deletePost: POSTS_TABLE, then `verifyJwt`. */
  function Authenticate(config: Config, verify: TokenVerifier, event: HttpEvent): (g: Gate<AuthenticatedUser>)
    ensures !IsTruthy(config.postsTable) ==> g == Halt(Fail(500, MsgPostsTableUnset))
    ensures IsTruthy(config.postsTable) ==>
              match VerifyJwt(config.jwtSecret, event.headers, verify)
              case Authenticated(u) => g == Pass(u)
              case AuthFailed(status, message) => g == Halt(Fail(status, message))
  {
    if !IsTruthy(config.postsTable) then Halt(Fail(500, MsgPostsTableUnset))
    else
      match VerifyJwt(config.jwtSecret, event.headers, verify)
      case Authenticated(u) => Pass(u)
      case AuthFailed(status, message) => Halt(Fail(status, message))
  }

  /** `event.pathParameters?.postId`, when truthy. */
  function PostIdParam(event: HttpEvent): (r: Option<string>)
    ensures r.Some? <==> IsTruthy(Lookup(event.pathParameters, "postId"))
    ensures r.Some? ==> r.value != "" && Lookup(event.pathParameters, "postId") == r
  {
    var p := Lookup(event.pathParameters, "postId");
    if IsTruthy(p) then p else None
  }

  /** The checks of createPost before the write: configuration, authentication, payload. */
  function CreateGate(config: Config, verify: TokenVerifier, event: HttpEvent): (g: Gate<(AuthenticatedUser, PostDraft)>)
    ensures Authenticate(config, verify, event).Halt? ==> g == Halt(Authenticate(config, verify, event).response)
    ensures Authenticate(config, verify, event).Pass? && ValidateCreatePostPayload(event.body).Invalid? ==>
              g == Halt(Fail(400, ValidateCreatePostPayload(event.body).message))
    ensures g.Halt? && g.response.status == 400 ==>
              && Authenticate(config, verify, event).Pass?
              && ValidateCreatePostPayload(event.body).Invalid?
              && g.response == Fail(400, ValidateCreatePostPayload(event.body).message)
    ensures g.Pass? <==>
              Authenticate(config, verify, event).Pass? && ValidateCreatePostPayload(event.body).Valid?
    ensures g.Pass? ==>
              && Authenticate(config, verify, event) == Pass(g.value.0)
              && ValidateCreatePostPayload(event.body) == Valid(g.value.1)
  {
    match Authenticate(config, verify, event)
    case Halt(resp) => Halt(resp)
    case Pass(user) =>
      match ValidateCreatePostPayload(event.body)
      case Invalid(m) => Halt(Fail(400, m))
      case Valid(draft) => Pass((user, draft))
  }

  /** The post createPost stores: owned by the caller, published, created and updated at `now`. */
  function NewPost(postId: string, user: AuthenticatedUser, draft: PostDraft, now: string): (p: Post)
    ensures p.postId == postId && p.authorId == user.userId && p.status == Published
    ensures p.title == draft.title && p.content == draft.content
    ensures p.createdAt == p.updatedAt == now
  {
    Post(postId, user.userId, draft.title, draft.content, Published, now, now)
  }

  /** What updatePost has established once every check has passed. */
  datatype UpdatePlan = UpdatePlan(user: AuthenticatedUser, postId: string, existing: Post, changes: PostChanges)

  /** The checks of updatePost, in order: configuration, authentication, postId (400), payload (400), existence (404), permission (403). */
  function UpdateGate(config: Config, verify: TokenVerifier, posts: map<string, Post>, event: HttpEvent): (g: Gate<UpdatePlan>)
    ensures Authenticate(config, verify, event).Halt? ==> g == Halt(Authenticate(config, verify, event).response)
    ensures Authenticate(config, verify, event).Pass? && PostIdParam(event).None? ==>
              g == Halt(Fail(400, MsgPostIdRequired))
    ensures Authenticate(config, verify, event).Pass? && PostIdParam(event).Some?
            && ValidateUpdatePostPayload(event.body).Invalid? ==>
              g == Halt(Fail(400, ValidateUpdatePostPayload(event.body).message))
    ensures Authenticate(config, verify, event).Pass? && PostIdParam(event).Some?
            && ValidateUpdatePostPayload(event.body).Valid? && PostIdParam(event).value !in posts ==>
              g == Halt(Fail(404, MsgPostNotFound))
    ensures Authenticate(config, verify, event).Pass? && PostIdParam(event).Some?
            && ValidateUpdatePostPayload(event.body).Valid? && PostIdParam(event).value in posts
            && CanModifyPost(Authenticate(config, verify, event).value, posts[PostIdParam(event).value]).Denied? ==>
              g == Halt(Fail(403, MsgModifyDenied))
    ensures g.Halt? ==> g.response.body.Message?
    ensures g.Halt? && g.response.status == 400 ==>
              Authenticate(config, verify, event).Pass?
              && (PostIdParam(event).None? || ValidateUpdatePostPayload(event.body).Invalid?)
    ensures g.Halt? && g.response.status == 404 ==>
              && Authenticate(config, verify, event).Pass?
              && PostIdParam(event).Some? && ValidateUpdatePostPayload(event.body).Valid?
              && PostIdParam(event).value !in posts
              && g.response == Fail(404, MsgPostNotFound)
    ensures g.Halt? && g.response.status == 403 ==>
              && Authenticate(config, verify, event).Pass?
              && PostIdParam(event).Some? && ValidateUpdatePostPayload(event.body).Valid?
              && PostIdParam(event).value in posts
              && CanModifyPost(Authenticate(config, verify, event).value, posts[PostIdParam(event).value]).Denied?
              && g.response == Fail(403, MsgModifyDenied)
    ensures g.Pass? <==>
              && Authenticate(config, verify, event).Pass?
              && PostIdParam(event).Some? && ValidateUpdatePostPayload(event.body).Valid?
              && PostIdParam(event).value in posts
              && CanModifyPost(Authenticate(config, verify, event).value, posts[PostIdParam(event).value]).Allowed?
    ensures g.Pass? ==>
              && Authenticate(config, verify, event) == Pass(g.value.user)
              && PostIdParam(event) == Some(g.value.postId)
              && ValidateUpdatePostPayload(event.body) == Valid(g.value.changes)
              && g.value.postId in posts && g.value.existing == posts[g.value.postId]
              && CanModifyPost(g.value.user, g.value.existing) == Allowed
  {
    match Authenticate(config, verify, event)
    case Halt(resp) => Halt(resp)
    case Pass(user) =>
      var postId := PostIdParam(event);
      if postId.None? then Halt(Fail(400, MsgPostIdRequired))
      else
        match ValidateUpdatePostPayload(event.body)
        case Invalid(m) => Halt(Fail(400, m))
        case Valid(changes) =>
          if postId.value !in posts then Halt(Fail(404, MsgPostNotFound))
          else
            var existing := posts[postId.value];
            match CanModifyPost(user, existing)
            case Denied(m) => Halt(Fail(403, m))
            case Allowed => Pass(UpdatePlan(user, postId.value, existing, changes))
  }

  /** The checks of deletePost, in order: configuration, authentication, postId (400), existence (404), permission (403). */
  function DeleteGate(config: Config, verify: TokenVerifier, posts: map<string, Post>, event: HttpEvent): (g: Gate<string>)
    ensures Authenticate(config, verify, event).Halt? ==> g == Halt(Authenticate(config, verify, event).response)
    ensures Authenticate(config, verify, event).Pass? && PostIdParam(event).None? ==>
              g == Halt(Fail(400, MsgPostIdRequired))
    ensures Authenticate(config, verify, event).Pass? && PostIdParam(event).Some? && PostIdParam(event).value !in posts ==>
              g == Halt(Fail(404, MsgPostNotFound))
    ensures Authenticate(config, verify, event).Pass? && PostIdParam(event).Some? && PostIdParam(event).value in posts
            && CanModifyPost(Authenticate(config, verify, event).value, posts[PostIdParam(event).value]).Denied? ==>
              g == Halt(Fail(403, MsgModifyDenied))
    ensures g.Halt? && g.response.status == 400 ==>
              Authenticate(config, verify, event).Pass? && PostIdParam(event).None?
    ensures g.Halt? && g.response.status == 404 ==>
              && Authenticate(config, verify, event).Pass?
              && PostIdParam(event).Some? && PostIdParam(event).value !in posts
    ensures g.Halt? && g.response.status == 403 ==>
              && Authenticate(config, verify, event).Pass?
              && PostIdParam(event).Some? && PostIdParam(event).value in posts
              && CanModifyPost(Authenticate(config, verify, event).value, posts[PostIdParam(event).value]).Denied?
    ensures g.Pass? <==>
              && Authenticate(config, verify, event).Pass?
              && PostIdParam(event).Some? && PostIdParam(event).value in posts
              && CanModifyPost(Authenticate(config, verify, event).value, posts[PostIdParam(event).value]).Allowed?
    ensures g.Pass? ==>
              && Authenticate(config, verify, event).Pass?
              && PostIdParam(event) == Some(g.value) && g.value in posts
              && CanModifyPost(Authenticate(config, verify, event).value, posts[g.value]) == Allowed
  {
    match Authenticate(config, verify, event)
    case Halt(resp) => Halt(resp)
    case Pass(user) =>
      var postId := PostIdParam(event);
      if postId.None? then Halt(Fail(400, MsgPostIdRequired))
      else if postId.value !in posts then Halt(Fail(404, MsgPostNotFound))
      else
        match CanModifyPost(user, posts[postId.value])
        case Denied(m) => Halt(Fail(403, m))
        case Allowed => Pass(postId.value)
  }

  /** An AUTHOR who does not own an existing post can never get past the update checks: a 400 for a bad payload, otherwise the 403. */
  lemma NonOwnerAuthorCannotUpdate(config: Config, verify: TokenVerifier, posts: map<string, Post>, event: HttpEvent)
    requires Authenticate(config, verify, event).Pass?
    requires Authenticate(config, verify, event).value.role == Author
    requires PostIdParam(event).Some? && PostIdParam(event).value in posts
    requires posts[PostIdParam(event).value].authorId != Authenticate(config, verify, event).value.userId
    ensures UpdateGate(config, verify, posts, event).Halt?
    ensures UpdateGate(config, verify, posts, event).response.status in {400, 403}
    ensures ValidateUpdatePostPayload(event.body).Valid? ==>
              UpdateGate(config, verify, posts, event) == Halt(Fail(403, MsgModifyDenied))
  {
  }

  /** The same AUTHOR can never get past the delete checks: the answer is a 403. */
  lemma NonOwnerAuthorCannotDelete(config: Config, verify: TokenVerifier, posts: map<string, Post>, event: HttpEvent)
    requires Authenticate(config, verify, event).Pass?
    requires Authenticate(config, verify, event).value.role == Author
    requires PostIdParam(event).Some? && PostIdParam(event).value in posts
    requires posts[PostIdParam(event).value].authorId != Authenticate(config, verify, event).value.userId
    ensures DeleteGate(config, verify, posts, event) == Halt(Fail(403, MsgModifyDenied))
  {
  }

  /** One `#name = :value` assignment of an UpdateExpression. */
  datatype SetClause = SetClause(nameToken: string, valueToken: string)

  /** The UpdateCommand input: the SET clauses and the two placeholder dictionaries. */
  datatype UpdateRequest = UpdateRequest(clauses: seq<SetClause>, attributeNames: map<string, string>, attributeValues: map<string, string>)

  const TitleClause := SetClause("#title", ":title")
  const ContentClause := SetClause("#content", ":content")
  const UpdatedAtClause := SetClause("#updatedAt", ":updatedAt")

  /** Every placeholder used is defined and every defined placeholder is used, as DynamoDB demands. */
  predicate PlaceholdersMatch(u: UpdateRequest) {
    && u.attributeNames.Keys == (set c | c in u.clauses :: c.nameToken)
    && u.attributeValues.Keys == (set c | c in u.clauses :: c.valueToken)
  }

  /**
   * One SET assignment on a stored post; the key attribute cannot be set.
   * The string attributes title, content, updatedAt, authorId and createdAt
   * are modelled; a SET on `status` or on an attribute a post does not have
   * leaves the post as it is, which DynamoDB would not do. updatePost never
   * sets those.
   */
  function SetAttribute(post: Post, attribute: string, value: string): (r: Option<Post>)
    ensures r.None? <==> attribute == "postId"
    ensures r.Some? ==> r.value.postId == post.postId
    ensures attribute == "title" ==> r == Some(post.(title := value))
    ensures attribute == "content" ==> r == Some(post.(content := value))
    ensures attribute == "updatedAt" ==> r == Some(post.(updatedAt := value))
  {
    if attribute == "postId" then None
    else if attribute == "title" then Some(post.(title := value))
    else if attribute == "content" then Some(post.(content := value))
    else if attribute == "updatedAt" then Some(post.(updatedAt := value))
    else if attribute == "authorId" then Some(post.(authorId := value))
    else if attribute == "createdAt" then Some(post.(createdAt := value))
    else Some(post)
  }

  /** What the table does with an UpdateCommand on `post`: the SET clauses in order, or None when DynamoDB would reject it. */
  function ApplyClauses(post: Post, clauses: seq<SetClause>, names: map<string, string>, values: map<string, string>): (r: Option<Post>)
    ensures r.Some? ==> r.value.postId == post.postId
    decreases |clauses|
  {
    if clauses == [] then Some(post)
    else
      var c := clauses[0];
      if c.nameToken !in names || c.valueToken !in values then None
      else
        match SetAttribute(post, names[c.nameToken], values[c.valueToken])
        case None => None
        case Some(next) => ApplyClauses(next, clauses[1..], names, values)
  }

  function ApplyUpdate(post: Post, u: UpdateRequest): Option<Post> {
    ApplyClauses(post, u.clauses, u.attributeNames, u.attributeValues)
  }

  /** The intended effect of an update: new title and content where given, a new `updatedAt`, nothing else. */
  function Edited(post: Post, changes: PostChanges, now: string): (r: Post)
    ensures r.postId == post.postId && r.authorId == post.authorId
    ensures r.status == post.status && r.createdAt == post.createdAt
    ensures r.updatedAt == now
  {
    post.(title := changes.title.GetOr(post.title), content := changes.content.GetOr(post.content), updatedAt := now)
  }

  lemma {:induction false} ApplyOneClause(post: Post, c: SetClause, rest: seq<SetClause>, names: map<string, string>, values: map<string, string>, attribute: string)
    requires c.nameToken in names && names[c.nameToken] == attribute && c.valueToken in values
    requires attribute in {"title", "content", "updatedAt"}
    ensures ApplyClauses(post, [c] + rest, names, values) == ApplyClauses(SetAttribute(post, attribute, values[c.valueToken]).value, rest, names, values)
  {
    assert ([c] + rest)[0] == c && ([c] + rest)[1..] == rest;
  }

  /** The update request updatePost builds: `#title` and `#content` when given, `#updatedAt` always. */
  method BuildUpdateRequest(changes: PostChanges, now: string) returns (u: UpdateRequest)
    ensures PlaceholdersMatch(u)
    ensures |u.clauses| > 0 && u.clauses[|u.clauses| - 1] == UpdatedAtClause
    ensures forall post :: ApplyUpdate(post, u) == Some(Edited(post, changes, now))
    ensures u.clauses == (if changes.title.Some? then [TitleClause] else [])
                         + (if changes.content.Some? then [ContentClause] else []) + [UpdatedAtClause]
  {
    var updateExpressions: seq<SetClause> := [];
    var names: map<string, string> := map[];
    var values: map<string, string> := map[];

    if changes.title.Some? {
      updateExpressions := updateExpressions + [TitleClause];
      names := names["#title" := "title"];
      values := values[":title" := changes.title.value];
    }
    if changes.content.Some? {
      updateExpressions := updateExpressions + [ContentClause];
      names := names["#content" := "content"];
      values := values[":content" := changes.content.value];
    }
    updateExpressions := updateExpressions + [UpdatedAtClause];
    names := names["#updatedAt" := "updatedAt"];
    values := values[":updatedAt" := now];

    u := UpdateRequest(updateExpressions, names, values);
    forall post
      ensures ApplyUpdate(post, u) == Some(Edited(post, changes, now))
    {
      UpdateApplies(post, changes, now, u);
    }
  }

  lemma UpdateApplies(post: Post, changes: PostChanges, now: string, u: UpdateRequest)
    requires u.clauses == (if changes.title.Some? then [TitleClause] else []) + (if changes.content.Some? then [ContentClause] else []) + [UpdatedAtClause]
    requires "#updatedAt" in u.attributeNames && u.attributeNames["#updatedAt"] == "updatedAt"
    requires ":updatedAt" in u.attributeValues && u.attributeValues[":updatedAt"] == now
    requires changes.title.Some? ==> "#title" in u.attributeNames && u.attributeNames["#title"] == "title" && ":title" in u.attributeValues && u.attributeValues[":title"] == changes.title.value
    requires changes.content.Some? ==> "#content" in u.attributeNames && u.attributeNames["#content"] == "content" && ":content" in u.attributeValues && u.attributeValues[":content"] == changes.content.value
    ensures ApplyUpdate(post, u) == Some(Edited(post, changes, now))
  {
    var names, values := u.attributeNames, u.attributeValues;
    var p1 := post.(title := changes.title.GetOr(post.title));
    var p2 := p1.(content := changes.content.GetOr(post.content));
    var rest := (if changes.content.Some? then [ContentClause] else []) + [UpdatedAtClause];
    ApplyOneClause(p2, UpdatedAtClause, [], names, values, "updatedAt");
    assert [UpdatedAtClause] + [] == [UpdatedAtClause];
    assert ApplyClauses(p2, [UpdatedAtClause], names, values) == Some(Edited(post, changes, now));
    if changes.content.Some? {
      ApplyOneClause(p1, ContentClause, [UpdatedAtClause], names, values, "content");
    }
    assert ApplyClauses(p1, rest, names, values) == Some(Edited(post, changes, now));
    if changes.title.Some? {
      ApplyOneClause(post, TitleClause, rest, names, values, "title");
      assert u.clauses == [TitleClause] + rest;
    } else {
      assert u.clauses == rest && p1 == post;
    }
  }

  const ContainsFilter := "(contains(#title, :q) OR contains(#content, :q))"

  /** The filter part of a ScanCommand input. */
  datatype ScanFilter = ScanFilter(expression: string, attributeNames: map<string, string>, attributeValues: map<string, string>)

  /** The ScanCommand input listPosts builds. */
  datatype ScanInput = ScanInput(tableName: string, limit: Option<int>, filter: Option<ScanFilter>)

  /** The filter searching title and content for `query`. */
  function QueryFilter(query: string): ScanFilter {
    ScanFilter(ContainsFilter, map["#title" := "title", "#content" := "content"], map[":q" := query])
  }

  /**
   * listPosts' treatment of `limit` and `q`: a limit only when `parseInt`
   * gives a number above 0, a filter only when the trimmed `q` is not empty.
   */
  predicate ScanFollows(scan: ScanInput, tableName: string, queryParams: Option<map<string, string>>) {
    && scan.tableName == tableName
    && (scan.limit.Some? <==>
          var raw := Lookup(queryParams, "limit");
          IsTruthy(raw) && ParseInt(raw.value).Some? && ParseInt(raw.value).value > 0)
    && (scan.limit.Some? ==> scan.limit == ParseInt(Lookup(queryParams, "limit").value) && scan.limit.value > 0)
    && (scan.filter.Some? <==>
          var q := Lookup(queryParams, "q"); q.Some? && !AllWhitespace(q.value))
    && (scan.filter.Some? ==> scan.filter == Some(QueryFilter(Trim(Lookup(queryParams, "q").value))))
  }

  /** The ScanCommand input listPosts builds from the query string. */
  method BuildScanInput(tableName: string, queryParams: Option<map<string, string>>) returns (scan: ScanInput)
    ensures ScanFollows(scan, tableName, queryParams)
  {
    var query := TrimOptional(Lookup(queryParams, "q"));
    var limitRaw := Lookup(queryParams, "limit");

    var limit: Option<int> := None;
    if IsTruthy(limitRaw) {
      var parsed := ParseInt(limitRaw.value);
      if parsed.Some? && parsed.value > 0 {
        limit := parsed;
      }
    }

    scan := ScanInput(tableName, None, None);
    if limit.Some? && limit.value != 0 {
      scan := scan.(limit := limit);
    }
    if IsTruthy(query) {
      scan := scan.(filter := Some(QueryFilter(query.value)));
    }
  }

  /** A query string without `limit` and `q` asks for a plain, unlimited scan of the table. */
  lemma PlainScan(scan: ScanInput, tableName: string, queryParams: map<string, string>)
    requires "limit" !in queryParams && "q" !in queryParams
    requires ScanFollows(scan, tableName, Some(queryParams))
    ensures scan == ScanInput(tableName, None, None)
  {
  }

  /** `?limit=n` for a positive n, written in decimal, caps the scan at n. */
  lemma DecimalLimitIsUsed(scan: ScanInput, tableName: string, queryParams: map<string, string>, n: nat)
    requires n > 0
    requires "limit" in queryParams && queryParams["limit"] == DecimalString(n)
    requires ScanFollows(scan, tableName, Some(queryParams))
    ensures scan.limit == Some(n)
  {
    ParseIntDecimal(n);
  }

  /** `?limit=0` sets no limit. */
  lemma ZeroLimitIgnored(scan: ScanInput, tableName: string, queryParams: map<string, string>)
    requires "limit" in queryParams && queryParams["limit"] == "0"
    requires ScanFollows(scan, tableName, Some(queryParams))
    ensures scan.limit == None
  {
    ParseIntDecimal(0);
    assert DecimalString(0) == "0";
  }

  /**
   * The posts table. `posts` maps each `postId` to the stored item; the
   * configuration and `jwt.verify` are fixed when the handlers are loaded.
   */
  class PostsTable {
    const config: Config
    const verify: TokenVerifier
    var posts: map<string, Post>

    /** Every post is stored under its own id. */
    ghost predicate Valid()
      reads this
    {
      forall id :: id in posts ==> posts[id].postId == id
    }

    constructor (config: Config, verify: TokenVerifier, posts: map<string, Post>)
      requires forall id :: id in posts ==> posts[id].postId == id
      ensures Valid()
      ensures this.config == config && this.verify == verify && this.posts == posts
    {
      this.config := config;
      this.verify := verify;
      this.posts := posts;
    }

    /** `createPost(event)`; `now` and `newPostId` stand for the clock and `randomUUID()`. */
    method CreatePost(event: HttpEvent, now: string, newPostId: string) returns (resp: Response)
      requires Valid()
      modifies this
      ensures Valid()
      ensures var g := CreateGate(config, verify, event);
              && (g.Halt? ==> resp == g.response && posts == old(posts))
              && (g.Pass? && newPostId in old(posts) ==> resp == Fail(500, MsgCreateFailed) && posts == old(posts))
              && (g.Pass? && newPostId !in old(posts) ==>
                    var post := NewPost(newPostId, g.value.0, g.value.1, now);
                    posts == old(posts)[newPostId := post] && resp == Response(201, PostView(post)))
    {
      var g := CreateGate(config, verify, event);
      if g.Halt? {
        return g.response;
      }
      var (user, draft) := g.value;
      var post := NewPost(newPostId, user, draft, now);
      if newPostId in posts {
        // the conditional write `attribute_not_exists(postId)` fails
        return Fail(500, MsgCreateFailed);
      }
      posts := posts[newPostId := post];
      resp := Response(201, PostView(post));
    }

    /** `getPost(event)`: reads the table only. */
    function GetPost(event: HttpEvent): (resp: Response)
      reads this
      requires Valid()
      ensures !IsTruthy(config.postsTable) ==> resp == Fail(500, MsgPostsTableUnset)
      ensures resp.status == 400 <==> IsTruthy(config.postsTable) && PostIdParam(event).None?
      ensures resp.status == 404 <==> IsTruthy(config.postsTable) && PostIdParam(event).Some? && PostIdParam(event).value !in posts
      ensures resp.status == 200 <==> IsTruthy(config.postsTable) && PostIdParam(event).Some? && PostIdParam(event).value in posts
      ensures resp.status == 200 ==>
                resp.body == PostView(posts[PostIdParam(event).value]) && resp.body.post.postId == PostIdParam(event).value
    {
      if !IsTruthy(config.postsTable) then Fail(500, MsgPostsTableUnset)
      else
        var postId := PostIdParam(event);
        if postId.None? then Fail(400, MsgPostIdRequired)
        else if postId.value !in posts then Fail(404, MsgPostNotFound)
        else Response(200, PostView(posts[postId.value]))
    }

    /**
     * `listPosts(event)`: the scan it asks for and the response. `scanned`
     * stands for the items the storage returns for that scan.
     */
    method ListPosts(event: HttpEvent, scanned: seq<Post>) returns (scan: Option<ScanInput>, resp: Response)
      ensures !IsTruthy(config.postsTable) ==> scan == None && resp == Fail(500, MsgPostsTableUnset)
      ensures IsTruthy(config.postsTable) ==>
                && scan.Some? && ScanFollows(scan.value, config.postsTable.value, event.queryStringParameters)
                && resp == Response(200, PostPage(scanned, |scanned|))
      ensures resp.body.PostPage? ==> resp.body.count == |resp.body.items|
    {
      if !IsTruthy(config.postsTable) {
        return None, Fail(500, MsgPostsTableUnset);
      }
      var input := BuildScanInput(config.postsTable.value, event.queryStringParameters);
      scan := Some(input);
      resp := Response(200, PostPage(scanned, |scanned|));
    }

    /** `updatePost(event)`; `now` stands for the clock. Only title, content and updatedAt ever change. */
    method UpdatePost(event: HttpEvent, now: string) returns (resp: Response)
      requires Valid()
      modifies this
      ensures Valid()
      ensures var g := UpdateGate(config, verify, old(posts), event);
              && (g.Halt? ==> resp == g.response && posts == old(posts))
              && (g.Pass? ==>
                    var updated := Edited(g.value.existing, g.value.changes, now);
                    posts == old(posts)[g.value.postId := updated] && resp == Response(200, PostView(updated)))
    {
      var g := UpdateGate(config, verify, posts, event);
      if g.Halt? {
        return g.response;
      }
      var plan := g.value;
      var request := BuildUpdateRequest(plan.changes, now);
      var updated := ApplyUpdate(plan.existing, request).value;
      posts := posts[plan.postId := updated];
      resp := Response(200, PostView(updated));
    }

    /** `deletePost(event)`: removes exactly the one post once every check has passed. */
    method DeletePost(event: HttpEvent) returns (resp: Response)
      requires Valid()
      modifies this
      ensures Valid()
      ensures var g := DeleteGate(config, verify, old(posts), event);
              && (g.Halt? ==> resp == g.response && posts == old(posts))
              && (g.Pass? ==> g.value in old(posts) && posts == old(posts) - {g.value} && resp == Response(204, EmptyString))
    {
      var g := DeleteGate(config, verify, posts, event);
      if g.Halt? {
        return g.response;
      }
      posts := posts - {g.value};
      resp := Response(204, EmptyString);
    }
  }
}
