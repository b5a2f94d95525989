/**
 * Clients of the handlers: what a caller can conclude from their contracts
 * alone, for the request sequences the service is meant to support.
 */
module Scenarios {
  import opened Wrappers
  import opened JsString
  import opened Types
  import opened BearerAuth
  import opened PostPayload
  import opened RegisterPayload
  import opened LoginPayload
  import opened Posts
  import opened Auth

  /** Registering and then logging in with the same body yields a session for the new AUTHOR account. */
  method RegisterThenLogin(table: UsersTable, event: HttpEvent, now: string, newUserId: string, salt: string)
    returns (registered: Response, session: Response)
    requires table.Valid()
    requires IsTruthy(table.config.jwtSecret)
    requires forall password, s :: table.crypto.compare(password, table.crypto.hash(password, BcryptCost, s))
    modifies table
    ensures registered.status == 201 ==>
              && session.status == 200
              && session.body.Session?
              && session.body.user.userId == newUserId
              && session.body.user.role == Author
  {
    registered := table.RegisterUser(event, now, newUserId, salt);
    if registered.status == 201 {
      var reg := ValidateRegisterPayload(event.body).value;
      RegistrationPayloadLogsIn(event.body);
      var account := table.users[newUserId];
      assert account.email == reg.email && account.userId == newUserId && account.role == Author;
      assert account.passwordHash == table.crypto.hash(reg.password, BcryptCost, salt);
      AccountForUnique(table.users, newUserId);
      assert table.crypto.compare(reg.password, AccountFor(table.users, reg.email).passwordHash);
    }
    session := table.LoginUser(event);

  }

  /** The same registration body sent twice: the second gets 409 and leaves the table as the first left it. */
  method RegisterTwice(table: UsersTable, event: HttpEvent, now: string, id1: string, id2: string, salt: string)
    returns (first: Response, second: Response)
    requires table.Valid()
    modifies table
    ensures first.status == 201 ==> second == Response(409, Message(MsgEmailTaken))
  {
    first := table.RegisterUser(event, now, id1, salt);
    ghost var afterFirst := table.users;
    second := table.RegisterUser(event, now, id2, salt);
    if first.status == 201 {
      assert afterFirst[id1].email == ValidateRegisterPayload(event.body).value.email;
    }
  }

  /** The token oracle of the lifecycle below: two AUTHOR accounts, A and B. */
  function TwoAuthors(token: string, secret: string): VerifyOutcome {
    if token == "token-a" then Verified(ClaimSet(Some("A"), Some("a@example.com"), Some("AUTHOR")))
    else if token == "token-b" then Verified(ClaimSet(Some("B"), Some("b@example.com"), Some("AUTHOR")))
    else VerifyThrew
  }

  function NoFields(): JsonObject {
    JsonObject(None, None, None, None, None, None, None, None, None, None)
  }

  function Request(token: string, postId: Option<string>, body: Body): HttpEvent {
    HttpEvent(
      Some(map["authorization" := "Bearer " + token]),
      if postId.Some? then Some(map["postId" := postId.value]) else None,
      None,
      body)
  }

  const Secret := "secret"
  const Cfg := Config(Some("posts"), None, Some(Secret))
  const UserA := AuthenticatedUser("A", "a@example.com", Author)

  /** A title and content as post validation returns them: trimmed and long enough. */
  predicate Publishable(title: string, content: string) {
    && IsTrimmed(title) && JsLength(title) >= MinTitleLength
    && IsTrimmed(content) && JsLength(content) >= MinContentLength
  }

  lemma AuthenticatesAs(token: string, sub: string, email: string, event: HttpEvent)
    requires token == "token-a" || token == "token-b"
    requires sub == (if token == "token-a" then "A" else "B")
    requires email == (if token == "token-a" then "a@example.com" else "b@example.com")
    requires event.headers == Some(map["authorization" := "Bearer " + token])
    ensures Authenticate(Cfg, TwoAuthors, event) == Pass(AuthenticatedUser(sub, email, Author))
  {
    BearerTokenAuthenticates(Secret, event.headers, TwoAuthors, token, sub, email, "AUTHOR");
  }

  function CreateBody(title: string, content: string): Body {
    Text("{...}", Some(NoFields().(title := Some(title), content := Some(content))))
  }

  function UpdateBody(title: string): Body {
    Text("{...}", Some(NoFields().(title := Some(title))))
  }

  lemma CreateBodyValid(body: Body, title: string, content: string)
    requires Publishable(title, content)
    requires body == CreateBody(title, content)
    ensures ValidateCreatePostPayload(body) == Valid(PostDraft(title, content))
  {
    NormalisedDraftAccepted(body, PostDraft(title, content));
  }

  lemma UpdateBodyValid(body: Body, title: string, content: string)
    requires Publishable(title, content)
    requires body == UpdateBody(title)
    ensures ValidateUpdatePostPayload(body) == Valid(PostChanges(Some(title), None))
  {
    NormalisedChangesAccepted(body, PostChanges(Some(title), None));
  }

  /** A's create request passes every check, with A as the owner and the body's fields as they are. */
  lemma CreateByAPasses(event: HttpEvent, title: string, content: string)
    requires Publishable(title, content)
    requires event == Request("token-a", None, CreateBody(title, content))
    ensures CreateGate(Cfg, TwoAuthors, event) == Pass((UserA, PostDraft(title, content)))
  {
    AuthenticatesAs("token-a", "A", "a@example.com", event);
    CreateBodyValid(event.body, title, content);
  }

  /** B's update of A's post passes authentication and validation and is refused by the permission check. */
  lemma UpdateByBRefused(posts: map<string, Post>, postId: string, title: string, content: string, event: HttpEvent)
    requires Publishable(title, content)
    requires postId != "" && postId in posts && posts[postId].authorId == "A"
    requires event == Request("token-b", Some(postId), UpdateBody(title))
    ensures UpdateGate(Cfg, TwoAuthors, posts, event) == Halt(Fail(403, PostPermission.MsgModifyDenied))
  {
    AuthenticatesAs("token-b", "B", "b@example.com", event);
    UpdateBodyValid(event.body, title, content);
    assert PostIdParam(event) == Some(postId);
    NonOwnerAuthorCannotUpdate(Cfg, TwoAuthors, posts, event);
  }

  /** A's delete of A's own post passes every check. */
  lemma DeleteByAPasses(posts: map<string, Post>, postId: string, event: HttpEvent)
    requires postId != "" && postId in posts && posts[postId].authorId == "A"
    requires event == Request("token-a", Some(postId), NoBody)
    ensures DeleteGate(Cfg, TwoAuthors, posts, event) == Pass(postId)
  {
    AuthenticatesAs("token-a", "A", "a@example.com", event);
    assert PostIdParam(event) == Some(postId);
  }

  /** A creates a post under `postId` in the empty table: 201 and a PUBLISHED post owned by A. */
  method CreateByA(table: PostsTable, now: string, postId: string, title: string, content: string) returns (created: Response)
    requires Publishable(title, content)
    requires table.config == Cfg && table.verify == TwoAuthors && table.posts == map[]
    requires postId != ""
    modifies table
    ensures table.posts == map[postId := NewPost(postId, UserA, PostDraft(title, content), now)]
    ensures created == Response(201, PostView(table.posts[postId]))
  {
    var byA := Request("token-a", None, CreateBody(title, content));
    CreateByAPasses(byA, title, content);
    created := table.CreatePost(byA, now, postId);
  }

  /** A deletes their post: 204, and reading it afterwards gives 404. */
  method DeleteByA(table: PostsTable, postId: string) returns (deleted: Response, gone: Response)
    requires table.config == Cfg && table.verify == TwoAuthors && table.Valid()
    requires postId != "" && postId in table.posts && table.posts[postId].authorId == "A"
    modifies table
    ensures deleted == Response(204, EmptyString)
    ensures gone == Response(404, Message(MsgPostNotFound))
  {
    var deleteByA := Request("token-a", Some(postId), NoBody);
    DeleteByAPasses(table.posts, postId, deleteByA);
    deleted := table.DeletePost(deleteByA);
    assert PostIdParam(deleteByA) == Some(postId);
    gone := table.GetPost(deleteByA);
  }

  /**
   * Author A creates a post, reads it back, author B fails to change it,
   * A deletes it and it is gone.
   */
  method PostLifecycle(now: string, later: string, postId: string, title: string, content: string)
    returns (created: Response, denied: Response)
    requires Publishable(title, content)
    requires postId != ""
    ensures created.status == 201 && created.body.PostView?
    ensures created.body.post.authorId == "A" && created.body.post.status == Published
    ensures denied == Response(403, Message(PostPermission.MsgModifyDenied))
  {
    var table := new PostsTable(Cfg, TwoAuthors, map[]);
    created := CreateByA(table, now, postId, title, content);
    var post := table.posts[postId];

    var fetch := Request("token-a", Some(postId), NoBody);
    assert PostIdParam(fetch) == Some(postId);
    var fetched := table.GetPost(fetch);
    assert fetched == Response(200, PostView(post));

    var byB := Request("token-b", Some(postId), UpdateBody(title));
    UpdateByBRefused(table.posts, postId, title, content, byB);
    denied := table.UpdatePost(byB, later);

    var deleted, gone := DeleteByA(table, postId);
  }
}
