/** src/middleware/posts/canModifyPost.ts: who may update or delete a post. */
module PostPermission {
  import opened Types

  const MsgModifyDenied := "You do not have permission to modify this post"

  /** ADMIN and EDITOR may modify any post; an AUTHOR only a post whose `authorId` is their `userId`. */
  function CanModifyPost(user: AuthenticatedUser, post: Post): (d: Decision)
    ensures d.Allowed? <==> user.role in {Admin, Editor} || (user.role == Author && post.authorId == user.userId)
    ensures d.Denied? ==> d == Denied(MsgModifyDenied)
  {
    if user.role == Admin || user.role == Editor then Allowed
    else if user.role == Author && post.authorId == user.userId then Allowed
    else Denied(MsgModifyDenied)
  }

  /** Elevated roles bypass ownership: whatever the post, they are allowed. */
  lemma ElevatedAlwaysAllowed(user: AuthenticatedUser, post: Post)
    requires user.role == Admin || user.role == Editor
    ensures CanModifyPost(user, post) == Allowed
  {
  }

  /** An AUTHOR is allowed exactly on their own posts, and otherwise gets the fixed message. */
  lemma AuthorOwnsOrIsDenied(user: AuthenticatedUser, post: Post)
    requires user.role == Author
    ensures CanModifyPost(user, post) == if post.authorId == user.userId then Allowed else Denied(MsgModifyDenied)
  {
  }

  /** A role claim outside ADMIN, EDITOR and AUTHOR is never allowed, even on the user's own post. */
  lemma UnrecognisedRoleDenied(user: AuthenticatedUser, post: Post)
    requires user.role.Unrecognised?
    ensures CanModifyPost(user, post) == Denied(MsgModifyDenied)
  {
  }

  /** The decision reads only the user's role and id and the post's `authorId`. */
  lemma DecisionDependsOnOwnershipOnly(u1: AuthenticatedUser, p1: Post, u2: AuthenticatedUser, p2: Post)
    requires u1.role == u2.role
    requires (p1.authorId == u1.userId) == (p2.authorId == u2.userId)
    ensures CanModifyPost(u1, p1) == CanModifyPost(u2, p2)
  {
  }
}
