/**
 * Authorization policies (app/Policies). Each ability is a pure decision over
 * the acting user and the resource; update and delete are owner-gated,
 * restore and forceDelete are never granted.
 */
module Policies {
  import opened Models

  // ---- PostPolicy ----

  function PostViewAny(user: User): bool { true }

  function PostView(user: User, post: Post): bool { true }

  function PostCreate(user: User): bool { true }

  function PostUpdate(user: User, post: Post): bool { user.id == post.userId }

  function PostDelete(user: User, post: Post): bool { user.id == post.userId }

  function PostRestore(user: User, post: Post): bool { false }

  function PostForceDelete(user: User, post: Post): bool { false }

  // ---- CommentPolicy ----

  function CommentView(user: User, comment: Comment): bool { true }

  function CommentCreate(user: User): bool { true }

  function CommentUpdate(user: User, comment: Comment): bool { user.id == comment.userId }

  function CommentDelete(user: User, comment: Comment): bool { user.id == comment.userId }

  function CommentRestore(user: User, comment: Comment): bool { false }

  function CommentForceDelete(user: User, comment: Comment): bool { false }

  // ---- the decision table both policies follow ----

  datatype Ability = ViewAny | View | Create | Update | Delete | Restore | ForceDelete

  /** Whether an actor may exercise an ability on a resource owned by owner. */
  function Allowed(ability: Ability, actor: Id, owner: Id): bool {
    match ability
    case ViewAny | View | Create => true
    case Update | Delete => actor == owner
    case Restore | ForceDelete => false
  }

  /** Every PostPolicy method is the table's decision on (user id, post user_id). */
  lemma PostPolicyIsTable(user: User, post: Post)
    ensures PostViewAny(user) == Allowed(ViewAny, user.id, post.userId)
    ensures PostView(user, post) == Allowed(View, user.id, post.userId)
    ensures PostCreate(user) == Allowed(Create, user.id, post.userId)
    ensures PostUpdate(user, post) == Allowed(Update, user.id, post.userId)
    ensures PostDelete(user, post) == Allowed(Delete, user.id, post.userId)
    ensures PostRestore(user, post) == Allowed(Restore, user.id, post.userId)
    ensures PostForceDelete(user, post) == Allowed(ForceDelete, user.id, post.userId)
  {
  }

  /** Every CommentPolicy method is the table's decision on (user id, comment user_id). */
  lemma CommentPolicyIsTable(user: User, comment: Comment)
    ensures CommentView(user, comment) == Allowed(View, user.id, comment.userId)
    ensures CommentCreate(user) == Allowed(Create, user.id, comment.userId)
    ensures CommentUpdate(user, comment) == Allowed(Update, user.id, comment.userId)
    ensures CommentDelete(user, comment) == Allowed(Delete, user.id, comment.userId)
    ensures CommentRestore(user, comment) == Allowed(Restore, user.id, comment.userId)
    ensures CommentForceDelete(user, comment) == Allowed(ForceDelete, user.id, comment.userId)
  {
  }

  /** viewAny, view and create are granted to every user on every post. */
  lemma PostReadAndCreateOpen(user: User, post: Post)
    ensures PostViewAny(user) && PostView(user, post) && PostCreate(user)
  {
  }

  /** Only the author may update or delete a post, and the two abilities always agree. */
  lemma PostUpdateDeleteOwnerOnly(user: User, post: Post)
    ensures PostUpdate(user, post) <==> user.id == post.userId
    ensures PostDelete(user, post) <==> user.id == post.userId
    ensures PostUpdate(user, post) == PostDelete(user, post)
  {
  }

  /** The decision on a post reads only its user_id: title, body and category never matter. */
  lemma PostDecisionOnlyOwner(user: User, p: Post, q: Post)
    requires p.userId == q.userId
    ensures PostUpdate(user, p) == PostUpdate(user, q)
    ensures PostDelete(user, p) == PostDelete(user, q)
  {
  }

  /** Soft-delete abilities are refused on every post. */
  lemma PostRestoreForceDeleteDenied(user: User, post: Post)
    ensures !PostRestore(user, post) && !PostForceDelete(user, post)
  {
  }

  /** view and create are granted to every user on every comment. */
  lemma CommentReadAndCreateOpen(user: User, comment: Comment)
    ensures CommentView(user, comment) && CommentCreate(user)
  {
  }

  /** Only the comment's own author may update or delete it. */
  lemma CommentUpdateDeleteOwnerOnly(user: User, comment: Comment)
    ensures CommentUpdate(user, comment) <==> user.id == comment.userId
    ensures CommentDelete(user, comment) <==> user.id == comment.userId
  {
  }

  /**
   * The decision on a comment ignores its post: the author of the parent
   * post gets no rights over another user's comment.
   */
  lemma CommentDecisionIgnoresPost(user: User, post: Post, c: Comment, d: Comment)
    requires c.userId == d.userId
    ensures CommentUpdate(user, c) == CommentUpdate(user, d)
    ensures CommentDelete(user, c) == CommentDelete(user, d)
    ensures post.userId == user.id && c.postId == post.id && c.userId != user.id ==>
      !CommentUpdate(user, c) && !CommentDelete(user, c)
  {
  }

  /** Soft-delete abilities are refused on every comment. */
  lemma CommentRestoreForceDeleteDenied(user: User, comment: Comment)
    ensures !CommentRestore(user, comment) && !CommentForceDelete(user, comment)
  {
  }
}
