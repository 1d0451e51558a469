/**
 * CommentController: comments nested under a post (posts/{post}/comments).
 * The post and the comment are bound from the route independently: show,
 * update and destroy never check that the comment belongs to the route's
 * post. The caller has passed authentication and is a stored user.
 */
module CommentController {
  import opened Wrappers
  import opened Dates
  import opened Query
  import opened Json
  import opened Models
  import opened Policies
  import opened Requests
  import opened Resources
  import opened Database
  import opened Http

  /** A comment with its author loaded. */
  function WithAuthor(t: Tables, c: Comment): CommentWith {
    CommentWith(c, Loaded(CommentAuthor(t, c)))
  }

  /**
   * GET /posts/{post}/comments?page=n: 404 for an unknown post, otherwise ten
   * of the post's comments per page in store order, each with its author.
   */
  function Index(t: Tables, postId: Id, page: Option<int>): (r: Response)
    ensures r == NotFound(None) <==> FindPost(t.posts, postId).None?
    ensures r.Page? || r == NotFound(None)
    ensures r.Page? ==>
      var cs := PostComments(t, FindPost(t.posts, postId).value);
      && |r.items| == |Paginate(cs, page)| && r.meta == Meta(cs, page)
      && forall k :: 0 <= k < |r.items| ==>
           Offset(page) + k < |cs| && cs[Offset(page) + k].postId == postId &&
           r.items[k] == CommentResource(WithAuthor(t, cs[Offset(page) + k]))
  {
    match FindPost(t.posts, postId)
    case None => NotFound(None)
    case Some(p) =>
      var cs := PostComments(t, p);
      var pg := Paginate(cs, page);
      Page(seq(|pg|, k requires 0 <= k < |pg| => CommentResource(WithAuthor(t, pg[k]))), Meta(cs, page))
  }

  /** Every comment of a stored post is listed: its comment i is item i % 10 of page i / 10 + 1. */
  lemma IndexListsEveryComment(t: Tables, postId: Id, i: nat)
    requires FindPost(t.posts, postId).Some?
    requires i < |PostComments(t, FindPost(t.posts, postId).value)|
    ensures var r := Index(t, postId, Some(i / PerPage + 1));
      var cs := PostComments(t, FindPost(t.posts, postId).value);
      r.Page? && i % PerPage < |r.items| && r.items[i % PerPage] == CommentResource(WithAuthor(t, cs[i]))
  {
    PageCovers(PostComments(t, FindPost(t.posts, postId).value), i);
  }

  /** Route binding of {post} and {comment}: 404 when either key is unknown, with no check that they belong together. */
  function Bind(t: Tables, postId: Id, commentId: Id): (r: Option<nat>)
    ensures r.None? <==> FindPost(t.posts, postId).None? || FindComment(t.comments, commentId).None?
    ensures r.Some? ==> r.value < |t.comments| && t.comments[r.value].id == commentId
  {
    if FindPost(t.posts, postId).None? then None else CommentPosition(t.comments, commentId)
  }

  /** GET /posts/{post}/comments/{comment}: the comment with its author, whichever post it belongs to. */
  function Show(t: Tables, postId: Id, commentId: Id): (r: Response)
    ensures r == NotFound(None) <==> FindPost(t.posts, postId).None? || FindComment(t.comments, commentId).None?
    ensures r.Ok? || r == NotFound(None)
    ensures r.Ok? ==> r.data == CommentResource(WithAuthor(t, FindComment(t.comments, commentId).value))
  {
    match Bind(t, postId, commentId)
    case None => NotFound(None)
    case Some(j) => Ok(CommentResource(WithAuthor(t, t.comments[j])))
  }

  /** A comment under another post is shown all the same. */
  lemma ShowIgnoresParent(t: Tables, postId: Id, c: Comment)
    requires FindPost(t.posts, postId).Some? && FindComment(t.comments, c.id) == Some(c)
    requires c.postId != postId
    ensures Show(t, postId, c.id) == Ok(CommentResource(WithAuthor(t, c)))
  {
  }

  /**
   * POST /posts/{post}/comments: 404 for an unknown post, 422 for an invalid
   * body; otherwise a comment on that post by the caller is appended and
   * answered 201 with its author.
   */
  method Store(db: Db, caller: User, postId: Id, input: Input, now: DateTime) returns (r: Response)
    requires db.Valid() && caller in db.users
    modifies db
    ensures db.Valid()
    ensures r.NotFound? <==> FindPost(old(db.posts), postId).None?
    ensures r.NotFound? ==> r.message == None
    ensures r.Invalid? <==> FindPost(old(db.posts), postId).Some? && !StoreCommentValid(input)
    ensures r.Invalid? ==> r == Invalid(ErrorMessages(Errors(StoreCommentRules, input, {}), NoMessages))
    ensures r.NotFound? || r.Invalid? || r.Created?
    ensures !r.Created? ==> unchanged(db)
    ensures r.Created? ==>
      && |db.comments| == |old(db.comments)| + 1 && db.comments[..|old(db.comments)|] == old(db.comments)
      && db.users == old(db.users) && db.categories == old(db.categories) && db.posts == old(db.posts)
      && db.nextCommentId == old(db.nextCommentId) + 1 && db.nextPostId == old(db.nextPostId)
      && var c := db.comments[|old(db.comments)|];
         && c.id == old(db.nextCommentId) && c.postId == postId && c.userId == caller.id
         && "body" in input && input["body"] == Str(c.body)
         && c.createdAt == now && c.updatedAt == now
         && r.data == CommentResource(WithAuthor(db.Snapshot(), c))
  {
    var post := FindPost(db.posts, postId);
    if post.None? {
      r := NotFound(None);
      return;
    }
    var res := Resolve(StoreCommentAuthorize(caller), StoreCommentRules, input, {});
    if res.Rejected? {
      r := Invalid(ErrorMessages(res.errors, NoMessages));
    } else {
      StoreCommentValidIff(input);
      var c := db.InsertComment(post.value.id, caller.id, input["body"].s, now);
      r := Created(CommentResource(WithAuthor(db.Snapshot(), c)));
    }
  }

  /**
   * PUT /posts/{post}/comments/{comment}: 404 from binding, then the form
   * request's authorize (403 unless the caller wrote the comment), then
   * validation (422); an accepted update sets only the body.
   */
  method Update(db: Db, caller: User, postId: Id, commentId: Id, input: Input, now: DateTime) returns (r: Response)
    requires db.Valid() && caller in db.users
    modifies db
    ensures db.Valid()
    ensures r.NotFound? <==> Bind(old(db.Snapshot()), postId, commentId).None?
    ensures r.NotFound? ==> r.message == None
    ensures r.Forbidden? <==>
      Bind(old(db.Snapshot()), postId, commentId).Some? && !CommentUpdate(caller, FindComment(old(db.comments), commentId).value)
    ensures r.Invalid? <==>
      && Bind(old(db.Snapshot()), postId, commentId).Some? && CommentUpdate(caller, FindComment(old(db.comments), commentId).value)
      && !UpdateCommentValid(input)
    ensures r.Invalid? ==> r == Invalid(ErrorMessages(Errors(UpdateCommentRules, input, {}), NoMessages))
    ensures r.NotFound? || r.Forbidden? || r.Invalid? || r.Ok?
    ensures !r.Ok? ==> unchanged(db)
    ensures r.Ok? ==>
      && Bind(old(db.Snapshot()), postId, commentId).Some? && |db.comments| == |old(db.comments)|
      && db.users == old(db.users) && db.categories == old(db.categories) && db.posts == old(db.posts)
      && db.nextPostId == old(db.nextPostId) && db.nextCommentId == old(db.nextCommentId)
      && var j := Bind(old(db.Snapshot()), postId, commentId).value;
         var o := old(db.comments[j]);
         var c := db.comments[j];
         && db.comments == old(db.comments)[j := c]
         && c.id == o.id && c.postId == o.postId && c.userId == o.userId && c.userId == caller.id
         && c.createdAt == o.createdAt
         && "body" in input && input["body"] == Str(c.body)
         && (c.updatedAt == if c.(updatedAt := o.updatedAt) == o then o.updatedAt else now)
         && r.data == CommentResource(WithAuthor(db.Snapshot(), c))
  {
    var bound := Bind(db.Snapshot(), postId, commentId);
    if bound.None? {
      r := NotFound(None);
      return;
    }
    var j := bound.value;
    var res := Resolve(UpdateCommentAuthorize(caller, db.comments[j]), UpdateCommentRules, input, {});
    if res.Denied? {
      r := Forbidden;
    } else if res.Rejected? {
      r := Invalid(ErrorMessages(res.errors, NoMessages));
    } else {
      CommentRulesAgree(input);
      StoreCommentValidIff(input);
      CommentUpdateOnlyBody(input);
      var c := db.UpdateCommentAt(j, res.validated, now);
      r := Ok(CommentResource(WithAuthor(db.Snapshot(), c)));
    }
  }

  /**
   * DELETE /posts/{post}/comments/{comment}: 404 from binding, 403 unless the
   * caller wrote the comment, otherwise exactly that comment is removed, the
   * others keeping their order (204).
   */
  method Destroy(db: Db, caller: User, postId: Id, commentId: Id) returns (r: Response)
    requires db.Valid() && caller in db.users
    modifies db
    ensures db.Valid()
    ensures r.NotFound? <==> Bind(old(db.Snapshot()), postId, commentId).None?
    ensures r.NotFound? ==> r.message == None
    ensures r.Forbidden? <==>
      Bind(old(db.Snapshot()), postId, commentId).Some? && !CommentDelete(caller, FindComment(old(db.comments), commentId).value)
    ensures r.NotFound? || r.Forbidden? || r.NoContent?
    ensures !r.NoContent? ==> unchanged(db)
    ensures r.NoContent? ==>
      && Bind(old(db.Snapshot()), postId, commentId).Some?
      && var j := Bind(old(db.Snapshot()), postId, commentId).value;
         && db.comments == old(db.comments[..j] + db.comments[j + 1..])
         && |db.comments| == |old(db.comments)| - 1
         && (forall d :: d in old(db.comments) ==> (d in db.comments <==> d.id != commentId))
         && db.users == old(db.users) && db.categories == old(db.categories) && db.posts == old(db.posts)
         && db.nextPostId == old(db.nextPostId) && db.nextCommentId == old(db.nextCommentId)
  {
    var bound := Bind(db.Snapshot(), postId, commentId);
    if bound.None? {
      r := NotFound(None);
    } else if !CommentDelete(caller, db.comments[bound.value]) {
      r := Forbidden;
    } else {
      db.DeleteCommentAt(bound.value);
      r := NoContent;
    }
  }
}
