/**
 * PostController: the posts resource. index and show read the tables and
 * serialize; store, update and destroy write the posts table in place.
 * The caller has passed authentication (auth:sanctum) and is a stored user.
 */
module PostController {
  import opened Wrappers
  import opened Dates
  import opened Query
  import opened Json
  import opened Models
  import opened Policies
  import opened Requests
  import opened Resources
  import opened Database
  import opened Http

  /** The columns update() takes from the request: $request->only([...]). */
  const UpdatableKeys: set<string> := {"category_id", "title", "body"}

  // ---- relation loading ----

  /** Comments loaded without their authors. */
  function Bare(cs: seq<Comment>): (ws: seq<CommentWith>)
    ensures |ws| == |cs|
    ensures forall i :: 0 <= i < |cs| ==> ws[i] == CommentWith(cs[i], NotLoaded)
  {
    seq(|cs|, i requires 0 <= i < |cs| => CommentWith(cs[i], NotLoaded))
  }

  /** Comments with their authors loaded (comments.author). */
  function WithAuthors(t: Tables, cs: seq<Comment>): (ws: seq<CommentWith>)
    ensures |ws| == |cs|
    ensures forall i :: 0 <= i < |cs| ==> ws[i] == CommentWith(cs[i], Loaded(CommentAuthor(t, cs[i])))
  {
    seq(|cs|, i requires 0 <= i < |cs| => CommentWith(cs[i], Loaded(CommentAuthor(t, cs[i]))))
  }

  /** with(['author', 'category', 'comments']). */
  function IndexView(t: Tables, p: Post): PostWith {
    PostWith(p, Loaded(PostAuthor(t, p)), Loaded(PostCategory(t, p)), Loaded(Bare(PostComments(t, p))))
  }

  /** load(['author', 'category', 'comments.author']). */
  function ShowView(t: Tables, p: Post): PostWith {
    PostWith(p, Loaded(PostAuthor(t, p)), Loaded(PostCategory(t, p)), Loaded(WithAuthors(t, PostComments(t, p))))
  }

  /** load(['author', 'category']) after a write. */
  function SavedView(t: Tables, p: Post): PostWith {
    PostWith(p, Loaded(PostAuthor(t, p)), Loaded(PostCategory(t, p)), NotLoaded)
  }

  // ---- index and show ----

  /** GET /posts?page=n: ten posts per page in store order, each with author, category and comments. */
  function Index(t: Tables, page: Option<int>): (r: Response)
    ensures r.Page? && |r.items| <= PerPage && Status(r) == 200
    ensures r.meta == Meta(t.posts, page)
    ensures |r.items| == |Paginate(t.posts, page)|
    ensures forall k :: 0 <= k < |r.items| ==>
      Offset(page) + k < |t.posts| && r.items[k] == PostResource(IndexView(t, t.posts[Offset(page) + k]))
  {
    var pg := Paginate(t.posts, page);
    Page(seq(|pg|, k requires 0 <= k < |pg| => PostResource(IndexView(t, pg[k]))), Meta(t.posts, page))
  }

  /** Every stored post is listed: post i is item i % 10 of page i / 10 + 1. */
  lemma IndexListsEveryPost(t: Tables, i: nat)
    requires i < |t.posts|
    ensures var r := Index(t, Some(i / PerPage + 1));
      i % PerPage < |r.items| && r.items[i % PerPage] == PostResource(IndexView(t, t.posts[i]))
  {
    PageCovers(t.posts, i);
  }

  /** GET /posts/{id}: 404 for an unknown id, otherwise the post with author, category and each comment's author. */
  function Show(t: Tables, id: Id): (r: Response)
    ensures r == NotFound(None) <==> forall i :: 0 <= i < |t.posts| ==> t.posts[i].id != id
    ensures r.Ok? || r == NotFound(None)
    ensures r.Ok? ==> exists i :: 0 <= i < |t.posts| && t.posts[i].id == id &&
                                 r.data == PostResource(ShowView(t, t.posts[i]))
  {
    match FindPost(t.posts, id)
    case None => NotFound(None)
    case Some(p) => Ok(PostResource(ShowView(t, p)))
  }

  /** A post as index lists it carries its author and its category. */
  lemma IndexItemRelations(t: Tables, p: Post)
    ensures Get(PostResource(IndexView(t, p)), "author") == Some(UserOrNull(PostAuthor(t, p)))
    ensures Get(PostResource(IndexView(t, p)), "category") == Some(CategoryOrNull(PostCategory(t, p)))
  {
    PostResourceRelations(IndexView(t, p));
  }

  /** index serializes a post's comments in store order, each without an author key. */
  lemma IndexItemComments(t: Tables, p: Post)
    ensures Get(PostResource(IndexView(t, p)), "comments") == Some(JArray(CommentCollection(Bare(PostComments(t, p)))))
    ensures var cs := Bare(PostComments(t, p));
      forall j :: 0 <= j < |cs| ==> Get(CommentResource(cs[j]), "author") == None
  {
    PostResourceRelations(IndexView(t, p));
    var cs := Bare(PostComments(t, p));
    forall j | 0 <= j < |cs| ensures Get(CommentResource(cs[j]), "author") == None {
      CommentResourceShape(cs[j]);
    }
  }

  /** show renders every comment of the post, in store order, each with its own author. */
  lemma ShowShape(t: Tables, p: Post)
    ensures Get(PostResource(ShowView(t, p)), "comments") ==
      Some(JArray(CommentCollection(WithAuthors(t, PostComments(t, p)))))
    ensures var cs := WithAuthors(t, PostComments(t, p));
      forall j :: 0 <= j < |cs| ==> Get(CommentResource(cs[j]), "author") == Some(UserOrNull(CommentAuthor(t, cs[j].comment)))
  {
    PostResourceRelations(ShowView(t, p));
    var cs := WithAuthors(t, PostComments(t, p));
    forall j | 0 <= j < |cs|
      ensures Get(CommentResource(cs[j]), "author") == Some(UserOrNull(CommentAuthor(t, cs[j].comment)))
    {
      CommentResourceShape(cs[j]);
    }
  }

  // ---- store, update, destroy ----

  /**
   * POST /posts: a valid payload creates a post authored by the caller with
   * the payload's category, title and body, answered 201 with its author and
   * category; an invalid one is answered 422 and nothing is written.
   */
  method Store(db: Db, caller: User, input: Input, now: DateTime) returns (r: Response)
    requires db.Valid() && caller in db.users
    modifies db
    ensures db.Valid()
    ensures r.Created? <==> StorePostValid(input, CategoryIds(old(db.categories)))
    ensures !r.Created? ==>
      unchanged(db) &&
      r == Invalid(ErrorMessages(Errors(StorePostRules, input, CategoryIds(old(db.categories))), StorePostMessages))
    ensures r.Created? ==>
      && |db.posts| == |old(db.posts)| + 1 && db.posts[..|old(db.posts)|] == old(db.posts)
      && db.users == old(db.users) && db.categories == old(db.categories) && db.comments == old(db.comments)
      && db.nextPostId == old(db.nextPostId) + 1 && db.nextCommentId == old(db.nextCommentId)
      && var p := db.posts[|old(db.posts)|];
         && p.id == old(db.nextPostId) && p.userId == caller.id
         && "category_id" in input && AsId(input["category_id"]) == Some(p.categoryId)
         && "title" in input && input["title"] == Str(p.title)
         && "body" in input && input["body"] == Str(p.body)
         && p.createdAt == now && p.updatedAt == now
         && r.data == PostResource(SavedView(db.Snapshot(), p))
  {
    var res := Resolve(StorePostAuthorize(caller), StorePostRules, input, CategoryIds(db.categories));
    if res.Rejected? {
      r := Invalid(ErrorMessages(res.errors, StorePostMessages));
    } else {
      StorePostValidIff(input, CategoryIds(db.categories));
      var p := db.InsertPost(caller.id, AsId(input["category_id"]).value, input["title"].s, input["body"].s, now);
      r := Created(PostResource(SavedView(db.Snapshot(), p)));
    }
  }

  /** The columns a validated update writes: each carried field, a blank category_id excepted; never id, user_id or the timestamps. */
  lemma UpdateColumns(o: Post, input: Input, categoryIds: set<Id>)
    requires UpdatePostValid(input, categoryIds)
    ensures var f := FillPost(o, Restrict(input, UpdatableKeys));
      && f.id == o.id && f.userId == o.userId && f.createdAt == o.createdAt && f.updatedAt == o.updatedAt
      && (if Filled(input, "category_id") then AsId(input["category_id"]) == Some(f.categoryId) else f.categoryId == o.categoryId)
      && (if "title" in input then input["title"] == Str(f.title) else f.title == o.title)
      && (if "body" in input then input["body"] == Str(f.body) else f.body == o.body)
  {
    UpdatePostValidIff(input, categoryIds);
  }

  /**
   * PUT /posts/{id}: 404 for an unknown id; then validation (422), then the
   * update policy (403); an accepted update overwrites only the columns
   * category_id, title and body that the request carries (a blank category_id
   * names no key and leaves the column as it was).
   */
  method Update(db: Db, caller: User, id: Id, input: Input, now: DateTime) returns (r: Response)
    requires db.Valid() && caller in db.users
    modifies db
    ensures db.Valid()
    ensures r.NotFound? <==> FindPost(old(db.posts), id).None?
    ensures r.NotFound? ==> r.message == None
    ensures r.Invalid? <==> FindPost(old(db.posts), id).Some? && !UpdatePostValid(input, CategoryIds(old(db.categories)))
    ensures r.Forbidden? <==>
      && FindPost(old(db.posts), id).Some? && UpdatePostValid(input, CategoryIds(old(db.categories)))
      && !PostUpdate(caller, FindPost(old(db.posts), id).value)
    ensures r.NotFound? || r.Invalid? || r.Forbidden? || r.Ok?
    ensures r.Invalid? ==>
      r == Invalid(ErrorMessages(Errors(UpdatePostRules, input, CategoryIds(old(db.categories))), UpdatePostMessages))
    ensures !r.Ok? ==> unchanged(db)
    ensures r.Ok? ==>
      && PostPosition(old(db.posts), id).Some? && |db.posts| == |old(db.posts)|
      && db.users == old(db.users) && db.categories == old(db.categories) && db.comments == old(db.comments)
      && db.nextPostId == old(db.nextPostId) && db.nextCommentId == old(db.nextCommentId)
      && var i := PostPosition(old(db.posts), id).value;
         var o := old(db.posts[i]);
         var p := db.posts[i];
         && db.posts == old(db.posts)[i := p]
         && p.id == o.id && p.userId == o.userId && p.userId == caller.id && p.createdAt == o.createdAt
         && (if Filled(input, "category_id") then AsId(input["category_id"]) == Some(p.categoryId) else p.categoryId == o.categoryId)
         && (if "title" in input then input["title"] == Str(p.title) else p.title == o.title)
         && (if "body" in input then input["body"] == Str(p.body) else p.body == o.body)
         && (p.updatedAt == if p.(updatedAt := o.updatedAt) == o then o.updatedAt else now)
         && r.data == PostResource(SavedView(db.Snapshot(), p))
  {
    var found := PostPosition(db.posts, id);
    if found.None? {
      r := NotFound(None);
      return;
    }
    var i := found.value;
    var res := Resolve(UpdatePostAuthorize(caller), UpdatePostRules, input, CategoryIds(db.categories));
    if res.Rejected? {
      r := Invalid(ErrorMessages(res.errors, UpdatePostMessages));
    } else if !PostUpdate(caller, db.posts[i]) {
      r := Forbidden;
    } else {
      UpdateColumns(db.posts[i], input, CategoryIds(db.categories));
      var p := db.UpdatePostAt(i, Restrict(input, UpdatableKeys), now);
      r := Ok(PostResource(SavedView(db.Snapshot(), p)));
    }
  }

  /**
   * DELETE /posts/{id}: 404 for an unknown id, 403 unless the caller owns the
   * post, otherwise exactly that post is removed, the others keeping their
   * order, and the answer is 204.
   */
  method Destroy(db: Db, caller: User, id: Id) returns (r: Response)
    requires db.Valid() && caller in db.users
    modifies db
    ensures db.Valid()
    ensures r.NotFound? <==> FindPost(old(db.posts), id).None?
    ensures r.NotFound? ==> r.message == None
    ensures r.Forbidden? <==> FindPost(old(db.posts), id).Some? && !PostDelete(caller, FindPost(old(db.posts), id).value)
    ensures r.NotFound? || r.Forbidden? || r.NoContent?
    ensures !r.NoContent? ==> unchanged(db)
    ensures r.NoContent? ==>
      && PostPosition(old(db.posts), id).Some?
      && var i := PostPosition(old(db.posts), id).value;
         && db.posts == old(db.posts[..i] + db.posts[i + 1..])
         && |db.posts| == |old(db.posts)| - 1
         && (forall q :: q in old(db.posts) ==> (q in db.posts <==> q.id != id))
         && db.users == old(db.users) && db.categories == old(db.categories) && db.comments == old(db.comments)
         && db.nextPostId == old(db.nextPostId) && db.nextCommentId == old(db.nextCommentId)
  {
    var found := PostPosition(db.posts, id);
    if found.None? {
      r := NotFound(None);
    } else if !PostDelete(caller, db.posts[found.value]) {
      r := Forbidden;
    } else {
      db.DeletePostAt(found.value);
      r := NoContent;
    }
  }
}
