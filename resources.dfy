/**
 * API resources (app/Http/Resources): a record plus the relations that were
 * loaded on it becomes a JSON object with a fixed key order. A relation that
 * was not loaded (whenLoaded) removes its key; a belongsTo relation that was
 * loaded but found no row renders as null.
 */
module Resources {
  import opened Wrappers
  import opened Models
  import opened Dates
  import opened Json

  /** Whether a relation was eager-loaded, and what it held. */
  datatype Loaded<T> = NotLoaded | Loaded(value: T)

  datatype CommentWith = CommentWith(comment: Comment, author: Loaded<Option<User>>)

  datatype PostWith = PostWith(post: Post, author: Loaded<Option<User>>,
                               category: Loaded<Option<Category>>, comments: Loaded<seq<CommentWith>>)

  /** UserResource: id, name and email. */
  function UserResource(u: User): Json {
    JObject([("id", JInt(u.id)), ("name", JString(u.name)), ("email", JString(u.email))])
  }

  function UserOrNull(u: Option<User>): Json {
    match u
    case Some(user) => UserResource(user)
    case None => JNull
  }

  /** CategoryResource::toArray. */
  function CategoryResource(c: Category): Json {
    JObject([("id", JInt(c.id)), ("name", JString(c.name))])
  }

  function CategoryOrNull(c: Option<Category>): Json {
    match c
    case Some(category) => CategoryResource(category)
    case None => JNull
  }

  /** A whenLoaded entry: the key is present exactly when the relation was loaded. */
  function WhenLoaded(key: string, v: Option<Json>): seq<(string, Json)> {
    if v.Some? then [(key, v.value)] else []
  }

  /** The object CommentResource builds, over already-rendered values. */
  function CommentObject(id: int, author: Option<Json>, body: string, createdAt: string): Json {
    JObject([("id", JInt(id))] + WhenLoaded("author", author) +
            [("body", JString(body)), ("created_at", JString(createdAt))])
  }

  /** CommentResource::toArray. */
  function CommentResource(cw: CommentWith): Json {
    CommentObject(cw.comment.id,
                  if cw.author.Loaded? then Some(UserOrNull(cw.author.value)) else None,
                  cw.comment.body, ToDateTimeString(cw.comment.createdAt))
  }

  /** CommentResource::collection: each comment serialized, order kept. */
  function CommentCollection(cs: seq<CommentWith>): (js: seq<Json>)
    ensures |js| == |cs|
    ensures forall i :: 0 <= i < |cs| ==> js[i] == CommentResource(cs[i])
  {
    seq(|cs|, i requires 0 <= i < |cs| => CommentResource(cs[i]))
  }

  /** The object PostResource builds, over already-rendered values: the keys up to the category, then the rest. */
  function PostObject(id: int, author: Option<Json>, category: Option<Json>, title: string, body: string,
                      comments: Option<Json>, createdAt: string, updatedAt: string): Json {
    JObject(PostHead(id, author, category) + PostTail(title, body, comments, createdAt, updatedAt))
  }

  function PostHead(id: int, author: Option<Json>, category: Option<Json>): seq<(string, Json)> {
    [("id", JInt(id))] + WhenLoaded("author", author) + WhenLoaded("category", category)
  }

  function PostTail(title: string, body: string, comments: Option<Json>, createdAt: string, updatedAt: string)
    : seq<(string, Json)>
  {
    [("title", JString(title)), ("body", JString(body))] + WhenLoaded("comments", comments) +
    [("created_at", JString(createdAt)), ("updated_at", JString(updatedAt))]
  }

  /** PostResource::toArray. */
  function PostResource(pw: PostWith): Json {
    PostObject(pw.post.id,
               if pw.author.Loaded? then Some(UserOrNull(pw.author.value)) else None,
               if pw.category.Loaded? then Some(CategoryOrNull(pw.category.value)) else None,
               pw.post.title, pw.post.body,
               if pw.comments.Loaded? then Some(JArray(CommentCollection(pw.comments.value))) else None,
               ToDateTimeString(pw.post.createdAt), ToDateTimeString(pw.post.updatedAt))
  }

  /** The output of a category has exactly the keys id and name, copied from the category; its posts never appear. */
  lemma CategoryResourceShape(c: Category)
    ensures CategoryResource(c).JObject? && Keys(CategoryResource(c).fields) == ["id", "name"]
    ensures Get(CategoryResource(c), "id") == Some(JInt(c.id))
    ensures Get(CategoryResource(c), "name") == Some(JString(c.name))
    ensures Get(CategoryResource(c), "posts") == None
  {
    var fs := CategoryResource(c).fields;
    LookupBound(fs, "name", JString(c.name));
    LookupAbsent(fs, "posts");
  }

  /** A key of a comment object: id, author when given, body, created_at, and nothing else. */
  lemma CommentObjectLookup(id: int, author: Option<Json>, body: string, createdAt: string, k: string)
    ensures Get(CommentObject(id, author, body, createdAt), k) ==
      if k == "id" then Some(JInt(id)) else if k == "author" then author
      else if k == "body" then Some(JString(body)) else if k == "created_at" then Some(JString(createdAt))
      else None
  {
    var wa := WhenLoaded("author", author);
    var rest := [("body", JString(body))] + [("created_at", JString(createdAt))];
    assert CommentObject(id, author, body, createdAt).fields == [("id", JInt(id))] + (wa + rest);
    LookupCons("id", JInt(id), wa + rest, k);
    LookupAppend(wa, rest, k);
    WhenLoadedLookup("author", author, k);
    LookupCons("body", JString(body), [("created_at", JString(createdAt))], k);
    LookupCons("created_at", JString(createdAt), [], k);
  }

  lemma CommentObjectShape(id: int, author: Option<Json>, body: string, createdAt: string)
    ensures Keys(CommentObject(id, author, body, createdAt).fields) ==
      ["id"] + (if author.Some? then ["author"] else []) + ["body", "created_at"]
    ensures Get(CommentObject(id, author, body, createdAt), "id") == Some(JInt(id))
    ensures Get(CommentObject(id, author, body, createdAt), "author") == author
    ensures Get(CommentObject(id, author, body, createdAt), "body") == Some(JString(body))
    ensures Get(CommentObject(id, author, body, createdAt), "created_at") == Some(JString(createdAt))
    ensures Get(CommentObject(id, author, body, createdAt), "post_id") == None
    ensures Get(CommentObject(id, author, body, createdAt), "user_id") == None
    ensures Get(CommentObject(id, author, body, createdAt), "updated_at") == None
  {
    var head := [("id", JInt(id))] + WhenLoaded("author", author);
    var rest := [("body", JString(body)), ("created_at", JString(createdAt))];
    KeysAppend(head, rest);
    KeysAppend([("id", JInt(id))], WhenLoaded("author", author));
    WhenLoadedLookup("author", author, "author");
    CommentObjectLookup(id, author, body, createdAt, "id");
    CommentObjectLookup(id, author, body, createdAt, "author");
    CommentObjectLookup(id, author, body, createdAt, "body");
    CommentObjectLookup(id, author, body, createdAt, "created_at");
    CommentObjectLookup(id, author, body, createdAt, "post_id");
    CommentObjectLookup(id, author, body, createdAt, "user_id");
    CommentObjectLookup(id, author, body, createdAt, "updated_at");
  }

  /**
   * The output of a comment has the keys id, author, body, created_at in that
   * order, author only when loaded; id and body are copied, created_at is
   * rendered; post_id, user_id and updated_at never appear.
   */
  lemma CommentResourceShape(cw: CommentWith)
    ensures Keys(CommentResource(cw).fields) ==
      ["id"] + (if cw.author.Loaded? then ["author"] else []) + ["body", "created_at"]
    ensures Get(CommentResource(cw), "id") == Some(JInt(cw.comment.id))
    ensures Get(CommentResource(cw), "body") == Some(JString(cw.comment.body))
    ensures Get(CommentResource(cw), "created_at") == Some(JString(ToDateTimeString(cw.comment.createdAt)))
    ensures Get(CommentResource(cw), "author") ==
      if cw.author.Loaded? then Some(UserOrNull(cw.author.value)) else None
    ensures Get(CommentResource(cw), "post_id") == None
    ensures Get(CommentResource(cw), "user_id") == None
    ensures Get(CommentResource(cw), "updated_at") == None
  {
    CommentObjectShape(cw.comment.id,
                       if cw.author.Loaded? then Some(UserOrNull(cw.author.value)) else None,
                       cw.comment.body, ToDateTimeString(cw.comment.createdAt));
  }

  lemma PostObjectKeys(id: int, author: Option<Json>, category: Option<Json>, title: string, body: string,
                       comments: Option<Json>, createdAt: string, updatedAt: string)
    ensures Keys(PostObject(id, author, category, title, body, comments, createdAt, updatedAt).fields) ==
      ["id"] + (if author.Some? then ["author"] else []) + (if category.Some? then ["category"] else []) +
      ["title", "body"] + (if comments.Some? then ["comments"] else []) + ["created_at", "updated_at"]
  {
    KeysAppend(PostHead(id, author, category), PostTail(title, body, comments, createdAt, updatedAt));
  }

  /** A whenLoaded entry holds its value under its key and nothing else. */
  lemma WhenLoadedLookup(key: string, v: Option<Json>, k: string)
    ensures Lookup(WhenLoaded(key, v), k) == if k == key then v else None
    ensures Keys(WhenLoaded(key, v)) == if v.Some? then [key] else []
  {
  }

  /** The head of a post object: id, then author and category when given. */
  lemma PostHeadLookup(id: int, author: Option<Json>, category: Option<Json>, k: string)
    ensures Lookup(PostHead(id, author, category), k) ==
      if k == "id" then Some(JInt(id)) else if k == "author" then author else if k == "category" then category else None
    ensures k in Keys(PostHead(id, author, category)) <==>
      k == "id" || (k == "author" && author.Some?) || (k == "category" && category.Some?)
  {
    var wa := WhenLoaded("author", author);
    var wc := WhenLoaded("category", category);
    assert PostHead(id, author, category) == [("id", JInt(id))] + (wa + wc);
    LookupCons("id", JInt(id), wa + wc, k);
    LookupAppend(wa, wc, k);
    WhenLoadedLookup("author", author, k);
    WhenLoadedLookup("category", category, k);
    KeysAppend([("id", JInt(id))], wa + wc);
    KeysAppend(wa, wc);
  }

  /** The tail of a post object: title, body, comments when given, then the timestamps. */
  lemma PostTailLookup(title: string, body: string, comments: Option<Json>, createdAt: string, updatedAt: string,
                       k: string)
    ensures Lookup(PostTail(title, body, comments, createdAt, updatedAt), k) ==
      if k == "title" then Some(JString(title)) else if k == "body" then Some(JString(body))
      else if k == "comments" then comments
      else if k == "created_at" then Some(JString(createdAt)) else if k == "updated_at" then Some(JString(updatedAt))
      else None
  {
    var wm := WhenLoaded("comments", comments);
    var stamps := [("created_at", JString(createdAt))] + [("updated_at", JString(updatedAt))];
    assert PostTail(title, body, comments, createdAt, updatedAt) ==
      [("title", JString(title))] + ([("body", JString(body))] + (wm + stamps));
    LookupCons("title", JString(title), [("body", JString(body))] + (wm + stamps), k);
    LookupCons("body", JString(body), wm + stamps, k);
    LookupAppend(wm, stamps, k);
    WhenLoadedLookup("comments", comments, k);
    LookupCons("created_at", JString(createdAt), [("updated_at", JString(updatedAt))], k);
    LookupCons("updated_at", JString(updatedAt), [], k);
  }

  /** A key of a post object is looked up in the head, and otherwise in the tail. */
  lemma PostObjectLookup(id: int, author: Option<Json>, category: Option<Json>, title: string, body: string,
                         comments: Option<Json>, createdAt: string, updatedAt: string, k: string)
    ensures Get(PostObject(id, author, category, title, body, comments, createdAt, updatedAt), k) ==
      if k == "id" then Some(JInt(id)) else if k == "author" then author else if k == "category" then category
      else Lookup(PostTail(title, body, comments, createdAt, updatedAt), k)
  {
    LookupAppend(PostHead(id, author, category), PostTail(title, body, comments, createdAt, updatedAt), k);
    PostHeadLookup(id, author, category, k);
    PostTailLookup(title, body, comments, createdAt, updatedAt, k);
  }

  lemma PostObjectValues(id: int, author: Option<Json>, category: Option<Json>, title: string, body: string,
                         comments: Option<Json>, createdAt: string, updatedAt: string)
    ensures var o := PostObject(id, author, category, title, body, comments, createdAt, updatedAt);
      Get(o, "id") == Some(JInt(id)) && Get(o, "title") == Some(JString(title)) &&
      Get(o, "body") == Some(JString(body)) && Get(o, "created_at") == Some(JString(createdAt)) &&
      Get(o, "updated_at") == Some(JString(updatedAt))
  {
    PostObjectLookup(id, author, category, title, body, comments, createdAt, updatedAt, "id");
    PostObjectLookup(id, author, category, title, body, comments, createdAt, updatedAt, "title");
    PostObjectLookup(id, author, category, title, body, comments, createdAt, updatedAt, "body");
    PostObjectLookup(id, author, category, title, body, comments, createdAt, updatedAt, "created_at");
    PostObjectLookup(id, author, category, title, body, comments, createdAt, updatedAt, "updated_at");
    PostTailLookup(title, body, comments, createdAt, updatedAt, "title");
    PostTailLookup(title, body, comments, createdAt, updatedAt, "body");
    PostTailLookup(title, body, comments, createdAt, updatedAt, "created_at");
    PostTailLookup(title, body, comments, createdAt, updatedAt, "updated_at");
  }

  lemma PostObjectRelations(id: int, author: Option<Json>, category: Option<Json>, title: string, body: string,
                            comments: Option<Json>, createdAt: string, updatedAt: string)
    ensures var o := PostObject(id, author, category, title, body, comments, createdAt, updatedAt);
      Get(o, "author") == author && Get(o, "category") == category && Get(o, "comments") == comments &&
      Get(o, "user_id") == None && Get(o, "category_id") == None
  {
    PostObjectLookup(id, author, category, title, body, comments, createdAt, updatedAt, "author");
    PostObjectLookup(id, author, category, title, body, comments, createdAt, updatedAt, "category");
    PostObjectLookup(id, author, category, title, body, comments, createdAt, updatedAt, "comments");
    PostObjectLookup(id, author, category, title, body, comments, createdAt, updatedAt, "user_id");
    PostObjectLookup(id, author, category, title, body, comments, createdAt, updatedAt, "category_id");
    PostTailLookup(title, body, comments, createdAt, updatedAt, "comments");
    PostTailLookup(title, body, comments, createdAt, updatedAt, "user_id");
    PostTailLookup(title, body, comments, createdAt, updatedAt, "category_id");
  }

  /**
   * The output of a post has the keys id, author, category, title, body,
   * comments, created_at, updated_at in that order; author, category and
   * comments appear exactly when the relation was loaded.
   */
  lemma PostResourceKeys(pw: PostWith)
    ensures Keys(PostResource(pw).fields) ==
      ["id"] +
      (if pw.author.Loaded? then ["author"] else []) +
      (if pw.category.Loaded? then ["category"] else []) +
      ["title", "body"] +
      (if pw.comments.Loaded? then ["comments"] else []) +
      ["created_at", "updated_at"]
  {
    PostObjectKeys(pw.post.id,
                   if pw.author.Loaded? then Some(UserOrNull(pw.author.value)) else None,
                   if pw.category.Loaded? then Some(CategoryOrNull(pw.category.value)) else None,
                   pw.post.title, pw.post.body,
                   if pw.comments.Loaded? then Some(JArray(CommentCollection(pw.comments.value))) else None,
                   ToDateTimeString(pw.post.createdAt), ToDateTimeString(pw.post.updatedAt));
  }

  /** id, title and body are copied from the post, and both timestamps rendered. */
  lemma PostResourceValues(pw: PostWith)
    ensures Get(PostResource(pw), "id") == Some(JInt(pw.post.id))
    ensures Get(PostResource(pw), "title") == Some(JString(pw.post.title))
    ensures Get(PostResource(pw), "body") == Some(JString(pw.post.body))
    ensures Get(PostResource(pw), "created_at") == Some(JString(ToDateTimeString(pw.post.createdAt)))
    ensures Get(PostResource(pw), "updated_at") == Some(JString(ToDateTimeString(pw.post.updatedAt)))
  {
    PostObjectValues(pw.post.id,
                     if pw.author.Loaded? then Some(UserOrNull(pw.author.value)) else None,
                     if pw.category.Loaded? then Some(CategoryOrNull(pw.category.value)) else None,
                     pw.post.title, pw.post.body,
                     if pw.comments.Loaded? then Some(JArray(CommentCollection(pw.comments.value))) else None,
                     ToDateTimeString(pw.post.createdAt), ToDateTimeString(pw.post.updatedAt));
  }

  /**
   * The relation keys of a post are present exactly when loaded; a loaded
   * author or category that found no row is null; comments keep the loaded
   * order, each serialized by CommentResource; the foreign keys never appear.
   */
  lemma PostResourceRelations(pw: PostWith)
    ensures Get(PostResource(pw), "author") ==
      if pw.author.Loaded? then Some(UserOrNull(pw.author.value)) else None
    ensures Get(PostResource(pw), "category") ==
      if pw.category.Loaded? then Some(CategoryOrNull(pw.category.value)) else None
    ensures Get(PostResource(pw), "comments") ==
      if pw.comments.Loaded? then Some(JArray(CommentCollection(pw.comments.value))) else None
    ensures Get(PostResource(pw), "user_id") == None && Get(PostResource(pw), "category_id") == None
  {
    PostObjectRelations(pw.post.id,
                        if pw.author.Loaded? then Some(UserOrNull(pw.author.value)) else None,
                        if pw.category.Loaded? then Some(CategoryOrNull(pw.category.value)) else None,
                        pw.post.title, pw.post.body,
                        if pw.comments.Loaded? then Some(JArray(CommentCollection(pw.comments.value))) else None,
                        ToDateTimeString(pw.post.createdAt), ToDateTimeString(pw.post.updatedAt));
  }
}
