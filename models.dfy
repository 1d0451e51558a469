/**
 * The records of the store and the relations between them (app/Models).
 *
 * A table is a sequence of rows in store iteration order. belongsTo relations
 * are first() lookups by the foreign key, hasMany relations are where()
 * filters on it.
 */
module Models {
  import opened Wrappers
  import opened Dates
  import opened Query
  import Text

  type Id = nat

  /** A value of the request input: a JSON string or a JSON integer. */
  datatype Value = Str(s: string) | Num(n: int)

  /** The request input bag: the keys the client sent and their values. */
  type Input = map<string, Value>

  datatype User = User(id: Id, name: string, email: string)

  datatype Category = Category(id: Id, name: string)

  datatype Post = Post(id: Id, userId: Id, categoryId: Id, title: string, body: string,
                       createdAt: DateTime, updatedAt: DateTime)

  datatype Comment = Comment(id: Id, postId: Id, userId: Id, body: string,
                             createdAt: DateTime, updatedAt: DateTime)

  /** A snapshot of the four tables. */
  datatype Tables = Tables(users: seq<User>, categories: seq<Category>, posts: seq<Post>, comments: seq<Comment>)

  // ---- columns and mass assignment ----

  /** The id an input value denotes for an integer column: an integer, or a string of digits. */
  function AsId(v: Value): (r: Option<Id>)
    ensures v.Num? ==> (r.Some? <==> v.n >= 0)
    ensures r.Some? && v.Num? ==> r.value == v.n
    ensures v.Str? ==> r == Text.ParseDecimal(v.s)
  {
    match v
    case Num(n) => if n >= 0 then Some(n) else None
    case Str(s) => Text.ParseDecimal(s)
  }

  const PostFillable: set<string> := {"user_id", "category_id", "title", "body"}
  const CommentFillable: set<string> := {"post_id", "user_id", "body"}

  /**
   * An integer column after mass assignment: overwritten when the key is
   * fillable and given with a value that names a key. A value that names no
   * key leaves the column as it was; the framework would write it, but the
   * controllers validate first, so only a blank category_id on a post update
   * reaches this case.
   */
  function FillId(attrs: Input, fillable: set<string>, key: string, current: Id): Id {
    if key in fillable && key in attrs && AsId(attrs[key]).Some? then AsId(attrs[key]).value else current
  }

  /**
   * A text column after mass assignment. A non-string value leaves the column
   * as it was; validation ("string") keeps such values from the controllers.
   */
  function FillText(attrs: Input, fillable: set<string>, key: string, current: string): string {
    if key in fillable && key in attrs && attrs[key].Str? then attrs[key].s else current
  }

  /** $post->fill($attrs): only the fillable columns can change. */
  function FillPost(p: Post, attrs: Input): Post {
    p.(userId := FillId(attrs, PostFillable, "user_id", p.userId),
       categoryId := FillId(attrs, PostFillable, "category_id", p.categoryId),
       title := FillText(attrs, PostFillable, "title", p.title),
       body := FillText(attrs, PostFillable, "body", p.body))
  }

  /** $comment->fill($attrs). */
  function FillComment(c: Comment, attrs: Input): Comment {
    c.(postId := FillId(attrs, CommentFillable, "post_id", c.postId),
       userId := FillId(attrs, CommentFillable, "user_id", c.userId),
       body := FillText(attrs, CommentFillable, "body", c.body))
  }

  /** The attributes restricted to the given keys. */
  function Restrict(attrs: Input, keys: set<string>): (r: Input)
    ensures r.Keys == attrs.Keys * keys
    ensures forall k :: k in r ==> r[k] == attrs[k]
  {
    map k | k in attrs && k in keys :: attrs[k]
  }

  /** Mass assignment of a post ignores every key outside the fillable list, and never sets id or the timestamps. */
  lemma FillPostOnlyFillable(p: Post, attrs: Input)
    ensures FillPost(p, attrs) == FillPost(p, Restrict(attrs, PostFillable))
    ensures FillPost(p, attrs).id == p.id
    ensures FillPost(p, attrs).createdAt == p.createdAt && FillPost(p, attrs).updatedAt == p.updatedAt
  {
  }

  /** Mass assignment of a comment ignores every key outside the fillable list, and never sets id or the timestamps. */
  lemma FillCommentOnlyFillable(c: Comment, attrs: Input)
    ensures FillComment(c, attrs) == FillComment(c, Restrict(attrs, CommentFillable))
    ensures FillComment(c, attrs).id == c.id
    ensures FillComment(c, attrs).createdAt == c.createdAt && FillComment(c, attrs).updatedAt == c.updatedAt
  {
  }

  /** Attributes without a key leave that column as it was. */
  lemma FillPostUntouched(p: Post, attrs: Input)
    ensures "user_id" !in attrs ==> FillPost(p, attrs).userId == p.userId
    ensures "category_id" !in attrs ==> FillPost(p, attrs).categoryId == p.categoryId
    ensures "title" !in attrs ==> FillPost(p, attrs).title == p.title
    ensures "body" !in attrs ==> FillPost(p, attrs).body == p.body
  {
  }

  /** Model::save(): the row is written, and updated_at set to now, only when an attribute changed. */
  function SavePost(original: Post, filled: Post, now: DateTime): (r: Post)
    ensures r.(updatedAt := filled.updatedAt) == filled
    ensures r.updatedAt == if filled == original then original.updatedAt else now
  {
    if filled == original then original else filled.(updatedAt := now)
  }

  function SaveComment(original: Comment, filled: Comment, now: DateTime): (r: Comment)
    ensures r.(updatedAt := filled.updatedAt) == filled
    ensures r.updatedAt == if filled == original then original.updatedAt else now
  {
    if filled == original then original else filled.(updatedAt := now)
  }

  // ---- keys ----

  predicate UniquePostIds(posts: seq<Post>) {
    forall i, j :: 0 <= i < |posts| && 0 <= j < |posts| && posts[i].id == posts[j].id ==> i == j
  }

  predicate UniqueCommentIds(comments: seq<Comment>) {
    forall i, j :: 0 <= i < |comments| && 0 <= j < |comments| && comments[i].id == comments[j].id ==> i == j
  }

  function UserIds(users: seq<User>): set<Id> {
    set u | u in users :: u.id
  }

  function CategoryIds(categories: seq<Category>): set<Id> {
    set c | c in categories :: c.id
  }

  // ---- lookups by primary key ----

  function FindUser(users: seq<User>, id: Id): Option<User> {
    FirstWhere(users, (u: User) => u.id == id)
  }

  function FindCategory(categories: seq<Category>, id: Id): Option<Category> {
    FirstWhere(categories, (c: Category) => c.id == id)
  }

  /** Where the first post with the key sits in the table. */
  function PostPosition(posts: seq<Post>, id: Id): (r: Option<nat>)
    ensures r.Some? ==> r.value < |posts| && posts[r.value].id == id
    ensures r.None? <==> forall i :: 0 <= i < |posts| ==> posts[i].id != id
  {
    FirstIndex(posts, (p: Post) => p.id == id)
  }

  function FindPost(posts: seq<Post>, id: Id): (r: Option<Post>)
    ensures r.Some? ==> r.value in posts && r.value.id == id
    ensures r.None? <==> forall i :: 0 <= i < |posts| ==> posts[i].id != id
  {
    match PostPosition(posts, id)
    case Some(i) => Some(posts[i])
    case None => None
  }

  /** Where the first comment with the key sits in the table. */
  function CommentPosition(comments: seq<Comment>, id: Id): (r: Option<nat>)
    ensures r.Some? ==> r.value < |comments| && comments[r.value].id == id
    ensures r.None? <==> forall i :: 0 <= i < |comments| ==> comments[i].id != id
  {
    FirstIndex(comments, (c: Comment) => c.id == id)
  }

  function FindComment(comments: seq<Comment>, id: Id): (r: Option<Comment>)
    ensures r.Some? ==> r.value in comments && r.value.id == id
    ensures r.None? <==> forall i :: 0 <= i < |comments| ==> comments[i].id != id
  {
    match CommentPosition(comments, id)
    case Some(i) => Some(comments[i])
    case None => None
  }

  /** A lookup by key finds a row with that key, and finds one exactly when one exists. */
  lemma FindUserSpec(users: seq<User>, id: Id)
    ensures FindUser(users, id).Some? ==> FindUser(users, id).value in users && FindUser(users, id).value.id == id
    ensures FindUser(users, id).Some? <==> id in UserIds(users)
  {
    if id in UserIds(users) {
      var u :| u in users && u.id == id;
      var i :| 0 <= i < |users| && users[i] == u;
    }
  }

  // ---- relations (app/Models/Post.php, app/Models/Comment.php) ----

  /** Post::author(): the user whose id is the post's user_id. */
  function PostAuthor(t: Tables, p: Post): Option<User> {
    FindUser(t.users, p.userId)
  }

  /** Post::category(): the category whose id is the post's category_id. */
  function PostCategory(t: Tables, p: Post): Option<Category> {
    FindCategory(t.categories, p.categoryId)
  }

  /** Post::comments(): the comments whose post_id is the post's id, in store order. */
  function PostComments(t: Tables, p: Post): seq<Comment> {
    Where(t.comments, (c: Comment) => c.postId == p.id)
  }

  /** Comment::post(): the post whose id is the comment's post_id. */
  function CommentPost(t: Tables, c: Comment): Option<Post> {
    FindPost(t.posts, c.postId)
  }

  /** Comment::author(): the user whose id is the comment's own user_id. */
  function CommentAuthor(t: Tables, c: Comment): Option<User> {
    FindUser(t.users, c.userId)
  }

  /** The author of a post is the user with the post's user_id, and is found whenever that user exists. */
  lemma PostAuthorByForeignKey(t: Tables, p: Post)
    ensures PostAuthor(t, p).Some? ==> PostAuthor(t, p).value in t.users && PostAuthor(t, p).value.id == p.userId
    ensures PostAuthor(t, p).Some? <==> p.userId in UserIds(t.users)
  {
    FindUserSpec(t.users, p.userId);
  }

  /** The category of a post is the category with the post's category_id, found whenever it exists. */
  lemma PostCategoryByForeignKey(t: Tables, p: Post)
    ensures PostCategory(t, p).Some? ==> PostCategory(t, p).value in t.categories && PostCategory(t, p).value.id == p.categoryId
    ensures PostCategory(t, p).Some? <==> p.categoryId in CategoryIds(t.categories)
  {
    if p.categoryId in CategoryIds(t.categories) {
      var c :| c in t.categories && c.id == p.categoryId;
      var i :| 0 <= i < |t.categories| && t.categories[i] == c;
    }
  }

  /** A post's comments are exactly the stored comments carrying its id. */
  lemma PostCommentsByForeignKey(t: Tables, p: Post, c: Comment)
    ensures c in PostComments(t, p) <==> c in t.comments && c.postId == p.id
  {
    var cs := PostComments(t, p);
    if c in cs {
      var i :| 0 <= i < |cs| && cs[i] == c;
    }
    if c in t.comments && c.postId == p.id {
      var i :| 0 <= i < |t.comments| && t.comments[i] == c;
    }
  }

  /** A comment's author depends on its user_id alone, not on the post it belongs to. */
  lemma CommentAuthorIgnoresPost(t: Tables, c: Comment, d: Comment)
    requires c.userId == d.userId
    ensures CommentAuthor(t, c) == CommentAuthor(t, d)
  {
  }

  /** The two directions agree: a stored comment is among a stored post's comments iff it resolves to that post. */
  lemma RelationsAgree(t: Tables, p: Post, c: Comment)
    requires UniquePostIds(t.posts)
    requires p in t.posts && c in t.comments
    ensures c in PostComments(t, p) <==> CommentPost(t, c) == Some(p)
  {
    PostCommentsByForeignKey(t, p, c);
    var i :| 0 <= i < |t.posts| && t.posts[i] == p;
    var r := CommentPost(t, c);
    if c.postId == p.id {
      assert r.Some?;
      var j :| 0 <= j < |t.posts| && t.posts[j] == r.value;
      assert i == j;
    }
  }
}
