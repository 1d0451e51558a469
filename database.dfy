/**
 * The record store the controllers write through Eloquent: four tables held
 * in store iteration order, and the auto-increment counters that number new
 * posts and comments. Rows are created, saved and deleted in place.
 */
module Database {
  import opened Wrappers
  import opened Dates
  import opened Models

  class Db {
    var users: seq<User>
    var categories: seq<Category>
    var posts: seq<Post>
    var comments: seq<Comment>
    var nextPostId: Id
    var nextCommentId: Id

    /** Primary keys are unique and below the next auto-increment value. */
    ghost predicate Valid()
      reads this
    {
      && UniquePostIds(posts) && UniqueCommentIds(comments)
      && (forall i :: 0 <= i < |posts| ==> posts[i].id < nextPostId)
      && (forall i :: 0 <= i < |comments| ==> comments[i].id < nextCommentId)
    }

    /** The current contents of the tables. */
    function Snapshot(): Tables
      reads this
    {
      Tables(users, categories, posts, comments)
    }

    /** A store holding the given users and categories and no posts or comments yet. */
    constructor (users: seq<User>, categories: seq<Category>)
      ensures Valid()
      ensures this.users == users && this.categories == categories
      ensures posts == [] && comments == []
      ensures nextPostId == 1 && nextCommentId == 1
    {
      this.users := users;
      this.categories := categories;
      posts := [];
      comments := [];
      nextPostId := 1;
      nextCommentId := 1;
    }

    /** Post::create: a row with the next id and both timestamps set to now is appended. */
    method InsertPost(userId: Id, categoryId: Id, title: string, body: string, now: DateTime) returns (p: Post)
      requires Valid()
      modifies this
      ensures Valid()
      ensures p == Post(old(nextPostId), userId, categoryId, title, body, now, now)
      ensures forall i :: 0 <= i < |old(posts)| ==> old(posts)[i].id != p.id
      ensures posts == old(posts) + [p] && nextPostId == old(nextPostId) + 1
      ensures users == old(users) && categories == old(categories)
      ensures comments == old(comments) && nextCommentId == old(nextCommentId)
    {
      p := Post(nextPostId, userId, categoryId, title, body, now, now);
      posts := posts + [p];
      nextPostId := nextPostId + 1;
    }

    /** $post->fill($attrs)->save() on the row at position i. */
    method UpdatePostAt(i: nat, attrs: Input, now: DateTime) returns (p: Post)
      requires Valid() && i < |posts|
      modifies this
      ensures Valid()
      ensures p == SavePost(old(posts[i]), FillPost(old(posts[i]), attrs), now)
      ensures p.id == old(posts[i].id)
      ensures posts == old(posts)[i := p]
      ensures users == old(users) && categories == old(categories) && comments == old(comments)
      ensures nextPostId == old(nextPostId) && nextCommentId == old(nextCommentId)
    {
      p := SavePost(posts[i], FillPost(posts[i], attrs), now);
      posts := posts[i := p];
    }

    /** $post->delete() on the row at position i: only that row goes, the others keep their order. */
    method DeletePostAt(i: nat)
      requires Valid() && i < |posts|
      modifies this
      ensures Valid()
      ensures posts == old(posts[..i] + posts[i + 1..])
      ensures forall q :: q in old(posts) ==> (q in posts <==> q.id != old(posts[i].id))
      ensures users == old(users) && categories == old(categories) && comments == old(comments)
      ensures nextPostId == old(nextPostId) && nextCommentId == old(nextCommentId)
    {
      var gone := posts[i];
      var rest := posts[..i] + posts[i + 1..];
      forall q | q in posts
        ensures q in rest <==> q.id != gone.id
      {
        var j :| 0 <= j < |posts| && posts[j] == q;
        if q.id == gone.id {
          assert j == i;
        } else {
          if j < i { assert rest[j] == q; } else { assert rest[j - 1] == q; }
        }
      }
      posts := rest;
    }

    /** $post->comments()->create(...): a comment with the next id is appended. */
    method InsertComment(postId: Id, userId: Id, body: string, now: DateTime) returns (c: Comment)
      requires Valid()
      modifies this
      ensures Valid()
      ensures c == Comment(old(nextCommentId), postId, userId, body, now, now)
      ensures forall i :: 0 <= i < |old(comments)| ==> old(comments)[i].id != c.id
      ensures comments == old(comments) + [c] && nextCommentId == old(nextCommentId) + 1
      ensures users == old(users) && categories == old(categories)
      ensures posts == old(posts) && nextPostId == old(nextPostId)
    {
      c := Comment(nextCommentId, postId, userId, body, now, now);
      comments := comments + [c];
      nextCommentId := nextCommentId + 1;
    }

    /** $comment->update($attrs) on the row at position i. */
    method UpdateCommentAt(i: nat, attrs: Input, now: DateTime) returns (c: Comment)
      requires Valid() && i < |comments|
      modifies this
      ensures Valid()
      ensures c == SaveComment(old(comments[i]), FillComment(old(comments[i]), attrs), now)
      ensures c.id == old(comments[i].id)
      ensures comments == old(comments)[i := c]
      ensures users == old(users) && categories == old(categories) && posts == old(posts)
      ensures nextPostId == old(nextPostId) && nextCommentId == old(nextCommentId)
    {
      c := SaveComment(comments[i], FillComment(comments[i], attrs), now);
      comments := comments[i := c];
    }

    /** $comment->delete() on the row at position i. */
    method DeleteCommentAt(i: nat)
      requires Valid() && i < |comments|
      modifies this
      ensures Valid()
      ensures comments == old(comments[..i] + comments[i + 1..])
      ensures forall d :: d in old(comments) ==> (d in comments <==> d.id != old(comments[i].id))
      ensures users == old(users) && categories == old(categories) && posts == old(posts)
      ensures nextPostId == old(nextPostId) && nextCommentId == old(nextCommentId)
    {
      var gone := comments[i];
      var rest := comments[..i] + comments[i + 1..];
      forall d | d in comments
        ensures d in rest <==> d.id != gone.id
      {
        var j :| 0 <= j < |comments| && comments[j] == d;
        if d.id == gone.id {
          assert j == i;
        } else {
          if j < i { assert rest[j] == d; } else { assert rest[j - 1] == d; }
        }
      }
      comments := rest;
    }
  }
}
