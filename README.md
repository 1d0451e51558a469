# Blog API core, modelled in Dafny

A model of the core of a small Laravel blog API: users, categories, posts and
comments behind an owner-gated create/read/update/delete layer, and the
`send:welcome-email` console command.

- `policies.dfy`: `PostPolicy` and `CommentPolicy` as functions over the actor and the resource.
- `requests.dfy`: the four form requests. Each `rules()` array is a rule table that one interpreter
  checks (`required`, `sometimes`, `string`, `max:N`, `exists:categories,id`). The file also holds
  `authorize()`, `messages()` and the order in which a form request authorizes and validates.
- `models.dfy`: the `Post` and `Comment` records, mass assignment through `$fillable`,
  `save()` (which touches `updated_at` only when a column changed), and the relations as
  foreign-key lookups over tables held in store iteration order.
- `query.dfy`: `first()`, `where()` and `paginate(10)` over such a table.
- `resources.dfy`, `json.dfy`, `dates.dfy`, `text.dfy`: `PostResource`, `CommentResource` and
  `CategoryResource` as JSON objects with ordered keys. `whenLoaded` keys are present exactly when
  the relation was loaded. Timestamps are rendered as `Y-m-d H:i:s`.
- `database.dfy`: the store as a class `Db` whose tables are `seq` fields. `Post::create`, `save()`
  and `delete()` are methods that change them in place and keep primary keys unique.
- `post_controller.dfy`, `comment_controller.dfy`, `user_controller.dfy`, `http.dfy`: each route as
  a function (read-only routes) or a method that `modifies` the store. Each one answers with a
  `Response` whose status is 200, 201, 204, 403, 404 or 422.
- `send_welcome_email.dfy`: `handle()` as a method of a `Console` class. The method appends to a
  job queue and an output log and reads the users table.

Order of checks, as the framework runs them:
- A post update binds the route post (404), then validates the `UpdatePostRequest` (422), then
  asks the `update` policy in the controller (403). An invalid payload is therefore answered 422
  even when the caller does not own the post.
- A comment update binds the route's post and comment (404), then runs the
  `UpdateCommentRequest`'s `authorize()` (403), then validates (422).
- A request that is refused or invalid leaves the store unchanged.

The comment routes are not registered in `routes/api.php`. The feature tests call them under
`posts/{post}/comments`, and that is how `CommentController` is modelled.

## Model

| member | source | states |
|---|---|---|
| Policies.PostPolicyIsTable | app/Policies/PostPolicy.php:13-71 | every PostPolicy method is the decision table over (user id, post user_id): open, owner-only or denied |
| Policies.PostReadAndCreateOpen | app/Policies/PostPolicy.php:13-35 | viewAny, view and create hold for every user and every post |
| Policies.PostUpdateDeleteOwnerOnly | app/Policies/PostPolicy.php:40-53 | update holds iff user.id == post.user_id, delete likewise, and the two always agree |
| Policies.PostDecisionOnlyOwner | app/Policies/PostPolicy.php:40-53 | two posts with the same user_id get the same update and delete decision, whatever their title, body or category |
| Policies.PostRestoreForceDeleteDenied | app/Policies/PostPolicy.php:58-71 | restore and forceDelete are refused for every input |
| Policies.CommentPolicyIsTable | app/Policies/CommentPolicy.php:15-58 | every CommentPolicy method is the decision table over (user id, comment user_id) |
| Policies.CommentReadAndCreateOpen | app/Policies/CommentPolicy.php:15-26 | view and create hold for every user and every comment |
| Policies.CommentUpdateDeleteOwnerOnly | app/Policies/CommentPolicy.php:31-42 | update and delete hold iff user.id == comment.user_id |
| Policies.CommentDecisionIgnoresPost | app/Policies/CommentPolicy.php:31-42 | the decision depends on the comment's user_id only; the author of the parent post gets no right over another user's comment |
| Policies.CommentRestoreForceDeleteDenied | app/Policies/CommentPolicy.php:47-58 | restore and forceDelete are refused for every input |
| Requests.Failing | app/Http/Requests/StorePostRequest.php:23-27 | a filled value's errors are exactly the rules it fails, each tagged with the field |
| Requests.FailingAppend | app/Http/Requests/StorePostRequest.php:23-27 | the errors follow rule order: the errors of a concatenated rule list are those of each part, in turn |
| Requests.RequiredFieldErrors | app/Http/Requests/StorePostRequest.php:24-26 | a field whose rules start with required has no error iff it is present, not blank, and passes every rule |
| Requests.OptionalFieldErrors | app/Http/Requests/UpdatePostRequest.php:24-26 | a field without required has no error iff it is absent, blank (its other rules are skipped) or passes every rule |
| Requests.StorePostValidIff | app/Http/Requests/StorePostRequest.php:23-27 | a new post is valid iff category_id names a stored category, title is a filled string of at most 255 characters and body a filled string |
| Requests.TitleLimit | app/Http/Requests/StorePostRequest.php:25 | a 256-character title fails max:255 on creation and on update |
| Requests.UpdatePostValidIff | app/Http/Requests/UpdatePostRequest.php:23-27 | a post update is valid iff each field that is present and not blank obeys its type, length and existence rule; absent and blank fields pass |
| Requests.EmptyPostPayload | app/Http/Requests/UpdatePostRequest.php:24-26 | the empty payload is a valid update and an invalid creation |
| Requests.StorePostValidIsUpdateValid | app/Http/Requests/UpdatePostRequest.php:23-27 | every payload valid for creating a post is valid for updating one |
| Requests.StoreCommentValidIff | app/Http/Requests/StoreCommentRequest.php:21-26 | a comment is valid iff body is a filled string of at most 1000 characters |
| Requests.EmptyCommentBodyRejected | app/Http/Requests/StoreCommentRequest.php:24 | a missing or empty body gives exactly one error, keyed on body, from required |
| Requests.CommentBodyLimit | app/Http/Requests/StoreCommentRequest.php:24 | a non-blank body of 1000 characters passes; one of 1001 fails max:1000 and nothing else |
| Requests.CommentRulesAgree | app/Http/Requests/UpdateCommentRequest.php:22-27 | comment creation and comment update accept exactly the same payloads |
| Requests.CommentUpdateOnlyBody | app/Http/Requests/UpdateCommentRequest.php:22-27 | the validated data of a comment update holds at most body |
| Requests.Validated | app/Http/Requests/UpdateCommentRequest.php:22-27 | validated() keeps exactly the input keys that have rules, with their values |
| Requests.AuthorizeDecisions | app/Http/Requests/UpdateCommentRequest.php:13-17 | the post and comment-creation requests authorize every caller; the comment-update request authorizes iff the caller wrote the comment |
| Requests.Resolve | app/Http/Requests/UpdateCommentRequest.php:13-27 | an unauthorized request is refused before validation; an authorized one is rejected with its errors iff there are any, otherwise it yields validated() |
| Requests.MessageFor | app/Http/Requests/StorePostRequest.php:33-42 | a failing rule gets the custom message keyed "field.rule" when messages() has one, otherwise the framework default |
| Requests.StorePostMessageTable | app/Http/Requests/StorePostRequest.php:33-42 | each custom message of post creation, e.g. category_id.exists gives "Selected category does not exist." |
| Requests.UpdatePostMessageTable | app/Http/Requests/UpdatePostRequest.php:33-39 | post update customises only category_id.exists and title.max |
| Http.ErrorMessages | app/Http/Requests/StorePostRequest.php:33-42 | the 422 body pairs each failing field with its message, in validation order |
| Models.AsId | app/Http/Requests/StorePostRequest.php:24 | an input value denotes a key when it is a non-negative integer or a string of digits |
| Models.FillPostOnlyFillable | app/Models/Post.php:15 | mass assignment of a post reads only user_id, category_id, title and body, and never sets id or the timestamps |
| Models.FillCommentOnlyFillable | app/Models/Comment.php:14 | mass assignment of a comment reads only post_id, user_id and body, and never sets id or the timestamps |
| Models.FillPostUntouched | app/Http/Controllers/PostController.php:71 | a column whose key the attributes lack keeps its value |
| Models.Restrict | app/Http/Controllers/PostController.php:71 | only([...]) keeps exactly the listed keys that are present, with their values |
| Models.SavePost | app/Http/Controllers/PostController.php:71 | save() writes the filled row and sets updated_at to now only when a column changed |
| Models.SaveComment | app/Http/Controllers/CommentController.php:54 | the same for a comment |
| Models.FindPost | app/Http/Controllers/PostController.php:53 | route binding finds a stored post with the key, and finds none only when no row has it |
| Models.FindComment | app/Http/Controllers/CommentController.php:42 | the same for a comment |
| Models.FindUserSpec | app/Http/Controllers/UserController.php:19 | a lookup by id finds a stored user with that id, and finds one iff such a user exists |
| Models.PostAuthorByForeignKey | app/Models/Post.php:20-23 | a post's author is the stored user whose id is the post's user_id, found whenever one exists |
| Models.PostCategoryByForeignKey | app/Models/Post.php:28-31 | a post's category is the stored category whose id is the post's category_id, found whenever one exists |
| Models.PostCommentsByForeignKey | app/Models/Post.php:36-39 | a comment is among a post's comments iff it is stored and its post_id is the post's id |
| Models.CommentAuthorIgnoresPost | app/Models/Comment.php:27-30 | a comment's author depends on its own user_id alone |
| Models.RelationsAgree | app/Models/Comment.php:19-22 | with unique post ids, a stored comment is among a stored post's comments iff its post relation resolves to that post |
| Query.Where | app/Models/Post.php:36-39 | a hasMany query returns only matching rows, and every matching row, from the table |
| Query.WhereAppend | app/Models/Post.php:36-39 | a hasMany query keeps store order: the query over a concatenation is the concatenation of the queries |
| Query.WhereCount | app/Models/Post.php:36-39 | each row occurs in the query as often as in the table if it matches, and not at all otherwise |
| Query.Paginate | app/Http/Controllers/PostController.php:22 | a page holds at most 10 rows, the consecutive rows starting at (page - 1) * 10 |
| Query.CurrentPage | app/Http/Controllers/PostController.php:22 | a page parameter below 1, or none, means page 1 |
| Query.Meta | app/Http/Controllers/PostController.php:22 | the meta block: from and to are present iff the page has rows, from is offset + 1, and to - from + 1 is the number of rows shown, never beyond the total |
| Query.LastPage | app/Http/Controllers/PostController.php:22 | the last page number covers every row, and an empty table still has page 1 |
| Query.PageCovers | app/Http/Controllers/PostController.php:22 | row i is shown at position i mod 10 of page i / 10 + 1 |
| Query.PageSizes | app/Http/Controllers/PostController.php:22 | pages before the last are full, the last is non-empty when there are rows, and later pages are empty |
| Dates.ToDateTimeString | app/Http/Resources/PostResource.php:21-22 | a timestamp renders as 19 characters with the separators of Y-m-d H:i:s |
| Dates.DateTimeRoundTrip | app/Http/Resources/PostResource.php:21-22 | parsing a rendered timestamp gives the timestamp back |
| Dates.DateTimeStringInjective | app/Http/Resources/CommentResource.php:18 | distinct timestamps render as distinct strings |
| Resources.CategoryResourceShape | app/Http/Resources/CategoryResource.php:14-18 | the keys are exactly id, name in that order, copied from the category; posts never appear |
| Resources.CommentObjectShape | app/Http/Resources/CommentResource.php:14-19 | the keys are id, author (only when given), body, created_at; post_id, user_id and updated_at never appear |
| Resources.CommentResourceShape | app/Http/Resources/CommentResource.php:14-19 | id and body are copied, created_at is rendered, and author is present iff loaded |
| Resources.CommentCollection | app/Http/Resources/PostResource.php:20 | a collection serializes each comment with CommentResource and keeps their order |
| Resources.PostObjectKeys | app/Http/Resources/PostResource.php:14-23 | keys come in the order id, author, category, title, body, comments, created_at, updated_at; the optional ones only when given |
| Resources.PostObjectValues | app/Http/Resources/PostResource.php:15-22 | id, title, body and both timestamps sit under their keys |
| Resources.PostObjectRelations | app/Http/Resources/PostResource.php:16-20 | author, category and comments sit under their keys exactly when given; user_id and category_id never appear |
| Resources.PostResourceKeys | app/Http/Resources/PostResource.php:14-23 | a post's keys follow the fixed order, with author, category and comments present iff loaded |
| Resources.PostResourceValues | app/Http/Resources/PostResource.php:15-22 | id, title and body are copied from the post; created_at and updated_at are rendered |
| Resources.PostResourceRelations | app/Http/Resources/PostResource.php:16-20 | author, category and comments are present iff loaded; comments keep their order, each serialized by CommentResource |
| Database.Db.InsertPost | app/Http/Controllers/PostController.php:34-39 | create appends one post with the next id and both timestamps set to now, and keeps keys unique |
| Database.Db.UpdatePostAt | app/Http/Controllers/PostController.php:71 | update replaces one row by its filled and saved version, with the same id |
| Database.Db.DeletePostAt | app/Http/Controllers/PostController.php:89 | delete removes exactly the posts with that id and keeps the others in order |
| Database.Db.InsertComment | app/Http/Controllers/CommentController.php:31-34 | create appends one comment with the next id |
| Database.Db.UpdateCommentAt | app/Http/Controllers/CommentController.php:54 | update replaces one comment by its filled and saved version, with the same id |
| Database.Db.DeleteCommentAt | app/Http/Controllers/CommentController.php:66 | delete removes exactly the comments with that id |
| PostController.Index | app/Http/Controllers/PostController.php:19-26 | one item per row of the requested page (at most 10), item k being the post at offset + k with its relations, and the pagination meta of the whole table |
| PostController.IndexListsEveryPost | app/Http/Controllers/PostController.php:22 | every stored post is listed: post i is item i mod 10 of page i / 10 + 1 |
| PostController.IndexItemRelations | app/Http/Controllers/PostController.php:22 | each listed post carries its author and its category (null when the row is missing) |
| PostController.IndexItemComments | app/Http/Controllers/PostController.php:22 | the listed comments are the post's comments in store order, each without an author key |
| PostController.Show | app/Http/Controllers/PostController.php:53-60 | 404 iff no post has the id; otherwise the post with author, category and comments |
| PostController.ShowShape | app/Http/Controllers/PostController.php:56 | show renders each of the post's comments with its own author |
| PostController.Store | app/Http/Controllers/PostController.php:31-48 | 422 with messages and no write iff the payload is invalid; otherwise 201 and one new post, numbered by the next post id (which advances by one), whose user_id is the caller and whose category_id, title and body come from the payload |
| PostController.Update | app/Http/Controllers/PostController.php:65-78 | 404, then 422 with the failing rules' messages, then 403 for a non-owner, each with no write; otherwise 200, and the update changes only the category_id, title and body present in the request, never id or user_id |
| PostController.UpdateColumns | app/Http/Controllers/PostController.php:71 | after validation, `only([...])` and fill write each carried category_id, title and body (a blank category_id excepted) and never id, user_id or the timestamps |
| PostController.Destroy | app/Http/Controllers/PostController.php:83-93 | 404 or 403 with no write; otherwise exactly that post is removed, the other posts keep their order, comments and id counters are untouched, and the answer is 204 |
| CommentController.Index | app/Http/Controllers/CommentController.php:20-24 | 404 iff the post is unknown; otherwise one item per row of the requested page of that post's comments (at most 10), each with its author |
| CommentController.IndexListsEveryComment | app/Http/Controllers/CommentController.php:22 | every comment of a stored post is listed: its comment i is item i mod 10 of page i / 10 + 1 |
| CommentController.Bind | app/Http/Controllers/CommentController.php:42 | binding fails iff the post or the comment is unknown, with no check that the comment belongs to the post |
| CommentController.Show | app/Http/Controllers/CommentController.php:42-45 | 404 iff either key is unknown; otherwise the comment with its author |
| CommentController.ShowIgnoresParent | app/Http/Controllers/CommentController.php:42-45 | a comment of another post is shown all the same |
| CommentController.Store | app/Http/Controllers/CommentController.php:29-37 | 404 or 422 with no write; otherwise 201 and one new comment, numbered by the next comment id (which advances by one), with post_id the route post and user_id the caller |
| CommentController.Update | app/Http/Controllers/CommentController.php:50-57 | 404, then 403 for a non-author, then 422 with the failing rules' messages, each with no write; otherwise 200 and only the body changes |
| CommentController.Destroy | app/Http/Controllers/CommentController.php:62-69 | 404 or 403 for a non-author with no write; otherwise exactly that comment is removed, the other comments keep their order, the id counters are untouched, and the answer is 204 |
| UserController.Show | app/Http/Controllers/UserController.php:15-28 | the user with that id for any caller, or 404 with message "User not found." iff none exists |
| UserController.ShowReturnsRecord | app/Http/Controllers/UserController.php:19-22 | a stored user with a unique id is returned as its id, name and email |
| Text.DecimalRoundTrip | app/Console/Commands/SendWelcomeEmail.php:45 | parsing the decimal rendering of a key gives the key back |
| Text.DecimalStringInjective | app/Console/Commands/SendWelcomeEmail.php:63 | distinct keys render as distinct decimal strings |
| SendWelcomeEmail.TruthyValues | app/Console/Commands/SendWelcomeEmail.php:37 | an absent option, "" and "0" are falsy; "00", " " and "1" are truthy |
| SendWelcomeEmail.FindById | app/Console/Commands/SendWelcomeEmail.php:45 | the --id text finds a stored user iff it is a string of digits naming a stored key |
| SendWelcomeEmail.FindByIdOfKey | app/Console/Commands/SendWelcomeEmail.php:45 | an --id given as a key, such as 9999, finds exactly the user with that key |
| SendWelcomeEmail.FindByEmail | app/Console/Commands/SendWelcomeEmail.php:52 | the --email text finds a stored user with that email iff one exists |
| SendWelcomeEmail.DispatchedNamesUser | app/Console/Commands/SendWelcomeEmail.php:63 | the success message determines both the user id and the email it reports |
| SendWelcomeEmail.Console.Handle | app/Console/Commands/SendWelcomeEmail.php:30-66 | exit 1 with one error line and nothing queued, or exit 0 with exactly one job for the resolved user and the success line; --id takes precedence over --email |

## Left out

- Authentication (`auth:sanctum`, 401) is a precondition: the caller is a stored user. The login
  rate limit and the rest of the router and middleware configuration are not modelled.
- The `TrimStrings` and `ConvertEmptyStringsToNull` middleware are not modelled. `required` is
  read as "present and not blank" over PHP's trim characters, and a blank value skips the other
  rules, as the validator skips non-implicit rules for it.
- Models.Value: an input value is a JSON string or a JSON integer. JSON null, booleans, floats,
  arrays and objects are not modelled, so inputs such as `{"title": null}` or
  `{"category_id": 1.0}` lie outside the model.
- Policies.PostUpdate, Policies.PostDelete, Policies.CommentUpdate and Policies.CommentDelete
  compare keys as integers. PHP's `===` would also compare the types, so the model assumes that
  the foreign keys are read back from the store as integers.
- PostController.Update: a blank category_id passes validation, as the framework skips `exists`
  for it, and the model then keeps the stored category. The framework would write the blank value
  to the column, and what the database makes of that is not modelled.
- Models.FillId and Models.FillText keep the column when a fillable key holds a value of the wrong
  type, where mass assignment would write it. The controllers validate first, so apart from the
  blank category_id above this case is not reached.
- `Requests.RuleName` and `Requests.MessageFor` give the framework's default messages as
  `Default(field, rule)`, not as the framework's text.
- Models.AsId: the database's coercion of stored values is reduced to integers and digit strings.
  A string such as "1.0", which the database may also compare equal to 1, is treated as naming no
  key. The same holds for SendWelcomeEmail.FindById.
- app/Http/Resources/UserResource.php is not part of this model. Resources.UserResource gives
  id, name and email, the fields the user serializer is expected to render.
- Resources.UserOrNull and Resources.CategoryOrNull render a loaded relation that found no row
  as null. The framework's own rendering of a resource over null is not modelled.
- Dates.ToDateTimeString formats the fields of a timestamp. Time zones and the calendar validity
  of dates are not modelled, and the length and separator guarantees hold only for four-digit
  years and two-digit fields.
- Deleting a post does not delete its comments in this model. A cascade would live in a migration
  that is not part of this model.
- Pagination uses store iteration order, because the queries have no `orderBy`. The pagination
  `links` block, the `path` entry and the page URLs are not modelled; the `meta` counts
  (current_page, from, last_page, per_page, to, total) are.
- Http.ErrorMessages: the 422 body is modelled as the list of (field, message) pairs in validation
  order. The framework's envelope, a top-level `message` and an `errors` object that groups the
  messages of each field into an array, is not modelled.
- The 204 responses are modelled as carrying no body.
- Job execution, the queue worker, retries and the welcome mail template are not part of this
  model. Dispatching is appending the user to the queue.
- The registration, login, logout and token routes are not part of this model.
- The clock is a parameter (`now`) of every writing operation.
