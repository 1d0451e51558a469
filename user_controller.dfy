/** UserController: any authenticated caller may look up any user by id. */
module UserController {
  import opened Wrappers
  import opened Models
  import opened Resources
  import opened Http

  const NotFoundMessage: string := "User not found."

  /**
   * GET /users/{id}: the user with that id as a UserResource, or 404 with
   * the message "User not found."; the caller plays no part.
   */
  function Show(users: seq<User>, id: int): (r: Response)
    ensures r.Ok? || r == NotFound(Some(NotFoundMessage))
    ensures r.Ok? <==> exists i :: 0 <= i < |users| && users[i].id == id
    ensures r.Ok? ==> exists u :: u in users && u.id == id && r.data == UserResource(u)
  {
    if id < 0 then NotFound(Some(NotFoundMessage))
    else match FindUser(users, id)
      case Some(u) => Ok(UserResource(u))
      case None => NotFound(Some(NotFoundMessage))
  }

  /** The record returned carries the user's id, name and email. */
  lemma ShowReturnsRecord(users: seq<User>, u: User)
    requires u in users
    requires forall i :: 0 <= i < |users| && users[i].id == u.id ==> users[i] == u
    ensures Show(users, u.id) == Ok(UserResource(u))
  {
    var i :| 0 <= i < |users| && users[i] == u;
  }
}
