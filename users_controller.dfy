/** `UsersController`: the REST endpoints over the same user collection, with no
    validation of their own. A store error has no handler here, so the framework
    answers it with a 500. */
module UsersApi {
  import opened Wrappers
  import opened Http
  import opened UserStore

  datatype UsersBody = UserList(users: seq<User>) | SingleUser(user: User) | NoBody

  class UsersController {
    const users: Collection

    constructor (users: Collection)
      ensures this.users == users
    {
      this.users := users;
    }

    /** `GET users`: the whole collection, in store order. */
    function GetAll(): (r: Response<UsersBody>)
      reads users
      ensures r == Response(OkStatus, UserList(users.docs))
    {
      Response(OkStatus, UserList(FindAll(users.docs, Everything)))
    }

    /** `GET users/{id}`: NotFound exactly when no document has the id. */
    function GetById(id: string): (r: Response<UsersBody>)
      reads users
      ensures r.status == NotFoundStatus <==> IdFree(users.docs, id)
      ensures IdFree(users.docs, id) ==> r.body == NoBody
      ensures !IdFree(users.docs, id) ==>
                r.status == OkStatus && r.body.SingleUser? && r.body.user in users.docs && r.body.user.id == id
    {
      match FindFirst(users.docs, ById(id))
      case None => Response(NotFoundStatus, NoBody)
      case Some(user) => Response(OkStatus, SingleUser(user))
    }

    /** `POST users`: the user is inserted as given (an id is generated when it has none);
        no field is checked; an id already in use is a duplicate-key error. */
    method Create(user: User, generatedId: string) returns (r: Response<UsersBody>)
      requires users.Valid()
      requires generatedId != "" && IdFree(users.docs, generatedId)
      modifies users
      ensures users.Valid()
      ensures var stored := if user.id == "" then user.(id := generatedId) else user;
              if IdFree(old(users.docs), stored.id)
              then users.docs == old(users.docs) + [stored] && r == Response(CreatedStatus, SingleUser(stored))
              else users.docs == old(users.docs) && r == Response(ServerErrorStatus, NoBody)
    {
      var result, stored := users.InsertOne(user, generatedId);
      if result.WriteError? {
        return Response(ServerErrorStatus, NoBody);
      }
      r := Response(CreatedStatus, SingleUser(stored));
    }

    /** `PUT users/{id}`: NotFound and no change exactly when no document has the id;
        otherwise that document is replaced by a body carrying the same id, and a body
        with any other id, an empty one included, is a store error (500). */
    method Update(id: string, updatedUser: User) returns (r: Response<UsersBody>)
      requires users.Valid()
      modifies users
      ensures users.Valid()
      ensures r.status == NotFoundStatus <==> IdFree(old(users.docs), id)
      ensures IdFree(old(users.docs), id) ==> users.docs == old(users.docs) && r.body == NoBody
      ensures !IdFree(old(users.docs), id) ==>
                var i := FirstMatch(old(users.docs), ById(id)).value;
                if updatedUser.id == id
                then r == Response(NoContentStatus, NoBody) && users.docs == old(users.docs)[i := updatedUser]
                else r == Response(ServerErrorStatus, NoBody) && users.docs == old(users.docs)
    {
      var result := users.ReplaceOne(ById(id), updatedUser);
      if result.WriteError? {
        return Response(ServerErrorStatus, NoBody);
      }
      if result.count == 0 {
        return Response(NotFoundStatus, NoBody);
      }
      r := Response(NoContentStatus, NoBody);
    }

    /** `DELETE users/{id}`: NotFound exactly when nothing was deleted; otherwise the
        document with the id is gone and the others keep their order. */
    method Delete(id: string) returns (r: Response<UsersBody>)
      requires users.Valid()
      modifies users
      ensures users.Valid()
      ensures r.status == NotFoundStatus <==> IdFree(old(users.docs), id)
      ensures IdFree(old(users.docs), id) ==> users.docs == old(users.docs) && r == Response(NotFoundStatus, NoBody)
      ensures !IdFree(old(users.docs), id) ==>
                var i := FirstMatch(old(users.docs), ById(id)).value;
                && r == Response(NoContentStatus, NoBody)
                && users.docs == old(users.docs)[..i] + old(users.docs)[i + 1..]
      ensures IdFree(users.docs, id)
    {
      ghost var before := users.docs;
      var result := users.DeleteOne(ById(id));
      if result.count == 0 {
        return Response(NotFoundStatus, NoBody);
      }
      ghost var i := FirstMatch(before, ById(id)).value;
      forall j | 0 <= j < |users.docs|
        ensures users.docs[j].id != id
      {
        if j < i {
          assert users.docs[j] == before[j];
        } else {
          assert users.docs[j] == before[j + 1];
        }
      }
      r := Response(NoContentStatus, NoBody);
    }
  }
}
