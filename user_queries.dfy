/** The MediatR query handlers: read-only lookups over the user documents.
    `storeFails` stands for the store read throwing. */
module UserQueries {
  import opened Wrappers
  import opened Decimal
  import opened UserStore

  // ---------------------------------------------------------------- by id

  datatype GetUserByIdQuery = GetUserByIdQuery(id: string)

  datatype GetUserByIdResponse = GetUserByIdResponse(success: bool, user: Option<User>, message: Option<string>)

  const UserFound := "User found"
  const UserNotFound := "User not found"
  const RetrieveUserFailed := "Failed to retrieve user"

  /** The first document with the id, or "User not found" with no user. */
  function GetUserById(docs: seq<User>, request: GetUserByIdQuery, storeFails: bool): (r: GetUserByIdResponse)
    ensures storeFails ==> r == GetUserByIdResponse(false, None, Some(RetrieveUserFailed))
    ensures !storeFails && IdFree(docs, request.id) ==> r == GetUserByIdResponse(false, None, Some(UserNotFound))
    ensures r.success <==> !storeFails && !IdFree(docs, request.id)
    ensures r.success ==> r.message == Some(UserFound) && r.user.Some? && r.user.value in docs && r.user.value.id == request.id
  {
    if storeFails then GetUserByIdResponse(false, None, Some(RetrieveUserFailed))
    else
      var user := FindFirst(docs, ById(request.id));
      if user.None? then GetUserByIdResponse(false, None, Some(UserNotFound))
      else GetUserByIdResponse(true, user, Some(UserFound))
  }

  /** With unique ids the user found is the one document carrying the id. */
  lemma GetUserByIdFindsTheUser(docs: seq<User>, request: GetUserByIdQuery, i: nat)
    requires UniqueIds(docs)
    requires i < |docs| && docs[i].id == request.id
    ensures GetUserById(docs, request, false) == GetUserByIdResponse(true, Some(docs[i]), Some(UserFound))
  {
    FirstMatchByIdIsOnly(docs, request.id);
  }

  // ---------------------------------------------------------------- all

  datatype GetAllUsersQuery = GetAllUsersQuery

  datatype GetAllUsersResponse = GetAllUsersResponse(success: bool, users: Option<seq<User>>, message: Option<string>)

  const CountPrefix := "Found "
  const CountSuffix := " users"
  const RetrieveUsersFailed := "Failed to retrieve users"

  /** Every document, in store order, with a message counting them. */
  function GetAllUsers(docs: seq<User>, request: GetAllUsersQuery, storeFails: bool): (r: GetAllUsersResponse)
    ensures storeFails ==> r == GetAllUsersResponse(false, None, Some(RetrieveUsersFailed))
    ensures !storeFails ==>
              && r.success
              && r.users == Some(docs)
              && r.message == Some(CountPrefix + NatToString(|docs|) + CountSuffix)
  {
    if storeFails then GetAllUsersResponse(false, None, Some(RetrieveUsersFailed))
    else
      var users := FindAll(docs, Everything);
      GetAllUsersResponse(true, Some(users), Some(CountPrefix + NatToString(|users|) + CountSuffix))
  }

  /** The number in the message is the length of the list returned beside it. */
  lemma CountMessageMatchesList(docs: seq<User>, request: GetAllUsersQuery)
    ensures var r := GetAllUsers(docs, request, false);
            var m := r.message.value;
            && |CountPrefix| + |CountSuffix| < |m|
            && m[..|CountPrefix|] == CountPrefix
            && m[|m| - |CountSuffix|..] == CountSuffix
            && ParseNat(m[|CountPrefix|..|m| - |CountSuffix|]) == |r.users.value|
  {
    var digits := NatToString(|docs|);
    var m := CountPrefix + digits + CountSuffix;
    assert m[|CountPrefix|..|m| - |CountSuffix|] == digits;
    assert m[..|CountPrefix|] == CountPrefix;
    assert m[|m| - |CountSuffix|..] == CountSuffix;
    NatToStringRoundTrip(|docs|);
  }
}
