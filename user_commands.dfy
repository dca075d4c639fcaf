/** The MediatR command handlers over the user collection: create, update,
    delete and login. Each mutating handler has a reference definition (a
    function from the old documents to the new documents and the response) and
    a handler class whose `Handle` performs the store calls and is proved to
    agree with it. `storeFails` stands for a store call that throws; password
    hashing, password verification and token signing are parameters. */
module UserCommands {
  import opened Wrappers
  import opened UserStore

  const NameAndEmailRequired := "Name and email are required"
  const UserNotFound := "User not found"

  // ---------------------------------------------------------------- create

  /** `CreateUserCommand`; the password the handler hashes is passed beside it. */
  datatype CreateUserCommand = CreateUserCommand(name: string, email: string)

  datatype CreateUserResponse = CreateUserResponse(success: bool, user: Option<User>, message: Option<string>)

  const EmailAlreadyUsed := "User with this email already exists"
  const UserCreated := "User created successfully"
  const CreateFailed := "Failed to create user"

  function CreateFailure(message: string): CreateUserResponse
  {
    CreateUserResponse(false, None, Some(message))
  }

  /** Validation first, then the email-uniqueness check, then one insert of a user
      whose password is the hash of `password`; every failure leaves the documents alone. */
  function CreateUser(docs: seq<User>, request: CreateUserCommand, password: string, hash: string -> string,
                      generatedId: string, storeFails: bool): (r: (seq<User>, CreateUserResponse))
    ensures request.name == "" || request.email == "" ==> r == (docs, CreateFailure(NameAndEmailRequired))
    ensures request.name != "" && request.email != "" && storeFails ==> r == (docs, CreateFailure(CreateFailed))
    ensures request.name != "" && request.email != "" && !storeFails && !EmailFree(docs, request.email) ==>
              r == (docs, CreateFailure(EmailAlreadyUsed))
    ensures r.1.success <==> request.name != "" && request.email != "" && !storeFails && EmailFree(docs, request.email)
    ensures r.1.success ==>
              var u := User(generatedId, request.name, request.email, hash(password));
              r == (docs + [u], CreateUserResponse(true, Some(u), Some(UserCreated)))
  {
    if request.name == "" || request.email == "" then (docs, CreateFailure(NameAndEmailRequired))
    else if storeFails then (docs, CreateFailure(CreateFailed))
    else if FindFirst(docs, ByEmail(request.email)).Some? then (docs, CreateFailure(EmailAlreadyUsed))
    else
      var u := BlankUser.(id := generatedId, name := request.name, email := request.email, password := hash(password));
      (docs + [u], CreateUserResponse(true, Some(u), Some(UserCreated)))
  }

  /** No document has this email. */
  predicate EmailFree(docs: seq<User>, email: string)
  {
    forall j :: 0 <= j < |docs| ==> docs[j].email != email
  }

  /** Run one at a time, creates keep emails unique. */
  lemma CreateKeepsEmailsUnique(docs: seq<User>, request: CreateUserCommand, password: string, hash: string -> string,
                                generatedId: string, storeFails: bool)
    requires UniqueEmails(docs)
    ensures UniqueEmails(CreateUser(docs, request, password, hash, generatedId, storeFails).0)
  {
  }

  class CreateUserCommandHandler {
    const users: Collection

    constructor (users: Collection)
      ensures this.users == users
    {
      this.users := users;
    }

    method Handle(request: CreateUserCommand, password: string, hash: string -> string,
                  generatedId: string, storeFails: bool) returns (response: CreateUserResponse)
      requires users.Valid()
      requires generatedId != "" && IdFree(users.docs, generatedId)
      modifies users
      ensures users.Valid()
      ensures (users.docs, response) == CreateUser(old(users.docs), request, password, hash, generatedId, storeFails)
    {
      if request.name == "" || request.email == "" {
        return CreateFailure(NameAndEmailRequired);
      }
      if storeFails {
        return CreateFailure(CreateFailed);
      }
      var existingUser := FindFirst(users.docs, ByEmail(request.email));
      if existingUser.Some? {
        return CreateFailure(EmailAlreadyUsed);
      }
      var user := BlankUser.(name := request.name, email := request.email, password := hash(password));
      var result, stored := users.InsertOne(user, generatedId);
      assert result.Acknowledged?;
      response := CreateUserResponse(true, Some(stored), Some(UserCreated));
    }
  }

  // ---------------------------------------------------------------- update

  datatype UpdateUserCommand = UpdateUserCommand(id: string, name: string, email: string)

  datatype UpdateUserResponse = UpdateUserResponse(success: bool, user: Option<User>, message: Option<string>)

  const UserUpdated := "User updated successfully"
  const UpdateFailed := "Failed to update user"

  function UpdateFailure(message: string): UpdateUserResponse
  {
    UpdateUserResponse(false, None, Some(message))
  }

  /** Validation first; then the document with the id is replaced by a new user made of
      the id, name and email alone, so its password goes back to the default. */
  function UpdateUser(docs: seq<User>, request: UpdateUserCommand, storeFails: bool): (r: (seq<User>, UpdateUserResponse))
    ensures request.name == "" || request.email == "" ==> r == (docs, UpdateFailure(NameAndEmailRequired))
    ensures request.name != "" && request.email != "" && storeFails ==> r == (docs, UpdateFailure(UpdateFailed))
    ensures request.name != "" && request.email != "" && !storeFails && IdFree(docs, request.id) ==>
              r == (docs, UpdateFailure(UserNotFound))
    ensures r.1.success <==> request.name != "" && request.email != "" && !storeFails && !IdFree(docs, request.id)
    ensures |r.0| == |docs|
    ensures forall j :: 0 <= j < |docs| && docs[j].id != request.id ==> r.0[j] == docs[j]
    ensures r.1.success ==>
              var u := User(request.id, request.name, request.email, "");
              && r.1 == UpdateUserResponse(true, Some(u), Some(UserUpdated))
              && exists i :: 0 <= i < |docs| && docs[i].id == request.id && r.0 == docs[i := u]
  {
    if request.name == "" || request.email == "" then (docs, UpdateFailure(NameAndEmailRequired))
    else if storeFails then (docs, UpdateFailure(UpdateFailed))
    else
      var updatedUser := BlankUser.(id := request.id, name := request.name, email := request.email);
      match FirstMatch(docs, ById(request.id))
      case None => (docs, UpdateFailure(UserNotFound))
      case Some(i) => (docs[i := updatedUser], UpdateUserResponse(true, Some(updatedUser), Some(UserUpdated)))
  }

  /** The update handler does not re-check email uniqueness: renaming one user's email
      to another's leaves two users with the same email. */
  lemma UpdateMayDuplicateEmails()
    ensures var docs := [User("a", "Ann", "ann@x", "h1"), User("b", "Bob", "bob@x", "h2")];
            && UniqueEmails(docs)
            && !UniqueEmails(UpdateUser(docs, UpdateUserCommand("b", "Bob", "ann@x"), false).0)
  {
    var docs := [User("a", "Ann", "ann@x", "h1"), User("b", "Bob", "bob@x", "h2")];
    var after := UpdateUser(docs, UpdateUserCommand("b", "Bob", "ann@x"), false).0;
    assert after[0].email == after[1].email;
  }

  class UpdateUserCommandHandler {
    const users: Collection

    constructor (users: Collection)
      ensures this.users == users
    {
      this.users := users;
    }

    method Handle(request: UpdateUserCommand, storeFails: bool) returns (response: UpdateUserResponse)
      requires users.Valid()
      modifies users
      ensures users.Valid()
      ensures (users.docs, response) == UpdateUser(old(users.docs), request, storeFails)
    {
      if request.name == "" || request.email == "" {
        return UpdateFailure(NameAndEmailRequired);
      }
      if storeFails {
        return UpdateFailure(UpdateFailed);
      }
      var updatedUser := BlankUser.(id := request.id, name := request.name, email := request.email);
      var result := users.ReplaceOne(ById(request.id), updatedUser);
      assert result.Acknowledged?;
      if result.count == 0 {
        return UpdateFailure(UserNotFound);
      }
      response := UpdateUserResponse(true, Some(updatedUser), Some(UserUpdated));
    }
  }

  // ---------------------------------------------------------------- delete

  datatype DeleteUserCommand = DeleteUserCommand(id: string)

  datatype DeleteUserResponse = DeleteUserResponse(success: bool, message: Option<string>)

  const UserDeleted := "User deleted successfully"
  const DeleteFailed := "Failed to delete user"

  /** At most one document, the first with the id, is removed; the others keep their order. */
  function DeleteUser(docs: seq<User>, request: DeleteUserCommand, storeFails: bool): (r: (seq<User>, DeleteUserResponse))
    ensures storeFails ==> r == (docs, DeleteUserResponse(false, Some(DeleteFailed)))
    ensures !storeFails && IdFree(docs, request.id) ==> r == (docs, DeleteUserResponse(false, Some(UserNotFound)))
    ensures r.1.success <==> !storeFails && !IdFree(docs, request.id)
    ensures r.1.success ==>
              && r.1.message == Some(UserDeleted)
              && exists i :: 0 <= i < |docs| && docs[i].id == request.id && r.0 == docs[..i] + docs[i + 1..]
    ensures |r.0| == if r.1.success then |docs| - 1 else |docs|
  {
    if storeFails then (docs, DeleteUserResponse(false, Some(DeleteFailed)))
    else match FirstMatch(docs, ById(request.id))
      case None => (docs, DeleteUserResponse(false, Some(UserNotFound)))
      case Some(i) => (docs[..i] + docs[i + 1..], DeleteUserResponse(true, Some(UserDeleted)))
  }

  /** With unique ids, a successful delete leaves no document with that id. */
  lemma DeleteRemovesTheUser(docs: seq<User>, request: DeleteUserCommand, storeFails: bool)
    requires UniqueIds(docs)
    ensures IdFree(DeleteUser(docs, request, storeFails).0, request.id) <==> !storeFails || IdFree(docs, request.id)
  {
    var r := DeleteUser(docs, request, storeFails);
    if !storeFails && !IdFree(docs, request.id) {
      var i := FirstMatch(docs, ById(request.id)).value;
      assert r.0 == docs[..i] + docs[i + 1..];
      forall j | 0 <= j < |r.0|
        ensures r.0[j].id != request.id
      {
        if j < i {
          assert r.0[j] == docs[j];
        } else {
          assert r.0[j] == docs[j + 1];
        }
      }
    }
  }

  class DeleteUserCommandHandler {
    const users: Collection

    constructor (users: Collection)
      ensures this.users == users
    {
      this.users := users;
    }

    method Handle(request: DeleteUserCommand, storeFails: bool) returns (response: DeleteUserResponse)
      requires users.Valid()
      modifies users
      ensures users.Valid()
      ensures (users.docs, response) == DeleteUser(old(users.docs), request, storeFails)
    {
      if storeFails {
        return DeleteUserResponse(false, Some(DeleteFailed));
      }
      var result := users.DeleteOne(ById(request.id));
      if result.count == 0 {
        return DeleteUserResponse(false, Some(UserNotFound));
      }
      response := DeleteUserResponse(true, Some(UserDeleted));
    }
  }

  // ---------------------------------------------------------------- login

  datatype LoginCommand = LoginCommand(email: string, password: string)

  datatype UserInfo = UserInfo(email: string)

  datatype LoginResponse = LoginResponse(success: bool, token: Option<string>, message: Option<string>, user: Option<UserInfo>)

  const CredentialsRequired := "Email and password are required"
  const LoginSucceeded := "Login successful"
  const InvalidCredentials := "Invalid email or password"
  const InternalError := "Internal server error"

  function LoginFailure(message: string): LoginResponse
  {
    LoginResponse(false, None, Some(message), None)
  }

  /** `LoginCommandHandler.Handle`: reads the documents and changes nothing. `verify` is
      BCrypt's check of a password against a stored hash and `jwt` the token signed
      for an email. An unknown email and a wrong password get the same answer. */
  function Login(docs: seq<User>, request: LoginCommand, verify: (string, string) -> bool, jwt: string -> string,
                 storeFails: bool): (r: LoginResponse)
    ensures request.email == "" || request.password == "" ==> r == LoginFailure(CredentialsRequired)
    ensures request.email != "" && request.password != "" && storeFails ==> r == LoginFailure(InternalError)
    ensures r.success <==>
              && request.email != "" && request.password != "" && !storeFails
              && var found := FindFirst(docs, ByEmail(request.email));
                 found.Some? && verify(request.password, found.value.password)
    ensures r.success ==> r == LoginResponse(true, Some(jwt(request.email)), Some(LoginSucceeded), Some(UserInfo(request.email)))
    ensures request.email != "" && request.password != "" && !storeFails && !r.success ==> r == LoginFailure(InvalidCredentials)
  {
    if request.email == "" || request.password == "" then LoginFailure(CredentialsRequired)
    else if storeFails then LoginFailure(InternalError)
    else
      var user := FindFirst(docs, ByEmail(request.email));
      if user.Some? && verify(request.password, user.value.password) then
        LoginResponse(true, Some(jwt(request.email)), Some(LoginSucceeded), Some(UserInfo(request.email)))
      else LoginFailure(InvalidCredentials)
  }

  /** While emails are unique, a login succeeds exactly when some user has the email and
      the password verifies against that user's stored hash. */
  lemma LoginSucceedsIffCredentialsMatch(docs: seq<User>, request: LoginCommand, verify: (string, string) -> bool,
                                         jwt: string -> string)
    requires UniqueEmails(docs)
    requires request.email != "" && request.password != ""
    ensures Login(docs, request, verify, jwt, false).success <==>
              exists i :: 0 <= i < |docs| && docs[i].email == request.email && verify(request.password, docs[i].password)
  {
    var found := FirstMatch(docs, ByEmail(request.email));
    if i :| 0 <= i < |docs| && docs[i].email == request.email && verify(request.password, docs[i].password) {
      assert found.Some?;
      assert found.value == i;
    }
  }
}
