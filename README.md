# realtime-chat, modelled in Dafny

This project models the core of a real-time chat backend written in C# on
ASP.NET Core:

- the SignalR chat hub, with its connections, groups and the events each
  connection is sent;
- the bridge to the Gemini answering service, and the controller in front of it;
- the MediatR handlers and the REST controller over the `User` collection of
  the document store;
- the two authentication gates: the hard-wired login action and the
  bearer-header middleware.

Everything is sequential, one call at a time. The document store is an
in-memory sequence of users. Collaborators whose code is not part of the core
are parameters:

- the HTTP call to Gemini: a function from the prompt to the reply;
- BCrypt hashing and verification;
- JWT signing;
- a store call that throws: the `storeFails` flag.

Modules, one per source file, plus three shared helpers:

| module | file | models |
|---|---|---|
| `Hub` | chat_hub.dfy | `Hubs/ChatHub.cs` |
| `Gemini` | gemini_service.dfy | `Services/GeminiAiService.cs`, `models/AiRequest.cs`, `models/AiResponse.cs`, `Settings/GeminiSettings.cs` |
| `AiApi` | ai_controller.dfy | `Controllers/AiController.cs` |
| `UserStore` | user_store.dfy | the `User` collection that the handlers and `UsersController` use |
| `UserCommands` | user_commands.dfy | `Handlers/Commands/*` |
| `UserQueries` | user_queries.dfy | `Handlers/Queries/*` |
| `UsersApi` | users_controller.dfy | `Controllers/UsersController.cs` |
| `AuthApi` | auth_controller.dfy | `Controllers/AuthController.cs` (the `Login` action) |
| `AuthGate` | auth_middleware.dfy | `Middlewares/AuthMiddleware.cs` |
| `Wrappers`, `Http`, `Decimal` | wrappers.dfy, http.dfy, decimal.dfy | nullable values and thrown exceptions, HTTP results, `int` rendered as decimal text |

## The hub

`Hub.ChatHub` is a class with three fields:

- `identities`: each registered connection and its identity name. The name is
  `None` when `Context.User?.Identity?.Name` is null.
- `groups`: each group name and the set of its members.
- `outboxes`: each connection's queue of events, oldest first.

`Valid()` holds three invariants:

- every connection has exactly one outbox;
- groups contain only registered connections;
- no group is empty.

Every hub method keeps `Valid()`. So the group invariant survives a disconnect,
because the framework's cleanup takes the connection out of every group.

The model follows SignalR's order of events:

- A new connection is registered before `OnConnectedAsync` runs, so it receives
  its own `UserConnected`.
- `OnDisconnectedAsync` runs before the cleanup, so the `UserDisconnected` event
  is queued for everyone. The leaver's queue is then dropped along with the
  connection.
- `JoinGroup` adds the caller before it notifies the group, so the joiner is
  told too.
- `LeaveGroup` removes the caller before it notifies the group, so the leaver is
  not told.

Facts about the code that shape the model:

- The hub has no method that forwards a question to the answering service.
  Questions reach it only through `AiController`.
- `JoinGroup` and `LeaveGroup` pass the raw identity name, which may be null,
  without the `"Anonymous"` fallback. So `UserJoined` and `UserLeft` carry an
  `Option<string>`.
- A second `JoinGroup` leaves the membership unchanged but sends `UserJoined`
  again.
- `LeaveGroup` from a group the caller is not in still sends `UserLeft` to that
  group's members.
- Hub methods check no connection state. SignalR gives each connection a fresh
  id and runs a hub method only for the connection that called it. The
  methods' `requires` clauses say exactly that.

## The user collection

`UserStore.Collection` holds the documents in insertion order. Its invariant
is that every id is non-empty and no two documents share an id. The store's
writes behave as follows:

- An insert gives a document without an id a fresh generated one.
- Inserting an id that is already used is a duplicate-key error.
- A replacement is written with its own id as the document's `_id`, which may
  not change. A replacement whose id differs from the matched document's, an
  empty id included, is a write error.
- `DeleteOne` removes the first match, and the other documents keep their
  order.

The create, update and delete handlers each have a reference function:
`CreateUser`, `UpdateUser` and `DeleteUser`. The handler class's `Handle`
makes the store calls and is proved to give the same documents and response
as that function.

The C# `CreateUserCommand` (Handlers/Commands/CreateUserCommand.cs) has no
`Password` property, yet the handler hashes `request.Password`. The model
therefore passes the password beside the command.

The update handler does not check that the new email is unused. The lemma
`UpdateMayDuplicateEmails` gives a table where an update leaves two users with
one email.

The source files of `models/User.cs` and of the `LoginRequest` model are not
available. `UserStore.User` and `AuthApi.LoginRequest` model them here. The
user fields (`Id`, `Name`, `Email`, `Password`, all strings that default to
empty) are inferred from how the core uses them.

## Model

| member | source | states |
|---|---|---|
| `Hub.SenderName` | Hubs/ChatHub.cs:12 | the sender attribution is the identity name, or "Anonymous" when there is none |
| `Hub.AddToGroup` | Hubs/ChatHub.cs:18 | after the add the connection is in the group; no other group changes; adding a current member changes nothing (membership is a set); no group becomes empty |
| `Hub.RemoveFromGroup` | Hubs/ChatHub.cs:24 | after the remove the connection is not in the group; no other group changes; removing a non-member changes nothing; an emptied group is dropped |
| `Hub.RemoveFromAllGroups` | Hubs/ChatHub.cs:41-46 | the framework's cleanup after a disconnect removes the connection from every group and changes no other membership |
| `Hub.MembershipFollowsLastCall` | Hubs/ChatHub.cs:16-26 | over any sequence of joins and leaves by one connection, it ends in a group exactly when its last call on that group was a join, or, with no call on the group, when it started there; other connections' membership never changes |
| `Hub.ChatHub.SendMessage` | Hubs/ChatHub.cs:10-14 | every registered connection, the sender included, gets exactly one `ReceiveMessage(sender, message)`; membership is unchanged |
| `Hub.ChatHub.JoinGroup` | Hubs/ChatHub.cs:16-20 | afterwards the caller is in the group, and every member, the joiner included, gets exactly one `UserJoined(name, group)`; non-members get nothing; the invariant holds |
| `Hub.ChatHub.LeaveGroup` | Hubs/ChatHub.cs:22-26 | afterwards the caller is not in the group; only the remaining members get `UserLeft(name, group)` and the leaver gets nothing; leaving a group one is not in leaves membership unchanged |
| `Hub.ChatHub.SendMessageToGroup` | Hubs/ChatHub.cs:28-32 | only the group's current members get `ReceiveGroupMessage(sender, group, message)`; other outboxes are unchanged; an empty or unknown group changes no outbox |
| `Hub.ChatHub.OnConnectedAsync` | Hubs/ChatHub.cs:34-39 | the connection becomes registered with its identity and an outbox holding only its own `UserConnected(name)`; every other connection gets one `UserConnected(name)` |
| `Hub.ChatHub.OnDisconnectedAsync` | Hubs/ChatHub.cs:41-46 | every remaining connection gets one `UserDisconnected(name)`; the connection is then in no group and not registered; groups stay within the registered connections |
| `Gemini.NewGeminiAiService` | Services/GeminiAiService.cs:18-27 | construction fails with "Gemini API key is not configured" exactly when the key is empty, and otherwise keeps the settings |
| `Gemini.BuildPrompt` | Services/GeminiAiService.cs:65-86 | the prompt starts with the base instruction and ends with "\n\nQuestion: " + question; the directive chosen by `RequireAnswer` comes just before the question; the context block follows the base instruction exactly when the context is non-empty, and the length accounts for those parts alone |
| `Gemini.DirectiveDistinguishesPrompts` | Services/GeminiAiService.cs:74-81 | flipping `RequireAnswer` always changes the prompt |
| `Gemini.CallGeminiApi` | Services/GeminiAiService.cs:88-124 | a 2xx reply succeeds with the first candidate's text, or with "No response generated" when it has none; a non-success status fails with "Gemini API error: status - body"; an exception from the call (transport failure, timeout) fails with its own message |
| `Gemini.GetAnswer` | Services/GeminiAiService.cs:29-63 | an empty question gives failure "Question cannot be empty" whatever the service would reply; success holds exactly when the question is non-empty and the call replied; a success carries the answer and the model name; every failed call gives "AI service error: " + its message and no answer; it never throws |
| `AiApi.Respond` | Controllers/AiController.cs:41-61 | a successful service response maps to Ok with answer, `success = true` and model; an unsuccessful one maps to BadRequest with the service's error and `success = false`; a service throw maps to 500 "Internal server error" |
| `AiApi.AskQuestion` | Controllers/AiController.cs:21-63 | a missing body gives BadRequest "Request body is required" and an empty question gives "Question is required", neither consulting the service; otherwise the service gets the request with `UserId` set to the authenticated name |
| `AiApi.AskQuestionPublic` | Controllers/AiController.cs:65-104 | the same two refusals; otherwise the service gets the request unchanged |
| `AiApi.GeminiBackedActions` | Controllers/AiController.cs:36-56 | with the Gemini service behind them, both actions give the same result (setting `UserId` does not change the outcome), never a 500, and Ok exactly when the question is non-empty and the external call replied |
| `UserStore.FirstMatch` | Handlers/Queries/GetUserByIdQueryHandler.cs:21 | the position found is the first document matching the filter; there is none exactly when no document matches |
| `UserStore.FindFirst` | Handlers/Commands/LoginCommandHandler.cs:37 | `Find(filter).FirstOrDefault()` is null exactly when nothing matches, and otherwise a matching document of the collection |
| `UserStore.FindAll` | Handlers/Queries/GetAllUsersQueryHandler.cs:21 | the listed documents are exactly the matching ones; with the match-all filter, the whole collection in order |
| `UserStore.Collection.InsertOne` | Handlers/Commands/CreateUserCommandHandler.cs:49 | the document, with a generated id if it had none, is appended unless its id is taken; a taken id changes nothing; ids stay unique |
| `UserStore.Collection.ReplaceOne` | Handlers/Commands/UpdateUserCommandHandler.cs:37 | no match gives count 0 and no change; otherwise the first match is replaced when the replacement carries the match's id, and the write fails with no change when it carries any other id, an empty one included |
| `UserStore.Collection.DeleteOne` | Handlers/Commands/DeleteUserCommandHandler.cs:21 | no match gives count 0 and no change; otherwise exactly the first match is removed and the rest keep their order |
| `UserCommands.CreateUser` | Handlers/Commands/CreateUserCommandHandler.cs:18-67 | validation comes first ("Name and email are required"); `storeFails` stands for either store call throwing, the email lookup or the insert, and gives "Failed to create user"; an email already in use gives "User with this email already exists"; each failure leaves the table unchanged; success holds exactly when all three checks pass, and then appends exactly one user with the name, the email and the hash of the password, and returns it with "User created successfully" |
| `UserCommands.CreateKeepsEmailsUnique` | Handlers/Commands/CreateUserCommandHandler.cs:32-49 | if emails are unique before a create, they are unique after it |
| `UserCommands.CreateUserCommandHandler.Handle` | Handlers/Commands/CreateUserCommandHandler.cs:18-67 | the store calls leave exactly the documents and response `CreateUser` gives; ids stay unique |
| `UserCommands.UpdateUser` | Handlers/Commands/UpdateUserCommandHandler.cs:17-64 | validation comes first; a store failure gives "Failed to update user" and an unknown id gives "User not found", each leaving the table unchanged; on success the record with the id becomes `{Id, Name, Email}` with the default password; the returned user and "User updated successfully" match; records with other ids and the table length are unchanged |
| `UserCommands.UpdateMayDuplicateEmails` | Handlers/Commands/UpdateUserCommandHandler.cs:30-37 | an update can give two users the same email: the handler does not check uniqueness |
| `UserCommands.UpdateUserCommandHandler.Handle` | Handlers/Commands/UpdateUserCommandHandler.cs:17-64 | the store calls leave exactly the documents and response `UpdateUser` gives |
| `UserCommands.DeleteUser` | Handlers/Commands/DeleteUserCommandHandler.cs:17-47 | a store failure gives "Failed to delete user" and an unknown id gives "User not found", each leaving the table unchanged; otherwise one record with the id is removed, the rest keep their order, and the result is "User deleted successfully" |
| `UserCommands.DeleteRemovesTheUser` | Handlers/Commands/DeleteUserCommandHandler.cs:21-36 | with unique ids, no record with the id is left exactly when the store was reachable or no record had the id to begin with |
| `UserCommands.DeleteUserCommandHandler.Handle` | Handlers/Commands/DeleteUserCommandHandler.cs:17-47 | the store calls leave exactly the documents and response `DeleteUser` gives |
| `UserCommands.Login` | Handlers/Commands/LoginCommandHandler.cs:20-68 | an empty email or password gives "Email and password are required" before the table is read; a store failure gives "Internal server error"; success holds exactly when the first user with the email verifies the password, and then carries the token for the email, "Login successful" and the request email; every other case gives "Invalid email or password"; the table is only read |
| `UserCommands.LoginSucceedsIffCredentialsMatch` | Handlers/Commands/LoginCommandHandler.cs:37-38 | while emails are unique, login succeeds exactly when some user has the email and the password verifies against that user's hash |
| `UserQueries.GetUserById` | Handlers/Queries/GetUserByIdQueryHandler.cs:17-48 | a store failure gives "Failed to retrieve user"; an unknown id gives failure "User not found" with no user; otherwise success, "User found" and a document with the id |
| `UserQueries.GetUserByIdFindsTheUser` | Handlers/Queries/GetUserByIdQueryHandler.cs:21-37 | with unique ids, the user found is the one record that carries the id |
| `UserQueries.GetAllUsers` | Handlers/Queries/GetAllUsersQueryHandler.cs:17-39 | a store failure gives failure "Failed to retrieve users"; otherwise success with every record in order and "Found N users" where N is the number of records |
| `UserQueries.CountMessageMatchesList` | Handlers/Queries/GetAllUsersQueryHandler.cs:27 | the number written in the message reads back as the length of the returned list |
| `Decimal.NatToString` | Handlers/Queries/GetAllUsersQueryHandler.cs:27 | a count is written as a non-empty string of decimal digits with no leading zero |
| `Decimal.NatToStringRoundTrip` | Handlers/Queries/GetAllUsersQueryHandler.cs:27 | reading the written digits back gives the count again |
| `UsersApi.UsersController.GetAll` | Controllers/UsersController.cs:17-21 | Ok with the whole collection, unchanged and in order |
| `UsersApi.UsersController.GetById` | Controllers/UsersController.cs:24-29 | NotFound exactly when no record has the id; otherwise Ok with a record of the collection that has the id |
| `UsersApi.UsersController.Create` | Controllers/UsersController.cs:32-36 | the user is appended as given, with no validation or email check, and returned with Created; an id already in use is a store error (500) that changes nothing |
| `UsersApi.UsersController.Update` | Controllers/UsersController.cs:39-44 | NotFound, with the table unchanged, exactly when no id matches; otherwise a body carrying the same id replaces the match and the result is NoContent, and a body with any other id, an empty one included, is a store error (500) that changes nothing |
| `UsersApi.UsersController.Delete` | Controllers/UsersController.cs:47-52 | NotFound exactly when nothing was deleted; otherwise exactly the matching record is gone, the others keep their order, and no record with the id remains |
| `AuthApi.Login` | Controllers/AuthController.cs:29-68 | the checks run in order: body, then email, then password, and the first failure decides the BadRequest text; Ok holds exactly for "admin@test.com" / "123456" (with a signed token), echoing the email with "Login successful"; any other non-empty pair gives Unauthorized "Invalid email or password"; a signing exception gives 500 |
| `AuthGate.AdmitsOnlyTheExactToken` | Middlewares/AuthMiddleware.cs:18-20 | the header text (`StringValues.ToString()`, which joins the non-empty values with commas) passes the test exactly when "Bearer my-secret-token" is the only non-empty `Authorization` value; a missing header, only empty values, a different value, or the token beside another non-empty value fails; empty values beside the token are ignored |
| `AuthGate.AuthMiddleware.InvokeAsync` | Middlewares/AuthMiddleware.cs:15-29 | a refused request gets status 401 and the body "Unauthorized", and the next delegate does not run; an admitted one runs the next delegate exactly once, with status and body untouched |

## Left out

- Async and await, SignalR transport delivery, concurrency, per-key locking and timeouts: the model runs one call at a time. A timeout of the Gemini call is one more `Threw` reply.
- The HTTP request that `CallGeminiApiAsync` builds is not modelled: URL, API key, JSON body, `Temperature` and `MaxTokens`. Only its outcome is: a reply with or without text, a non-success status, or a throw.
- Timestamps (`AiResponse.Timestamp`, `DateTime.UtcNow`) and the floating-point `Temperature`.
- JWT creation (`GenerateJwtToken`, `GenerateSimpleJwtToken`): the token is an opaque string from a parameter. The unused `AuthController.GenerateJwtToken`, `GetCurrentUser`, `Test` and `AiController.HealthCheck` are not modelled: they are library claims handling or constant replies.
- BCrypt: `HashPassword` and `Verify` are function parameters with no properties.
- `Console.WriteLine` logging.
- `Program.cs`, the extension classes and `MongoCollectionService`: these are dependency-injection wiring and a driver wrapper; the collection is modelled in memory. `HelloController` is a one-line echo.
- AiApi.AskQuestion: the C# code assigns `request.UserId` on the request object. The model passes an updated copy to the service instead, since nothing reads the request object afterwards.
- UserCommands.Login: `storeFails` is the only exception input. A throw from `BCrypt.Verify` on a malformed hash, or from token signing, gives the same "Internal server error" response but is not a separate input.
- UsersApi.UsersController: store exceptions other than a duplicate id on insert, or a replacement that changes the id, are not modelled. The framework's error body for a 500 is not modelled either.
- UserStore.Collection.ReplaceOne and UsersApi.UsersController.Update assume that the driver writes the replacement's `Id` as its `_id` unchanged. The source of `models/User.cs` is not available. A class map that left out an empty id would instead keep the matched id and answer NoContent.
- The bodies of the error responses are modelled only as far as the controllers build them. ASP.NET's own serialisation and problem details are left out.
