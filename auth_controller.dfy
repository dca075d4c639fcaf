/** `AuthController.Login`: a chain of early returns over the request, with the
    demonstration account hard-wired. Token signing is a parameter that yields
    the token, or the message of the exception it threw. */
module AuthApi {
  import opened Wrappers
  import opened Http

  datatype LoginRequest = LoginRequest(email: Option<string>, password: Option<string>)

  datatype AuthBody =
    | Text(text: string)
    | MessageBody(message: string)
    | LoginOk(token: string, message: string, email: string)
    | ServerErrorBody(message: string, error: string)

  const AdminEmail := "admin@test.com"
  const AdminPassword := "123456"
  const BodyRequired := "Request body is required"
  const EmailRequired := "Email is required"
  const PasswordRequired := "Password is required"
  const LoginSucceeded := "Login successful"
  const InvalidCredentials := "Invalid email or password"
  const InternalError := "Internal server error"

  /** The first failing check (body, then email, then password) decides the BadRequest;
      only the demonstration account gets a token; a signing failure is a 500. */
  function Login(request: Option<LoginRequest>, sign: string -> Result<string, string>): (r: Response<AuthBody>)
    ensures request.None? ==> r == Response(BadRequestStatus, Text(BodyRequired))
    ensures request.Some? && NullOrEmpty(request.value.email) ==> r == Response(BadRequestStatus, Text(EmailRequired))
    ensures request.Some? && !NullOrEmpty(request.value.email) && NullOrEmpty(request.value.password) ==>
              r == Response(BadRequestStatus, Text(PasswordRequired))
    ensures r.status == OkStatus <==>
              request.Some? && request.value.email == Some(AdminEmail) && request.value.password == Some(AdminPassword)
              && sign(AdminEmail).Success?
    ensures r.status == OkStatus ==>
              r.body == LoginOk(sign(AdminEmail).value, LoginSucceeded, request.value.email.value)
    ensures request.Some? && !NullOrEmpty(request.value.email) && !NullOrEmpty(request.value.password)
            && !(request.value.email == Some(AdminEmail) && request.value.password == Some(AdminPassword)) ==>
              r == Response(UnauthorizedStatus, MessageBody(InvalidCredentials))
    ensures request.Some? && request.value.email == Some(AdminEmail) && request.value.password == Some(AdminPassword)
            && sign(AdminEmail).Failure? ==>
              r == Response(ServerErrorStatus, ServerErrorBody(InternalError, sign(AdminEmail).error))
  {
    if request.None? then Response(BadRequestStatus, Text(BodyRequired))
    else if NullOrEmpty(request.value.email) then Response(BadRequestStatus, Text(EmailRequired))
    else if NullOrEmpty(request.value.password) then Response(BadRequestStatus, Text(PasswordRequired))
    else
      var email := request.value.email.value;
      if email == AdminEmail && request.value.password.value == AdminPassword then
        match sign(email)
        case Success(token) => Response(OkStatus, LoginOk(token, LoginSucceeded, email))
        case Failure(message) => Response(ServerErrorStatus, ServerErrorBody(InternalError, message))
      else Response(UnauthorizedStatus, MessageBody(InvalidCredentials))
  }
}
