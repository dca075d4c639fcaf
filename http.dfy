/** HTTP results as the controllers return them: a status code and a body. */
module Http {

  const OkStatus: nat := 200
  const CreatedStatus: nat := 201
  const NoContentStatus: nat := 204
  const BadRequestStatus: nat := 400
  const UnauthorizedStatus: nat := 401
  const NotFoundStatus: nat := 404
  const ServerErrorStatus: nat := 500

  datatype Response<+B> = Response(status: nat, body: B)
}
