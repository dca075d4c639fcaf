/** `AuthMiddleware`: lets a request through only when its `Authorization`
    header text is exactly the configured bearer token. */
module AuthGate {
  import opened Http

  const ExpectedAuthorization := "Bearer my-secret-token"
  const UnauthorizedText := "Unauthorized"

  /** The values that are not empty, in their order. */
  function NonEmptyValues(values: seq<string>): (r: seq<string>)
    ensures forall v :: v in r <==> v in values && v != ""
    ensures |values| == 1 ==> r == if values[0] == "" then [] else values
    decreases |values|
  {
    if |values| == 0 then []
    else (if values[0] == "" then [] else [values[0]]) + NonEmptyValues(values[1..])
  }

  /** The values separated by commas. */
  function JoinWithCommas(values: seq<string>): string
    decreases |values|
  {
    if |values| == 0 then ""
    else if |values| == 1 then values[0]
    else values[0] + "," + JoinWithCommas(values[1..])
  }

  /** `Headers["Authorization"].ToString()`, that is `StringValues.ToString()`: "" for a
      missing header, the value itself for one, and for several the non-empty values
      joined by commas (empty ones are skipped). */
  function HeaderText(values: seq<string>): string
  {
    if |values| == 1 then values[0] else JoinWithCommas(NonEmptyValues(values))
  }

  /** The middleware's test: not null-or-empty, and equal to the expected token. */
  predicate Admits(values: seq<string>)
  {
    var token := HeaderText(values);
    !(token == "" || token != ExpectedAuthorization)
  }

  /** The token, with no comma in it, passes exactly when it is the only non-empty
      header value: a missing header, only empty values, any other value, or the token
      alongside another non-empty value is refused; empty values beside it are ignored. */
  lemma AdmitsOnlyTheExactToken(values: seq<string>)
    ensures Admits(values) <==> NonEmptyValues(values) == [ExpectedAuthorization]
  {
    var kept := NonEmptyValues(values);
    if |values| != 1 && |kept| >= 2 {
      var text := JoinWithCommas(kept);
      assert text == kept[0] + "," + JoinWithCommas(kept[1..]);
      assert text[|kept[0]|] == ',';
      assert forall k :: 0 <= k < |ExpectedAuthorization| ==> ExpectedAuthorization[k] != ',';
    }
  }

  /** The parts of `HttpContext` the middleware touches. */
  class HttpContext {
    /** The request's `Authorization` header values. */
    var authorization: seq<string>
    var statusCode: int
    /** What has been written to the response body. */
    var responseBody: string
    /** How many times the rest of the pipeline (`_next`) has run on this request. */
    var nextCalls: nat

    constructor (authorization: seq<string>)
      ensures this.authorization == authorization
      ensures statusCode == OkStatus && responseBody == "" && nextCalls == 0
    {
      this.authorization := authorization;
      statusCode, responseBody, nextCalls := OkStatus, "", 0;
    }
  }

  class AuthMiddleware {
    constructor ()
    {
    }

    /** A refused request gets status 401 and the body "Unauthorized" and goes no further;
        an admitted one runs the next delegate once with the status untouched. */
    method InvokeAsync(context: HttpContext)
      modifies context
      ensures context.authorization == old(context.authorization)
      ensures Admits(context.authorization) ==>
                && context.nextCalls == old(context.nextCalls) + 1
                && context.statusCode == old(context.statusCode)
                && context.responseBody == old(context.responseBody)
      ensures !Admits(context.authorization) ==>
                && context.nextCalls == old(context.nextCalls)
                && context.statusCode == UnauthorizedStatus
                && context.responseBody == old(context.responseBody) + UnauthorizedText
    {
      var token := HeaderText(context.authorization);
      if token == "" || token != ExpectedAuthorization {
        context.statusCode := UnauthorizedStatus;
        context.responseBody := context.responseBody + UnauthorizedText;
        return;
      }
      context.nextCalls := context.nextCalls + 1;
    }
  }
}
