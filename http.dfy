/** The JSON responses the route handlers return: a status code and either a body or an error message. */
module Http {

  datatype Error = Error(status: nat, message: string)

  datatype Response<+T> = Ok(status: nat, body: T) | Fail(error: Error) {
    function Status(): nat {
      if Ok? then status else error.status
    }
  }

  const Unauthorized := Error(401, "Unauthorized")
  const Forbidden := Error(403, "Forbidden")
  const InternalError := Error(500, "Internal server error")
}
