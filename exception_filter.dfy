/** The catch-all exception filter of the backend
    (backend/src/filters/all-exceptions.filter.ts): the status code and
    message chosen for an exception, and the reply built from them.  Status
    codes are those of section 15 of RFC 9110. */
module ExceptionFilter {
  const BadRequest: int := 400          // section 15.5.1
  const NotFound: int := 404            // section 15.5.5
  const Conflict: int := 409            // section 15.5.10
  const InternalServerError: int := 500 // section 15.6.1

  /** What reaches the filter: a Nest `HttpException` with its own status and
      message, a Prisma known-request error with its error code, or anything
      else. */
  datatype Exception =
    | HttpException(status: int, message: string)
    | PrismaKnownRequestError(code: string)
    | OtherException

  datatype Classified = Classified(statusCode: int, message: string)

  /** The response body; the timestamp and the request path are inputs. */
  datatype Body = Body(statusCode: int, timestamp: string, path: string, message: string)

  datatype Reply = Reply(body: Body, status: int)

  /** The status and message the filter picks (lines 22-41). */
  function Classify(e: Exception): (c: Classified)
    ensures e.HttpException? ==> c == Classified(e.status, e.message)
    ensures e.PrismaKnownRequestError? && e.code == "P2002" ==> c == Classified(Conflict, "Unique constraint violation")
    ensures e.PrismaKnownRequestError? && e.code == "P2025" ==> c == Classified(NotFound, "Record not found")
    ensures e.PrismaKnownRequestError? && e.code != "P2002" && e.code != "P2025" ==> c == Classified(BadRequest, "Database error")
    ensures e.OtherException? ==> c == Classified(InternalServerError, "Internal server error")
  {
    // the values `statusCode` and `message` start from
    var initial := Classified(InternalServerError, "Internal server error");
    match e
    case HttpException(status, message) => Classified(status, message)
    case PrismaKnownRequestError(code) =>
      if code == "P2002" then Classified(Conflict, "Unique constraint violation")
      else if code == "P2025" then Classified(NotFound, "Record not found")
      else Classified(BadRequest, "Database error")
    case OtherException => initial
  }

  /** `catch`: build the body and reply with the same status code. */
  function Catch(e: Exception, timestamp: string, path: string): (r: Reply)
    ensures r.status == r.body.statusCode == Classify(e).statusCode
    ensures r.body.message == Classify(e).message
    ensures r.body.timestamp == timestamp && r.body.path == path
  {
    var c := Classify(e);
    Reply(Body(c.statusCode, timestamp, path, c.message), c.statusCode)
  }

  /** Only an `HttpException` can produce a status outside 400, 404, 409
      and 500; the database errors are always client errors. */
  lemma DatabaseErrorsAreClientErrors(code: string)
    ensures 400 <= Classify(PrismaKnownRequestError(code)).statusCode < 500
  {
  }
}
