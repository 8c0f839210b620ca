// The exceptions the identity service's operations end with, by kind.
// Every kind is an unchecked exception, so a transactional operation that
// ends with one rolls its writes back unless told otherwise.

module ServiceErrors {
  datatype Failure =
    | BadRequest(message: string)       // BadRequestException
    | IllegalArgument(message: string)  // IllegalArgumentException
    | Jwt(message: string)              // JwtException and its subclasses
    | DataAccess(message: string)       // a database constraint or query failure
    | UnexpectedRollback                // commit of a transaction marked rollback-only
}
