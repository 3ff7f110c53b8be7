/** What a client sees for a missing id: the not-found handler applied to the service's error. */
module NotFoundAnswer {
  import opened Exceptions
  import opened ExceptionHandler
  import opened Service

  /** A lookup of a missing id is answered 404 with the message naming that id. */
  lemma MissingIdAnswer(service: EmployeeService, id: int)
    requires service.repo.Valid() && id !in service.repo.rows
    ensures service.GetEmployeeId(id).Failure?
    ensures HandleUserNotFoundException(service.GetEmployeeId(id).error)
         == ErrorResponse(NOT_FOUND, NotFoundMessage(id))
  {
  }
}
