/** The exceptions the service lets escape to its caller. */
module Exceptions {
  import opened Decimal

  /**
   * UserNotFoundException (raised by the service for a missing id), and the store's
   * DataIntegrityViolationException (a null or duplicate email on save).
   */
  datatype ServiceException =
    | UserNotFound(message: string)
    | DataIntegrityViolation

  const NOT_FOUND_PREFIX := "Employee not found with id: "

  /** The message of the not-found error for `id`: the fixed prefix, then the id in decimal. */
  function NotFoundMessage(id: int): (m: string)
    ensures |m| > |NOT_FOUND_PREFIX| && m[..|NOT_FOUND_PREFIX|] == NOT_FOUND_PREFIX
    ensures m[|NOT_FOUND_PREFIX|..] == LongToString(id)
  {
    NOT_FOUND_PREFIX + LongToString(id)
  }

  /** The message names the id: different ids give different messages. */
  lemma NotFoundMessageIdentifiesId(a: int, b: int)
    requires NotFoundMessage(a) == NotFoundMessage(b)
    ensures a == b
  {
    LongToStringInjective(a, b);
  }

  /** The message for id 999 is "Employee not found with id: 999". */
  lemma NotFoundMessageExample()
    ensures NotFoundMessage(999) == "Employee not found with id: 999"
  {
  }
}
