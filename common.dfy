/** Types shared by every part of the model: row identifiers, instants, the
    optional and result wrappers, the exceptions the services throw, and the
    profile roles. */
module Common {

  /** A row identifier. The Java code types ids as Integer, String or UUID in
      different places; the model uses one type and only compares ids and asks
      the table for fresh ones. */
  type Id = nat

  /** A reading of the clock (`LocalDateTime.now()`, `new Date()`,
      `System.currentTimeMillis()`), always passed in by the caller, in
      milliseconds. */
  type Instant = int

  datatype Option<+T> = None | Some(value: T)

  /** The exceptions that leave a service method. The first six are the
      application's own exception classes; `IntegrityViolation` is a
      `DataIntegrityViolationException` that nothing catches, and `Runtime`
      names an unchecked JDK exception (a null dereference, a failed enum
      lookup) that escapes. */
  datatype Error =
    | NotFound(message: string)        // ItemNotFoundException
    | Forbidden(message: string)       // AppForbiddenException
    | BadRequest(message: string)      // AppBadRequestException
    | AlreadyExists(message: string)   // ItemAlreadyExistsException
    | NotAcceptable(message: string)   // AppNotAcceptableException
    | TokenNotValid(message: string)   // TokenNotValidException
    | IntegrityViolation               // DataIntegrityViolationException
    | Runtime(exception: string)       // NullPointerException, EntityNotFoundException, ...

  datatype Result<+T> = Ok(value: T) | Err(error: Error)

  const NullPointer := Runtime("NullPointerException")

  /** What touching a lazy many-to-one or one-to-one join throws when the
      joined row does not exist: Hibernate hands out a proxy, never null, and
      the proxy fails on first use. */
  const EntityNotFound := Runtime("EntityNotFoundException")

  /** What every service throws when the caller does not own the entity it
      tries to change. */
  const NotAccess := Forbidden("Not access!")

  /** ProfileRole: the constants the source refers to. */
  datatype Role = ADMIN | USER
}
