/** The application's error taxonomy: the `AppError` base class and its
    subclasses, each reduced to the HTTP status code and message its
    constructor fixes. */
module Errors {
  import opened Wrappers

  /** One constructor per class; `AppError` itself is the base class built
      directly with a message and a status code. `UnauthorizedError` and
      `ExternalServiceError` take an optional message whose absence selects
      the constructor's default. */
  datatype AppError =
    | AppError(text: string, code: int)
    | ValidationError(detail: string)
    | NotFoundError(resource: string)
    | InsufficientFundsError
    | BlacklistError
    | UnauthorizedError(given: Option<string>)
    | ConflictError(detail: string)
    | ExternalServiceError(service: string, given: Option<string>)
    | UserAlreadyExistsError(email: string)
  {
    /** The `statusCode` the constructor passes to the base class. */
    function StatusCode(): (s: int)
      ensures !AppError? ==> 400 <= s < 500
      ensures s == 400 <==> (AppError? && code == 400) || ValidationError?
                            || InsufficientFundsError? || ExternalServiceError?
                            || UserAlreadyExistsError?
    {
      match this
      case AppError(_, c) => c
      case ValidationError(_) => 400
      case NotFoundError(_) => 404
      case InsufficientFundsError => 400
      case BlacklistError => 403
      case UnauthorizedError(_) => 401
      case ConflictError(_) => 409
      case ExternalServiceError(_, _) => 400
      case UserAlreadyExistsError(_) => 400
    }

    /** The `message` the constructor passes to the base class. */
    function Message(): string {
      match this
      case AppError(m, _) => m
      case ValidationError(m) => m
      case NotFoundError(r) => r + " not found"
      case InsufficientFundsError => "Insufficient funds"
      case BlacklistError => "User is blacklisted"
      case UnauthorizedError(m) => m.GetOr("Unauthorized access")
      case ConflictError(m) => m
      case ExternalServiceError(s, m) => s + ": " + m.GetOr("External service error")
      case UserAlreadyExistsError(e) => "User with email " + e + " already exists"
    }

    /** The message does not come verbatim from a caller-supplied string. */
    predicate HasFixedMessage() {
      || NotFoundError? || InsufficientFundsError? || BlacklistError?
      || (UnauthorizedError? && given.None?)
      || ExternalServiceError? || UserAlreadyExistsError?
    }
  }

  /** The status code and message each subclass constructor fixes. */
  lemma SubclassCatalogue(m: string, r: string, s: string, e: string)
    ensures ValidationError(m).StatusCode() == 400 && ValidationError(m).Message() == m
    ensures NotFoundError(r).StatusCode() == 404 && NotFoundError(r).Message() == r + " not found"
    ensures InsufficientFundsError.StatusCode() == 400
            && InsufficientFundsError.Message() == "Insufficient funds"
    ensures BlacklistError.StatusCode() == 403 && BlacklistError.Message() == "User is blacklisted"
    ensures UnauthorizedError(None).StatusCode() == 401
            && UnauthorizedError(None).Message() == "Unauthorized access"
            && UnauthorizedError(Some(m)).Message() == m
    ensures ConflictError(m).StatusCode() == 409 && ConflictError(m).Message() == m
    ensures ExternalServiceError(s, Some(m)).StatusCode() == 400
            && ExternalServiceError(s, Some(m)).Message() == s + ": " + m
            && ExternalServiceError(s, None).Message() == s + ": " + "External service error"
    ensures UserAlreadyExistsError(e).StatusCode() == 400
            && UserAlreadyExistsError(e).Message() == "User with email " + e + " already exists"
  {
  }

  /** The subclasses whose message does not come from the caller never
      produce an empty message. */
  lemma FixedMessagesNonEmpty(err: AppError)
    requires err.HasFixedMessage()
    ensures err.Message() != ""
  {
    match err
    case NotFoundError(r) => assert |err.Message()| == |r| + 10;
    case ExternalServiceError(s, m) => assert |err.Message()| >= 2;
    case UserAlreadyExistsError(e) => assert |err.Message()| >= 15;
    case _ =>
  }
}
