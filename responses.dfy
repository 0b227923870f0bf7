/** The response messages and HTTP status codes the authentication core throws
    (src/utils/enum/index.ts), and the failures an operation can end with. */
module Responses {

  /** The members of `ResponseMessage` that the core uses. */
  datatype ResponseMessage =
    | EmailLinkExpired
    | InvalidUsernameOrPassword
    | UserAlreadyExists
    | EmailNotRegistered
    | TwoFactorDisabled
    | Invalid2FACode
    | InvalidEmail
    | InvalidPassword
    | ResetPasswordLinkExpired
    | UserDoesNotExist
  {
    /** The text each constant stands for, spelling included. */
    function Text(): string
    {
      match this
      case EmailLinkExpired => "This email link has been expired"
      case InvalidUsernameOrPassword => "Invalid email or password"
      case UserAlreadyExists => "User with the same email already exists"
      case EmailNotRegistered => "Email not registered"
      case TwoFactorDisabled => "Please Enable Two Factor Authentication First"
      case Invalid2FACode => "2FA Code Is Invalid"
      case InvalidEmail => "Invalid email address"
      case InvalidPassword => "Invalid Password. Use min 8 characters with a mix of letters, numbers & symbols"
      case ResetPasswordLinkExpired => "This Reset Password Link Has Been Expied"
      case UserDoesNotExist => "User with specified email does not exists"
    }
  }

  /** The members of `ResponseCode` that the core uses. */
  datatype ResponseCode = BadRequest | NotFound
  {
    function Value(): nat
    {
      match this
      case BadRequest => 400
      case NotFound => 404
    }
  }

  /** How an operation fails: an `HttpException` with a fixed message and code,
      or an error raised by the database itself (a rejected insert). */
  datatype Error =
    | HttpException(message: ResponseMessage, code: ResponseCode)
    | QueryFailed
}
