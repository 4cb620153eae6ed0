/**
  `LoginUserDto.create`: the guard chain that turns a raw request body into a
  login DTO, or into the message of the first guard that fails.
*/
module LoginUserDtos {
  import opened Wrappers

  const MissingEmail := "Missing email"
  const InvalidEmail := "email is not valid"
  const MissingPassword := "Missing password"
  const PasswordTooShort := "Password to short"

  /** The shortest password the guard chain accepts. */
  const MinPasswordLength := 6

  datatype LoginUserDto = LoginUserDto(email: string, password: string)

  /** The two fields of the request body the DTO reads; `None` is an absent field. */
  datatype LoginRequest = LoginRequest(email: Option<string>, password: Option<string>)

  /** The pair `[error?, dto?]` that `create` returns. */
  datatype CreateResult = CreateResult(error: Option<string>, dto: Option<LoginUserDto>)

  /** JavaScript truthiness of a field that is either absent or a string. */
  predicate Truthy(field: Option<string>)
  {
    field.Some? && field.value != ""
  }

  /** Whether every guard of `create` passes; `isEmail` is the e-mail regular expression. */
  predicate Acceptable(request: LoginRequest, isEmail: string -> bool)
  {
    && Truthy(request.email)
    && isEmail(request.email.value)
    && Truthy(request.password)
    && |request.password.value| >= MinPasswordLength
  }

  /**
    The guards run in source order (missing email, malformed email, missing
    password, short password) and the first that fails decides the message.
  */
  function Create(request: LoginRequest, isEmail: string -> bool): (r: CreateResult)
    ensures r.error.Some? != r.dto.Some?
    ensures r.dto.Some? <==> Acceptable(request, isEmail)
    ensures r.dto.Some? ==> r.dto.value == LoginUserDto(request.email.value, request.password.value)
    ensures !Truthy(request.email) ==> r.error == Some(MissingEmail)
    ensures Truthy(request.email) && !isEmail(request.email.value) ==> r.error == Some(InvalidEmail)
    ensures Truthy(request.email) && isEmail(request.email.value) && !Truthy(request.password) ==>
              r.error == Some(MissingPassword)
    ensures (Truthy(request.email) && isEmail(request.email.value) && Truthy(request.password)
             && |request.password.value| < MinPasswordLength) ==> r.error == Some(PasswordTooShort)
  {
    if !Truthy(request.email) then CreateResult(Some(MissingEmail), None)
    else if !isEmail(request.email.value) then CreateResult(Some(InvalidEmail), None)
    else if !Truthy(request.password) then CreateResult(Some(MissingPassword), None)
    else if |request.password.value| < MinPasswordLength then CreateResult(Some(PasswordTooShort), None)
    else CreateResult(None, Some(LoginUserDto(request.email.value, request.password.value)))
  }

  /** Every error `create` reports is one of the four guard messages. */
  lemma ErrorIsAGuardMessage(request: LoginRequest, isEmail: string -> bool)
    ensures Create(request, isEmail).error.Some? ==>
              Create(request, isEmail).error.value in {MissingEmail, InvalidEmail, MissingPassword, PasswordTooShort}
  {
  }

  /** The length guard sits exactly between five and six characters. */
  lemma PasswordLengthBoundary(email: string, six: string, five: string, isEmail: string -> bool)
    requires email != "" && isEmail(email)
    requires |six| == 6 && |five| == 5
    ensures Create(LoginRequest(Some(email), Some(six)), isEmail).dto == Some(LoginUserDto(email, six))
    ensures Create(LoginRequest(Some(email), Some(five)), isEmail).error == Some(PasswordTooShort)
  {
  }
}
