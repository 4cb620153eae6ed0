/**
  `AuthService`: registration, login and e-mail validation over the user
  collection, which is kept here as a table keyed by e-mail address.

  The foreign libraries are injected: bcrypt (`hash`, `compare`), the JWT codec
  (`generateToken`, `validateToken`) and the e-mail service (`sendEmail`) are
  function-valued constants, so the model assumes nothing about them beyond
  their types.
*/
module Auth {
  import opened Wrappers
  import opened Errors
  import opened LoginUserDtos

  const EmailAlreadyExists := "Email already exits"
  const EmailNotFound := "Email not exits"
  const InvalidPassword := "invalid password"
  const JwtCreationFailed := "Error while creating JWT"
  const MailTokenFailed := "Error getting token"
  const MailNotSent := "Error sending Email"
  const InvalidToken := "Invalid token"
  const EmailNotInToken := "Email not in token"
  const EmailNotExist := "Email not exist"
  const ValidationSubject := "validate your email"

  type Token = string

  /** A JWT claim set. */
  type Payload = map<string, string>

  /** A stored user; `password` holds the bcrypt hash, never the plaintext. */
  datatype User = User(id: string, name: string, email: string, password: string, emailValidated: bool)

  /** The public view of a user that the service returns: a user without `password`. */
  datatype UserEntity = UserEntity(id: string, name: string, email: string, emailValidated: bool)

  datatype RegisterUserDto = RegisterUserDto(name: string, email: string, password: string)

  datatype AuthResponse = AuthResponse(user: UserEntity, token: Token)

  /** The message handed to the e-mail service; `link` is the token the validation link carries. */
  datatype MailOptions = MailOptions(to: string, subject: string, link: Token)

  /** The bcrypt and JWT adapters. */
  datatype Adapters = Adapters(
    hash: string -> string,
    compare: (string, string) -> bool,
    generateToken: Payload -> Option<Token>,
    validateToken: Token -> Option<Payload>)

  /** The user collection, keyed by e-mail address. */
  type Table = map<string, User>

  /** The result of an operation together with the table it leaves behind. */
  datatype Transition<R> = Transition(result: Result<R, CustomError>, users: Table)

  /** Every record sits under its own e-mail address and no two records share an id. */
  ghost predicate WellFormed(users: Table)
  {
    && (forall e | e in users :: users[e].email == e)
    && (forall e1, e2 | e1 in users && e2 in users && users[e1].id == users[e2].id :: e1 == e2)
  }

  ghost function Ids(users: Table): set<string>
  {
    set e | e in users :: users[e].id
  }

  /** The session claims `{id}`. */
  function SessionClaims(id: string): Payload
  {
    map["id" := id]
  }

  /** The e-mail validation claims `{email}`. */
  function ValidationClaims(email: string): Payload
  {
    map["email" := email]
  }

  /**
    Whether the JWT adapter produced a token: `if(!token)` treats both a
    missing token and the empty string as a failure.
  */
  predicate Issued(token: Option<Token>)
  {
    token.Some? && token.value != ""
  }

  /** The record registration saves: the hashed password and an unvalidated e-mail. */
  function NewUser(dto: RegisterUserDto, freshId: string, adapters: Adapters): User
  {
    User(freshId, dto.name, dto.email, adapters.hash(dto.password), false)
  }

  /** `UserEntity.fromObject(user)` with `password` taken out. */
  function PublicView(user: User): UserEntity
  {
    UserEntity(user.id, user.name, user.email, user.emailValidated)
  }

  /**
    `registerUser`: the duplicate check runs outside the `try`; inside it the
    new user is saved before the session token is issued, so a failed token
    leaves the user stored and is rethrown as an internal-server error.
  */
  function RegisterSpec(users: Table, dto: RegisterUserDto, freshId: string, adapters: Adapters): Transition<AuthResponse>
  {
    if dto.email in users then
      Transition(Failure(CustomError(BadRequest, EmailAlreadyExists)), users)
    else
      var user := NewUser(dto, freshId, adapters);
      var saved := users[dto.email := user];
      var token := adapters.generateToken(SessionClaims(user.id));
      if !Issued(token) then Transition(Failure(Rethrown(CustomError(InternalServer, JwtCreationFailed))), saved)
      else Transition(Success(AuthResponse(PublicView(user), token.value)), saved)
  }

  /** `loginUser`: lookup, password comparison, session token; the table is only read. */
  function LoginSpec(users: Table, dto: LoginUserDto, adapters: Adapters): Result<AuthResponse, CustomError>
  {
    if dto.email !in users then
      Failure(CustomError(BadRequest, EmailNotFound))
    else
      var user := users[dto.email];
      if !adapters.compare(dto.password, user.password) then
        Failure(CustomError(BadRequest, InvalidPassword))
      else
        var token := adapters.generateToken(SessionClaims(user.id));
        if !Issued(token) then Failure(CustomError(InternalServer, JwtCreationFailed))
        else Success(AuthResponse(PublicView(user), token.value))
  }

  /**
    `validateEmail`: token, then the `email` claim (absent or empty is falsy),
    then the user; only then is the user's flag set and saved.
  */
  function ValidateEmailSpec(users: Table, token: Token, adapters: Adapters): Transition<bool>
  {
    match adapters.validateToken(token)
    case None => Transition(Failure(CustomError(Unauthorized, InvalidToken)), users)
    case Some(payload) =>
      if "email" !in payload || payload["email"] == "" then
        Transition(Failure(CustomError(InternalServer, EmailNotInToken)), users)
      else if payload["email"] !in users then
        Transition(Failure(CustomError(InternalServer, EmailNotExist)), users)
      else
        var email := payload["email"];
        Transition(Success(true), users[email := users[email].(emailValidated := true)])
  }

  class AuthService {
    const sendEmail: MailOptions -> bool
    const adapters: Adapters
    var users: Table

    ghost predicate Valid()
      reads this
    {
      WellFormed(users)
    }

    constructor(sendEmail: MailOptions -> bool, adapters: Adapters, users: Table)
      requires WellFormed(users)
      ensures Valid()
      ensures this.sendEmail == sendEmail && this.adapters == adapters && this.users == users
    {
      this.sendEmail := sendEmail;
      this.adapters := adapters;
      this.users := users;
    }

    /**
      `sendEmailValidationLink`: a validation token for `{email}`, then the mail.
      Either failure is an internal-server error; success is `true`.
    */
    function SendEmailValidationLink(email: string): (r: Result<bool, CustomError>)
      ensures r.Success? <==>
                Issued(adapters.generateToken(ValidationClaims(email)))
                && sendEmail(MailOptions(email, ValidationSubject, adapters.generateToken(ValidationClaims(email)).value))
      ensures r.Success? ==> r.value
      ensures r.Failure? ==> r.error.kind == InternalServer
      ensures !Issued(adapters.generateToken(ValidationClaims(email))) ==>
                r == Failure(CustomError(InternalServer, MailTokenFailed))
    {
      var token := adapters.generateToken(ValidationClaims(email));
      if !Issued(token) then Failure(CustomError(InternalServer, MailTokenFailed))
      else if sendEmail(MailOptions(email, ValidationSubject, token.value)) then Success(true)
      else Failure(CustomError(InternalServer, MailNotSent))
    }

    /**
      `registerUser`. The validation mail is started without being awaited: its
      outcome comes back separately in `detached` and plays no part in `r`.
      `freshId` is the id the database assigns to the new record.
    */
    method RegisterUser(dto: RegisterUserDto, freshId: string)
      returns (r: Result<AuthResponse, CustomError>, detached: Option<Result<bool, CustomError>>)
      requires Valid()
      requires freshId !in Ids(users)
      modifies this
      ensures Valid()
      ensures Transition(r, users) == RegisterSpec(old(users), dto, freshId, adapters)
      ensures detached == if r.Success? then Some(SendEmailValidationLink(dto.email)) else None
    {
      detached := None;
      if dto.email in users {
        r := Failure(CustomError(BadRequest, EmailAlreadyExists));
        return;
      }
      var user := User(freshId, dto.name, dto.email, dto.password, false);
      user := user.(password := adapters.hash(dto.password));
      users := users[user.email := user];
      var token := adapters.generateToken(SessionClaims(user.id));
      if !Issued(token) {
        r := Failure(Rethrown(CustomError(InternalServer, JwtCreationFailed)));
        return;
      }
      detached := Some(SendEmailValidationLink(user.email));
      r := Success(AuthResponse(PublicView(user), token.value));
    }

    /** `loginUser`; it changes nothing. */
    method LoginUser(dto: LoginUserDto) returns (r: Result<AuthResponse, CustomError>)
      ensures r == LoginSpec(users, dto, adapters)
    {
      if dto.email !in users {
        return Failure(CustomError(BadRequest, EmailNotFound));
      }
      var user := users[dto.email];
      var isMatching := adapters.compare(dto.password, user.password);
      if !isMatching {
        return Failure(CustomError(BadRequest, InvalidPassword));
      }
      var userEntity := PublicView(user);
      var token := adapters.generateToken(SessionClaims(user.id));
      if !Issued(token) {
        return Failure(CustomError(InternalServer, JwtCreationFailed));
      }
      r := Success(AuthResponse(userEntity, token.value));
    }

    /** `validateEmail`. */
    method ValidateEmail(token: Token) returns (r: Result<bool, CustomError>)
      requires Valid()
      modifies this
      ensures Valid()
      ensures Transition(r, users) == ValidateEmailSpec(old(users), token, adapters)
    {
      var payload := adapters.validateToken(token);
      if payload.None? {
        return Failure(CustomError(Unauthorized, InvalidToken));
      }
      if "email" !in payload.value || payload.value["email"] == "" {
        return Failure(CustomError(InternalServer, EmailNotInToken));
      }
      var email := payload.value["email"];
      if email !in users {
        return Failure(CustomError(InternalServer, EmailNotExist));
      }
      var user := users[email];
      user := user.(emailValidated := true);
      users := users[email := user];
      r := Success(true);
    }
  }
}
