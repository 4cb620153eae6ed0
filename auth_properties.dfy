/** What registration, login and e-mail validation promise, stated over their specifications. */
module AuthProperties {
  import opened Wrappers
  import opened Errors
  import opened LoginUserDtos
  import opened Auth

  // ---------------------------------------------------------------- registration

  /** A taken e-mail address is refused with a bad request and the table is untouched. */
  lemma RegisterRejectsDuplicate(users: Table, dto: RegisterUserDto, freshId: string, adapters: Adapters)
    requires dto.email in users
    ensures RegisterSpec(users, dto, freshId, adapters)
            == Transition(Failure(CustomError(BadRequest, EmailAlreadyExists)), users)
  {
  }

  /**
    Past the duplicate check, exactly one record is added, whatever happens to
    the token: it holds the hashed password and an unvalidated e-mail, and every
    other record is as it was.
  */
  lemma RegisterAddsExactlyOneUser(users: Table, dto: RegisterUserDto, freshId: string, adapters: Adapters)
    requires dto.email !in users
    ensures var after := RegisterSpec(users, dto, freshId, adapters).users;
            && after.Keys == users.Keys + {dto.email}
            && after[dto.email] == NewUser(dto, freshId, adapters)
            && after[dto.email].password == adapters.hash(dto.password)
            && !after[dto.email].emailValidated
            && forall e | e in users :: after[e] == users[e]
  {
  }

  /**
    Registration succeeds exactly when the address is free and a session token
    is issued for `{id}` of the new user; the response carries that token and
    the new user's public view.
  */
  lemma RegisterSuccess(users: Table, dto: RegisterUserDto, freshId: string, adapters: Adapters)
    ensures var r := RegisterSpec(users, dto, freshId, adapters).result;
            && (r.Success? <==> dto.email !in users && Issued(adapters.generateToken(SessionClaims(freshId))))
            && (r.Success? ==>
                  && r.value.token == adapters.generateToken(SessionClaims(freshId)).value
                  && r.value.user == PublicView(NewUser(dto, freshId, adapters))
                  && r.value.user.id == freshId
                  && r.value.user.email == dto.email
                  && !r.value.user.emailValidated)
  {
  }

  /**
    Every failure after the duplicate check is an internal-server error, and the
    user saved before the token was requested stays in the table.
  */
  lemma RegisterLateFailureKeepsUser(users: Table, dto: RegisterUserDto, freshId: string, adapters: Adapters)
    requires dto.email !in users
    requires RegisterSpec(users, dto, freshId, adapters).result.Failure?
    ensures var t := RegisterSpec(users, dto, freshId, adapters);
            && t.result.error.kind == InternalServer
            && t.users == users[dto.email := NewUser(dto, freshId, adapters)]
  {
  }

  /** Registration keeps the table well formed, given an id the database has not used. */
  lemma RegisterPreservesWellFormed(users: Table, dto: RegisterUserDto, freshId: string, adapters: Adapters)
    requires WellFormed(users)
    requires freshId !in Ids(users)
    ensures WellFormed(RegisterSpec(users, dto, freshId, adapters).users)
  {
  }

  // ---------------------------------------------------------------- login

  /** An unknown address fails with a bad request. */
  lemma LoginUnknownEmail(users: Table, dto: LoginUserDto, adapters: Adapters)
    requires dto.email !in users
    ensures LoginSpec(users, dto, adapters) == Failure(CustomError(BadRequest, EmailNotFound))
  {
  }

  /** A known address whose stored hash does not match fails with a bad request. */
  lemma LoginWrongPassword(users: Table, dto: LoginUserDto, adapters: Adapters)
    requires dto.email in users
    requires !adapters.compare(dto.password, users[dto.email].password)
    ensures LoginSpec(users, dto, adapters) == Failure(CustomError(BadRequest, InvalidPassword))
  {
  }

  /**
    Login succeeds exactly when the address is known, the password matches and a
    session token for `{id}` is issued; it returns that token and the user's
    public view. Unknown address and wrong password share one error kind.
  */
  lemma LoginOutcome(users: Table, dto: LoginUserDto, adapters: Adapters)
    ensures var r := LoginSpec(users, dto, adapters);
            && (r.Success? <==>
                  && dto.email in users
                  && adapters.compare(dto.password, users[dto.email].password)
                  && Issued(adapters.generateToken(SessionClaims(users[dto.email].id))))
            && (r.Success? ==>
                  && r.value.user == PublicView(users[dto.email])
                  && r.value.token == adapters.generateToken(SessionClaims(users[dto.email].id)).value)
            && (r.Failure? && r.error.kind != InternalServer ==> r.error.kind == BadRequest)
            && (WellFormed(users) && r.Success? ==> r.value.user.email == dto.email)
  {
  }

  /**
    Login does not look at whether the user's e-mail has been validated: flipping
    the flag changes neither the outcome nor the token, only the flag in the view.
  */
  lemma LoginIgnoresEmailValidated(users: Table, dto: LoginUserDto, adapters: Adapters, email: string, validated: bool)
    requires email in users
    ensures var before := LoginSpec(users, dto, adapters);
            var after := LoginSpec(users[email := users[email].(emailValidated := validated)], dto, adapters);
            && after.Success? == before.Success?
            && (before.Failure? ==> after == before)
            && (before.Success? ==>
                  && after.value.token == before.value.token
                  && after.value.user.(emailValidated := true) == before.value.user.(emailValidated := true))
  {
  }

  // ---------------------------------------------------------------- e-mail validation

  /**
    The failures come in a fixed order (token, then claim, then user) and none
    of them touches the table.
  */
  lemma ValidateEmailFailures(users: Table, token: Token, adapters: Adapters)
    ensures var t := ValidateEmailSpec(users, token, adapters);
            var payload := adapters.validateToken(token);
            && (payload.None? ==> t.result == Failure(CustomError(Unauthorized, InvalidToken)))
            && (payload.Some? && ("email" !in payload.value || payload.value["email"] == "") ==>
                  t.result == Failure(CustomError(InternalServer, EmailNotInToken)))
            && (payload.Some? && "email" in payload.value && payload.value["email"] != ""
                && payload.value["email"] !in users ==>
                  t.result == Failure(CustomError(InternalServer, EmailNotExist)))
            && (t.result.Failure? ==> t.users == users)
            && (t.result.Success? <==>
                  && payload.Some?
                  && "email" in payload.value
                  && payload.value["email"] != ""
                  && payload.value["email"] in users)
  {
  }

  /**
    A successful validation returns `true` and sets the flag of the user named
    by the token's `email` claim, leaving every other field and user as it was.
  */
  lemma ValidateEmailSuccess(users: Table, token: Token, adapters: Adapters)
    requires ValidateEmailSpec(users, token, adapters).result.Success?
    ensures var t := ValidateEmailSpec(users, token, adapters);
            var email := adapters.validateToken(token).value["email"];
            && t.result == Success(true)
            && email in users
            && t.users.Keys == users.Keys
            && t.users[email] == users[email].(emailValidated := true)
            && (forall e | e in users && e != email :: t.users[e] == users[e])
            && (WellFormed(users) ==> t.users[email].email == email)
  {
  }

  /** A validated e-mail never goes back to unvalidated. */
  lemma ValidateEmailMonotonic(users: Table, token: Token, adapters: Adapters)
    ensures var after := ValidateEmailSpec(users, token, adapters).users;
            && after.Keys == users.Keys
            && forall e | e in users && users[e].emailValidated :: after[e].emailValidated
  {
  }

  /** Validating twice with the same token succeeds both times and changes nothing the second time. */
  lemma ValidateEmailIdempotent(users: Table, token: Token, adapters: Adapters)
    requires ValidateEmailSpec(users, token, adapters).result.Success?
    ensures var once := ValidateEmailSpec(users, token, adapters).users;
            ValidateEmailSpec(once, token, adapters) == Transition(Success(true), once)
  {
  }

  /** Validation keeps the table well formed. */
  lemma ValidateEmailPreservesWellFormed(users: Table, token: Token, adapters: Adapters)
    requires WellFormed(users)
    ensures WellFormed(ValidateEmailSpec(users, token, adapters).users)
  {
  }

  // ---------------------------------------------------------------- across operations

  /**
    When bcrypt's `compare` accepts a password against its own hash, logging in
    right after a successful registration succeeds: it returns the user view
    registration returned and a session token issued for the same `{id}` claims.
  */
  lemma RegisterThenLogin(users: Table, dto: RegisterUserDto, freshId: string, adapters: Adapters)
    requires adapters.compare(dto.password, adapters.hash(dto.password))
    requires RegisterSpec(users, dto, freshId, adapters).result.Success?
    ensures var t := RegisterSpec(users, dto, freshId, adapters);
            var login := LoginSpec(t.users, LoginUserDto(dto.email, dto.password), adapters);
            && login.Success?
            && login.value.user == t.result.value.user
            && login.value.user.id == freshId
            && login.value.token == adapters.generateToken(SessionClaims(freshId)).value
  {
  }

  /**
    The validation mail's token request (for the `{email}` claims) is a
    different call from the session token's (for `{id}`): however the adapter
    answers it, registration's result and table are the same. Together with
    `RegisterUser` keeping the mail's outcome apart, this is why registration
    does not depend on the mail that is started without `await`.
  */
  lemma RegisterIgnoresMailToken(
    users: Table, dto: RegisterUserDto, freshId: string, adapters: Adapters, g: Payload -> Option<Token>)
    requires forall p :: p != ValidationClaims(dto.email) ==> g(p) == adapters.generateToken(p)
    ensures RegisterSpec(users, dto, freshId, adapters.(generateToken := g))
            == RegisterSpec(users, dto, freshId, adapters)
  {
    assert SessionClaims(freshId) != ValidationClaims(dto.email) by {
      assert "email" !in SessionClaims(freshId);
    }
  }

  /**
    A token whose decoded claims name a freshly registered address under
    `email` validates that user, whatever other claims (`iat`, `exp`) it
    carries: afterwards the user's flag is set and nothing else has changed.
  */
  lemma RegisterThenValidateEmail(users: Table, dto: RegisterUserDto, freshId: string, adapters: Adapters, token: Token)
    requires dto.email !in users && dto.email != ""
    requires adapters.validateToken(token).Some?
    requires "email" in adapters.validateToken(token).value
    requires adapters.validateToken(token).value["email"] == dto.email
    ensures var registered := RegisterSpec(users, dto, freshId, adapters).users;
            ValidateEmailSpec(registered, token, adapters)
            == Transition(Success(true), users[dto.email := NewUser(dto, freshId, adapters).(emailValidated := true)])
  {
  }
}
