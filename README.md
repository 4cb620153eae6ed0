# User API services: a Dafny model

This project models the service layer of a small user/category/product backend:

- `AuthService` registers users, logs them in, and validates their e-mail address.
  It keeps a user table, issues JWT session tokens, and stores bcrypt hashes.
- `LoginUserDto.create` is the guard chain that checks a login request body.
- `CategoryService` and `ProductService` each insert a record only if its name is
  new, and each gives a paginated listing.

Modules and files:

- `Wrappers` (`wrappers.dfy`): `Option` and `Result`.
- `Errors` (`errors.dfy`): `CustomError`, an error kind (bad request, unauthorized,
  internal server) plus a message. `Rethrown` models a `catch` that rethrows as
  internal-server.
- `LoginUserDtos` (`login_user_dto.dfy`): the login request and `Create`.
- `Tables` (`tables.dfy`): lookup of a record by a field, and uniqueness of a
  field, over a collection kept as a sequence.
- `Pagination` (`pagination.dfy`): the shared `skip((page-1)*limit).limit(limit)`
  slice, plus what a client that walks every page receives.
- `Auth` (`auth_service.dfy`): the user record, its public view and the injected
  adapters. Three specification functions (`RegisterSpec`, `LoginSpec`,
  `ValidateEmailSpec`) give each operation's result and the table it leaves. The
  class `AuthService` holds the table, and its methods are proved against those
  functions.
- `AuthProperties` (`auth_properties.dfy`): lemmas about the three operations,
  alone and in sequence.
- `Categories` (`category_service.dfy`) and `Products` (`product_service.dfy`):
  each collection is a sequence in insertion order, held by a class whose create
  method appends to it.

The foreign calls are parameters with no assumed behaviour:

- bcrypt `hash`/`compare` and the JWT adapter's `generateToken`/`validateToken`
  are fields of `Auth.Adapters`.
- The e-mail service's `sendEmail` is a constant of `AuthService`.
- Token generation and validation return `Option`. The services test the result
  for truthiness, so `Auth.Issued` treats both `None` and an empty token as a
  failure.
- The e-mail regular expression is the parameter `isEmail`.

Two details are modelled as the code has them:

- `sendEmailValidationLink` is called without `await`. `AuthService.RegisterUser`
  returns that call's outcome in a separate out-parameter, `detached`.
  `RegisterSpec` has no e-mail parameter, so the mail's delivery cannot affect
  registration. The mail's other failure, its token request, goes to the same
  adapter but for the `{email}` claims rather than `{id}`.
  `AuthProperties.RegisterIgnoresMailToken` proves that no answer to that request
  changes registration's result or table.
- The new user is saved before the session token is requested. A token failure is
  rethrown as an internal-server error, and the user stays in the table.

## Notes on the code's behaviour

- A mail failure does not fail registration.
- The error kinds are bad request, unauthorized and internal server. Unknown
  e-mail and wrong password are both bad requests, with different messages.
- The login DTO does not trim or lower-case the e-mail address.

## Model

| member | source | states |
|---|---|---|
| `LoginUserDtos.Create` | src/domain/dtos/auth/login.user.dto.ts:11-22 | Exactly one of error and DTO is present. A DTO is returned iff the email is truthy and matches the pattern, and the password is truthy with length at least 6. The DTO holds the input fields unchanged. Otherwise the message is that of the first failing guard, in source order. |
| `LoginUserDtos.ErrorIsAGuardMessage` | src/domain/dtos/auth/login.user.dto.ts:15-18 | Every error message is one of the four guard messages. |
| `LoginUserDtos.PasswordLengthBoundary` | src/domain/dtos/auth/login.user.dto.ts:18-21 | With a valid email, a 6-character password is accepted as given and a 5-character one is refused with "Password to short". |
| `Errors.Rethrown` | src/presentation/services/auth.service.ts:40-43 | A caught error is rethrown as an internal-server error that keeps the caught error's message. |
| `Pagination.Paginate` | src/presentation/services/category.service.ts:44-46 | The page is the table slice that starts at `(page-1)*limit`. Its length is `min(limit, remaining)`, it keeps table order, and it is empty past the end. |
| `Pagination.PagesArePrefix` | src/presentation/services/product.service.ts:39-41 | Pages 1..n, concatenated, are exactly the first `min(n*limit, total)` records, in order. |
| `Pagination.PagesCoverTable` | src/presentation/services/category.service.ts:43-46 | Once `n*limit` reaches the total, pages 1..n list every record exactly once, in table order. |
| `Auth.AuthService.constructor` | src/presentation/services/auth.service.ts:11-13 | The service is built on the injected e-mail sender and adapters and on a well-formed user table. |
| `Auth.AuthService.SendEmailValidationLink` | src/presentation/services/auth.service.ts:69-92 | Succeeds with `true` iff a token for `{email}` is issued and the mail carrying it is accepted. Each failure is internal-server, and a missing token gives "Error getting token". |
| `Auth.AuthService.RegisterUser` | src/presentation/services/auth.service.ts:16-47 | The result and the new table are those of `RegisterSpec`, and the table stays well formed. The detached mail outcome is reported separately, is produced only on success, and has no effect on the result. |
| `Auth.AuthService.LoginUser` | src/presentation/services/auth.service.ts:49-66 | Returns `LoginSpec` of the current table and changes nothing. |
| `Auth.AuthService.ValidateEmail` | src/presentation/services/auth.service.ts:94-109 | The result and the new table are those of `ValidateEmailSpec`, and the table stays well formed. |
| `AuthProperties.RegisterRejectsDuplicate` | src/presentation/services/auth.service.ts:18-19 | A taken e-mail fails with bad request "Email already exits", and the table is unchanged. |
| `AuthProperties.RegisterAddsExactlyOneUser` | src/presentation/services/auth.service.ts:22-26 | Past the duplicate check, exactly one record is added under the e-mail. Its password is `hash(plaintext)` and it is not validated; all other records are unchanged. |
| `AuthProperties.RegisterSuccess` | src/presentation/services/auth.service.ts:28-38 | Registration succeeds iff the e-mail is free and a token for `{id: newId}` is issued. It returns that token and the new user's password-free view. |
| `AuthProperties.RegisterLateFailureKeepsUser` | src/presentation/services/auth.service.ts:26-43 | Any failure after the duplicate check is internal-server, and the user saved at line 26 stays in the table. |
| `AuthProperties.RegisterPreservesWellFormed` | src/presentation/services/auth.service.ts:18-26 | Given a fresh id, every record stays under its own e-mail and ids stay distinct. |
| `AuthProperties.LoginUnknownEmail` | src/presentation/services/auth.service.ts:51-52 | An unknown e-mail fails with bad request "Email not exits". |
| `AuthProperties.LoginWrongPassword` | src/presentation/services/auth.service.ts:54-55 | A known e-mail whose `compare` is false fails with bad request "invalid password". |
| `AuthProperties.LoginOutcome` | src/presentation/services/auth.service.ts:51-65 | Login succeeds iff the e-mail is known, the password matches and a token is issued. It returns the user's password-free view and the token for `{id}`. Every non-internal failure is a bad request. On a well-formed table the returned user's e-mail is the one logged in with. |
| `AuthProperties.LoginIgnoresEmailValidated` | src/presentation/services/auth.service.ts:51-60 | Changing any user's `emailValidated` changes neither the outcome nor the token of a login. |
| `AuthProperties.ValidateEmailFailures` | src/presentation/services/auth.service.ts:96-108 | Failures come in a fixed order: unauthorized for a bad token, then internal for a missing or empty `email` claim, then internal for an unknown user. Every failure leaves the table unchanged. It succeeds iff the token validates, its `email` claim is non-empty, and a user has that e-mail. |
| `AuthProperties.ValidateEmailSuccess` | src/presentation/services/auth.service.ts:105-108 | Success returns `true`. It sets `emailValidated` only on the user named by the claim, and nothing else changes. On a well-formed table that record's e-mail is the claim. |
| `AuthProperties.ValidateEmailMonotonic` | src/presentation/services/auth.service.ts:105-106 | No user's `emailValidated` goes from true back to false, and no user is added or removed. |
| `AuthProperties.ValidateEmailIdempotent` | src/presentation/services/auth.service.ts:94-108 | A second validation with the same token succeeds and leaves the table as the first one left it. |
| `AuthProperties.ValidateEmailPreservesWellFormed` | src/presentation/services/auth.service.ts:102-106 | Validation keeps records under their own e-mail and ids distinct. |
| `AuthProperties.RegisterThenLogin` | src/presentation/services/auth.service.ts:16-65 | If `compare` accepts a password against its own hash, a login right after a successful registration succeeds. It returns the user view that registration returned and a token issued for the same `{id: freshId}` claims. |
| `AuthProperties.RegisterIgnoresMailToken` | src/presentation/services/auth.service.ts:28-31 | Changing how the token adapter answers the mail's `{email}` request changes neither registration's result nor its table. |
| `AuthProperties.RegisterThenValidateEmail` | src/presentation/services/auth.service.ts:26-108 | A token whose decoded claims carry the `email` of a just-registered user validates that user, whatever other claims it has. Only that user's flag changes. |
| `Categories.Summaries` | src/presentation/services/category.service.ts:54-58 | The projection keeps length and order and maps each category to its id, name and availability. |
| `Categories.CategoryService.constructor` | src/presentation/services/category.service.ts:8 | The service is built on a category collection whose ids are distinct. |
| `Categories.CategoryService.CreateCategory` | src/presentation/services/category.service.ts:10-34 | An existing name fails with bad request "category already exists" and the table is unchanged. Otherwise exactly one category is appended, with the DTO fields and `user = user.id`. The method returns its id, name and availability, and unique names stay unique. |
| `Categories.CategoryService.GetCategories` | src/presentation/services/category.service.ts:36-60 | Echoes page and limit and reports `total` as the table size. It lists the summaries of the page's slice in table order and cannot change the table. |
| `Products.ProductService.constructor` | src/presentation/services/product.service.ts:8 | The service is built on a product collection whose ids are distinct. |
| `Products.ProductService.CreateProduct` | src/presentation/services/product.service.ts:10-29 | An existing name fails with bad request "Product already exists" and the table is unchanged. Otherwise exactly one product with the DTO fields is appended and that same record is returned. Unique names stay unique. |
| `Products.ProductService.GetProduct` | src/presentation/services/product.service.ts:31-55 | Echoes page and limit and reports `total` as the table size. It lists at most `limit` products, the page's slice in table order, and cannot change the table. |

## Left out

- Database failures are not modelled: a `findOne`, `save` or `countDocuments` that throws. The catches that would turn them into internal-server errors therefore never fire. The exception is the registration `catch`, which is reached through the token failure.
- Id assignment belongs to the database. Each create operation takes the assigned id as `freshId` and requires that it is not already in use.
- bcrypt salting is not modelled: `hash` is a function of the password alone, and `compare` is an arbitrary predicate. `AuthProperties.RegisterThenLogin` assumes `compare` accepts a password against its own hash.
- The JWT signature, issue time and expiry clock are not modelled. `generateToken` is a function of the payload alone, so equal payloads give equal tokens.
- AuthProperties.RegisterThenLogin: it promises a token for the same `{id}` claims, not the registration's token. A real JWT carries its issue time, so the two tokens would differ.
- The validation link and the HTML body of the mail are not modelled. `MailOptions` carries the token instead of the body.
- The process-level effect of the detached mail promise is not modelled. If it rejects, nobody handles the rejection.
- Concurrency is not modelled: `Promise.all`, and the race between the duplicate check and the insert of concurrent requests.
- Mongo `populate` on the product listing is not modelled. `user` and `category` stay ids.
- `limit(0)` and negative `skip` are excluded by `page >= 1` and `limit >= 1`. The pagination DTO that would enforce this is not part of this model.
- `RegisterUserDto`, `CreateCategoryDto`, `CreateProductDto`, `UserEntity.fromObject`, `CustomError`, the user/category/product schemas and the e-mail regular expression are not part of this model.
  - The DTOs are plain records.
  - `fromObject` is a projection that drops `password`.
  - A product's price is an integer.
  - The regular expression is the parameter `isEmail`.
  - Schema defaults other than `emailValidated = false` are not modelled.
- Errors.Rethrown: the message of a rethrown error keeps the caught error's message. The real text is `${error}`, whose format depends on the error class.
- LoginUserDtos.Create: request fields are absent or strings. Other JSON values are not modelled; for example, a numeric password has no `length` and would pass the length guard.
- LoginUserDtos.Create: password length counts characters, where JavaScript counts UTF-16 code units.
- `src/data/seed/seed.ts` (seeding I/O) and `src/domain/index.ts` (re-exports) have no behaviour to model.
