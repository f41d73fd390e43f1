# UserManagementApi account core, modelled in Dafny

This project models the decision logic of a small ASP.NET Identity web API
for user accounts. There are three parts:

- **The account controller** (`AccountController` module, `account_controller.dfy`).
  - `AccountStore` is a class. It holds the accounts by id, the role registry,
    each account's ordered role list, and a log of the sign-ins issued.
  - Its methods are the actions: `Register`, `Login`, `GetUserById`,
    `UpdateUserProfile`, `DeleteUser` and `GetAllUsers`. `RegisterRequest`
    and `UpdateRequest` put the framework's model validation in front of
    `Register` and `UpdateUserProfile`.
  - `GenerateJwtToken` builds the token's claim list in a loop.
    `TokenFor` specifies it.
  - Pure functions and lemmas cover the parts that only compute:
    - the login outcome (`LoginOutcome`);
    - the field overwrite (`Updated`);
    - the 32-bit page offset and the page (`Offset`, `UsersPageOf`);
    - reading a token back (`PrincipalOf`).
- **The update payload rules** (`UpdateDtoRules`, `update_dto.dfy`). Every
  validation attribute is a `Rule` with its exact message. `Violations` lists
  the messages of the rules a value breaks, in declaration order. `Validate`
  runs all five properties.
- **The fault translator** (`ExceptionMiddleware`, `exception_middleware.dfy`).
  - Exceptions form a closed datatype.
  - `StatusCodeFor` is the first-match switch to an HTTP status.
  - `ErrorBody` builds the JSON body.
  - `HandleException` and `Invoke` write to an `HttpResponse` object.
    A request that does not throw is left as it was.

Collaborators come in as parameters:
- the clock (`now`, in `DateTime` ticks);
- the password check (`verify`);
- the email-syntax attribute (`isEmail`);
- the outcome of the payload validators (`modelErrors`);
- the store's rejection lists (`createErrors`, `updateErrors`, `deleteErrors`);
- the fresh account id (`newId`);
- the caller's claims (`Principal`);
- the store's enumeration order for the listing (`order`).

An action can end in an exception that escapes to the middleware. `Reply.Raised`
carries it, and `StatusOf` translates it with `StatusCodeFor`.

Behaviour the code has and the model keeps as written, even where it departs from the evident intent:

- **First-user promotion never fires.** `Register` asks whether the store is
  empty after it inserts the new account. So every registered account gets
  `User` and the message "User registered successfully" (`FirstUserTestNeverHolds`).
- **Update and delete check in opposite orders.** Update answers 404 for a
  missing target before it checks the caller. Delete answers 403 before it
  looks the target up.
- **Update and delete find the caller differently.** Update looks the caller up
  afresh in the store and reads the roles stored there. If the caller's account
  is gone, the role check throws `ArgumentNullException`, and the middleware
  turns that into 400. Delete trusts the request's claims, so an admin token for
  a deleted account still deletes. The two agree for a token issued from the
  current store (`FreshTokenAuthorizesAlike`). They disagree once the store
  has changed (`StaleAdminTokenDivergence`).
- **Login reveals unknown emails.** An unknown email gets 404. If two accounts
  share an email, the store's single-result lookup throws, and the middleware
  answers 500.
- **The page offset wraps.** `(pageNumber - 1) * pageSize` is computed in
  32-bit arithmetic and can wrap (`OffsetWrapsAround`). Without overflow it is
  the mathematical product (`OffsetWithoutOverflow`).
- **Invalid payloads.** The controller carries `[ApiController]`, so an invalid
  payload is answered 400 before the action runs (`UpdateRequest`,
  `RegisterRequest`). So an invalid registration leaves the role registry
  alone, and `Register`'s own `ModelState` branch is never reached.

## Model

| member | source | states |
|---|---|---|
| `UpdateDtoRules.Violations` | Dtos/UpdateDto.cs:12-30 | No messages iff every attribute accepts the value; a message is reported iff some attribute with that message rejects it; a missing value is never rejected |
| `UpdateDtoRules.Validate` | Dtos/UpdateDto.cs:10-31 | The payload is valid iff none of the five properties has a violation; a property is reported with a message iff one of its attributes carrying that message rejects the supplied value; only supplied properties are reported |
| `UpdateDtoRules.ShortUsernameReported` | Dtos/UpdateDto.cs:12 | A two-character username is reported under Username with the too-short message |
| `UpdateDtoRules.UsernameAccepted` | Dtos/UpdateDto.cs:12-15 | A supplied username is accepted iff it has 3 to 20 characters, all ASCII letters or digits |
| `UpdateDtoRules.UsernameMessages` | Dtos/UpdateDto.cs:12-14 | Each username message appears iff its own rule is broken (too short, over 20, a character outside letters and digits) |
| `UpdateDtoRules.NamesAccepted` | Dtos/UpdateDto.cs:20-24 | A supplied first or last name is rejected, with its own message, exactly when shorter than 3 |
| `UpdateDtoRules.PasswordAccepted` | Dtos/UpdateDto.cs:26-30 | A supplied password is accepted iff it has 6 to 100 characters, no line feed, and a lowercase letter, an uppercase letter, a digit and a special character |
| `UpdateDtoRules.PasswordMessages` | Dtos/UpdateDto.cs:26-29 | Each password message appears iff its own rule is broken; the pattern message is never reported for the empty string |
| `ExceptionMiddleware.StatusCodeFor` | UserManagementApi/ErrorHandling/ExceptionMiddleware.cs:34-40 | Total mapping: 404 iff key-not-found, 401 iff unauthorized-access or authentication, 400 iff argument or validation, 500 iff anything else |
| `ExceptionMiddleware.ErrorBody` | UserManagementApi/ErrorHandling/ExceptionMiddleware.cs:45-54 | The body's status is the response status, its message the exception's; errors are the validation message, an aggregate's inner messages in order, or null |
| `ExceptionMiddleware.AggregateIsServerError` | UserManagementApi/ErrorHandling/ExceptionMiddleware.cs:34-53 | An aggregate matches no specific arm (500) and lists its inner messages |
| `ExceptionMiddleware.UnclassifiedFaultIsServerError` | UserManagementApi/ErrorHandling/ErrorHandlingTests.cs:18-23 | An unclassified fault yields 500 with its own message in the body |
| `ExceptionMiddleware.HandleException` | UserManagementApi/ErrorHandling/ExceptionMiddleware.cs:32-57 | Sets the JSON content type and the mapped status, and writes the body whose status equals it |
| `ExceptionMiddleware.Invoke` | UserManagementApi/ErrorHandling/ExceptionMiddleware.cs:19-30 | A request whose inner handler does not throw is left untouched; a thrown fault is translated |
| `AccountController.StatusOf` | UserManagementApi/ErrorHandling/ExceptionMiddleware.cs:34-43 | The client sees 200 for success, 400 for a list of errors, the refusal's own status, and for an escaped fault the status the fault translator writes into the body |
| `AccountController.MissingCallerFaultIsBadRequest` | UserManagementApi/Controllers/AccountController.cs:136-137 | The role check on a caller missing from the store surfaces as 400 |
| `AccountController.AmbiguousEmailFaultIsServerError` | UserManagementApi/Controllers/AccountController.cs:81 | A login email held by several accounts makes the single-result lookup fault, which surfaces as 500 |
| `AccountController.BootstrapCreatesBothRolesOnce` | UserManagementApi/Controllers/AccountController.cs:43-47 | `BootstrapRoles` creates exactly Admin and User, only when the registry is empty, and is idempotent |
| `AccountController.FirstUserTestNeverHolds` | UserManagementApi/Controllers/AccountController.cs:60-64 | Asked after the insert, the first-user test is false in any store holding the new account |
| `AccountController.TokenForLayout` | UserManagementApi/Controllers/AccountController.cs:191-202 | `TokenFor` lists the subject, email and user name claims, then one role claim per role in order, and nothing else |
| `AccountController.PrincipalReadsFirstMatch` | UserManagementApi/Controllers/AccountController.cs:173-174 | `PrincipalOf` reads each claim type as the value of its first claim, and finds nothing exactly when no claim has that type |
| `AccountController.TokenRoundTrip` | UserManagementApi/Controllers/AccountController.cs:189-211 | Reading a token back gives the account's id, email, user name and role list at issue; expiry is issue time plus two hours |
| `AccountController.LoginOutcome` | UserManagementApi/Controllers/AccountController.cs:79-92 | 404 iff no account holds the email; 500-class fault iff several do; 401 iff the one account's password check fails; a token for that account iff it passes |
| `AccountController.MayModifyIsSelfOrAdmin` | UserManagementApi/Controllers/AccountController.cs:139 | `MayModify` refuses exactly a caller who is neither the target nor an admin |
| `AccountController.UpdateAuthorizedByStoredRecord` | UserManagementApi/Controllers/AccountController.cs:136-139 | `UpdateAuthorized` passes iff the caller's id is on file and it is the target or holds Admin in the store; the roles in the request's claims play no part |
| `AccountController.DeleteAuthorizedByClaims` | UserManagementApi/Controllers/AccountController.cs:173-176 | `DeleteAuthorized` passes iff the claimed id is the target or Admin is among the claimed roles |
| `AccountController.FreshTokenAuthorizesAlike` | UserManagementApi/Controllers/AccountController.cs:136-176 | For a token issued from the current store, update's fresh-lookup test and delete's claims test agree |
| `AccountController.StaleAdminTokenDivergence` | UserManagementApi/Controllers/AccountController.cs:136-176 | An admin token whose account is gone passes delete's test but not update's |
| `AccountController.WhiteSpaceMembers` | UserManagementApi/Controllers/AccountController.cs:142-152 | `IsWhiteSpace` holds for space, tab, line feed, carriage return, no-break, em and ideographic spaces, and not for letters, the zero-width space or the byte-order mark |
| `AccountController.BlankPayloadOnlyRefreshesTimestamp` | UserManagementApi/Controllers/AccountController.cs:142-154 | `IsNullOrWhiteSpace` holds for null, empty and all-blank strings, and a payload whose four fields all satisfy it changes only the update time |
| `AccountController.Updated` | UserManagementApi/Controllers/AccountController.cs:142-154 | Each of user name, email, first and last name changes only to a supplied non-blank value and always does; id, password and creation time never change; update time becomes now |
| `AccountController.UpdateIdempotent` | UserManagementApi/Controllers/AccountController.cs:142-154 | Applying the same payload twice at the same time equals applying it once |
| `AccountController.EmailOnlyUpdate` | UserManagementApi/Controllers/AccountController.cs:145-154 | A payload with only a non-blank email changes the email and the update time and nothing else |
| `AccountController.Offset` | UserManagementApi/Controllers/AccountController.cs:234 | The skip count is the 32-bit value congruent to (pageNumber - 1) * pageSize modulo 2^32 |
| `AccountController.OffsetWithoutOverflow` | UserManagementApi/Controllers/AccountController.cs:234 | Without overflow the skip count is exactly (pageNumber - 1) * pageSize |
| `AccountController.OffsetWrapsAround` | UserManagementApi/Controllers/AccountController.cs:234 | The 32-bit product wraps: page 0x40000001 of size 4 starts at offset 0 |
| `AccountController.ConsecutivePagesAdjacent` | UserManagementApi/Controllers/AccountController.cs:234 | Without overflow, page n + 1 starts where page n ends |
| `AccountController.SkipDropsPageStart` | UserManagementApi/Controllers/AccountController.cs:234 | `PageStart` is where LINQ `Skip` by the offset leaves the store's order, a non-positive offset skipping nothing |
| `AccountController.TakeKeepsPageLength` | UserManagementApi/Controllers/AccountController.cs:234 | `PageLength` is how many elements LINQ `Take` by the page size keeps, a non-positive size keeping none |
| `AccountController.PageIsSkipThenTake` | UserManagementApi/Controllers/AccountController.cs:232-236 | The page lists exactly the accounts that skipping the offset and taking the page size from the store's order leave, in order |
| `AccountController.UsersPageOf` | UserManagementApi/Controllers/AccountController.cs:232-236 | At most pageSize accounts, those from the offset on in store order, projected to id, user name and email; the total is the whole store's count |
| `AccountController.PageWithinTotal` | UserManagementApi/Controllers/AccountController.cs:233-234 | A page never holds more accounts than the total it reports |
| `AccountController.AccountStore.Register` | UserManagementApi/Controllers/AccountController.cs:41-70 | Roles are bootstrapped first; invalid model or rejected create gives 400 with no account, role or sign-in; success stores the account with both timestamps at now, assigns User, signs in; welcome says Admin iff the role is Admin, so always User |
| `AccountController.AccountStore.RegisterRequest` | UserManagementApi/Controllers/AccountController.cs:17 | An invalid registration payload is answered 400 with its errors and changes nothing, the role registry included; a valid one gets exactly the action's answers |
| `AccountController.AccountStore.GenerateJwtToken` | UserManagementApi/Controllers/AccountController.cs:189-216 | The loop builds exactly the sub, email, name claims followed by one role claim per stored role in order; expiry now plus two hours |
| `AccountController.AccountStore.Login` | UserManagementApi/Controllers/AccountController.cs:79-92 | The reply is the login outcome; only a successful login records a sign-in, of the matched account |
| `AccountController.AccountStore.GetUserById` | UserManagementApi/Controllers/AccountController.cs:104-120 | 404 "User not found" iff absent; otherwise the id, names, email and both timestamps unchanged |
| `AccountController.AccountStore.UpdateUserProfile` | UserManagementApi/Controllers/AccountController.cs:130-161 | 404 before any caller check; a caller missing from the store faults; 403 for neither self nor stored Admin with the target unchanged; 400 on store rejection; else exactly the target becomes its updated value |
| `AccountController.AccountStore.UpdateRequest` | UserManagementApi/Controllers/AccountController.cs:17 | An invalid payload is answered 400 with its messages and changes nothing; a valid payload gets exactly the action's answers: 404, the missing-caller fault, 403, 400 on store rejection, each leaving the store unchanged, or the update |
| `AccountController.AccountStore.DeleteUser` | UserManagementApi/Controllers/AccountController.cs:171-188 | 403 from the request's claims before any lookup; then 404; 400 on store rejection; success removes exactly the target and its roles |
| `AccountController.AccountStore.GetAllUsers` | UserManagementApi/Controllers/AccountController.cs:224-237 | 401 when unauthenticated; otherwise the page of the store, never larger than the reported total |

## Left out

- JWT serialisation, HMAC-SHA-256 signing, and the issuer, audience and key configuration. A token is its claim list and expiry only. A missing key is not modelled.
- Identity's password hashing. A stored hash is an opaque string. `CheckPasswordAsync` is the `verify` parameter.
- Why Identity's create, update and delete reject a request. The rejection lists come in as parameters.
- Identity's normalised (upper-cased) email lookup. `IdsWithEmail` compares emails exactly.
- Security and concurrency stamps. These are Identity internals.
- Sign-in cookies. A sign-in is only an entry in `signIns`.
- `[Authorize]` enforcement and claim extraction by the framework. The caller is a `Principal`, and `isAuthenticated` is a parameter. The Admin gate on the listing belongs to the framework and has no counterpart here.
- `PrincipalOf` reads the token's subject as the name identifier. The framework's inbound claim-type mapping is not modelled.
- `DateTime.UtcNow` is the parameter `now`. The source reads the clock for a new account's `CreatedAt` and `UpdatedAt` (AccountController.cs:56-57), for the `UpdatedAt` of an update (154) and for a token's expiry (211). The model passes one `now` per action, so a new account's two timestamps are equal here, while the source's can differ by a tick.
- Role creation failures. The source ignores them. The store invariant keeps `User` registered, so the role assignment cannot fail.
- Null fields. `UserName`, `Email` and both timestamps are nullable in the record shape, but every account here is created by `Register`, which sets them. The cast of a null timestamp is not modelled.
- The entity object. `Account` is a value. The source mutates the tracked entity and saves it. The model builds the new value and stores it, so aliasing of the entity is not modelled.
- `AccountController.AccountStore.Register`: its `ModelState` branch, and the role bootstrap on an invalid payload, follow the action's text. The framework's model validation makes both unreachable; `RegisterRequest` models the request as it arrives.
- `AccountStore.Register` requires a fresh `newId`. The source's id is a newly generated GUID.
- The registration payload's own field rules. They are not part of this model. Their outcome is `modelErrors`.
- `UpdateDtoRules.PasswordAccepted`: `\d` and the word class `\w` are taken as their ASCII members. .NET's classes also contain other scripts' letters and digits.
- `UpdateDtoRules.Violations`: lengths count Unicode scalar values, not UTF-16 code units.
- The syntax that `[EmailAddress]` accepts. It is library-defined and is the `isEmail` parameter.
- `AccountController.AccountStore.GetAllUsers`: its 401 "Please log in first." follows the action's text. `[Authorize(Roles = "Admin")]` answers an unauthenticated request with the framework's own 401 before the action runs, so the status is the same but that message never reaches a client.
- `GetAllUsers`: the defaults `pageNumber = 1` and `pageSize = 5` apply when the query omits them. That is the framework's parameter binding; the model takes both as explicit parameters.
- Pagination with a negative skip or take count. Skip and take use the in-memory LINQ meaning for these. The database provider's behaviour is not modelled. The store's enumeration order is the `order` parameter.
- Middleware logging, JSON serialisation and asynchronous writing. A response that has already started is not modelled either.
- The concurrent first-registration race. Requests are sequential here.
- `Data_Access/ApplicationDbContext.cs` is persistence plumbing. `Models/Users.cs` is only borrowed for the `Account` shape.
