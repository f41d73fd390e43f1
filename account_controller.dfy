/**
 * The account controller (UserManagementApi/Controllers/AccountController.cs):
 * registration with role bootstrap, login and token issue, lookup, partial
 * profile update, deletion and the paginated listing.
 *
 * ASP.NET Identity is abstracted away: the account store, the role registry
 * and the per-account role lists are fields of `AccountStore`; the clock,
 * the password check, the payload validators and the reasons the store may
 * reject a create, update or delete come in as parameters.
 */
module AccountController {
  import opened Common
  import UpdateDtoRules
  import ExceptionMiddleware

  /** C#'s `int`: request parameters of the listing are 32-bit. */
  newtype int32 = x: int | -0x8000_0000 <= x < 0x8000_0000

  const AdminRole := "Admin"
  const UserRole := "User"

  const AdminRegistered := "Admin registered successfully"
  const UserRegistered := "User registered successfully"
  const EmailNotRegistered := "This email is not registered."
  const InvalidCredentials := "Invalid email or password."
  const UserNotFound := "User not found"
  /** Update's not-found message, which alone ends in a full stop. */
  const UpdateTargetNotFound := "User not found."
  const UpdateForbidden := "You are not allowed to update other users."
  const ProfileUpdated := "User profile updated successfully."
  const DeleteForbidden := "You are not allowed to delete other users."
  const UserDeleted := "User deleted successfully"
  const LogInFirst := "Please log in first."
  /** What the store's single-result lookup throws when two accounts share an email. */
  const MoreThanOneElement := "Sequence contains more than one element"
  /** What the role check throws when handed a missing account. */
  const NullUserArgument := "Value cannot be null. (Parameter 'user')"

  /** Two hours in `DateTime` ticks of 100 ns: the token's lifetime. */
  const TokenLifetime := 72_000_000_000

  /** One stored account; timestamps are `DateTime` ticks. */
  datatype Account = Account(
    id: string,
    userName: string,
    email: string,
    passwordHash: string,
    firstName: Option<string>,
    lastName: Option<string>,
    createdAt: int,
    updatedAt: int)

  /**
   * What an action answers: 200 with its payload, a status with a
   * `{ Message }` body, 400 with a list of errors, or an exception that
   * escapes the action and reaches the fault translator.
   */
  datatype Reply<T> =
    | Ok(value: T)
    | Refused(status: int, message: string)
    | BadRequest(errors: seq<string>)
    | Raised(fault: ExceptionMiddleware.Exception)

  /** The status the client sees, an escaped exception being translated. */
  function StatusOf<T>(r: Reply<T>): (status: int)
    ensures r.Ok? ==> status == 200
    ensures r.BadRequest? ==> status == 400
    ensures r.Refused? ==> status == r.status
    ensures r.Raised? ==> status == ExceptionMiddleware.ErrorBody(r.fault).statusCode
  {
    match r
    case Ok(_) => 200
    case Refused(status, _) => status
    case BadRequest(_) => 400
    case Raised(e) => ExceptionMiddleware.StatusCodeFor(e)
  }

  /**
   * A caller whose account is gone makes the role lookup throw a bad
   * argument, which reaches the client as 400.
   */
  lemma MissingCallerFaultIsBadRequest()
    ensures StatusOf<string>(Raised(ExceptionMiddleware.Argument(NullUserArgument))) == 400
  {
  }

  /**
   * Two accounts holding the login email make the single-result lookup
   * throw an unclassified fault, which reaches the client as 500.
   */
  lemma AmbiguousEmailFaultIsServerError()
    ensures StatusOf<Token>(Raised(ExceptionMiddleware.Other(MoreThanOneElement))) == 500
  {
  }

  /** The projection returned by the lookup. */
  datatype UserDto = UserDto(
    id: string,
    userName: string,
    email: string,
    firstName: Option<string>,
    lastName: Option<string>,
    createdAt: int,
    updatedAt: int)

  /** The projection of one account in the listing. */
  datatype UserSummary = UserSummary(id: string, userName: string, email: string)

  datatype UsersPage = UsersPage(totalUsers: nat, pageNumber: int32, pageSize: int32, users: seq<UserSummary>)

  // ---------------------------------------------------------------------
  // Role bootstrap and the first-user test

  /** The role registry after the bootstrap at the start of registration. */
  function BootstrapRoles(roles: set<string>): set<string>
  {
    if roles == {} then {AdminRole, UserRole} else roles
  }

  /**
   * The bootstrap creates exactly `Admin` and `User`, and only when the
   * registry is empty; run twice it changes nothing more.
   */
  lemma BootstrapCreatesBothRolesOnce(roles: set<string>)
    ensures roles <= BootstrapRoles(roles)
    ensures BootstrapRoles(roles) != roles <==> roles == {}
    ensures roles == {} ==> BootstrapRoles(roles) == {AdminRole, UserRole} && |BootstrapRoles(roles)| == 2
    ensures BootstrapRoles(BootstrapRoles(roles)) == BootstrapRoles(roles)
  {
  }

  /** "No account exists yet", as registration asks it of the store. */
  predicate IsFirstUser(accounts: map<string, Account>)
  {
    |accounts| == 0
  }

  /**
   * Registration asks the first-user question after inserting the new
   * account, so in any store holding that account the answer is no.
   */
  lemma FirstUserTestNeverHolds(accounts: map<string, Account>, newId: string)
    requires newId in accounts
    ensures !IsFirstUser(accounts)
  {
  }

  // ---------------------------------------------------------------------
  // Token claims

  datatype ClaimType = Sub | Email | Name | Role
  datatype Claim = Claim(claimType: ClaimType, value: string)

  /** The abstract content of an issued token: its claims and its expiry. */
  datatype Token = Token(claims: seq<Claim>, expires: int)

  /** Subject, email and name claims, in the order the token lists them. */
  function IdentityClaims(a: Account): seq<Claim>
  {
    [Claim(Sub, a.id), Claim(Email, a.email), Claim(Name, a.userName)]
  }

  /** One role claim per role, in order. */
  function RoleClaims(roles: seq<string>): seq<Claim>
  {
    if roles == [] then [] else RoleClaims(roles[..|roles| - 1]) + [Claim(Role, roles[|roles| - 1])]
  }

  /** The token issued at `now` for an account holding `roles`. */
  function TokenFor(a: Account, roles: seq<string>, now: int): Token
  {
    Token(IdentityClaims(a) + RoleClaims(roles), now + TokenLifetime)
  }

  /** The identity a request carries, as read back from its claims. */
  datatype Principal = Principal(
    nameIdentifier: Option<string>,
    email: Option<string>,
    name: Option<string>,
    roles: seq<string>)

  /** The value of the first claim of a type, if any. */
  function FirstValue(claims: seq<Claim>, t: ClaimType): Option<string>
  {
    if claims == [] then None
    else if claims[0].claimType == t then Some(claims[0].value)
    else FirstValue(claims[1..], t)
  }

  /** The values of all role claims, in order. */
  function RoleValues(claims: seq<Claim>): seq<string>
  {
    if claims == [] then []
    else (if claims[0].claimType == Role then [claims[0].value] else []) + RoleValues(claims[1..])
  }

  /** The principal a token's claims describe (the subject read as the name identifier). */
  function PrincipalOf(claims: seq<Claim>): Principal
  {
    Principal(FirstValue(claims, Sub), FirstValue(claims, Email), FirstValue(claims, Name), RoleValues(claims))
  }

  lemma {:induction false} RoleValuesAppend(x: seq<Claim>, y: seq<Claim>)
    ensures RoleValues(x + y) == RoleValues(x) + RoleValues(y)
  {
    if x == [] {
      assert x + y == y;
    } else {
      assert (x + y)[0] == x[0];
      assert (x + y)[1..] == x[1..] + y;
      RoleValuesAppend(x[1..], y);
    }
  }

  lemma {:induction false} RoleValuesOfRoleClaims(roles: seq<string>)
    ensures RoleValues(RoleClaims(roles)) == roles
  {
    if roles != [] {
      var init := roles[..|roles| - 1];
      RoleValuesOfRoleClaims(init);
      RoleValuesAppend(RoleClaims(init), [Claim(Role, roles[|roles| - 1])]);
      assert roles == init + [roles[|roles| - 1]];
    }
  }

  /**
   * Reading a token back yields the subject, email, user name and role list
   * of the account at issue time, and it expires two hours after issue.
   */
  lemma TokenRoundTrip(a: Account, roles: seq<string>, now: int)
    ensures PrincipalOf(TokenFor(a, roles, now).claims) == Principal(Some(a.id), Some(a.email), Some(a.userName), roles)
    ensures TokenFor(a, roles, now).expires == now + TokenLifetime
  {
    var claims := TokenFor(a, roles, now).claims;
    RoleValuesAppend(IdentityClaims(a), RoleClaims(roles));
    RoleValuesOfRoleClaims(roles);
    assert claims[0] == Claim(Sub, a.id);
    assert claims[1..][0] == Claim(Email, a.email);
    assert claims[1..][1..][0] == Claim(Name, a.userName);
    assert FirstValue(claims, Email) == FirstValue(claims[1..], Email);
    assert FirstValue(claims, Name) == FirstValue(claims[1..][1..], Name);
    assert FirstValue(claims, Sub) == Some(a.id);
    assert FirstValue(claims, Email) == Some(a.email);
    assert FirstValue(claims, Name) == Some(a.userName);
    var ids := IdentityClaims(a);
    assert RoleValues(ids[1..][1..]) == RoleValues(ids[1..][1..][1..]) == [];
    assert RoleValues(ids) == [];
  }

  lemma {:induction false} RoleClaimsAt(roles: seq<string>)
    ensures |RoleClaims(roles)| == |roles|
    ensures forall k :: 0 <= k < |roles| ==> RoleClaims(roles)[k] == Claim(Role, roles[k])
  {
    if roles != [] {
      RoleClaimsAt(roles[..|roles| - 1]);
    }
  }

  /**
   * A token lists the subject, email and user name claims first, then one
   * role claim per role in the given order, and nothing else.
   */
  lemma TokenForLayout(a: Account, roles: seq<string>, now: int)
    ensures var claims := TokenFor(a, roles, now).claims;
      && |claims| == 3 + |roles|
      && claims[0] == Claim(Sub, a.id) && claims[1] == Claim(Email, a.email) && claims[2] == Claim(Name, a.userName)
      && forall k :: 0 <= k < |roles| ==> claims[3 + k] == Claim(Role, roles[k])
  {
    RoleClaimsAt(roles);
  }

  /**
   * Reading a claim type back finds nothing exactly when no claim has that
   * type, and otherwise the value of the first claim that has it.
   */
  lemma {:induction false} PrincipalReadsFirstMatch(claims: seq<Claim>, t: ClaimType)
    ensures FirstValue(claims, t).None? <==> forall j :: 0 <= j < |claims| ==> claims[j].claimType != t
    ensures FirstValue(claims, t).Some? ==>
      exists i :: 0 <= i < |claims| && claims[i].claimType == t && FirstValue(claims, t) == Some(claims[i].value)
                  && forall j :: 0 <= j < i ==> claims[j].claimType != t
  {
    if claims != [] && claims[0].claimType != t {
      PrincipalReadsFirstMatch(claims[1..], t);
      if FirstValue(claims, t).Some? {
        var i :| 0 <= i < |claims[1..]| && claims[1..][i].claimType == t && FirstValue(claims[1..], t) == Some(claims[1..][i].value)
                 && forall j :: 0 <= j < i ==> claims[1..][j].claimType != t;
        assert claims[i + 1] == claims[1..][i];
        assert forall j :: 0 <= j < i + 1 ==> claims[j].claimType != t by {
          forall j | 0 <= j < i + 1 ensures claims[j].claimType != t {
            if j > 0 { assert claims[j] == claims[1..][j - 1]; }
          }
        }
      } else {
        assert forall j :: 0 <= j < |claims| ==> claims[j].claimType != t by {
          forall j | 0 <= j < |claims| ensures claims[j].claimType != t {
            if j > 0 { assert claims[j] == claims[1..][j - 1]; }
          }
        }
      }
    }
  }

  // ---------------------------------------------------------------------
  // Login

  /** The ids of the accounts holding an email. */
  function IdsWithEmail(accounts: map<string, Account>, email: string): set<string>
  {
    set id | id in accounts && accounts[id].email == email
  }

  /** The roles recorded for an account; none for an unknown id. */
  function RolesIn(userRoles: map<string, seq<string>>, id: string): seq<string>
  {
    if id in userRoles then userRoles[id] else []
  }

  lemma SingletonHasElement<T>(s: set<T>)
    requires |s| == 1
    ensures exists x :: s == {x}
  {
    var x :| x in s;
    assert |s - {x}| == 0;
    assert s == {x};
  }

  /**
   * The outcome of a login: 404 for an unknown email, 401 for a wrong
   * password, a token only for the right one. The store's lookup expects at
   * most one account per email and throws otherwise.
   */
  function LoginOutcome(accounts: map<string, Account>, userRoles: map<string, seq<string>>,
                        email: string, password: string, verify: (string, string) -> bool, now: int): (r: Reply<Token>)
    ensures IdsWithEmail(accounts, email) == {} <==> r == Refused(404, EmailNotRegistered)
    ensures |IdsWithEmail(accounts, email)| > 1 <==> r == Raised(ExceptionMiddleware.Other(MoreThanOneElement))
    ensures r == Refused(401, InvalidCredentials) <==>
      exists id :: IdsWithEmail(accounts, email) == {id} && !verify(accounts[id].passwordHash, password)
    ensures r.Ok? <==>
      exists id :: IdsWithEmail(accounts, email) == {id} && verify(accounts[id].passwordHash, password)
    ensures r.Ok? ==>
      exists id :: IdsWithEmail(accounts, email) == {id} && r.value == TokenFor(accounts[id], RolesIn(userRoles, id), now)
  {
    var ids := IdsWithEmail(accounts, email);
    if ids == {} then Refused(404, EmailNotRegistered)
    else if |ids| > 1 then Raised(ExceptionMiddleware.Other(MoreThanOneElement))
    else
      SingletonHasElement(ids);
      var id :| ids == {id};
      if verify(accounts[id].passwordHash, password) then Ok(TokenFor(accounts[id], RolesIn(userRoles, id), now))
      else Refused(401, InvalidCredentials)
  }

  // ---------------------------------------------------------------------
  // Authorization

  /** The check shared by update and delete: the caller is the target, or an admin. */
  predicate MayModify(callerId: Option<string>, targetId: string, isAdmin: bool)
  {
    callerId == Some(targetId) || isAdmin
  }

  /** Update finds the caller by a fresh lookup of the principal's id. */
  predicate CallerResolves(accounts: map<string, Account>, caller: Principal)
  {
    caller.nameIdentifier.Some? && caller.nameIdentifier.value in accounts
  }

  /** Update's test: the caller's stored account and stored roles decide. */
  predicate UpdateAuthorized(accounts: map<string, Account>, userRoles: map<string, seq<string>>, caller: Principal, id: string)
  {
    CallerResolves(accounts, caller)
    && MayModify(Some(accounts[caller.nameIdentifier.value].id), id, AdminRole in RolesIn(userRoles, caller.nameIdentifier.value))
  }

  /** Delete's test: the request's own claims decide. */
  predicate DeleteAuthorized(caller: Principal, id: string)
  {
    MayModify(caller.nameIdentifier, id, AdminRole in caller.roles)
  }

  /** Modification is refused exactly to a caller who is neither the target nor an admin. */
  lemma MayModifyIsSelfOrAdmin(callerId: Option<string>, targetId: string, isAdmin: bool)
    ensures !MayModify(callerId, targetId, isAdmin) <==> callerId != Some(targetId) && !isAdmin
    ensures MayModify(Some(targetId), targetId, false) && MayModify(callerId, targetId, true)
  {
  }

  /**
   * In a store filing every account under its own id, update authorises a
   * caller whose id is on file and who is the target or holds the admin role
   * in the store; the roles carried by the request's claims play no part.
   */
  lemma UpdateAuthorizedByStoredRecord(accounts: map<string, Account>, userRoles: map<string, seq<string>>,
                                       caller: Principal, id: string, claimedRoles: seq<string>)
    requires forall k :: k in accounts ==> accounts[k].id == k
    ensures UpdateAuthorized(accounts, userRoles, caller, id) <==>
      && caller.nameIdentifier.Some?
      && caller.nameIdentifier.value in accounts
      && (caller.nameIdentifier.value == id || AdminRole in RolesIn(userRoles, caller.nameIdentifier.value))
    ensures UpdateAuthorized(accounts, userRoles, caller, id) == UpdateAuthorized(accounts, userRoles, caller.(roles := claimedRoles), id)
  {
  }

  /**
   * Delete authorises from the request's claims alone: the caller's claimed
   * id is the target, or the admin role is among the claimed roles.
   */
  lemma DeleteAuthorizedByClaims(caller: Principal, id: string)
    ensures DeleteAuthorized(caller, id) <==> caller.nameIdentifier == Some(id) || AdminRole in caller.roles
    ensures caller.nameIdentifier == None && AdminRole !in caller.roles ==> !DeleteAuthorized(caller, id)
  {
  }

  /**
   * For a caller presenting a token issued from the store's current record
   * and roles, the two tests agree: the divergence between update and delete
   * shows only once the store has moved on since issue.
   */
  lemma FreshTokenAuthorizesAlike(accounts: map<string, Account>, userRoles: map<string, seq<string>>,
                                  callerId: string, id: string, now: int)
    requires callerId in accounts && accounts[callerId].id == callerId
    ensures var caller := PrincipalOf(TokenFor(accounts[callerId], RolesIn(userRoles, callerId), now).claims);
      UpdateAuthorized(accounts, userRoles, caller, id) <==> DeleteAuthorized(caller, id)
  {
    TokenRoundTrip(accounts[callerId], RolesIn(userRoles, callerId), now);
  }

  /** An admin token whose account has since been deleted still passes delete's test, not update's. */
  lemma StaleAdminTokenDivergence(caller: Principal, id: string, accounts: map<string, Account>, userRoles: map<string, seq<string>>)
    requires AdminRole in caller.roles
    requires caller.nameIdentifier.Some? && caller.nameIdentifier.value !in accounts
    ensures DeleteAuthorized(caller, id)
    ensures !UpdateAuthorized(accounts, userRoles, caller, id)
  {
  }

  // ---------------------------------------------------------------------
  // Partial update

  /** `char.IsWhiteSpace`: the Unicode separators and the listed control characters. */
  predicate IsWhiteSpace(c: char)
  {
    || c == ' ' || ('\t' <= c <= '\r') || c == '\U{0085}' || c == '\U{00A0}' || c == '\U{1680}'
    || ('\U{2000}' <= c <= '\U{200A}') || c == '\U{2028}' || c == '\U{2029}' || c == '\U{202F}'
    || c == '\U{205F}' || c == '\U{3000}'
  }

  /** `string.IsNullOrWhiteSpace`. */
  predicate IsNullOrWhiteSpace(s: Option<string>)
  {
    s.None? || forall i :: 0 <= i < |s.value| ==> IsWhiteSpace(s.value[i])
  }

  /**
   * The separators and controls that count as white space, and format
   * characters that do not: the zero-width space and the byte-order mark.
   */
  lemma WhiteSpaceMembers()
    ensures IsWhiteSpace(' ') && IsWhiteSpace('\t') && IsWhiteSpace('\n') && IsWhiteSpace('\r')
    ensures IsWhiteSpace('\U{00A0}') && IsWhiteSpace('\U{2003}') && IsWhiteSpace('\U{3000}')
    ensures !IsWhiteSpace('a') && !IsWhiteSpace('_') && !IsWhiteSpace('\U{200B}') && !IsWhiteSpace('\U{FEFF}')
  {
  }

  /** A supplied value replaces a field only when it is not blank. */
  predicate Overwrites(s: Option<string>)
  {
    !IsNullOrWhiteSpace(s)
  }

  /**
   * The account after an authorised update at `now`: each of user name,
   * email, first and last name takes the supplied value only when it is not
   * blank; id, password and creation time never change; the update time is
   * always refreshed.
   */
  function Updated(a: Account, dto: UpdateDtoRules.UpdateDto, now: int): (b: Account)
    ensures b.id == a.id && b.passwordHash == a.passwordHash && b.createdAt == a.createdAt
    ensures b.updatedAt == now
    ensures b.userName != a.userName ==> Overwrites(dto.username) && b.userName == dto.username.value
    ensures b.email != a.email ==> Overwrites(dto.email) && b.email == dto.email.value
    ensures b.firstName != a.firstName ==> Overwrites(dto.firstName) && b.firstName == dto.firstName
    ensures b.lastName != a.lastName ==> Overwrites(dto.lastName) && b.lastName == dto.lastName
    ensures Overwrites(dto.username) ==> b.userName == dto.username.value
    ensures Overwrites(dto.email) ==> b.email == dto.email.value
    ensures Overwrites(dto.firstName) ==> b.firstName == dto.firstName
    ensures Overwrites(dto.lastName) ==> b.lastName == dto.lastName
  {
    a.(
      userName := if Overwrites(dto.username) then dto.username.value else a.userName,
      email := if Overwrites(dto.email) then dto.email.value else a.email,
      firstName := if Overwrites(dto.firstName) then dto.firstName else a.firstName,
      lastName := if Overwrites(dto.lastName) then dto.lastName else a.lastName,
      updatedAt := now)
  }

  /** Applying the same payload twice gives what applying it once gives. */
  lemma UpdateIdempotent(a: Account, dto: UpdateDtoRules.UpdateDto, now: int)
    ensures Updated(Updated(a, dto, now), dto, now) == Updated(a, dto, now)
  {
  }

  /**
   * A payload whose four profile fields are all absent, empty or blank
   * changes nothing but the update time.
   */
  lemma BlankPayloadOnlyRefreshesTimestamp(a: Account, dto: UpdateDtoRules.UpdateDto, now: int)
    requires IsNullOrWhiteSpace(dto.username) && IsNullOrWhiteSpace(dto.email)
    requires IsNullOrWhiteSpace(dto.firstName) && IsNullOrWhiteSpace(dto.lastName)
    ensures Updated(a, dto, now) == a.(updatedAt := now)
    ensures IsNullOrWhiteSpace(None) && IsNullOrWhiteSpace(Some("")) && IsNullOrWhiteSpace(Some(" \t"))
    ensures !IsNullOrWhiteSpace(Some(" x "))
  {
    assert IsWhiteSpace(" \t"[0]) && IsWhiteSpace(" \t"[1]);
    assert !IsWhiteSpace(" x "[1]);
  }

  /** A payload setting only the email leaves user name and names as they were. */
  lemma EmailOnlyUpdate(a: Account, email: string, now: int)
    requires Overwrites(Some(email))
    ensures var b := Updated(a, UpdateDtoRules.UpdateDto(None, Some(email), None, None, None), now);
      b == a.(email := email, updatedAt := now)
  {
  }

  // ---------------------------------------------------------------------
  // Listing

  /** C#'s unchecked `int` arithmetic: the result wrapped into 32 bits. */
  function Wrap32(x: int): (w: int32)
    ensures (w as int - x) % 0x1_0000_0000 == 0
  {
    ((x + 0x8000_0000) % 0x1_0000_0000 - 0x8000_0000) as int32
  }

  /** Congruence modulo 2^32 survives multiplying both sides by the same factor. */
  lemma CongruentProducts(a: int, b: int, c: int)
    requires (a - b) % 0x1_0000_0000 == 0
    ensures (a * c - b * c) % 0x1_0000_0000 == 0
  {
    var q := (a - b) / 0x1_0000_0000;
    assert a - b == q * 0x1_0000_0000;
    assert a * c - b * c == (q * c) * 0x1_0000_0000;
  }

  lemma CongruentTransitive(x: int, y: int, z: int)
    requires (x - y) % 0x1_0000_0000 == 0 && (y - z) % 0x1_0000_0000 == 0
    ensures (x - z) % 0x1_0000_0000 == 0
  {
  }

  /**
   * The number of accounts skipped: `(pageNumber - 1) * pageSize` in 32-bit
   * arithmetic, that is the 32-bit value congruent to the mathematical
   * product modulo 2^32.
   */
  function Offset(pageNumber: int32, pageSize: int32): (o: int32)
    ensures (o as int - (pageNumber as int - 1) * pageSize as int) % 0x1_0000_0000 == 0
  {
    var n := Wrap32(pageNumber as int - 1);
    var o := Wrap32(n as int * pageSize as int);
    CongruentProducts(n as int, pageNumber as int - 1, pageSize as int);
    CongruentTransitive(o as int, n as int * pageSize as int, (pageNumber as int - 1) * pageSize as int);
    o
  }

  /** When the product fits in 32 bits, the offset is the mathematical one. */
  lemma OffsetWithoutOverflow(pageNumber: int32, pageSize: int32)
    requires -0x8000_0000 <= pageNumber as int - 1
    requires -0x8000_0000 <= (pageNumber as int - 1) * pageSize as int < 0x8000_0000
    ensures Offset(pageNumber, pageSize) as int == (pageNumber as int - 1) * pageSize as int
  {
  }

  /** A page number whose offset wraps round: page 0x4000_0001 of size 4 starts at 0. */
  lemma OffsetWrapsAround()
    ensures Offset(0x4000_0001, 4) == 0
  {
  }

  /** Where `Skip` starts: a non-positive count skips nothing, a large one everything. */
  function PageStart(count: nat, offset: int32): nat
  {
    if offset <= 0 then 0 else if offset as int >= count then count else offset as int
  }

  /** How many accounts `Take` keeps from what is left. */
  function PageLength(count: nat, start: nat, pageSize: int32): nat
    requires start <= count
  {
    if pageSize <= 0 then 0 else if pageSize as int >= count - start then count - start else pageSize as int
  }

  /** `Enumerable.Skip`, element by element: drop up to `n` from the front. */
  function SkipSeq<T>(s: seq<T>, n: int): seq<T>
  {
    if n <= 0 || s == [] then s else SkipSeq(s[1..], n - 1)
  }

  /** `Enumerable.Take`, element by element: keep up to `n` from the front. */
  function TakeSeq<T>(s: seq<T>, n: int): seq<T>
  {
    if n <= 0 || s == [] then [] else [s[0]] + TakeSeq(s[1..], n - 1)
  }

  /** `PageStart` is where `Skip` by the offset leaves the sequence. */
  lemma {:induction false} SkipDropsPageStart<T>(s: seq<T>, offset: int32)
    ensures SkipSeq(s, offset as int) == s[PageStart(|s|, offset)..]
  {
    if offset > 0 && s != [] {
      SkipDropsPageStart(s[1..], offset - 1);
      assert s[1..][PageStart(|s| - 1, offset - 1)..] == s[PageStart(|s|, offset)..];
    }
  }

  /** `PageLength` is how many elements `Take` by the page size keeps. */
  lemma {:induction false} TakeKeepsPageLength<T>(s: seq<T>, pageSize: int32)
    ensures TakeSeq(s, pageSize as int) == s[..PageLength(|s|, 0, pageSize)]
  {
    if pageSize > 0 && s != [] {
      TakeKeepsPageLength(s[1..], pageSize - 1);
      assert [s[0]] + s[1..][..PageLength(|s| - 1, 0, pageSize - 1)] == s[..PageLength(|s|, 0, pageSize)];
    }
  }

  /**
   * Without overflow, page n + 1 starts where page n ends: consecutive pages
   * neither skip nor repeat an account.
   */
  lemma ConsecutivePagesAdjacent(count: nat, pageNumber: int32, pageSize: int32)
    requires 1 <= pageNumber < 0x7fff_ffff && 0 < pageSize
    requires pageNumber as int * pageSize as int < 0x8000_0000
    ensures var first := PageStart(count, Offset(pageNumber, pageSize));
      PageStart(count, Offset(pageNumber + 1, pageSize)) == first + PageLength(count, first, pageSize)
  {
    assert (pageNumber as int - 1) * pageSize as int <= pageNumber as int * pageSize as int;
    OffsetWithoutOverflow(pageNumber, pageSize);
    OffsetWithoutOverflow(pageNumber + 1, pageSize);
    assert pageNumber as int * pageSize as int == (pageNumber as int - 1) * pageSize as int + pageSize as int;
  }

  function Summary(a: Account): UserSummary
  {
    UserSummary(a.id, a.userName, a.email)
  }

  /** `order` lists every account id exactly once: the store's enumeration order. */
  predicate Enumerates(order: seq<string>, keys: set<string>)
  {
    && (forall i, j :: 0 <= i < j < |order| ==> order[i] != order[j])
    && (forall i :: 0 <= i < |order| ==> order[i] in keys)
    && (forall k :: k in keys ==> k in order)
  }

  function Summaries(accounts: map<string, Account>, ids: seq<string>): (s: seq<UserSummary>)
    requires forall i :: 0 <= i < |ids| ==> ids[i] in accounts
    ensures |s| == |ids|
    ensures forall k :: 0 <= k < |ids| ==> s[k] == Summary(accounts[ids[k]])
  {
    if ids == [] then [] else [Summary(accounts[ids[0]])] + Summaries(accounts, ids[1..])
  }

  /**
   * One page of the listing: at most `pageSize` accounts, the ones from the
   * offset on in store order, with the total count of the whole store.
   */
  function UsersPageOf(accounts: map<string, Account>, order: seq<string>, pageNumber: int32, pageSize: int32): (p: UsersPage)
    requires forall i :: 0 <= i < |order| ==> order[i] in accounts
    ensures p.totalUsers == |accounts| && p.pageNumber == pageNumber && p.pageSize == pageSize
    ensures |p.users| <= if pageSize < 0 then 0 else pageSize as int
    ensures var start := PageStart(|order|, Offset(pageNumber, pageSize));
      && |p.users| == PageLength(|order|, start, pageSize)
      && forall k :: 0 <= k < |p.users| ==> start + k < |order| && p.users[k] == Summary(accounts[order[start + k]])
  {
    var start := PageStart(|order|, Offset(pageNumber, pageSize));
    var ids := order[start..start + PageLength(|order|, start, pageSize)];
    UsersPage(|accounts|, pageNumber, pageSize, Summaries(accounts, ids))
  }

  /**
   * The page lists exactly the accounts that skipping the offset and taking
   * the page size from the store's order leaves, in that order.
   */
  lemma PageIsSkipThenTake(accounts: map<string, Account>, order: seq<string>, pageNumber: int32, pageSize: int32)
    requires forall i :: 0 <= i < |order| ==> order[i] in accounts
    ensures var ids := TakeSeq(SkipSeq(order, Offset(pageNumber, pageSize) as int), pageSize as int);
      && (forall i :: 0 <= i < |ids| ==> ids[i] in accounts)
      && UsersPageOf(accounts, order, pageNumber, pageSize).users == Summaries(accounts, ids)
  {
    var start := PageStart(|order|, Offset(pageNumber, pageSize));
    SkipDropsPageStart(order, Offset(pageNumber, pageSize));
    TakeKeepsPageLength(order[start..], pageSize);
    assert order[start..][..PageLength(|order| - start, 0, pageSize)] == order[start..start + PageLength(|order|, start, pageSize)];
  }

  lemma {:induction false} DistinctCardinality(s: seq<string>)
    requires forall i, j :: 0 <= i < j < |s| ==> s[i] != s[j]
    ensures |set x | x in s| == |s|
  {
    if s != [] {
      var init := s[..|s| - 1];
      DistinctCardinality(init);
      assert (set x | x in s) == (set x | x in init) + {s[|s| - 1]};
      assert s[|s| - 1] !in init;
    }
  }

  /** A page never holds more accounts than the total it reports. */
  lemma PageWithinTotal(accounts: map<string, Account>, order: seq<string>, pageNumber: int32, pageSize: int32)
    requires Enumerates(order, accounts.Keys)
    ensures |UsersPageOf(accounts, order, pageNumber, pageSize).users| <= UsersPageOf(accounts, order, pageNumber, pageSize).totalUsers
  {
    DistinctCardinality(order);
    assert (set x | x in order) == accounts.Keys;
  }

  // ---------------------------------------------------------------------
  // The store and the actions

  /**
   * What the store keeps true: every account has a role list and is filed
   * under its own id, every assigned role is registered, and a non-empty
   * registry holds both well-known roles.
   */
  ghost predicate StoreInvariant(accounts: map<string, Account>, roles: set<string>, userRoles: map<string, seq<string>>)
  {
    && accounts.Keys == userRoles.Keys
    && (forall id :: id in accounts ==> accounts[id].id == id)
    && (forall id :: id in userRoles ==> |userRoles[id]| > 0)
    && (forall id, i :: id in userRoles && 0 <= i < |userRoles[id]| ==> userRoles[id][i] in roles)
    && (roles != {} ==> AdminRole in roles && UserRole in roles)
  }

  lemma BootstrapKeepsInvariant(accounts: map<string, Account>, roles: set<string>, userRoles: map<string, seq<string>>)
    requires StoreInvariant(accounts, roles, userRoles)
    ensures StoreInvariant(accounts, BootstrapRoles(roles), userRoles)
    ensures UserRole in BootstrapRoles(roles)
  {
  }

  lemma InsertKeepsInvariant(accounts: map<string, Account>, roles: set<string>, userRoles: map<string, seq<string>>, a: Account)
    requires StoreInvariant(accounts, roles, userRoles)
    requires a.id !in accounts && UserRole in roles
    ensures StoreInvariant(accounts[a.id := a], roles, userRoles[a.id := [UserRole]])
  {
  }

  class AccountStore {
    /** Accounts by id. */
    var accounts: map<string, Account>
    /** The role registry. */
    var roles: set<string>
    /** Each account's roles, in the order the store lists them. */
    var userRoles: map<string, seq<string>>
    /** The ids of the accounts a sign-in cookie was issued for, in order. */
    var signIns: seq<string>

    ghost predicate Valid()
      reads this
    {
      StoreInvariant(accounts, roles, userRoles)
    }

    constructor ()
      ensures Valid()
      ensures accounts == map[] && roles == {} && userRoles == map[] && signIns == []
    {
      accounts, roles, userRoles, signIns := map[], {}, map[], [];
    }

    /**
     * Registers an account under the fresh id `newId`. The role registry is
     * bootstrapped first, even for an invalid payload; an invalid payload
     * (`modelErrors`) or a store rejection (`createErrors`) then answers 400
     * with nothing else changed. On success the account is stored with both
     * timestamps at `now`, given the `User` role and signed in.
     */
    method Register(username: string, email: string, passwordHash: string,
                    modelErrors: seq<string>, createErrors: seq<string>, newId: string, now: int)
      returns (r: Reply<string>)
      requires Valid()
      requires newId !in accounts
      modifies this
      ensures Valid()
      ensures roles == BootstrapRoles(old(roles))
      ensures modelErrors != [] ==> r == BadRequest(modelErrors)
      ensures modelErrors == [] && createErrors != [] ==> r == BadRequest(createErrors)
      ensures r.Ok? <==> modelErrors == [] && createErrors == []
      ensures !r.Ok? ==> accounts == old(accounts) && userRoles == old(userRoles) && signIns == old(signIns)
      ensures r.Ok? ==>
        && accounts == old(accounts)[newId := Account(newId, username, email, passwordHash, None, None, now, now)]
        && userRoles == old(userRoles)[newId := [UserRole]]
        && signIns == old(signIns) + [newId]
      ensures r.Ok? ==> (r.value == AdminRegistered <==> AdminRole in userRoles[newId])
      ensures r.Ok? ==> r.value == UserRegistered
    {
      BootstrapKeepsInvariant(accounts, roles, userRoles);
      if roles == {} {
        roles := roles + {AdminRole};
        roles := roles + {UserRole};
      }
      if modelErrors != [] {
        return BadRequest(modelErrors);
      }
      var application := Account(newId, username, email, passwordHash, None, None, now, now);
      if createErrors != [] {
        return BadRequest(createErrors);
      }
      ghost var registry := roles;
      assert StoreInvariant(accounts, registry, userRoles) && UserRole in registry;
      InsertKeepsInvariant(accounts, registry, userRoles, application);
      accounts := accounts[newId := application];
      var isFirstUser := IsFirstUser(accounts);
      FirstUserTestNeverHolds(accounts, newId);
      var role := if isFirstUser then AdminRole else UserRole;
      userRoles := userRoles[newId := [role]];
      signIns := signIns + [newId];
      r := Ok(if isFirstUser then AdminRegistered else UserRegistered);
    }

    /**
     * The registration request as the controller receives it: the framework's
     * model validation answers an invalid payload with 400 before the action
     * runs, so nothing changes, the role registry included; a valid payload
     * reaches the action.
     */
    method RegisterRequest(username: string, email: string, passwordHash: string,
                           modelErrors: seq<string>, createErrors: seq<string>, newId: string, now: int)
      returns (r: Reply<string>)
      requires Valid()
      requires newId !in accounts
      modifies this
      ensures Valid()
      ensures modelErrors != [] ==>
        && r == BadRequest(modelErrors)
        && accounts == old(accounts) && roles == old(roles) && userRoles == old(userRoles) && signIns == old(signIns)
      ensures modelErrors == [] ==> roles == BootstrapRoles(old(roles))
      ensures modelErrors == [] && createErrors != [] ==>
        r == BadRequest(createErrors) && accounts == old(accounts) && userRoles == old(userRoles) && signIns == old(signIns)
      ensures r.Ok? <==> modelErrors == [] && createErrors == []
      ensures r.Ok? ==>
        && r.value == UserRegistered
        && accounts == old(accounts)[newId := Account(newId, username, email, passwordHash, None, None, now, now)]
        && userRoles == old(userRoles)[newId := [UserRole]]
        && signIns == old(signIns) + [newId]
    {
      if modelErrors != [] {
        return BadRequest(modelErrors);
      }
      r := Register(username, email, passwordHash, modelErrors, createErrors, newId, now);
    }

    /** Builds the token's claims: identity claims, then one claim per stored role. */
    method GenerateJwtToken(user: Account, now: int) returns (t: Token)
      ensures t == TokenFor(user, RolesIn(userRoles, user.id), now)
    {
      var claims := [Claim(Sub, user.id), Claim(Email, user.email), Claim(Name, user.userName)];
      var roleList := RolesIn(userRoles, user.id);
      for i := 0 to |roleList|
        invariant claims == IdentityClaims(user) + RoleClaims(roleList[..i])
      {
        assert roleList[..i + 1][..i] == roleList[..i];
        claims := claims + [Claim(Role, roleList[i])];
      }
      assert roleList[..|roleList|] == roleList;
      t := Token(claims, now + TokenLifetime);
    }

    /** Logs in by email and password; only the right password signs in. */
    method Login(email: string, password: string, verify: (string, string) -> bool, now: int)
      returns (r: Reply<Token>)
      requires Valid()
      modifies this`signIns
      ensures r == LoginOutcome(accounts, userRoles, email, password, verify, now)
      ensures !r.Ok? ==> signIns == old(signIns)
      ensures r.Ok? ==> exists id :: IdsWithEmail(accounts, email) == {id} && signIns == old(signIns) + [id]
    {
      var ids := IdsWithEmail(accounts, email);
      if ids == {} {
        return Refused(404, EmailNotRegistered);
      }
      if |ids| > 1 {
        return Raised(ExceptionMiddleware.Other(MoreThanOneElement));
      }
      SingletonHasElement(ids);
      var id :| ids == {id};
      var user := accounts[id];
      if !verify(user.passwordHash, password) {
        return Refused(401, InvalidCredentials);
      }
      signIns := signIns + [id];
      var token := GenerateJwtToken(user, now);
      r := Ok(token);
    }

    /** Looks an account up: 404 when absent, else its public fields unchanged. */
    method GetUserById(id: string) returns (r: Reply<UserDto>)
      requires Valid()
      ensures id !in accounts <==> r == Refused(404, UserNotFound)
      ensures id in accounts ==> r.Ok?
      ensures r.Ok? ==>
        var a := accounts[id];
        r.value == UserDto(id, a.userName, a.email, a.firstName, a.lastName, a.createdAt, a.updatedAt)
    {
      if id !in accounts {
        return Refused(404, UserNotFound);
      }
      var user := accounts[id];
      r := Ok(UserDto(user.id, user.userName, user.email, user.firstName, user.lastName, user.createdAt, user.updatedAt));
    }

    /**
     * Updates a profile. A missing target answers 404 before the caller is
     * even looked at; the caller is then looked up afresh in the store (a
     * caller no longer there makes the role check throw); a caller who is
     * neither the target nor an admin gets 403. Otherwise the target's fields
     * are overwritten as `Updated` says and saved, unless the store rejects.
     */
    method UpdateUserProfile(id: string, dto: UpdateDtoRules.UpdateDto, caller: Principal,
                             updateErrors: seq<string>, now: int)
      returns (r: Reply<string>)
      requires Valid()
      modifies this`accounts
      ensures Valid()
      ensures id !in old(accounts) ==> r == Refused(404, UpdateTargetNotFound)
      ensures id in old(accounts) && !CallerResolves(old(accounts), caller) ==>
        r == Raised(ExceptionMiddleware.Argument(NullUserArgument))
      ensures (id in old(accounts) && CallerResolves(old(accounts), caller)
               && !UpdateAuthorized(old(accounts), userRoles, caller, id)) ==> r == Refused(403, UpdateForbidden)
      ensures id in old(accounts) && UpdateAuthorized(old(accounts), userRoles, caller, id) && updateErrors != [] ==>
        r == BadRequest(updateErrors)
      ensures r.Ok? <==> id in old(accounts) && UpdateAuthorized(old(accounts), userRoles, caller, id) && updateErrors == []
      ensures !r.Ok? ==> accounts == old(accounts)
      ensures r.Ok? ==> r.value == ProfileUpdated && accounts == old(accounts)[id := Updated(old(accounts)[id], dto, now)]
    {
      if id !in accounts {
        return Refused(404, UpdateTargetNotFound);
      }
      var user := accounts[id];
      if caller.nameIdentifier.None? || caller.nameIdentifier.value !in accounts {
        return Raised(ExceptionMiddleware.Argument(NullUserArgument));
      }
      var currentUser := accounts[caller.nameIdentifier.value];
      var isAdmin := AdminRole in RolesIn(userRoles, currentUser.id);
      if currentUser.id != id && !isAdmin {
        return Refused(403, UpdateForbidden);
      }
      if !IsNullOrWhiteSpace(dto.username) {
        user := user.(userName := dto.username.value);
      }
      if !IsNullOrWhiteSpace(dto.email) {
        user := user.(email := dto.email.value);
      }
      if !IsNullOrWhiteSpace(dto.firstName) {
        user := user.(firstName := dto.firstName);
      }
      if !IsNullOrWhiteSpace(dto.lastName) {
        user := user.(lastName := dto.lastName);
      }
      user := user.(updatedAt := now);
      assert user == Updated(accounts[id], dto, now);
      if updateErrors != [] {
        return BadRequest(updateErrors);
      }
      accounts := accounts[id := user];
      r := Ok(ProfileUpdated);
    }

    /**
     * The update request as the controller receives it: the payload's field
     * rules run first and an invalid payload answers 400 with their messages,
     * leaving the store alone; a valid payload gets exactly the action's
     * answers.
     */
    method UpdateRequest(id: string, dto: UpdateDtoRules.UpdateDto, isEmail: string -> bool, caller: Principal,
                         updateErrors: seq<string>, now: int)
      returns (r: Reply<string>)
      requires Valid()
      modifies this`accounts
      ensures Valid()
      ensures UpdateDtoRules.Validate(dto, isEmail) != [] ==> r.BadRequest? && accounts == old(accounts)
      ensures UpdateDtoRules.Validate(dto, isEmail) != [] ==>
        forall m :: m in r.errors <==> exists e :: e in UpdateDtoRules.Validate(dto, isEmail) && e.message == m
      ensures UpdateDtoRules.Validate(dto, isEmail) == [] && id !in old(accounts) ==> r == Refused(404, UpdateTargetNotFound)
      ensures UpdateDtoRules.Validate(dto, isEmail) == [] && id in old(accounts) && !CallerResolves(old(accounts), caller) ==>
        r == Raised(ExceptionMiddleware.Argument(NullUserArgument))
      ensures (UpdateDtoRules.Validate(dto, isEmail) == [] && id in old(accounts) && CallerResolves(old(accounts), caller)
               && !UpdateAuthorized(old(accounts), userRoles, caller, id)) ==> r == Refused(403, UpdateForbidden)
      ensures (UpdateDtoRules.Validate(dto, isEmail) == [] && id in old(accounts)
               && UpdateAuthorized(old(accounts), userRoles, caller, id) && updateErrors != []) ==> r == BadRequest(updateErrors)
      ensures r.Ok? <==>
        UpdateDtoRules.Validate(dto, isEmail) == [] && id in old(accounts)
        && UpdateAuthorized(old(accounts), userRoles, caller, id) && updateErrors == []
      ensures !r.Ok? ==> accounts == old(accounts)
      ensures r.Ok? ==>
        r.value == ProfileUpdated && id in old(accounts) && accounts == old(accounts)[id := Updated(old(accounts)[id], dto, now)]
    {
      var errs := UpdateDtoRules.Validate(dto, isEmail);
      if errs != [] {
        var msgs := seq(|errs|, i requires 0 <= i < |errs| => errs[i].message);
        assert forall e :: e in errs ==> e.message in msgs by {
          forall e | e in errs ensures e.message in msgs {
            var i :| 0 <= i < |errs| && errs[i] == e;
            assert msgs[i] == e.message;
          }
        }
        return BadRequest(msgs);
      }
      r := UpdateUserProfile(id, dto, caller, updateErrors, now);
    }

    /**
     * Deletes an account. The caller's id and admin role are read from the
     * request's claims, and a caller who is neither the target nor an admin
     * gets 403 before the target is even looked up; then 404 for a missing
     * target, 400 if the store rejects, else exactly the target goes.
     */
    method DeleteUser(id: string, caller: Principal, deleteErrors: seq<string>) returns (r: Reply<string>)
      requires Valid()
      modifies this`accounts, this`userRoles
      ensures Valid()
      ensures !DeleteAuthorized(caller, id) ==> r == Refused(403, DeleteForbidden)
      ensures DeleteAuthorized(caller, id) && id !in old(accounts) ==> r == Refused(404, UserNotFound)
      ensures DeleteAuthorized(caller, id) && id in old(accounts) && deleteErrors != [] ==> r == BadRequest(deleteErrors)
      ensures r.Ok? <==> DeleteAuthorized(caller, id) && id in old(accounts) && deleteErrors == []
      ensures !r.Ok? ==> accounts == old(accounts) && userRoles == old(userRoles)
      ensures r.Ok? ==>
        && r.value == UserDeleted
        && accounts == old(accounts) - {id}
        && userRoles == old(userRoles) - {id}
    {
      var loggedInUserId := caller.nameIdentifier;
      var isAdmin := AdminRole in caller.roles;
      if loggedInUserId != Some(id) && !isAdmin {
        return Refused(403, DeleteForbidden);
      }
      if id !in accounts {
        return Refused(404, UserNotFound);
      }
      if deleteErrors != [] {
        return BadRequest(deleteErrors);
      }
      accounts := accounts - {id};
      userRoles := userRoles - {id};
      r := Ok(UserDeleted);
    }

    /**
     * The admin listing (the role gate itself is the framework's). An
     * unauthenticated request gets 401; otherwise one page in the store's
     * enumeration order `order`, with the total count.
     */
    method GetAllUsers(isAuthenticated: bool, order: seq<string>, pageNumber: int32, pageSize: int32)
      returns (r: Reply<UsersPage>)
      requires Valid()
      requires Enumerates(order, accounts.Keys)
      ensures !isAuthenticated ==> r == Refused(401, LogInFirst)
      ensures isAuthenticated ==> r == Ok(UsersPageOf(accounts, order, pageNumber, pageSize))
      ensures r.Ok? ==> |r.value.users| <= r.value.totalUsers
    {
      if !isAuthenticated {
        return Refused(401, LogInFirst);
      }
      PageWithinTotal(accounts, order, pageNumber, pageSize);
      r := Ok(UsersPageOf(accounts, order, pageNumber, pageSize));
    }
  }
}
