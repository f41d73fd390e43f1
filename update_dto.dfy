/**
 * The field rules of the profile-update payload (Dtos/UpdateDto.cs).
 *
 * Each property carries a list of validation attributes; every attribute the
 * supplied value breaks contributes its own error message, in declaration
 * order. All five properties are nullable, and every attribute accepts a
 * missing value, so a payload is only checked on the fields it sets.
 */
module UpdateDtoRules {
  import opened Common

  /** The update payload: every field is optional. */
  datatype UpdateDto = UpdateDto(
    username: Option<string>,
    email: Option<string>,
    firstName: Option<string>,
    lastName: Option<string>,
    password: Option<string>)

  /** The two regular expressions the payload uses. */
  datatype Pattern =
    | LettersAndDigits   // ^[a-zA-Z0-9]*$
    | StrongPassword     // ^(?=.*[a-z])(?=.*[A-Z])(?=.*\d)(?=.*[\W_]).{6,}$

  /** A validation attribute together with the error message it reports. */
  datatype Rule =
    | MinLength(min: nat, message: string)
    | MaxLength(max: nat, message: string)
    | RegularExpression(pattern: Pattern, message: string)
    | EmailAddress(message: string)

  /** One reported error: the property it is about and the attribute's message. */
  datatype FieldError = FieldError(field: string, message: string)

  const UsernameTooShort := "Username must be at least 3 characters long"
  const UsernameTooLong := "Username must not exceed 20 characters"
  const UsernameAlphabet := "Username can only contain letters and digits"
  const EmailFormat := "Invalid email format"
  const FirstNameTooShort := "First name must be at least 3 characters long"
  const LastNameTooShort := "Last name must be at least 3 characters long"
  const PasswordTooShort := "Password must be at least 6 characters long"
  const PasswordTooLong := "Password must not exceed 100 characters"
  const PasswordClasses := "Password must contain at least one uppercase letter, one lowercase letter, one digit, and one special character."

  const UsernameRules: seq<Rule> := [
    MinLength(3, UsernameTooShort),
    MaxLength(20, UsernameTooLong),
    RegularExpression(LettersAndDigits, UsernameAlphabet)]
  const EmailRules: seq<Rule> := [EmailAddress(EmailFormat)]
  const FirstNameRules: seq<Rule> := [MinLength(3, FirstNameTooShort)]
  const LastNameRules: seq<Rule> := [MinLength(3, LastNameTooShort)]
  const PasswordRules: seq<Rule> := [
    MinLength(6, PasswordTooShort),
    MaxLength(100, PasswordTooLong),
    RegularExpression(StrongPassword, PasswordClasses)]

  predicate IsAsciiLower(c: char) { 'a' <= c <= 'z' }
  predicate IsAsciiUpper(c: char) { 'A' <= c <= 'Z' }
  predicate IsAsciiDigit(c: char) { '0' <= c <= '9' }
  predicate IsAsciiLetterOrDigit(c: char) { IsAsciiLower(c) || IsAsciiUpper(c) || IsAsciiDigit(c) }

  /** `[\W_]`: a character outside the word class, or an underscore. */
  predicate IsSpecial(c: char) { !IsAsciiLetterOrDigit(c) }

  predicate HasLower(s: string) { exists i :: 0 <= i < |s| && IsAsciiLower(s[i]) }
  predicate HasUpper(s: string) { exists i :: 0 <= i < |s| && IsAsciiUpper(s[i]) }
  predicate HasDigit(s: string) { exists i :: 0 <= i < |s| && IsAsciiDigit(s[i]) }
  predicate HasSpecial(s: string) { exists i :: 0 <= i < |s| && IsSpecial(s[i]) }

  /**
   * Whether a non-empty string matches the pattern over its whole length.
   * For the password pattern: `.` matches anything but a line feed, and the
   * match has to cover the whole string, so a line feed anywhere rejects it;
   * the four look-aheads then each need one character of their class.
   */
  predicate FullMatch(p: Pattern, s: string)
  {
    match p
    case LettersAndDigits =>
      forall i :: 0 <= i < |s| ==> IsAsciiLetterOrDigit(s[i])
    case StrongPassword =>
      && |s| >= 6
      && (forall i :: 0 <= i < |s| ==> s[i] != '\n')
      && HasLower(s) && HasUpper(s) && HasDigit(s) && HasSpecial(s)
  }

  /**
   * Whether one attribute accepts a value. Every attribute accepts a missing
   * value; the regular-expression attribute also accepts the empty string.
   * The email attribute's syntax is the library's, given here as `isEmail`.
   */
  predicate Accepts(rule: Rule, value: Option<string>, isEmail: string -> bool)
  {
    match value
    case None => true
    case Some(s) =>
      match rule
      case MinLength(n, _) => |s| >= n
      case MaxLength(n, _) => |s| <= n
      case RegularExpression(p, _) => s == "" || FullMatch(p, s)
      case EmailAddress(_) => isEmail(s)
  }

  /** The messages of the attributes in `rules` that reject `value`, in order. */
  function Violations(rules: seq<Rule>, value: Option<string>, isEmail: string -> bool): (msgs: seq<string>)
    ensures |msgs| <= |rules|
    ensures msgs == [] <==> forall i :: 0 <= i < |rules| ==> Accepts(rules[i], value, isEmail)
    ensures forall m :: m in msgs <==> exists i :: 0 <= i < |rules| && !Accepts(rules[i], value, isEmail) && rules[i].message == m
    ensures value.None? ==> msgs == []
  {
    if rules == [] then []
    else
      var rest := Violations(rules[1..], value, isEmail);
      assert forall i :: 1 <= i < |rules| ==> rules[i] == rules[1..][i - 1];
      if Accepts(rules[0], value, isEmail) then rest else [rules[0].message] + rest
  }

  /** Tags each message with the property it is about. */
  function Tagged(field: string, msgs: seq<string>): (errs: seq<FieldError>)
    ensures |errs| == |msgs|
    ensures forall i :: 0 <= i < |errs| ==> errs[i] == FieldError(field, msgs[i])
    ensures forall e :: e in errs <==> e.field == field && e.message in msgs
  {
    if msgs == [] then [] else [FieldError(field, msgs[0])] + Tagged(field, msgs[1..])
  }

  /**
   * The five properties' messages, tagged and joined: each error is one
   * property's message, and a property the payload leaves out has none.
   */
  lemma TaggedFields(dto: UpdateDto, vu: seq<string>, ve: seq<string>, vf: seq<string>, vl: seq<string>, vp: seq<string>)
    requires dto.username.None? ==> vu == []
    requires dto.email.None? ==> ve == []
    requires dto.firstName.None? ==> vf == []
    requires dto.lastName.None? ==> vl == []
    requires dto.password.None? ==> vp == []
    ensures var errs := Tagged("Username", vu) + Tagged("Email", ve) + Tagged("FirstName", vf)
                       + Tagged("LastName", vl) + Tagged("Password", vp);
      && (errs == [] <==> vu == [] && ve == [] && vf == [] && vl == [] && vp == [])
      && (forall e :: e in errs ==> Supplies(dto, e.field))
      && (forall f, m :: FieldError(f, m) in errs <==>
            || (f == "Username" && m in vu) || (f == "Email" && m in ve) || (f == "FirstName" && m in vf)
            || (f == "LastName" && m in vl) || (f == "Password" && m in vp))
  {
    var u, e, f, l, p := Tagged("Username", vu), Tagged("Email", ve), Tagged("FirstName", vf),
                         Tagged("LastName", vl), Tagged("Password", vp);
    assert forall x :: x in u + e + f + l + p <==> x in u || x in e || x in f || x in l || x in p;
  }

  /** Whether the payload supplies the named property. */
  predicate Supplies(dto: UpdateDto, field: string)
  {
    || (field == "Username" && dto.username.Some?)
    || (field == "Email" && dto.email.Some?)
    || (field == "FirstName" && dto.firstName.Some?)
    || (field == "LastName" && dto.lastName.Some?)
    || (field == "Password" && dto.password.Some?)
  }

  /**
   * All errors of a payload, property by property in declaration order. The
   * payload is valid exactly when no attribute of any property rejects it;
   * a property is reported with a message exactly when one of its attributes
   * carrying that message rejects the supplied value.
   */
  function Validate(dto: UpdateDto, isEmail: string -> bool): (errs: seq<FieldError>)
    ensures errs == [] <==>
      && Violations(UsernameRules, dto.username, isEmail) == []
      && Violations(EmailRules, dto.email, isEmail) == []
      && Violations(FirstNameRules, dto.firstName, isEmail) == []
      && Violations(LastNameRules, dto.lastName, isEmail) == []
      && Violations(PasswordRules, dto.password, isEmail) == []
    ensures forall e :: e in errs ==> Supplies(dto, e.field)
    ensures forall f, m :: FieldError(f, m) in errs <==>
      || (f == "Username" && m in Violations(UsernameRules, dto.username, isEmail))
      || (f == "Email" && m in Violations(EmailRules, dto.email, isEmail))
      || (f == "FirstName" && m in Violations(FirstNameRules, dto.firstName, isEmail))
      || (f == "LastName" && m in Violations(LastNameRules, dto.lastName, isEmail))
      || (f == "Password" && m in Violations(PasswordRules, dto.password, isEmail))
  {
    var vu := Violations(UsernameRules, dto.username, isEmail);
    var ve := Violations(EmailRules, dto.email, isEmail);
    var vf := Violations(FirstNameRules, dto.firstName, isEmail);
    var vl := Violations(LastNameRules, dto.lastName, isEmail);
    var vp := Violations(PasswordRules, dto.password, isEmail);
    TaggedFields(dto, vu, ve, vf, vl, vp);
    Tagged("Username", vu) + Tagged("Email", ve) + Tagged("FirstName", vf) + Tagged("LastName", vl) + Tagged("Password", vp)
  }

  /** A two-character username is reported under its property with the too-short message. */
  lemma ShortUsernameReported(isEmail: string -> bool)
    ensures FieldError("Username", UsernameTooShort) in Validate(UpdateDto(Some("ab"), None, None, None, None), isEmail)
  {
    UsernameMessages("ab", isEmail);
  }

  /** A supplied username is accepted iff it has 3 to 20 characters, all ASCII letters or digits. */
  lemma UsernameAccepted(u: string, isEmail: string -> bool)
    ensures Violations(UsernameRules, Some(u), isEmail) == [] <==>
      3 <= |u| <= 20 && forall i :: 0 <= i < |u| ==> IsAsciiLetterOrDigit(u[i])
  {
    assert UsernameRules[0] == MinLength(3, UsernameTooShort);
    assert UsernameRules[1] == MaxLength(20, UsernameTooLong);
    assert UsernameRules[2] == RegularExpression(LettersAndDigits, UsernameAlphabet);
  }

  /** Each username message is reported exactly when its own rule is broken. */
  lemma UsernameMessages(u: string, isEmail: string -> bool)
    ensures UsernameTooShort in Violations(UsernameRules, Some(u), isEmail) <==> |u| < 3
    ensures UsernameTooLong in Violations(UsernameRules, Some(u), isEmail) <==> |u| > 20
    ensures UsernameAlphabet in Violations(UsernameRules, Some(u), isEmail) <==>
      exists i :: 0 <= i < |u| && !IsAsciiLetterOrDigit(u[i])
  {
    var v := Violations(UsernameRules, Some(u), isEmail);
    assert UsernameRules[0] == MinLength(3, UsernameTooShort);
    assert UsernameRules[1] == MaxLength(20, UsernameTooLong);
    assert UsernameRules[2] == RegularExpression(LettersAndDigits, UsernameAlphabet);
    if UsernameAlphabet in v {
      var i :| 0 <= i < 3 && !Accepts(UsernameRules[i], Some(u), isEmail) && UsernameRules[i].message == UsernameAlphabet;
      assert i == 2;
    }
  }

  /** A supplied first or last name must have at least 3 characters, each with its own message. */
  lemma NamesAccepted(f: string, l: string, isEmail: string -> bool)
    ensures Violations(FirstNameRules, Some(f), isEmail) == (if |f| < 3 then [FirstNameTooShort] else [])
    ensures Violations(LastNameRules, Some(l), isEmail) == (if |l| < 3 then [LastNameTooShort] else [])
  {
    assert FirstNameRules[1..] == [] && LastNameRules[1..] == [];
  }

  /**
   * A supplied password is accepted iff it has 6 to 100 characters, no line
   * feed, and at least one lowercase letter, uppercase letter, digit and
   * special character.
   */
  lemma PasswordAccepted(p: string, isEmail: string -> bool)
    ensures Violations(PasswordRules, Some(p), isEmail) == [] <==>
      && 6 <= |p| <= 100
      && (forall i :: 0 <= i < |p| ==> p[i] != '\n')
      && HasLower(p) && HasUpper(p) && HasDigit(p) && HasSpecial(p)
  {
    assert PasswordRules[0] == MinLength(6, PasswordTooShort);
    assert PasswordRules[1] == MaxLength(100, PasswordTooLong);
    assert PasswordRules[2] == RegularExpression(StrongPassword, PasswordClasses);
  }

  /** Each password message is reported exactly when its own rule is broken. */
  lemma PasswordMessages(p: string, isEmail: string -> bool)
    ensures PasswordTooShort in Violations(PasswordRules, Some(p), isEmail) <==> |p| < 6
    ensures PasswordTooLong in Violations(PasswordRules, Some(p), isEmail) <==> |p| > 100
    ensures PasswordClasses in Violations(PasswordRules, Some(p), isEmail) <==>
      p != "" && !FullMatch(StrongPassword, p)
  {
    var v := Violations(PasswordRules, Some(p), isEmail);
    assert PasswordRules[0] == MinLength(6, PasswordTooShort);
    assert PasswordRules[1] == MaxLength(100, PasswordTooLong);
    assert PasswordRules[2] == RegularExpression(StrongPassword, PasswordClasses);
    if PasswordClasses in v {
      var i :| 0 <= i < 3 && !Accepts(PasswordRules[i], Some(p), isEmail) && PasswordRules[i].message == PasswordClasses;
      assert i == 2;
    }
  }
}
