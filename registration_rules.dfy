/**
 * The registration form's field validators
 * (frontend/src/components/RegistrationForm.tsx). Each returns no error
 * (`None`, the source's `undefined`) or the message of the first rule the
 * value breaks. `ValidateName` is also the profile page's validator, which
 * frontend/src/pages/ProfilePage.tsx declares word for word again.
 */
module RegistrationRules {
  import opened Wrappers
  import opened Text
  import opened Strength

  /** The one organisational email domain, with its `@`. */
  const EmailDomain := "@getcovered.io"

  /** The labels both forms pass to `validateName`. */
  const FirstNameLabel := "First name"
  const LastNameLabel := "Last name"

  /**
   * The validators' messages. Each is a constructor, so that the form's
   * reasoning compares messages without spelling them out; `Text` is what
   * the page shows.
   */
  datatype Message =
    | NameRequired(field: string)
    | NameTooShort(field: string)
    | NameBadChars(field: string)
    | EmailRequired
    | EmailWrongDomain
    | EmailInvalid
    | PasswordRequired
    | RuleFailed(rule: Rule)
    | ConfirmRequired
    | ConfirmMismatch
    | ServerDetail(text: string)
  {
    function Text(): string
    {
      match this
      case NameRequired(field) => field + " is required"
      case NameTooShort(field) => field + " must be at least 2 characters"
      case NameBadChars(field) => field + " can only contain letters, spaces, and hyphens"
      case EmailRequired => "Work email is required"
      case EmailWrongDomain => "Email must be " + EmailDomain
      case EmailInvalid => "Invalid email format"
      case PasswordRequired => "Password is required"
      case RuleFailed(r) => RuleText(r)
      case ConfirmRequired => "Please confirm your password"
      case ConfirmMismatch => "Passwords do not match"
      case ServerDetail(text) => text
    }
  }

  /** The message `validatePassword` gives for a failing check. */
  function RuleText(r: Rule): string
  {
    match r
    case Length => "Password must be at least 12 characters long"
    case Uppercase => "Password must contain an uppercase letter"
    case Lowercase => "Password must contain a lowercase letter"
    case Number => "Password must contain a number"
    case Symbol => "Password must contain a special character"
    case NoRepeated => "Password cannot have 3 or more repeated characters in a row"
    case DifferentFromEmail => "Password must differ from email username by at least 5 characters"
  }

  /**
   * Only a server detail can be an empty text; every validator message shows
   * something. Distinct checks show distinct texts, and none of them is the
   * "required" text, so telling messages apart by constructor is telling
   * their texts apart.
   */
  lemma MessageTexts(m: Message)
    ensures !m.ServerDetail? ==> m.Text() != ""
    ensures forall r, q :: RuleText(r) == RuleText(q) ==> r == q
    ensures forall r :: RuleText(r) != PasswordRequired.Text()
  {
    assert RuleText(Uppercase)[23] != RuleText(Symbol)[23];
  }

  /** The class `[a-zA-Z\s-]`. */
  predicate IsNameChar(rt: Runtime, c: char)
  {
    IsLetter(c) || IsSpace(rt, c) || c == '-'
  }

  /** `/^[a-zA-Z\s-]+$/.test(name)`. */
  predicate NamePattern(name: string)
  {
    name != [] && forall i :: 0 <= i < |name| ==> IsNameChar(JavaScript, name[i])
  }

  /**
   * `validateName`: whitespace-only names are missing, names shorter than
   * two once trimmed are too short, and the character rule is checked on the
   * untrimmed name.
   */
  function ValidateName(name: string, field: string): (r: Option<Message>)
  {
    if Trim(JavaScript, name) == [] then Some(NameRequired(field))
    else if |Trim(JavaScript, name)| < 2 then Some(NameTooShort(field))
    else if !NamePattern(name) then Some(NameBadChars(field))
    else None
  }

  /** Each of `validateName`'s answers, and the condition on the name that produces it. */
  lemma ValidateNameRules(name: string, field: string)
    ensures ValidateName(name, field) == Some(NameRequired(field)) <==> AllSpace(JavaScript, name)
    ensures ValidateName(name, field) == Some(NameTooShort(field)) <==>
              !AllSpace(JavaScript, name) && |Trim(JavaScript, name)| < 2
    ensures ValidateName(name, field) == Some(NameBadChars(field)) <==>
              |Trim(JavaScript, name)| >= 2 && exists i :: 0 <= i < |name| && !IsNameChar(JavaScript, name[i])
    ensures ValidateName(name, field) == None <==>
              |Trim(JavaScript, name)| >= 2 && forall i :: 0 <= i < |name| ==> IsNameChar(JavaScript, name[i])
  {
    TrimEmptyIffAllSpace(JavaScript, name);
  }

  predicate EndsWith(s: string, suffix: string)
  {
    |suffix| <= |s| && s[|s| - |suffix|..] == suffix
  }

  predicate AllLocalChars(s: string)
  {
    forall i :: 0 <= i < |s| ==> IsEmailLocalChar(s[i])
  }

  /** `/^[a-zA-Z0-9._%+-]+@getcovered\.io$/.test(email)`: some non-empty run of local characters, then the domain. */
  predicate WorkEmailPattern(email: string)
  {
    exists k :: 0 < k <= |email| && AllLocalChars(email[..k]) && email[k..] == EmailDomain
  }

  /** The pattern fixes where the local part ends: it is everything before the domain suffix. */
  lemma WorkEmailPatternSplit(email: string)
    ensures WorkEmailPattern(email) <==>
              |email| > |EmailDomain| && EndsWith(email, EmailDomain)
              && AllLocalChars(email[..|email| - |EmailDomain|])
  {
    var k := |email| - |EmailDomain|;
    if |email| > |EmailDomain| && EndsWith(email, EmailDomain) && AllLocalChars(email[..k]) {
      assert email[k..] == EmailDomain;
    }
  }

  /** `validateEmail`: presence, then the domain suffix (case-sensitive), then the full pattern. */
  function ValidateEmail(email: string): (r: Option<Message>)
  {
    if email == [] then Some(EmailRequired)
    else if !EndsWith(email, EmailDomain) then Some(EmailWrongDomain)
    else if !WorkEmailPattern(email) then Some(EmailInvalid)
    else None
  }

  /** Each of `validateEmail`'s answers and its condition; no error exactly for a non-empty local part followed by the domain. */
  lemma ValidateEmailRules(email: string)
    ensures ValidateEmail(email) == Some(EmailRequired) <==> email == []
    ensures ValidateEmail(email) == Some(EmailWrongDomain) <==> email != [] && !EndsWith(email, EmailDomain)
    ensures ValidateEmail(email) == Some(EmailInvalid) <==> EndsWith(email, EmailDomain) && !WorkEmailPattern(email)
    ensures ValidateEmail(email) == None <==>
              |email| > |EmailDomain| && EndsWith(email, EmailDomain)
              && AllLocalChars(email[..|email| - |EmailDomain|])
  {
    WorkEmailPatternSplit(email);
  }

  /** The domain check is subsumed by the pattern; it only gives a sharper message. The bare domain is rejected. */
  lemma EmailChecksOverlap(email: string)
    ensures WorkEmailPattern(email) ==> EndsWith(email, EmailDomain)
    ensures ValidateEmail(EmailDomain) == Some(EmailInvalid)
  {
    WorkEmailPatternSplit(email);
  }

  /** `r` is the first failing check in declaration order. */
  predicate FirstFailing(c: Checks, r: Rule)
  {
    !Holds(c, r) && forall q :: Rank(q) < Rank(r) ==> Holds(c, q)
  }

  /** All seven checks pass exactly when every field of the record is true. */
  lemma AllChecksHold(c: Checks)
    ensures (forall q :: Holds(c, q)) <==> c == Checks(true, true, true, true, true, true, true)
  {
    if forall q :: Holds(c, q) {
      assert Holds(c, Length) && Holds(c, Uppercase) && Holds(c, Lowercase) && Holds(c, Number);
      assert Holds(c, Symbol) && Holds(c, NoRepeated) && Holds(c, DifferentFromEmail);
    }
  }

  /** The ladder of `if (!strength.checks.x) return ...` in `validatePassword`, as the rule it stops at. */
  function FirstFailure(c: Checks): (f: Option<Rule>)
    ensures f == None <==> forall q :: Holds(c, q)
    ensures f.Some? ==> FirstFailing(c, f.value)
  {
    AllChecksHold(c);
    if !c.length then Some(Length)
    else if !c.uppercase then Some(Uppercase)
    else if !c.lowercase then Some(Lowercase)
    else if !c.number then Some(Number)
    else if !c.symbol then Some(Symbol)
    else if !c.noRepeated then Some(NoRepeated)
    else if !c.differentFromEmail then Some(DifferentFromEmail)
    else None
  }

  /** At most one rule is the first to fail. */
  lemma FirstFailingUnique(c: Checks, a: Rule, b: Rule)
    requires FirstFailing(c, a) && FirstFailing(c, b)
    ensures a == b
  {
  }

  /** The message of the first failing check, if any. */
  function FirstFailureMessage(c: Checks): (m: Option<Message>)
  {
    match FirstFailure(c)
    case None => None
    case Some(r) => Some(RuleFailed(r))
  }

  /** The message names the first failing check, and there is none exactly when all seven pass. */
  lemma FirstFailureMessageCorrect(c: Checks)
    ensures FirstFailureMessage(c) == None <==> forall q :: Holds(c, q)
    ensures forall r :: FirstFailureMessage(c) == Some(RuleFailed(r)) <==> FirstFailing(c, r)
  {
    var f := FirstFailure(c);
    forall r | FirstFailing(c, r) ensures f == Some(r) {
      FirstFailingUnique(c, f.value, r);
    }
  }

  /**
   * `validatePassword`'s answer (its update of the strength meter is the
   * registration form's business): a missing password, else the first
   * failing check's message; no error exactly when the score is 7.
   */
  function ValidatePassword(password: string, email: string): (r: Option<Message>)
  {
    if password == [] then Some(PasswordRequired)
    else FirstFailureMessage(StrengthOf(password, email).checks)
  }

  /**
   * `validatePassword` reports a missing password exactly when it is empty,
   * otherwise exactly the first failing check in declaration order, and no
   * error exactly when the score is 7.
   */
  lemma ValidatePasswordOrder(password: string, email: string)
    ensures ValidatePassword(password, email) == Some(PasswordRequired) <==> password == []
    ensures password != [] ==> (ValidatePassword(password, email) == None <==> StrengthOf(password, email).score == 7)
    ensures forall q :: ValidatePassword(password, email) == Some(RuleFailed(q)) <==>
              password != [] && FirstFailing(ChecksOf(password, email), q)
  {
    FirstFailureMessageCorrect(ChecksOf(password, email));
  }

  /** `validateConfirmPassword`: present, then identical to the password. */
  function ValidateConfirmPassword(password: string, confirmPassword: string): (r: Option<Message>)
    ensures r == None <==> confirmPassword != [] && confirmPassword == password
  {
    if confirmPassword == [] then Some(ConfirmRequired)
    else if password != confirmPassword then Some(ConfirmMismatch)
    else None
  }

  /** "Abc12345!!!x" with "a@domain" is turned away with the repeat message alone. */
  lemma PasswordExample()
    ensures ValidatePassword("Abc12345!!!x", "a@domain") == Some(RuleFailed(NoRepeated))
  {
    StrengthExample();
    ValidatePasswordOrder("Abc12345!!!x", "a@domain");
  }
}
