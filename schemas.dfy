/**
 * The backend's request validators (backend/app/schemas.py): the name
 * validator shared by `UserBase` and, for present values, `UserUpdate`,
 * which rejects bad names and returns the rest as `v.strip().title()`;
 * and `UserCreate`'s five-rule password policy. A raised `ValueError`
 * is an `Err` carrying its message.
 */
module Schemas {
  import opened Wrappers
  import opened Text
  import Strength

  const NameTooShortText := "Name must be at least 2 characters long"
  const NameBadCharsText := "Name can only contain letters, spaces, and hyphens"

  /** `re.match(r'^[a-zA-Z\s-]+$', v)`, with Python's `\s`. */
  predicate MatchesNamePattern(v: string)
  {
    v != [] && forall i :: 0 <= i < |v| ==> IsLetter(v[i]) || IsSpace(Python, v[i]) || v[i] == '-'
  }

  /**
   * `str.title()` over ASCII, scanning left to right: a letter is upper-cased
   * when the previous character was not a letter (`previousCased` for the
   * first one) and lower-cased otherwise; other characters are kept.
   */
  function TitleFrom(s: string, previousCased: bool): (r: string)
    ensures |r| == |s|
  {
    if s == [] then []
    else
      var c := s[0];
      [if !IsLetter(c) then c else if previousCased then ToLower(c) else ToUpper(c)]
        + TitleFrom(s[1..], IsLetter(c))
  }

  function Title(s: string): (r: string)
  {
    TitleFrom(s, false)
  }

  /** Whether position `i` of `s` starts a run of letters. */
  predicate StartsWord(s: string, i: nat)
    requires i < |s|
  {
    i == 0 || !IsLetter(s[i - 1])
  }

  /** What `title` does at each position. */
  function TitleChar(s: string, i: nat): char
    requires i < |s|
  {
    if !IsLetter(s[i]) then s[i] else if StartsWord(s, i) then ToUpper(s[i]) else ToLower(s[i])
  }

  lemma {:induction false} TitleFromAt(s: string, previousCased: bool, i: nat)
    requires i < |s|
    ensures TitleFrom(s, previousCased)[i] ==
              if !IsLetter(s[i]) then s[i]
              else if (if i == 0 then previousCased else IsLetter(s[i - 1])) then ToLower(s[i])
              else ToUpper(s[i])
  {
    if i > 0 {
      TitleFromAt(s[1..], IsLetter(s[0]), i - 1);
    }
  }

  /**
   * `title` keeps the length and every non-letter, and a letter comes out
   * upper-case exactly when it starts a run of letters, lower-case otherwise.
   */
  lemma TitleAt(s: string)
    ensures |Title(s)| == |s|
    ensures forall i :: 0 <= i < |s| ==> Title(s)[i] == TitleChar(s, i)
    ensures forall i :: 0 <= i < |s| ==> (IsLetter(Title(s)[i]) <==> IsLetter(s[i]))
    ensures forall i :: 0 <= i < |s| && !IsLetter(s[i]) ==> Title(s)[i] == s[i]
    ensures forall i :: 0 <= i < |s| && IsLetter(s[i]) ==> (IsUpper(Title(s)[i]) <==> StartsWord(s, i))
  {
    forall i | 0 <= i < |s| ensures Title(s)[i] == TitleChar(s, i) {
      TitleFromAt(s, false, i);
    }
    forall i | 0 <= i < |s| ensures IsLetter(Title(s)[i]) <==> IsLetter(s[i]) {
      CaseMapping(s[i]);
    }
  }

  /** Title-casing twice is title-casing once. */
  lemma TitleIdempotent(s: string)
    ensures Title(Title(s)) == Title(s)
  {
    var t := Title(s);
    TitleAt(s);
    TitleAt(t);
    forall i | 0 <= i < |s| ensures Title(t)[i] == t[i] {
      CaseMapping(s[i]);
      assert i > 0 ==> (IsLetter(t[i - 1]) <==> IsLetter(s[i - 1]));
      assert StartsWord(t, i) == StartsWord(s, i);
    }
  }

  /** `v.strip().title()`. */
  function Normalize(v: string): string
  {
    Title(Trim(Python, v))
  }

  /** `title` turns letters into letters and keeps everything else, so it keeps a name's shape. */
  lemma TitleKeepsShape(s: string)
    ensures Trimmed(Python, s) ==> Trimmed(Python, Title(s))
    ensures MatchesNamePattern(s) ==> MatchesNamePattern(Title(s))
  {
    TitleAt(s);
  }

  /** Stripping a name that matches the pattern leaves a name that matches it, when anything is left. */
  lemma TrimKeepsPattern(v: string)
    requires MatchesNamePattern(v) && Trim(Python, v) != []
    ensures MatchesNamePattern(Trim(Python, v))
  {
    TrimIsCore(Python, v);
    var t := Trim(Python, v);
    var i, j :| 0 <= i <= j <= |v| && t == v[i..j];
    assert forall k :: 0 <= k < |t| ==> t[k] == v[i + k];
  }

  /** A normalised name has no surrounding whitespace, and normalising it again changes nothing. */
  lemma NormalizeIdempotent(v: string)
    ensures Trimmed(Python, Normalize(v))
    ensures Normalize(Normalize(v)) == Normalize(v)
  {
    var t := Trim(Python, v);
    TrimIsCore(Python, v);
    TitleKeepsShape(t);
    TrimOfTrimmed(Python, Title(t));
    TitleIdempotent(t);
  }

  /** `UserBase.validate_names`. */
  function ValidateNames(v: string): (r: Result<string, string>)
  {
    if v == [] || |Trim(Python, v)| < 2 then Err(NameTooShortText)
    else if !MatchesNamePattern(v) then Err(NameBadCharsText)
    else Ok(Normalize(v))
  }

  /**
   * `validate_names` answers "too short" exactly for names under two
   * characters once stripped, "bad characters" exactly for the remaining
   * names with a character outside letters, whitespace and hyphen, and
   * otherwise returns the normalised name.
   */
  lemma ValidateNamesRules(v: string)
    ensures ValidateNames(v) == Err(NameTooShortText) <==> |Trim(Python, v)| < 2
    ensures ValidateNames(v) == Err(NameBadCharsText) <==>
              |Trim(Python, v)| >= 2 && exists i :: 0 <= i < |v| && !(IsLetter(v[i]) || IsSpace(Python, v[i]) || v[i] == '-')
    ensures ValidateNames(v).Ok? <==> |Trim(Python, v)| >= 2 && MatchesNamePattern(v)
  {
    assert NameTooShortText != NameBadCharsText by {
      assert |NameTooShortText| != |NameBadCharsText|;
    }
  }

  /** A name the validator returned passes the validator again, unchanged. */
  lemma ValidatedNameIsFixedPoint(v: string)
    requires ValidateNames(v).Ok?
    ensures ValidateNames(ValidateNames(v).value) == Ok(ValidateNames(v).value)
  {
    var t := Trim(Python, v);
    var n := Normalize(v);
    TrimKeepsPattern(v);
    TitleKeepsShape(t);
    NormalizeIdempotent(v);
    TrimOfTrimmed(Python, n);
    assert |n| == |t| >= 2;
  }

  /** The name validator returns a name with no surrounding whitespace whose letters are capitalised by word. */
  lemma ValidatedNameShape(v: string)
    requires ValidateNames(v).Ok?
    ensures var n := ValidateNames(v).value;
      && |n| >= 2
      && Trimmed(Python, n)
      && forall i :: 0 <= i < |n| && IsLetter(n[i]) ==> (IsUpper(n[i]) <==> StartsWord(n, i))
  {
    var t := Trim(Python, v);
    var n := Normalize(v);
    NormalizeIdempotent(v);
    TitleAt(t);
    TitleAt(n);
    TitleIdempotent(t);
  }

  /** `UserUpdate.validate_names`: an absent value passes through; a present one is validated as above. */
  function ValidateUpdateNames(v: Option<string>): (r: Result<Option<string>, string>)
    ensures v == None ==> r == Ok(None)
    ensures v.Some? && ValidateNames(v.value).Ok? ==> r == Ok(Some(ValidateNames(v.value).value))
    ensures v.Some? && ValidateNames(v.value).Err? ==> r == Err(ValidateNames(v.value).error)
  {
    match v
    case None => Ok(None)
    case Some(name) =>
      if name == [] || |Trim(Python, name)| < 2 then Err(NameTooShortText)
      else if !MatchesNamePattern(name) then Err(NameBadCharsText)
      else Ok(Some(Normalize(name)))
  }

  const PasswordTooShort := "Password must be at least 12 characters long"
  const PasswordNoUpper := "Password must contain at least one uppercase letter"
  const PasswordNoLower := "Password must contain at least one lowercase letter"
  const PasswordNoDigit := "Password must contain at least one number"
  const PasswordNoSymbol := "Password must contain at least one special character"

  /** `UserCreate.validate_password`: five rules in order; the password itself on success. */
  function ValidatePassword(v: string): (r: Result<string, string>)
    ensures r.Ok? ==> r.value == v
  {
    if |v| < 12 then Err(PasswordTooShort)
    else if !Strength.HasUpper(v) then Err(PasswordNoUpper)
    else if !Strength.HasLower(v) then Err(PasswordNoLower)
    else if !Strength.HasDigit(v) then Err(PasswordNoDigit)
    else if !Strength.HasSymbol(v) then Err(PasswordNoSymbol)
    else Ok(v)
  }

  /** Each rejection names the first rule broken, and the policy accepts exactly the passwords meeting all five. */
  lemma ValidatePasswordRules(v: string)
    ensures ValidatePassword(v) == Err(PasswordTooShort) <==> |v| < 12
    ensures ValidatePassword(v) == Err(PasswordNoUpper) <==> |v| >= 12 && !Strength.HasUpper(v)
    ensures ValidatePassword(v) == Err(PasswordNoLower) <==> |v| >= 12 && Strength.HasUpper(v) && !Strength.HasLower(v)
    ensures ValidatePassword(v) == Err(PasswordNoDigit) <==>
              |v| >= 12 && Strength.HasUpper(v) && Strength.HasLower(v) && !Strength.HasDigit(v)
    ensures ValidatePassword(v) == Err(PasswordNoSymbol) <==>
              |v| >= 12 && Strength.HasUpper(v) && Strength.HasLower(v) && Strength.HasDigit(v) && !Strength.HasSymbol(v)
    ensures ValidatePassword(v) == Ok(v) <==>
              |v| >= 12 && Strength.HasUpper(v) && Strength.HasLower(v) && Strength.HasDigit(v) && Strength.HasSymbol(v)
  {
    assert |PasswordTooShort| != |PasswordNoUpper| && |PasswordNoLower| != |PasswordNoDigit|;
    assert PasswordNoUpper[35] != PasswordNoLower[35] && PasswordNoUpper[35] != PasswordNoSymbol[35];
  }
}
