/**
 * The registration form's password-strength meter
 * (frontend/src/components/RegistrationForm.tsx): seven independent checks,
 * a score that counts the passing ones, and a label read off the score.
 * The two helpers that scan the password with a loop are methods proved
 * against the predicates the scorer is specified with.
 */
module Strength {
  import opened Text

  /** The seven named checks of the meter, in the order the source declares them. */
  datatype Checks = Checks(
    length: bool,
    uppercase: bool,
    lowercase: bool,
    number: bool,
    symbol: bool,
    noRepeated: bool,
    differentFromEmail: bool)

  /** One name per check; `Rank` is its position in the declaration order. */
  datatype Rule = Length | Uppercase | Lowercase | Number | Symbol | NoRepeated | DifferentFromEmail

  function Rank(r: Rule): nat
  {
    match r
    case Length => 0
    case Uppercase => 1
    case Lowercase => 2
    case Number => 3
    case Symbol => 4
    case NoRepeated => 5
    case DifferentFromEmail => 6
  }

  function Holds(c: Checks, r: Rule): bool
  {
    match r
    case Length => c.length
    case Uppercase => c.uppercase
    case Lowercase => c.lowercase
    case Number => c.number
    case Symbol => c.symbol
    case NoRepeated => c.noRepeated
    case DifferentFromEmail => c.differentFromEmail
  }

  /** `Object.values(checks)`: the check results in declaration order. */
  function Values(c: Checks): (vs: seq<bool>)
    ensures |vs| == 7
    ensures forall r :: vs[Rank(r)] == Holds(c, r)
  {
    [c.length, c.uppercase, c.lowercase, c.number, c.symbol, c.noRepeated, c.differentFromEmail]
  }

  /** `bs.filter(Boolean).length`. */
  function CountTrue(bs: seq<bool>): (n: nat)
    ensures n <= |bs|
    ensures n == |bs| <==> forall i :: 0 <= i < |bs| ==> bs[i]
    ensures n == 0 <==> forall i :: 0 <= i < |bs| ==> !bs[i]
  {
    if bs == [] then 0 else (if bs[0] then 1 else 0) + CountTrue(bs[1..])
  }

  /** The score: how many of the seven checks pass. */
  function Score(c: Checks): (n: nat)
    ensures n <= 7
    ensures n == 7 <==> forall r :: Holds(c, r)
    ensures n == 0 <==> forall r :: !Holds(c, r)
  {
    var vs := Values(c);
    assert forall i :: 0 <= i < 7 ==> vs[i] == Holds(c, RuleAt(i));
    CountTrue(vs)
  }

  /** The rule at a position of the declaration order. */
  function RuleAt(i: nat): (r: Rule)
    requires i < 7
    ensures Rank(r) == i
  {
    [Length, Uppercase, Lowercase, Number, Symbol, NoRepeated, DifferentFromEmail][i]
  }

  /** The meter's label (`''`, `Weak`, `Fair`, `Good`, `Strong`); `Blank` is the empty label. */
  datatype Label = Blank | Weak | Fair | Good | Strong

  function LabelRank(l: Label): nat
  {
    match l
    case Blank => 0
    case Weak => 1
    case Fair => 2
    case Good => 3
    case Strong => 4
  }

  /** The threshold ladder of `calculatePasswordStrength`. */
  function LabelFor(score: nat): (l: Label)
  {
    if score == 0 then Blank
    else if score <= 2 then Weak
    else if score <= 4 then Fair
    else if score <= 6 then Good
    else Strong
  }

  /** The ladder cuts 0..7 into {0}, {1,2}, {3,4}, {5,6}, {7}, and a higher score never gets a lower label. */
  lemma LabelLadder(s: nat, t: nat)
    requires s <= 7 && t <= 7
    ensures LabelFor(s) == Blank <==> s == 0
    ensures LabelFor(s) == Weak <==> 1 <= s <= 2
    ensures LabelFor(s) == Fair <==> 3 <= s <= 4
    ensures LabelFor(s) == Good <==> 5 <= s <= 6
    ensures LabelFor(s) == Strong <==> s == 7
    ensures s <= t ==> LabelRank(LabelFor(s)) <= LabelRank(LabelFor(t))
  {
  }

  /** What `calculatePasswordStrength` returns (the presentational `color` is not modelled). */
  datatype PasswordStrength = PasswordStrength(score: nat, strengthLabel: Label, checks: Checks)

  /** The meter's state before the first keystroke. */
  const InitialStrength := PasswordStrength(0, Blank, Checks(false, false, false, false, false, false, false))

  /** The invariant of a meter reading: the score counts the checks and the label follows the score. */
  predicate WellFormed(s: PasswordStrength)
  {
    s.score == Score(s.checks) && s.strengthLabel == LabelFor(s.score)
  }

  predicate HasUpper(p: string) { exists i :: 0 <= i < |p| && IsUpper(p[i]) }
  predicate HasLower(p: string) { exists i :: 0 <= i < |p| && IsLower(p[i]) }
  predicate HasDigit(p: string) { exists i :: 0 <= i < |p| && IsDigit(p[i]) }
  predicate HasSymbol(p: string) { exists i :: 0 <= i < |p| && IsSymbol(p[i]) }

  /** Three equal characters in a row somewhere in `p`. */
  predicate HasTripleRun(p: string)
  {
    exists i :: 0 <= i && i + 2 < |p| && p[i] == p[i + 1] && p[i] == p[i + 2]
  }

  /** `hasRepeatedChars`: scans every window of three, returning at the first uniform one. */
  method HasRepeatedChars(password: string) returns (found: bool)
    ensures found <==> HasTripleRun(password)
  {
    var i := 0;
    while i + 3 <= |password|
      invariant 0 <= i
      invariant forall k :: 0 <= k < i && k + 2 < |password| ==> !(password[k] == password[k + 1] && password[k] == password[k + 2])
    {
      if password[i] == password[i + 1] && password[i] == password[i + 2] {
        return true;
      }
      i := i + 1;
    }
    return false;
  }

  /** `email.split('@')[0]`: the text before the first `@`, or all of it when there is none. */
  function LocalPart(email: string): string
  {
    if email == [] || email[0] == '@' then [] else [email[0]] + LocalPart(email[1..])
  }

  /** The local part is the longest prefix without `@`: it is followed by the first `@`, if there is one. */
  lemma {:induction false} LocalPartSpec(email: string)
    ensures var r := LocalPart(email);
      && |r| <= |email| && r == email[..|r|]
      && '@' !in r
      && (|r| < |email| ==> email[|r|] == '@')
  {
    if email != [] && email[0] != '@' {
      LocalPartSpec(email[1..]);
    }
  }

  /** Positions below `n` at which `a` and `b` differ. */
  function MismatchesBelow(a: string, b: string, n: nat): (d: nat)
    requires n <= |a| && n <= |b|
    ensures d <= n
  {
    if n == 0 then 0 else MismatchesBelow(a, b, n - 1) + (if a[n - 1] != b[n - 1] then 1 else 0)
  }

  function Min(x: nat, y: nat): nat { if x <= y then x else y }
  function AbsDiff(x: nat, y: nat): nat { if x <= y then y - x else x - y }

  /** Positional mismatches over the shorter length plus the difference in length. */
  function Distance(a: string, b: string): nat
  {
    MismatchesBelow(a, b, Min(|a|, |b|)) + AbsDiff(|a|, |b|)
  }

  /** The divergence rule: an empty email passes; otherwise the lower-cased local part and password are 5 or more apart. */
  predicate DiffersFromEmail(password: string, email: string)
  {
    email == [] || Distance(Lower(LocalPart(email)), Lower(password)) >= 5
  }

  /** `isDifferentFromEmail`: counts differing positions in a loop, then adds the length difference. */
  method IsDifferentFromEmail(password: string, email: string) returns (different: bool)
    ensures different <==> DiffersFromEmail(password, email)
  {
    if email == [] {
      return true;
    }
    var emailLocal := Lower(LocalPart(email));
    var passwordLower := Lower(password);
    var differences := 0;
    var minLength := Min(|emailLocal|, |passwordLower|);
    var i := 0;
    while i < minLength
      invariant i <= minLength
      invariant differences == MismatchesBelow(emailLocal, passwordLower, i)
    {
      if emailLocal[i] != passwordLower[i] {
        differences := differences + 1;
      }
      i := i + 1;
    }
    differences := differences + AbsDiff(|emailLocal|, |passwordLower|);
    return differences >= 5;
  }

  /** The seven checks of `password` against `email`. */
  function ChecksOf(password: string, email: string): Checks
  {
    Checks(|password| >= 12, HasUpper(password), HasLower(password), HasDigit(password),
           HasSymbol(password), !HasTripleRun(password), DiffersFromEmail(password, email))
  }

  /** `calculatePasswordStrength` as a specification: the reading the meter shows. */
  function StrengthOf(password: string, email: string): (s: PasswordStrength)
    ensures WellFormed(s) && s.checks == ChecksOf(password, email)
  {
    var c := ChecksOf(password, email);
    var score := Score(c);
    PasswordStrength(score, LabelFor(score), c)
  }

  /** `calculatePasswordStrength` as the source runs it: the two scanning helpers, then the count and the ladder. */
  method CalculatePasswordStrength(password: string, email: string) returns (s: PasswordStrength)
    ensures s == StrengthOf(password, email)
  {
    var repeated := HasRepeatedChars(password);
    var different := IsDifferentFromEmail(password, email);
    var checks := Checks(|password| >= 12, HasUpper(password), HasLower(password), HasDigit(password),
                         HasSymbol(password), !repeated, different);
    var score := CountTrue(Values(checks));
    s := PasswordStrength(score, LabelFor(score), checks);
  }

  /** No positional mismatch below `n` exactly when the two strings agree below `n`. */
  lemma {:induction false} MismatchesBelowZero(a: string, b: string, n: nat)
    requires n <= |a| && n <= |b|
    ensures MismatchesBelow(a, b, n) == 0 <==> a[..n] == b[..n]
  {
    if n > 0 {
      MismatchesBelowZero(a, b, n - 1);
      assert a[..n] == a[..n - 1] + [a[n - 1]] && b[..n] == b[..n - 1] + [b[n - 1]];
      if a[..n] == b[..n] {
        assert a[..n - 1] == a[..n][..n - 1] && b[..n - 1] == b[..n][..n - 1];
        assert a[n - 1] == a[..n][n - 1];
      }
    }
  }

  lemma {:induction false} MismatchesBelowSymmetric(a: string, b: string, n: nat)
    requires n <= |a| && n <= |b|
    ensures MismatchesBelow(a, b, n) == MismatchesBelow(b, a, n)
  {
    if n > 0 {
      MismatchesBelowSymmetric(a, b, n - 1);
    }
  }

  /**
   * Distance is zero exactly on equal strings, symmetric, at least the
   * length difference and at most the longer length.
   */
  lemma DistanceProperties(a: string, b: string)
    ensures Distance(a, b) == 0 <==> a == b
    ensures Distance(a, b) == Distance(b, a)
    ensures AbsDiff(|a|, |b|) <= Distance(a, b) <= if |a| <= |b| then |b| else |a|
  {
    var m := Min(|a|, |b|);
    MismatchesBelowZero(a, b, m);
    MismatchesBelowSymmetric(a, b, m);
    if |a| == |b| {
      assert a[..m] == a && b[..m] == b;
    }
  }

  /** A password that equals the email's local part, ignoring case, never passes the divergence rule. */
  lemma SameAsLocalPartFails(password: string, email: string)
    requires email != []
    requires Lower(password) == Lower(LocalPart(email))
    ensures !DiffersFromEmail(password, email)
  {
    DistanceProperties(Lower(LocalPart(email)), Lower(password));
  }

  /** Against a non-empty email, the divergence rule passes when the lengths differ by 5 or more and fails when both are shorter than 5. */
  lemma DivergenceByLength(password: string, email: string)
    requires email != []
    ensures AbsDiff(|LocalPart(email)|, |password|) >= 5 ==> DiffersFromEmail(password, email)
    ensures |LocalPart(email)| < 5 && |password| < 5 ==> !DiffersFromEmail(password, email)
  {
    DistanceProperties(Lower(LocalPart(email)), Lower(password));
  }

  /** Worked examples of the repeat rule; a password shorter than three never has a run. */
  lemma TripleRunExamples(p: string)
    ensures |p| < 3 ==> !HasTripleRun(p)
    ensures HasTripleRun("aaab")
    ensures !HasTripleRun("aabaa")
  {
    assert "aaab"[0] == "aaab"[1] == "aaab"[2];
  }

  /** The local part of `x@y` is `x` when `x` holds no `@`. */
  lemma {:induction false} LocalPartOfAddress(x: string, y: string)
    requires '@' !in x
    ensures LocalPart(x + "@" + y) == x
  {
    if x != [] {
      assert (x + "@" + y)[1..] == x[1..] + "@" + y;
      LocalPartOfAddress(x[1..], y);
    }
  }

  lemma SameAsLocalPartExample()
    ensures !DiffersFromEmail("abc12345", "abc12345@domain")
  {
    var email := "abc12345@domain";
    assert email == "abc12345" + "@" + "domain";
    assert '@' !in "abc12345";
    LocalPartOfAddress("abc12345", "domain");
    SameAsLocalPartFails("abc12345", email);
  }

  lemma DivergentExample()
    ensures DiffersFromEmail("Xyz!9Tuv2Qw", "abc@domain")
  {
    LocalPartOfAddress("abc", "domain");
    DivergenceByLength("Xyz!9Tuv2Qw", "abc@domain");
  }

  /** "Abc12345!!!x" against "a@domain" fails only the no-repeat rule. */
  lemma ChecksExample()
    ensures ChecksOf("Abc12345!!!x", "a@domain") == Checks(true, true, true, true, true, false, true)
  {
    var p := "Abc12345!!!x";
    assert IsUpper(p[0]) && IsLower(p[1]) && IsDigit(p[3]) && IsSymbol(p[8]);
    assert p[8] == p[9] == p[10];
    LocalPartOfAddress("a", "domain");
    DivergenceByLength(p, "a@domain");
  }

  /** Failing one check of seven scores 6, labelled Good. */
  lemma StrengthExample()
    ensures StrengthOf("Abc12345!!!x", "a@domain").checks
              == Checks(true, true, true, true, true, false, true)
    ensures StrengthOf("Abc12345!!!x", "a@domain").score == 6
    ensures StrengthOf("Abc12345!!!x", "a@domain").strengthLabel == Good
  {
    ChecksExample();
    var c := Checks(true, true, true, true, true, false, true);
    assert Values(c) == [true, true, true, true, true, false, true];
    assert CountTrue(Values(c)) == 6;
  }
}
