/**
 * ASCII character classes and the string helpers the validators lean on:
 * the regular-expression classes `[A-Z]`, `[a-z]`, `\d`, `\s`, JavaScript's
 * `trim` and `toLowerCase`, and Python's `strip`. Only ASCII is modelled;
 * every other character is neither a letter, a digit nor whitespace.
 */
module Text {

  predicate IsUpper(c: char) { 'A' <= c <= 'Z' }
  predicate IsLower(c: char) { 'a' <= c <= 'z' }
  predicate IsLetter(c: char) { IsUpper(c) || IsLower(c) }
  predicate IsDigit(c: char) { '0' <= c <= '9' }

  /** The class `[!@#$%^&*(),.?":{}|<>]` shared by both tiers' symbol rule. */
  predicate IsSymbol(c: char) {
    c in {'!', '@', '#', '$', '%', '^', '&', '*', '(', ')', ',', '.', '?', '"', ':', '{', '}', '|', '<', '>'}
  }

  /** The class `[a-zA-Z0-9._%+-]` of an email local part. */
  predicate IsEmailLocalChar(c: char) {
    IsLetter(c) || IsDigit(c) || c in {'.', '_', '%', '+', '-'}
  }

  /** The two runtimes disagree on which ASCII characters are whitespace. */
  datatype Runtime = JavaScript | Python

  /**
   * ASCII whitespace as `\s` and trimming see it. Both runtimes take
   * tab, line feed, vertical tab, form feed, carriage return and space;
   * Python's `str.isspace` (used by `strip` and by `re`'s `\s`) also takes
   * the separators U+001C to U+001F.
   */
  predicate IsSpace(rt: Runtime, c: char) {
    c == ' ' || (9 <= c as int <= 13) || (rt == Python && 0x1C <= c as int <= 0x1F)
  }

  /** Over ASCII, JavaScript whitespace is Python whitespace (outside ASCII the two part both ways, e.g. U+FEFF and U+0085). */
  lemma JsSpaceIsPySpace(c: char)
    ensures IsSpace(JavaScript, c) ==> IsSpace(Python, c)
    ensures IsSpace(Python, c) && !IsSpace(JavaScript, c) <==> 0x1C <= c as int <= 0x1F
  {
  }

  predicate AllSpace(rt: Runtime, s: string) {
    forall i :: 0 <= i < |s| ==> IsSpace(rt, s[i])
  }

  /** `s` neither starts nor ends with whitespace. */
  predicate Trimmed(rt: Runtime, s: string) {
    s == [] || (!IsSpace(rt, s[0]) && !IsSpace(rt, s[|s| - 1]))
  }

  /** Drops leading whitespace. */
  function TrimStart(rt: Runtime, s: string): string
  {
    if s != [] && IsSpace(rt, s[0]) then TrimStart(rt, s[1..]) else s
  }

  /** Drops trailing whitespace. */
  function TrimEnd(rt: Runtime, s: string): string
  {
    if s != [] && IsSpace(rt, s[|s| - 1]) then TrimEnd(rt, s[..|s| - 1]) else s
  }

  /** `TrimStart` leaves the suffix of `s` after its longest all-space prefix. */
  lemma {:induction false} TrimStartSpec(rt: Runtime, s: string)
    ensures var r := TrimStart(rt, s);
      && |r| <= |s| && r == s[|s| - |r|..]
      && AllSpace(rt, s[..|s| - |r|])
      && (r != [] ==> !IsSpace(rt, r[0]))
  {
    if s != [] && IsSpace(rt, s[0]) {
      TrimStartSpec(rt, s[1..]);
      var r := TrimStart(rt, s[1..]);
      assert s[..|s| - |r|] == [s[0]] + s[1..][..|s| - 1 - |r|];
    }
  }

  /** `TrimEnd` leaves the prefix of `s` before its longest all-space suffix. */
  lemma {:induction false} TrimEndSpec(rt: Runtime, s: string)
    ensures var r := TrimEnd(rt, s);
      && |r| <= |s| && r == s[..|r|]
      && AllSpace(rt, s[|r|..])
      && (r != [] ==> !IsSpace(rt, r[|r| - 1]))
  {
    if s != [] && IsSpace(rt, s[|s| - 1]) {
      TrimEndSpec(rt, s[..|s| - 1]);
      var r := TrimEnd(rt, s[..|s| - 1]);
      assert s[|r|..] == s[..|s| - 1][|r|..] + [s[|s| - 1]];
    }
  }

  /** JavaScript's `String.prototype.trim` and Python's `str.strip()`, by runtime. */
  function Trim(rt: Runtime, s: string): (r: string)
  {
    TrimEnd(rt, TrimStart(rt, s))
  }

  /**
   * What trimming means: the result is a slice `s[i..j]`, everything cut
   * away is whitespace, and the result neither starts nor ends with it.
   */
  lemma TrimIsCore(rt: Runtime, s: string)
    ensures exists i, j :: 0 <= i <= j <= |s| && Trim(rt, s) == s[i..j]
              && AllSpace(rt, s[..i]) && AllSpace(rt, s[j..])
    ensures Trimmed(rt, Trim(rt, s))
  {
    var t := TrimStart(rt, s);
    var r := TrimEnd(rt, t);
    TrimStartSpec(rt, s);
    TrimEndSpec(rt, t);
    var i := |s| - |t|;
    var j := i + |r|;
    assert t == s[i..];
    assert r == t[..|r|];
    assert r == s[i..j];
    assert t[|r|..] == s[j..];
    assert AllSpace(rt, s[..i]) && AllSpace(rt, s[j..]);
    assert r != [] ==> r[0] == t[0];
  }

  /** A string is trimmed to nothing exactly when it is whitespace only (or empty). */
  lemma TrimEmptyIffAllSpace(rt: Runtime, s: string)
    ensures Trim(rt, s) == [] <==> AllSpace(rt, s)
  {
    var t := TrimStart(rt, s);
    TrimStartSpec(rt, s);
    TrimEndSpec(rt, t);
    assert s[..|s|] == s && t[0..] == t;
    assert t != [] ==> !IsSpace(rt, s[|s| - |t|]);
    assert t != [] ==> !IsSpace(rt, t[0]);
  }

  /** Trimming leaves an already trimmed string alone; hence trimming is idempotent. */
  lemma TrimOfTrimmed(rt: Runtime, s: string)
    requires Trimmed(rt, s)
    ensures Trim(rt, s) == s
  {
  }

  lemma TrimIdempotent(rt: Runtime, s: string)
    ensures Trim(rt, Trim(rt, s)) == Trim(rt, s)
  {
    TrimIsCore(rt, s);
    TrimOfTrimmed(rt, Trim(rt, s));
  }

  /** Two runtimes trim a string alike when they agree on which of its characters are whitespace. */
  lemma {:induction false} TrimAgrees(a: Runtime, b: Runtime, s: string)
    requires forall i :: 0 <= i < |s| ==> (IsSpace(a, s[i]) <==> IsSpace(b, s[i]))
    ensures Trim(a, s) == Trim(b, s)
  {
    TrimStartAgrees(a, b, s);
    TrimStartSpec(a, s);
    var t := TrimStart(a, s);
    assert forall i :: 0 <= i < |t| ==> t[i] == s[|s| - |t| + i];
    TrimEndAgrees(a, b, t);
  }

  lemma {:induction false} TrimStartAgrees(a: Runtime, b: Runtime, s: string)
    requires forall i :: 0 <= i < |s| ==> (IsSpace(a, s[i]) <==> IsSpace(b, s[i]))
    ensures TrimStart(a, s) == TrimStart(b, s)
  {
    if s != [] {
      TrimStartAgrees(a, b, s[1..]);
    }
  }

  lemma {:induction false} TrimEndAgrees(a: Runtime, b: Runtime, s: string)
    requires forall i :: 0 <= i < |s| ==> (IsSpace(a, s[i]) <==> IsSpace(b, s[i]))
    ensures TrimEnd(a, s) == TrimEnd(b, s)
  {
    if s != [] {
      TrimEndAgrees(a, b, s[..|s| - 1]);
    }
  }

  function ToLower(c: char): (r: char)
  {
    if IsUpper(c) then (c as int + 32) as char else c
  }

  function ToUpper(c: char): (r: char)
  {
    if IsLower(c) then (c as int - 32) as char else c
  }

  /** Case mapping keeps letters letters and changes nothing else. */
  lemma CaseMapping(c: char)
    ensures IsLetter(ToLower(c)) == IsLetter(c) && IsLetter(ToUpper(c)) == IsLetter(c)
    ensures IsLetter(c) ==> IsLower(ToLower(c)) && IsUpper(ToUpper(c))
    ensures IsLetter(c) ==> ToLower(ToUpper(c)) == ToLower(c) && ToUpper(ToLower(c)) == ToUpper(c)
    ensures !IsLetter(c) ==> ToLower(c) == c && ToUpper(c) == c
  {
  }

  /** JavaScript's `toLowerCase`, restricted to ASCII. */
  function Lower(s: string): (r: string)
    ensures |r| == |s|
    ensures forall i :: 0 <= i < |s| ==> r[i] == ToLower(s[i])
  {
    seq(|s|, i requires 0 <= i < |s| => ToLower(s[i]))
  }
}
