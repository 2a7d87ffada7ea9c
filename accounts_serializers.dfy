/**
 * The sign-up validators of the backend (accounts/serializers.py,
 * `RegisterSerializer.validate_username` and `validate_password`). Both
 * patterns are applied with Python's `re.match`, so they are anchored at
 * the start, `.` does not match a newline and `$` matches at the end or
 * just before a newline that ends the string; the model states all three.
 */
module AccountsSerializers {
  import Text

  const UsernameTooShort: string := "Username too short"
  const InvalidCharacters: string := "Invalid characters"
  const UsernameExists: string := "Username exists"
  const WeakPassword: string := "Weak password"

  /** The shortest username the server accepts. */
  const MinUsernameLength: nat := 4

  /** The shortest password the server accepts. */
  const MinPasswordLength: nat := 8

  /** A validator either returns the value or raises a ValidationError with a message. */
  datatype Checked = Ok(value: string) | ValidationError(message: string)

  // Character classes of the two patterns; `\d` is Text.IsDigit, the ASCII digits.

  /** `[a-zA-Z0-9_]` */
  predicate IsWordChar(c: char) {
    'a' <= c <= 'z' || 'A' <= c <= 'Z' || '0' <= c <= '9' || c == '_'
  }

  /** `[A-Z]` */
  predicate IsUpper(c: char) { 'A' <= c <= 'Z' }

  /** `[a-z]` */
  predicate IsLower(c: char) { 'a' <= c <= 'z' }

  /** `[@$!%*?&]` */
  predicate IsSpecial(c: char) {
    c == '@' || c == '$' || c == '!' || c == '%' || c == '*' || c == '?' || c == '&'
  }

  predicate AllWordChars(s: string) {
    forall i :: 0 <= i < |s| ==> IsWordChar(s[i])
  }

  /** No character of `s` is a newline, so `.` matches each of them. */
  predicate NoNewline(s: string) {
    forall i :: 0 <= i < |s| ==> s[i] != '\n'
  }

  /** Some character of `s` is in the class `p`. */
  predicate Contains(s: string, p: char -> bool) {
    exists i :: 0 <= i < |s| && p(s[i])
  }

  // The patterns, read as regular expressions.

  /** `$` at position `k`: the end of `s`, or just before a final newline. */
  predicate DollarAt(s: string, k: nat)
    requires k <= |s|
  {
    k == |s| || (k == |s| - 1 && s[k] == '\n')
  }

  /** `(?=.*X)` at the start: a character of class `p` comes before any newline. */
  predicate Lookahead(s: string, p: char -> bool) {
    exists i :: 0 <= i < |s| && p(s[i]) && NoNewline(s[..i])
  }

  /** `re.match(r'^[a-zA-Z0-9_]+$', s)`: some non-empty run of word characters is followed by `$`. */
  predicate UsernamePattern(s: string) {
    exists k :: 1 <= k <= |s| && AllWordChars(s[..k]) && DollarAt(s, k)
  }

  /** `re.match(r'^(?=.*[A-Z])(?=.*[a-z])(?=.*\d)(?=.*[@$!%*?&]).{8,}$', s)` */
  predicate PasswordPattern(s: string) {
    && Lookahead(s, IsUpper) && Lookahead(s, IsLower) && Lookahead(s, Text.IsDigit) && Lookahead(s, IsSpecial)
    && exists k :: MinPasswordLength <= k <= |s| && NoNewline(s[..k]) && DollarAt(s, k)
  }

  /** `s` without one final newline, if it ends with one: the part `$` lets a match cover. */
  function StripFinalNewline(s: string): (t: string)
    ensures s == t || s == t + "\n"
  {
    if s != [] && s[|s| - 1] == '\n' then s[..|s| - 1] else s
  }

  /** The username pattern holds exactly when, apart from one final newline, `s` is a non-empty word. */
  lemma UsernamePatternMeaning(s: string)
    ensures UsernamePattern(s) <==> var t := StripFinalNewline(s); |t| >= 1 && AllWordChars(t)
  {
    var t := StripFinalNewline(s);
    if UsernamePattern(s) {
      var k :| 1 <= k <= |s| && AllWordChars(s[..k]) && DollarAt(s, k);
      if k == |s| {
        assert s[..k] == s;
        assert s[|s| - 1] != '\n' by { assert IsWordChar(s[..k][k - 1]); }
      } else {
        assert t == s[..k];
      }
    }
    if |t| >= 1 && AllWordChars(t) {
      var k := |t|;
      assert s[..k] == t;
      assert DollarAt(s, k);
    }
  }

  /** The password pattern holds exactly when, apart from one final newline, `s` is a line of 8 or more characters with all four classes. */
  lemma PasswordPatternMeaning(s: string)
    ensures PasswordPattern(s) <==>
      var t := StripFinalNewline(s);
      NoNewline(t) && |t| >= MinPasswordLength
      && Contains(t, IsUpper) && Contains(t, IsLower) && Contains(t, Text.IsDigit) && Contains(t, IsSpecial)
  {
    var t := StripFinalNewline(s);
    var line := NoNewline(t) && |t| >= MinPasswordLength;
    if line {
      assert forall k :: 0 <= k <= |t| ==> s[..k] == t[..k];
      assert DollarAt(s, |t|) && s[..|t|] == t;
      LookaheadInLine(s, t, IsUpper);
      LookaheadInLine(s, t, IsLower);
      LookaheadInLine(s, t, Text.IsDigit);
      LookaheadInLine(s, t, IsSpecial);
    }
  }

  /** Within a newline-free line `t` that is `s` up to a final newline, the lookahead finds exactly the characters of `t`. */
  lemma LookaheadInLine(s: string, t: string, p: char -> bool)
    requires s == t || s == t + "\n"
    requires NoNewline(t)
    requires forall c :: p(c) ==> c != '\n'
    ensures Lookahead(s, p) <==> Contains(t, p)
  {
    if Lookahead(s, p) {
      var i :| 0 <= i < |s| && p(s[i]) && NoNewline(s[..i]);
      assert i < |t| && t[i] == s[i];
    }
    if Contains(t, p) {
      var i :| 0 <= i < |t| && p(t[i]);
      assert s[..i] == t[..i];
      assert s[i] == t[i];
    }
  }

  /**
   * `validate_username`: the length check, then the character check, then
   * the existence check against `existing`; the first failure's message is
   * raised, and a username passing all three is returned unchanged.
   */
  function ValidateUsername(value: string, existing: set<string>): (r: Checked)
    ensures |value| < MinUsernameLength ==> r == ValidationError(UsernameTooShort)
    ensures (|value| >= MinUsernameLength && !AllWordChars(StripFinalNewline(value)))
              ==> r == ValidationError(InvalidCharacters)
    ensures (|value| >= MinUsernameLength && AllWordChars(StripFinalNewline(value)) && value in existing)
              ==> r == ValidationError(UsernameExists)
    ensures r.Ok? <==> |value| >= MinUsernameLength && AllWordChars(StripFinalNewline(value))
                       && value !in existing
    ensures r.Ok? ==> r.value == value
  {
    UsernamePatternMeaning(value);
    if |value| < MinUsernameLength then ValidationError(UsernameTooShort)
    else if !UsernamePattern(value) then ValidationError(InvalidCharacters)
    else if value in existing then ValidationError(UsernameExists)
    else Ok(value)
  }

  /** `validate_password`: the value unchanged when the pattern matches, "Weak password" otherwise. */
  function ValidatePassword(value: string): (r: Checked)
    ensures r.Ok? <==>
      var t := StripFinalNewline(value);
      NoNewline(t) && |t| >= MinPasswordLength
      && Contains(t, IsUpper) && Contains(t, IsLower) && Contains(t, Text.IsDigit) && Contains(t, IsSpecial)
    ensures r.Ok? ==> r.value == value
    ensures r.ValidationError? ==> r.message == WeakPassword
  {
    PasswordPatternMeaning(value);
    if PasswordPattern(value) then Ok(value) else ValidationError(WeakPassword)
  }

  /** For a newline-free username: accepted exactly when it has 4 or more word characters and is new. */
  lemma UsernameWithoutNewline(value: string, existing: set<string>)
    requires NoNewline(value)
    ensures ValidateUsername(value, existing).Ok? <==>
              |value| >= MinUsernameLength && AllWordChars(value) && value !in existing
  {
    assert StripFinalNewline(value) == value;
  }

  /** For a newline-free password: accepted exactly when it has 8 or more characters and all four classes. */
  lemma PasswordWithoutNewline(value: string)
    requires NoNewline(value)
    ensures ValidatePassword(value).Ok? <==>
      |value| >= MinPasswordLength
      && Contains(value, IsUpper) && Contains(value, IsLower) && Contains(value, Text.IsDigit) && Contains(value, IsSpecial)
  {
    assert StripFinalNewline(value) == value;
  }

  /** '#' is not one of the special characters: this password has every other class and still fails. */
  lemma HashIsNotSpecial()
    ensures ValidatePassword("Passw0rd#").ValidationError?
  {
    var s := "Passw0rd#";
    assert StripFinalNewline(s) == s;
    assert !Contains(s, IsSpecial) by {
      forall i | 0 <= i < |s| ensures !IsSpecial(s[i]) {
      }
    }
  }

  /** Because of `$`, a trailing newline slips through both patterns. */
  lemma TrailingNewlineAccepted()
    ensures ValidateUsername("abcd\n", {}) == Ok("abcd\n")
    ensures ValidatePassword("Passw0rd!\n") == Ok("Passw0rd!\n")
  {
    var u, p := "abcd\n", "Passw0rd!\n";
    assert StripFinalNewline(u) == "abcd";
    var t := StripFinalNewline(p);
    assert t == "Passw0rd!";
    assert IsUpper(t[0]) && IsLower(t[1]) && Text.IsDigit(t[5]) && IsSpecial(t[8]);
  }
}
