/**
 * The client's form validators: each regular expression of `REGEX` as a
 * predicate over the characters it admits, a direct left-to-right check
 * for the two whose regular expression needs a split point (e-mail and
 * course code), and the rule builders that carry logic of their own.
 */
module Validators {
  import opened Common
  import opened Text
  import opened PaperSchemas

  predicate IsAsciiLetter(c: char) { 'a' <= c <= 'z' || 'A' <= c <= 'Z' }

  /** `[a-zA-Z0-9_]`. */
  predicate IsWordChar(c: char) { IsAsciiLetter(c) || IsDigit(c) || c == '_' }

  /** `[a-zA-Z0-9._%+-]`. */
  predicate IsLocalChar(c: char) {
    IsAsciiLetter(c) || IsDigit(c) || c == '.' || c == '_' || c == '%' || c == '+' || c == '-'
  }

  /** `[a-zA-Z0-9.-]`. */
  predicate IsDomainChar(c: char) { IsAsciiLetter(c) || IsDigit(c) || c == '.' || c == '-' }

  /** `[A-Za-z\d@$!%*#?&]`. */
  predicate IsPasswordChar(c: char) {
    IsAsciiLetter(c) || IsDigit(c) || c == '@' || c == '$' || c == '!' || c == '%' || c == '*'
    || c == '#' || c == '?' || c == '&'
  }

  predicate AllChars(s: string, p: char -> bool) {
    forall i :: 0 <= i < |s| ==> p(s[i])
  }

  /** A slice has the property character by character exactly when the covered positions of the whole text have it. */
  lemma AllCharsRange(s: string, lo: nat, hi: nat, p: char -> bool)
    requires lo <= hi <= |s|
    ensures AllChars(s[lo..hi], p) <==> forall i :: lo <= i < hi ==> p(s[i])
  {
    forall i | lo <= i < hi ensures s[lo..hi][i - lo] == s[i] {}
  }

  /** `/^1[3-9]\d{9}$/`: eleven digits, the first `1`, the second 3 to 9. */
  predicate Phone(s: string) {
    |s| == 11 && AllChars(s, IsDigit) && s[0] == '1' && '3' <= s[1] <= '9'
  }

  /** `/^[a-zA-Z0-9_]{4,20}$/`. */
  predicate Username(s: string) {
    4 <= |s| <= 20 && AllChars(s, IsWordChar)
  }

  /** `/^(?=.*[A-Za-z])(?=.*\d)[A-Za-z\d@$!%*#?&]{8,}$/`: the two look-aheads and the character class. */
  predicate Password(s: string) {
    |s| >= 8 && AllChars(s, IsPasswordChar)
    && (exists i :: 0 <= i < |s| && IsAsciiLetter(s[i]))
    && (exists i :: 0 <= i < |s| && IsDigit(s[i]))
  }

  /** `/^\d{8,12}$/`. */
  predicate StudentNumber(s: string) {
    8 <= |s| <= 12 && AllChars(s, IsDigit)
  }

  /** `/^(19|20)\d{2}$/`. */
  predicate Year(s: string) {
    |s| == 4 && AllChars(s, IsDigit) && s[0] in "12" && (s[..2] == "19" || s[..2] == "20")
  }

  /** The years the pattern admits are exactly 1900 to 2099. */
  lemma YearRange(s: string)
    requires |s| == 4 && AllChars(s, IsDigit)
    ensures Year(s) <==> 1900 <= ParseDigits(s) <= 2099
  {
    assert s[..3][..2] == s[..2] && s[..3][..1] == s[..1];
    assert s[..2][..1] == s[..1];
    var d0, d1, d2, d3 := DigitValue(s[0]), DigitValue(s[1]), DigitValue(s[2]), DigitValue(s[3]);
    assert ParseDigits(s[..1]) == d0;
    assert ParseDigits(s[..2]) == d0 * 10 + d1;
    assert ParseDigits(s[..3]) == (d0 * 10 + d1) * 10 + d2;
    assert ParseDigits(s) == ((d0 * 10 + d1) * 10 + d2) * 10 + d3;
    assert s[..2] == [s[0], s[1]];
    assert Year(s) <==> (d0 == 1 && d1 == 9) || (d0 == 2 && d1 == 0);
  }

  /** Every year the client accepts, the server's previous-paper schema accepts too. */
  lemma ClientYearWithinServerBounds(s: string)
    requires Year(s)
    ensures MinYear <= ParseDigits(s) <= MaxYear
  {
    YearRange(s);
  }

  /** "2100" is refused by the client although the server's bound admits 2100. */
  lemma Year2100RefusedByClientOnly()
    ensures !Year("2100")
    ensures MinYear <= 2100 <= MaxYear
  {
    assert "2100"[..2] == "21";
  }

  /** `/^[A-Z]{2,4}\d{3,4}$/i` read as the regular expression reads it: a split into letters and digits. */
  predicate CourseCodeSplit(s: string, k: nat) {
    2 <= k <= 4 && k <= |s| && 3 <= |s| - k <= 4 && AllChars(s[..k], IsAsciiLetter) && AllChars(s[k..], IsDigit)
  }

  ghost predicate CourseCodeRegex(s: string) {
    exists k: nat :: CourseCodeSplit(s, k)
  }

  /** The number of leading ASCII letters. */
  function LeadingLetters(s: string): (n: nat)
    ensures n <= |s|
    ensures AllChars(s[..n], IsAsciiLetter)
    ensures n < |s| ==> !IsAsciiLetter(s[n])
    decreases |s|
  {
    if |s| > 0 && IsAsciiLetter(s[0]) then
      var n := 1 + LeadingLetters(s[1..]);
      assert forall i :: 1 <= i < n ==> s[..n][i] == s[1..][..n - 1][i - 1];
      n
    else 0
  }

  /** The course-code check done left to right: count the letters, then the digits must finish the text. */
  predicate CourseCode(s: string) {
    var n := LeadingLetters(s);
    2 <= n <= 4 && 3 <= |s| - n <= 4 && AllChars(s[n..], IsDigit)
  }

  /** The direct check accepts exactly what the regular expression matches. */
  lemma CourseCodeMatchesRegex(s: string)
    ensures CourseCode(s) <==> CourseCodeRegex(s)
  {
    var n := LeadingLetters(s);
    if CourseCode(s) {
      assert CourseCodeSplit(s, n);
    }
    if CourseCodeRegex(s) {
      var k: nat :| CourseCodeSplit(s, k);
      assert s[..n] == s[0..n] && s[..k] == s[0..k] && s[k..] == s[k..|s|];
      AllCharsRange(s, 0, n, IsAsciiLetter);
      AllCharsRange(s, 0, k, IsAsciiLetter);
      AllCharsRange(s, k, |s|, IsDigit);
      assert IsDigit(s[k]);
      assert k == n;
    }
  }

  /** `/^[a-zA-Z0-9._%+-]+@[a-zA-Z0-9.-]+\.[a-zA-Z]{2,}$/` with the `@` at `at` and the final dot at `dot`. */
  predicate EmailSplit(s: string, at: nat, dot: nat) {
    0 < at && at + 1 < dot && dot + 3 <= |s| && s[at] == '@' && s[dot] == '.'
    && AllChars(s[..at], IsLocalChar) && AllChars(s[at + 1..dot], IsDomainChar)
    && AllChars(s[dot + 1..], IsAsciiLetter)
  }

  ghost predicate EmailRegex(s: string) {
    exists at: nat, dot: nat :: EmailSplit(s, at, dot)
  }

  /**
   * The e-mail check done directly: the last `@` ends a non-empty local part,
   * the domain after it is drawn from the domain characters, and its last
   * dot is preceded by something and followed by at least two letters.
   */
  predicate Email(s: string) {
    var at := LastIndexOf(s, '@');
    var dot := LastIndexOf(s, '.');
    at > 0 && at + 1 < dot && dot + 3 <= |s|
    && AllChars(s[..at], IsLocalChar) && AllChars(s[at + 1..], IsDomainChar)
    && AllChars(s[dot + 1..], IsAsciiLetter)
  }

  /** The direct check accepts exactly what the regular expression matches. */
  lemma EmailMatchesRegex(s: string)
    ensures Email(s) <==> EmailRegex(s)
  {
    var at := LastIndexOf(s, '@');
    var dot := LastIndexOf(s, '.');
    if Email(s) {
      AllCharsRange(s, at + 1, |s|, IsDomainChar);
      AllCharsRange(s, at + 1, dot, IsDomainChar);
      assert EmailSplit(s, at, dot);
    }
    if EmailRegex(s) {
      var a: nat, d: nat :| EmailSplit(s, a, d);
      AllCharsRange(s, a + 1, d, IsDomainChar);
      AllCharsRange(s, d + 1, |s|, IsAsciiLetter);
      assert forall j :: a < j < |s| ==> IsDomainChar(s[j]);
      assert at == a;
      assert dot == d;
      AllCharsRange(s, at + 1, |s|, IsDomainChar);
    }
  }

  /** `RULES.whitelist`: an empty value passes, and so does a listed one. */
  predicate Whitelist(list: seq<string>, value: Option<string>) {
    !PyTruthy(value) || value.value in list
  }

  /** `RULES.confirmPassword`: only a non-empty value that differs from the password fails. */
  predicate ConfirmPassword(value: Option<string>, password: Option<string>) {
    !PyTruthy(value) || value == password
  }

  /**
   * The examples of the validator tests for the digit and word patterns:
   * phone and student numbers, a valid user name and two invalid ones, a
   * password with letters and digits and two without.
   */
  lemma PatternCases()
    ensures Phone("13800138000") && !Phone("12345678901")
    ensures StudentNumber("20210001") && !StudentNumber("1234567")
    ensures Username("user_123") && !Username("ab") && !Username("user@name")
    ensures Password("password123") && !Password("12345678") && !Password("password")
  {
    assert !IsWordChar("user@name"[4]);
    assert IsAsciiLetter("password123"[0]) && IsDigit("password123"[8]);
  }

  /** The e-mail examples: an address with a domain passes, a text without `@` fails. */
  lemma EmailCases()
    ensures EmailRegex("test@example.com") && !EmailRegex("invalid-email")
  {
    var ok := "test@example.com";
    assert ok[..4] == "test" && ok[5..12] == "example" && ok[13..] == "com";
    assert EmailSplit(ok, 4, 12);
    var bad := "invalid-email";
    forall at: nat, dot: nat ensures !EmailSplit(bad, at, dot) {
      if at < |bad| { assert bad[at] != '@'; }
    }
  }

  /** What the two custom validators reject, and what they let through. */
  lemma CustomValidatorCases(list: seq<string>, value: Option<string>, password: Option<string>)
    ensures !Whitelist(list, value) <==> value.Some? && value.value != "" && value.value !in list
    ensures !ConfirmPassword(value, password) <==> value.Some? && value.value != "" && value != password
    ensures Whitelist(list, None) && Whitelist(list, Some("")) && ConfirmPassword(password, password)
  {
  }

  /** An antd length rule. */
  datatype LengthRule = LengthRule(min: nat, max: nat, message: string)

  /** `RULES.length(min, max, message)`: the message falls back to one naming both bounds. */
  function Length(min: nat, max: nat, message: Option<string>): (r: LengthRule)
    ensures r.min == min && r.max == max && r.message != ""
    ensures PyTruthy(message) ==> r.message == message.value
    ensures !PyTruthy(message) ==> Contains(r.message, NatToString(min)) && Contains(r.message, NatToString(max))
  {
    var m := NatToString(min);
    var x := NatToString(max);
    var d := "长度应在" + m + "-" + x + "个字符之间";
    ContainsAt(d, m, 4);
    ContainsAt(d, x, 4 + |m| + 1);
    LengthRule(min, max, if PyTruthy(message) then message.value else d)
  }
}
