/** The three regular expressions of main.js:42-44, written as predicates over
    characters and lengths.  A Dafny `char` is a Unicode scalar value, which is
    one JavaScript UTF-16 code unit only inside the Basic Multilingual Plane
    (see README, "Left out"). */
module Patterns {

  /** `[a-zA-Z]` */
  predicate IsAsciiLetter(c: char) {
    'a' <= c <= 'z' || 'A' <= c <= 'Z'
  }

  /** `[a-zA-Z0-9_]` */
  predicate IsWordChar(c: char) {
    IsAsciiLetter(c) || '0' <= c <= '9' || c == '_'
  }

  /** JavaScript's `\s` class: white space and line terminators. */
  predicate IsWhiteSpace(c: char) {
    c == '\t' || c == '\n' || c == '\U{B}' || c == '\U{C}' || c == '\r' || c == ' '
    || c == '\U{A0}' || c == '\U{1680}' || '\U{2000}' <= c <= '\U{200A}'
    || c == '\U{2028}' || c == '\U{2029}' || c == '\U{202F}' || c == '\U{205F}'
    || c == '\U{3000}' || c == '\U{FEFF}'
  }

  // ---------------------------------------------------------------------------
  // Names: /^[a-zA-ZáéíóúÁÉÍÓÚñÑ\s'-]{2,20}$/
  // ---------------------------------------------------------------------------

  /** One character of the name class: ASCII letters, the Spanish accented
      vowels and eñe, white space, apostrophe and hyphen. */
  predicate IsNameChar(c: char) {
    IsAsciiLetter(c)
    || c in "\U{E1}\U{E9}\U{ED}\U{F3}\U{FA}\U{C1}\U{C9}\U{CD}\U{D3}\U{DA}\U{F1}\U{D1}"
    || IsWhiteSpace(c) || c == '\'' || c == '-'
  }

  /** The anchored name pattern: the whole string is 2 to 20 name characters. */
  predicate ValidName(s: string) {
    2 <= |s| <= 20 && forall i | 0 <= i < |s| :: IsNameChar(s[i])
  }

  /** The seed account's "Luis" and "Rojas" and the accented, two-word
      "José María" pass the name pattern; "L" (too short), "Luis2" (a digit)
      and a 21-letter name fail it. */
  lemma NameExamples()
    ensures ValidName("Luis") && ValidName("Rojas")
    ensures ValidName("Jos\U{E9} Mar\U{ED}a")
    ensures !ValidName("L")
    ensures !ValidName("Luis2")
    ensures !ValidName("Abcdefghijklmnopqrstu")
  {
    var digit := "Luis2";
    assert !IsNameChar(digit[4]);
  }

  // ---------------------------------------------------------------------------
  // Passwords: /^(?=.*[A-Z])(?=.*[$@$!%*?&]).{8,15}$/
  // ---------------------------------------------------------------------------

  /** The characters that `.` does not match (no `s` flag). */
  predicate IsLineTerminator(c: char) {
    c == '\n' || c == '\r' || c == '\U{2028}' || c == '\U{2029}'
  }

  /** `[$@$!%*?&]` (the class lists `$` twice). */
  predicate IsPasswordSymbol(c: char) {
    c in "$@!%*?&"
  }

  /** `(?=.*P)` at the start of `s`: some character satisfying `p` is reachable
      from position 0 without crossing a line terminator. */
  predicate LookaheadFinds(s: string, p: char -> bool) {
    exists i | 0 <= i < |s| :: p(s[i]) && forall j | 0 <= j < i :: !IsLineTerminator(s[j])
  }

  /** The password regex as written: two lookaheads from the start, then 8 to
      15 characters other than line terminators up to the end. */
  predicate PasswordRegex(s: string) {
    LookaheadFinds(s, c => 'A' <= c <= 'Z')
    && LookaheadFinds(s, IsPasswordSymbol)
    && 8 <= |s| <= 15
    && forall i | 0 <= i < |s| :: !IsLineTerminator(s[i])
  }

  /** The password rule in plain words: 8 to 15 characters, no line break, at
      least one capital A-Z and at least one of `$@!%*?&`. */
  predicate ValidPassword(s: string) {
    8 <= |s| <= 15
    && (forall i | 0 <= i < |s| :: !IsLineTerminator(s[i]))
    && (exists i | 0 <= i < |s| :: 'A' <= s[i] <= 'Z')
    && (exists i | 0 <= i < |s| :: IsPasswordSymbol(s[i]))
  }

  /** The lookaheads of the password regex mean "contains somewhere": the regex
      accepts exactly the strings the plain-words rule accepts. */
  lemma PasswordRegexMeansRule(s: string)
    ensures PasswordRegex(s) <==> ValidPassword(s)
  {
  }

  /** "Abcdef1!" is accepted; "abcdefg1" (no capital, no symbol) and the seed
      account's "luis2001" are not. */
  lemma PasswordExamples()
    ensures ValidPassword("Abcdef1!")
    ensures !ValidPassword("abcdefg1")
    ensures !ValidPassword("luis2001")
  {
    var good := "Abcdef1!";
    assert 'A' <= good[0] <= 'Z' && IsPasswordSymbol(good[7]);
    var bad := "abcdefg1";
    assert forall i | 0 <= i < |bad| :: !('A' <= bad[i] <= 'Z');
    var seed := "luis2001";
    assert forall i | 0 <= i < |seed| :: !('A' <= seed[i] <= 'Z');
  }

  // ---------------------------------------------------------------------------
  // E-mail addresses (unanchored):
  // /[a-zA-Z0-9_]+([.][a-zA-Z0-9_]+)*@[a-zA-Z0-9_]+([.][a-zA-Z0-9_]+)*[.][a-zA-Z]{2,5}/
  // ---------------------------------------------------------------------------

  /** `[a-zA-Z0-9_]+([.][a-zA-Z0-9_]+)*`: word characters in dot-separated,
      non-empty runs. */
  predicate IsDottedWords(w: string) {
    |w| > 0 && IsWordChar(w[0]) && IsWordChar(w[|w| - 1])
    && (forall i | 0 <= i < |w| :: IsWordChar(w[i]) || w[i] == '.')
    && (forall i | 0 < i < |w| :: w[i] == '.' ==> w[i - 1] != '.')
  }

  /** `[a-zA-Z]{2,5}` */
  predicate IsTopLevel(t: string) {
    2 <= |t| <= 5 && forall i | 0 <= i < |t| :: IsAsciiLetter(t[i])
  }

  /** `t` as a whole is one match of the e-mail pattern: a dotted local part,
      `@`, a dotted domain, `.` and a 2-5 letter top-level label. */
  predicate IsEmailMatch(t: string) {
    exists k, m | 0 < k < m < |t| ::
      t[k] == '@' && IsDottedWords(t[..k]) && IsDottedWords(t[k + 1..m])
      && t[m] == '.' && IsTopLevel(t[m + 1..])
  }

  /** `regexCorreo.test(s)`: the pattern has no anchors, so the test passes as
      soon as some substring of `s` is a match. */
  predicate ContainsEmail(s: string) {
    exists i, j | 0 <= i <= j <= |s| :: IsEmailMatch(s[i..j])
  }

  /** Because the e-mail pattern is unanchored, text around an accepted string
      never makes it rejected: "!! a@b.cc !!" passes because "a@b.cc" does. */
  lemma ContainsEmailWidens(s: string, before: string, after: string)
    requires ContainsEmail(s)
    ensures ContainsEmail(before + s + after)
  {
    var i, j :| 0 <= i <= j <= |s| && IsEmailMatch(s[i..j]);
    var w := before + s + after;
    assert w[|before| + i..|before| + j] == s[i..j];
  }

  /** The seed account's address passes the e-mail check. */
  lemma SeedEmailAccepted()
    ensures ContainsEmail("luisrojas@gmail.com")
  {
    var s := "luisrojas@gmail.com";
    var k, m := 9, 15;
    assert s[..k] == "luisrojas" && IsDottedWords(s[..k]);
    var domain := "gmail";
    assert forall i | 0 <= i < |domain| :: IsWordChar(domain[i]);
    assert s[k + 1..m] == domain && IsDottedWords(domain);
    assert s[m + 1..] == "com" && IsTopLevel(s[m + 1..]);
    assert s[k] == '@' && s[m] == '.';
    assert IsEmailMatch(s);
    assert s[0..|s|] == s;
  }

  /** Every string that passes a field check is non-empty, so once all four
      checks pass the handler's final "please fill in every field" branch can
      no longer be taken. */
  lemma ValidatedFieldsNonEmpty(givenName: string, familyName: string, email: string, password: string)
    requires ValidName(givenName) && ValidName(familyName)
    requires ContainsEmail(email) && PasswordRegex(password)
    ensures givenName != "" && familyName != "" && email != "" && password != ""
  {
  }
}
