/**
 * The client-side input checks of src/utils/index.ts: the e-mail pattern
 * `/^[^\s@]+@[^\s@]+\.[^\s@]+$/` and the five-criterion password scorer.
 */
module Validators {

  /** The characters `\s` matches in a JavaScript regular expression. */
  predicate IsJsSpace(c: char)
  {
    c == ' ' || c == '\t' || c == '\n' || c == '\U{000B}' || c == '\U{000C}' || c == '\r'
    || c == '\U{00A0}' || c == '\U{1680}' || ('\U{2000}' <= c <= '\U{200A}')
    || c == '\U{2028}' || c == '\U{2029}' || c == '\U{202F}' || c == '\U{205F}'
    || c == '\U{3000}' || c == '\U{FEFF}'
  }

  /** `[^\s@]`: a character allowed inside each part of an address. */
  predicate IsPartChar(c: char)
  {
    !IsJsSpace(c) && c != '@'
  }

  /** `[^\s@]+`. */
  predicate IsPart(s: string)
  {
    |s| > 0 && forall i | 0 <= i < |s| :: IsPartChar(s[i])
  }

  /** `[^\s@]+\.[^\s@]+`: the text after the '@'. */
  predicate IsDomain(d: string)
  {
    exists k | 0 <= k < |d| :: d[k] == '.' && IsPart(d[..k]) && IsPart(d[k + 1..])
  }

  /** `isValidEmail`: the whole string matches local-part '@' domain. */
  predicate IsValidEmail(s: string)
  {
    exists p | 0 <= p < |s| :: s[p] == '@' && IsPart(s[..p]) && IsDomain(s[p + 1..])
  }

  predicate NoWhitespace(s: string)
  {
    forall i | 0 <= i < |s| :: !IsJsSpace(s[i])
  }

  /**
   * What the pattern accepts, stated on the whole string: no whitespace, exactly
   * one '@' and it is not first, and after it a '.' that is neither the first nor
   * the last character of the domain.
   */
  ghost predicate EmailShape(s: string)
  {
    NoWhitespace(s) &&
    exists p | 0 < p < |s| ::
      s[p] == '@' && (forall j | 0 <= j < |s| && s[j] == '@' :: j == p) &&
      exists k | p + 1 < k < |s| - 1 :: s[k] == '.'
  }

  lemma EmailShapeOf(s: string, p: int, k: int)
    requires 0 < p < |s| && s[p] == '@' && p + 1 < k < |s| - 1 && s[k] == '.'
    requires NoWhitespace(s)
    requires forall j | 0 <= j < |s| && s[j] == '@' :: j == p
    ensures IsValidEmail(s)
  {
    var d := s[p + 1..];
    var k' := k - p - 1;
    assert d[k'] == '.';
    assert d[..k'] == s[p + 1..k];
    assert d[k' + 1..] == s[k + 1..];
    assert IsPart(d[..k']);
    assert IsPart(d[k' + 1..]);
    assert IsDomain(d);
    assert IsPart(s[..p]);
  }

  /** A match of the pattern, split at its '@' and its '.', has the shape. */
  lemma ShapeOfMatch(s: string, p: nat, k: nat)
    requires p < |s| && s[p] == '@' && IsPart(s[..p])
    requires k < |s[p + 1..]| && s[p + 1..][k] == '.'
    requires IsPart(s[p + 1..][..k]) && IsPart(s[p + 1..][k + 1..])
    ensures EmailShape(s)
  {
    var d := s[p + 1..];
    forall i | 0 <= i < |s| ensures !IsJsSpace(s[i]) && (s[i] == '@' ==> i == p) {
      if i < p {
        assert s[i] == s[..p][i];
      } else if p < i <= p + k {
        assert s[i] == d[..k][i - p - 1];
      } else if i > p + k + 1 {
        assert s[i] == d[k + 1..][i - p - k - 2];
      }
    }
    assert s[p + 1 + k] == '.';
  }

  /** The pattern holds exactly of the strings of that shape. */
  lemma EmailCharacterization(s: string)
    ensures IsValidEmail(s) <==> EmailShape(s)
  {
    if IsValidEmail(s) {
      var p :| 0 <= p < |s| && s[p] == '@' && IsPart(s[..p]) && IsDomain(s[p + 1..]);
      var d := s[p + 1..];
      var k :| 0 <= k < |d| && d[k] == '.' && IsPart(d[..k]) && IsPart(d[k + 1..]);
      ShapeOfMatch(s, p, k);
    }
    if EmailShape(s) {
      var p :| 0 < p < |s| && s[p] == '@' && (forall j | 0 <= j < |s| && s[j] == '@' :: j == p) &&
        exists k | p + 1 < k < |s| - 1 :: s[k] == '.';
      var k :| p + 1 < k < |s| - 1 && s[k] == '.';
      EmailShapeOf(s, p, k);
    }
  }

  /** The valid sample address of test-optimized.js. */
  lemma EmailSampleValid()
    ensures IsValidEmail("test@example.com")
  {
    var s := "test@example.com";
    assert s[4] == '@' && s[12] == '.';
    EmailShapeOf(s, 4, 12);
  }

  /** The invalid sample address of test-optimized.js has no '@' at all. */
  lemma EmailSampleInvalid()
    ensures !IsValidEmail("invalid-email")
  {
    var t := "invalid-email";
    assert forall i | 0 <= i < |t| :: t[i] != '@';
  }

  // ---------------------------------------------------------------------------
  // validatePasswordStrength

  /** The feedback lines, one per unmet criterion, in the order they are checked. */
  const TooShort := "密码长度至少8位"
  const NeedsLowercase := "需要包含小写字母"
  const NeedsUppercase := "需要包含大写字母"
  const NeedsDigit := "需要包含数字"
  const NeedsSpecial := "需要包含特殊字符"

  predicate IsLower(c: char) { 'a' <= c <= 'z' }
  predicate IsUpper(c: char) { 'A' <= c <= 'Z' }
  predicate IsDigit(c: char) { '0' <= c <= '9' }

  /** `/[a-z]/.test`, `/[A-Z]/.test`, `/[0-9]/.test` and `/[^A-Za-z0-9]/.test`. */
  predicate HasLower(s: string) { exists i | 0 <= i < |s| :: IsLower(s[i]) }
  predicate HasUpper(s: string) { exists i | 0 <= i < |s| :: IsUpper(s[i]) }
  predicate HasDigit(s: string) { exists i | 0 <= i < |s| :: IsDigit(s[i]) }
  predicate HasSpecial(s: string) { exists i | 0 <= i < |s| :: !IsLower(s[i]) && !IsUpper(s[i]) && !IsDigit(s[i]) }

  datatype Strength = Strength(isValid: bool, score: nat, feedback: seq<string>)

  /** One criterion: a met one scores a point, an unmet one adds its feedback line. */
  function Criterion(met: bool, line: string): (nat, seq<string>)
  {
    if met then (1, []) else (0, [line])
  }

  /** The ordered subsequence of the five lines whose criterion is unmet. */
  function UnmetLines(password: string): seq<string>
  {
    (if |password| < 8 then [TooShort] else [])
    + (if HasLower(password) then [] else [NeedsLowercase])
    + (if HasUpper(password) then [] else [NeedsUppercase])
    + (if HasDigit(password) then [] else [NeedsDigit])
    + (if HasSpecial(password) then [] else [NeedsSpecial])
  }

  /** Each feedback line is listed exactly when its criterion is unmet. */
  lemma UnmetLinesExact(password: string)
    ensures (TooShort in UnmetLines(password)) <==> |password| < 8
    ensures (NeedsLowercase in UnmetLines(password)) <==> !HasLower(password)
    ensures (NeedsUppercase in UnmetLines(password)) <==> !HasUpper(password)
    ensures (NeedsDigit in UnmetLines(password)) <==> !HasDigit(password)
    ensures (NeedsSpecial in UnmetLines(password)) <==> !HasSpecial(password)
  {
    assert TooShort[0] != NeedsLowercase[0];
    assert NeedsLowercase[4] != NeedsUppercase[4] && NeedsLowercase[4] != NeedsDigit[4] && NeedsLowercase[4] != NeedsSpecial[4];
    assert NeedsUppercase[4] != NeedsDigit[4] && NeedsUppercase[4] != NeedsSpecial[4] && NeedsDigit[4] != NeedsSpecial[4];
    assert TooShort != NeedsLowercase && TooShort != NeedsUppercase && TooShort != NeedsDigit && TooShort != NeedsSpecial;
  }

  /**
   * `validatePasswordStrength`: every criterion either scores or explains itself,
   * the feedback names exactly the unmet criteria in checking order, and the
   * password is accepted when at least four criteria are met.
   */
  function ValidatePasswordStrength(password: string): (r: Strength)
    ensures r.score + |r.feedback| == 5
    ensures r.isValid <==> r.score >= 4
    ensures r.feedback == UnmetLines(password)
    ensures (TooShort in r.feedback) <==> |password| < 8
    ensures (NeedsLowercase in r.feedback) <==> !HasLower(password)
    ensures (NeedsUppercase in r.feedback) <==> !HasUpper(password)
    ensures (NeedsDigit in r.feedback) <==> !HasDigit(password)
    ensures (NeedsSpecial in r.feedback) <==> !HasSpecial(password)
  {
    var length := Criterion(|password| >= 8, TooShort);
    var lower := Criterion(HasLower(password), NeedsLowercase);
    var upper := Criterion(HasUpper(password), NeedsUppercase);
    var digit := Criterion(HasDigit(password), NeedsDigit);
    var special := Criterion(HasSpecial(password), NeedsSpecial);
    var score := length.0 + lower.0 + upper.0 + digit.0 + special.0;
    var feedback := length.1 + lower.1 + upper.1 + digit.1 + special.1;
    UnmetLinesExact(password);
    Strength(score >= 4, score, feedback)
  }

  /** The sample password of test-optimized.js meets all five criteria. */
  lemma PasswordSample()
    ensures ValidatePasswordStrength("Test123!") == Strength(true, 5, [])
  {
    var p := "Test123!";
    assert IsLower(p[1]) && IsUpper(p[0]) && IsDigit(p[4]);
    assert !IsLower(p[7]) && !IsUpper(p[7]) && !IsDigit(p[7]);
  }
}
