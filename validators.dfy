/** The two input validators of the backend: the email-shape regular expression
    and the password-strength rule. Strings are sequences of Unicode scalar
    values; where JavaScript counts UTF-16 code units instead, that is written
    out (Utf16Length). */
module Validators {

  // ---------------------------------------------------------------------------
  // Email: /^[^\s@]+@[^\s@]+\.[^\s@]+$/
  // ---------------------------------------------------------------------------

  /** The ECMAScript class `\s`: the WhiteSpace and LineTerminator code points. */
  predicate IsJsWhitespace(c: char) {
    || c == '\t' || c == '\n' || c == '\U{B}' || c == '\U{C}' || c == '\r'
    || c == ' ' || c == '\U{A0}' || c == '\U{1680}'
    || ('\U{2000}' <= c <= '\U{200A}')
    || c == '\U{2028}' || c == '\U{2029}' || c == '\U{202F}' || c == '\U{205F}'
    || c == '\U{3000}' || c == '\U{FEFF}'
  }

  /** The character class `[^\s@]`. */
  predicate InEmailClass(c: char) {
    !IsJsWhitespace(c) && c != '@'
  }

  /** `[^\s@]+` matches exactly the slice s[lo..hi]. */
  predicate Run(s: string, lo: int, hi: int)
    requires 0 <= lo <= hi <= |s|
  {
    lo < hi && forall t | lo <= t < hi :: InEmailClass(s[t])
  }

  /** The anchored pattern as written: the whole string is a run, an '@', a run,
      a '.', and a run. Because '.' belongs to `[^\s@]`, the pattern may pick
      any dot of the domain as its separator; the existential says exactly that. */
  predicate IsValidEmail(s: string)
    // The shortest accepted string is `x@y.z`, and none has whitespace or
    // starts or ends with '@'.
    ensures IsValidEmail(s) ==>
              && |s| >= 5 && s[0] != '@' && s[|s| - 1] != '@'
              && (forall i | 0 <= i < |s| :: !IsJsWhitespace(s[i]))
  {
    exists at, dot | 0 <= at < dot < |s| ::
      && s[at] == '@' && s[dot] == '.'
      && Run(s, 0, at) && Run(s, at + 1, dot) && Run(s, dot + 1, |s|)
  }

  /** An independent, character-level description of the accepted strings:
      no whitespace anywhere, exactly one '@', something before it, and a dot
      after it that has at least one character on each side. */
  predicate EmailShape(s: string) {
    && (forall i | 0 <= i < |s| :: !IsJsWhitespace(s[i]))
    && exists at | 0 < at < |s| ::
         && s[at] == '@'
         && (forall i | 0 <= i < |s| && s[i] == '@' :: i == at)
         && (exists dot | at + 1 < dot < |s| - 1 :: s[dot] == '.')
  }

  lemma IsValidEmailIffShape(s: string)
    ensures IsValidEmail(s) <==> EmailShape(s)
  {
  }

  lemma EmailExamples()
    ensures IsValidEmail("a@b.com")
    ensures !IsValidEmail("a@b")
    ensures !IsValidEmail("ab.com")
    ensures !IsValidEmail("a@@b.com")
    ensures !IsValidEmail("a b@c.com")
  {
    var s := "a@b.com";
    assert s[1] == '@' && s[3] == '.';
    assert Run(s, 0, 1) && Run(s, 2, 3) && Run(s, 4, |s|);
    IsValidEmailIffShape("a@b");
    IsValidEmailIffShape("ab.com");
    IsValidEmailIffShape("a@@b.com");
    assert "a@@b.com"[1] == '@' && "a@@b.com"[2] == '@';
    IsValidEmailIffShape("a b@c.com");
    assert "a b@c.com"[1] == ' ';
  }

  // ---------------------------------------------------------------------------
  // Password strength
  // ---------------------------------------------------------------------------

  /** JavaScript's `length`: the number of UTF-16 code units, two for every
      code point outside the Basic Multilingual Plane. */
  function Utf16Length(s: string): (n: nat)
    ensures |s| <= n <= 2 * |s|
  {
    if s == [] then 0
    else (if s[0] as int > 0xFFFF then 2 else 1) + Utf16Length(s[1..])
  }

  /** On text made only of Basic Multilingual Plane characters the two
      lengths agree. */
  lemma {:induction false} Utf16LengthBmp(s: string)
    requires forall i | 0 <= i < |s| :: s[i] as int <= 0xFFFF
    ensures Utf16Length(s) == |s|
  {
    if s != [] {
      assert forall i | 0 <= i < |s[1..]| :: s[1..][i] == s[i + 1];
      Utf16LengthBmp(s[1..]);
    }
  }

  predicate IsUpper(c: char) { 'A' <= c <= 'Z' }
  predicate IsLower(c: char) { 'a' <= c <= 'z' }
  predicate IsDigit(c: char) { '0' <= c <= '9' }

  /** The class `[!@#$%^&*(),.?":{}|<>]`. */
  predicate IsSpecial(c: char) { c in "!@#$%^&*(),.?\":{}|<>" }

  predicate HasUpper(p: string) { exists i | 0 <= i < |p| :: IsUpper(p[i]) }
  predicate HasLower(p: string) { exists i | 0 <= i < |p| :: IsLower(p[i]) }
  predicate HasDigit(p: string) { exists i | 0 <= i < |p| :: IsDigit(p[i]) }
  predicate HasSpecial(p: string) { exists i | 0 <= i < |p| :: IsSpecial(p[i]) }

  /** At least eight code units, and one character of each of the four classes;
      each unanchored class test is an existence of a matching position. */
  predicate IsStrongPassword(p: string)
    // Eight characters with the four classes always suffice.
    ensures |p| >= 8 && HasUpper(p) && HasLower(p) && HasDigit(p) && HasSpecial(p) ==> IsStrongPassword(p)
  {
    Utf16Length(p) >= 8 && HasUpper(p) && HasLower(p) && HasDigit(p) && HasSpecial(p)
  }

  /** On Basic Multilingual Plane text the length check counts characters,
      so strength is the plain five-part rule over the sequence. */
  lemma StrongPasswordBmp(p: string)
    requires forall i | 0 <= i < |p| :: p[i] as int <= 0xFFFF
    ensures IsStrongPassword(p) <==>
              |p| >= 8 && HasUpper(p) && HasLower(p) && HasDigit(p) && HasSpecial(p)
  {
    Utf16LengthBmp(p);
  }

  lemma StrongPasswordExamples()
    ensures IsStrongPassword("Abc123!@")
    ensures !IsStrongPassword("abc12345")
    ensures !IsStrongPassword("Ab1!")
    // Six code points, eight UTF-16 code units: accepted by the length check.
    ensures IsStrongPassword("Aa1!\U{1F600}\U{1F600}")
  {
    var p := "Abc123!@";
    assert IsUpper(p[0]) && IsLower(p[1]) && IsDigit(p[3]) && IsSpecial(p[6]);
    var q := "abc12345";
    assert forall i | 0 <= i < |q| :: !IsUpper(q[i]);
    var e := "Aa1!\U{1F600}\U{1F600}";
    assert IsUpper(e[0]) && IsLower(e[1]) && IsDigit(e[2]) && IsSpecial(e[3]);
    assert e[1..][1..][1..][1..] == "\U{1F600}\U{1F600}";
    assert Utf16Length("\U{1F600}\U{1F600}") == 4;
    assert Utf16Length(e) == 8;
  }
}
