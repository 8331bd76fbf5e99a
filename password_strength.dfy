/** The password-strength meter: a score from 0 to 4 and the label and
    colour shown for it. */
module PasswordStrengthIndicator {

  predicate IsLower(c: char) { 'a' <= c <= 'z' }
  predicate IsUpper(c: char) { 'A' <= c <= 'Z' }
  predicate IsDigit(c: char) { '0' <= c <= '9' }

  /** Matched by `[^a-zA-Z0-9]`: anything that is not an ASCII letter or
      digit. */
  predicate IsSpecial(c: char) { !IsLower(c) && !IsUpper(c) && !IsDigit(c) }

  /** `/[a-z]/.test(p)` and its companions: some character of the class
      occurs. */
  predicate HasLower(p: string) { exists i :: 0 <= i < |p| && IsLower(p[i]) }
  predicate HasUpper(p: string) { exists i :: 0 <= i < |p| && IsUpper(p[i]) }
  predicate HasDigit(p: string) { exists i :: 0 <= i < |p| && IsDigit(p[i]) }
  predicate HasSpecial(p: string) { exists i :: 0 <= i < |p| && IsSpecial(p[i]) }

  /** The length that earns the length point. */
  const MinLength: int := 8

  /** `password.length`: the number of UTF-16 code units. A character
      outside the Basic Multilingual Plane takes two of them (a surrogate
      pair), every other character one. */
  function Utf16Length(p: string): nat {
    if p == [] then 0 else (if p[0] >= '\U{10000}' then 2 else 1) + Utf16Length(p[1..])
  }

  /** UTF-16 counts every character once or twice, and the empty string
      alone has length 0; without characters past the BMP it counts
      characters. */
  lemma {:induction false} Utf16LengthBounds(p: string)
    ensures |p| <= Utf16Length(p) <= 2 * |p|
    ensures Utf16Length(p) == 0 <==> p == []
    ensures (forall i :: 0 <= i < |p| ==> p[i] < '\U{10000}') ==> Utf16Length(p) == |p|
  {
    if p != [] {
      Utf16LengthBounds(p[1..]);
    }
  }

  /** Six letters and an emoji make eight code units: the emoji earns the
      length point as well as the special-character point. */
  lemma AstralCharCountsTwice()
    ensures Utf16Length("aaaaaa\U{1F600}") == 8
    ensures PasswordScore("aaaaaa\U{1F600}") == 2
  {
    var p := "aaaaaa\U{1F600}";
    assert IsSpecial(p[6]);
  }

  function Point(b: bool): nat { if b then 1 else 0 }

  /** The reference score: one point each for being long enough, mixing
      upper and lower case, containing a digit, and containing a
      character that is neither. */
  function PasswordScore(p: string): nat {
    Point(Utf16Length(p) >= MinLength) + Point(HasLower(p) && HasUpper(p)) + Point(HasDigit(p)) + Point(HasSpecial(p))
  }

  /** `calculatePasswordStrength(password)`: the counter starts at zero and
      each passed test adds one; the empty password returns at once. */
  method CalculatePasswordStrength(password: string) returns (strength: nat)
    ensures strength == PasswordScore(password)
    ensures strength <= 4
  {
    if Utf16Length(password) == 0 {
      return 0;
    }
    strength := 0;
    if Utf16Length(password) >= MinLength {
      strength := strength + 1;
    }
    if HasLower(password) && HasUpper(password) {
      strength := strength + 1;
    }
    if HasDigit(password) {
      strength := strength + 1;
    }
    if HasSpecial(password) {
      strength := strength + 1;
    }
  }

  /** The score is between 0 and 4, and the empty password scores 0: the
      early return gives what the four tests would. */
  lemma ScoreRange(p: string)
    ensures 0 <= PasswordScore(p) <= 4
    ensures p == [] ==> PasswordScore(p) == 0
  {
  }

  /** A password shorter than eight characters scores at most 3. */
  lemma ShortScoresAtMostThree(p: string)
    requires Utf16Length(p) < MinLength
    ensures PasswordScore(p) <= 3
  {
  }

  /** Letters of one case alone earn no case point. */
  lemma OneCaseEarnsNoCasePoint(p: string)
    requires !HasUpper(p) || !HasLower(p)
    ensures PasswordScore(p) == Point(Utf16Length(p) >= MinLength) + Point(HasDigit(p)) + Point(HasSpecial(p))
  {
  }

  /** A password scores 0 exactly when it is shorter than eight characters
      and made of lower-case letters only or of upper-case letters only. */
  lemma ScoreZeroExactly(p: string)
    ensures PasswordScore(p) == 0 <==>
      Utf16Length(p) < MinLength && ((forall i :: 0 <= i < |p| ==> IsLower(p[i])) || (forall i :: 0 <= i < |p| ==> IsUpper(p[i])))
  {
    if PasswordScore(p) == 0 && !(forall i :: 0 <= i < |p| ==> IsLower(p[i])) {
      var j :| 0 <= j < |p| && !IsLower(p[j]);
      assert IsUpper(p[j]);
      forall i | 0 <= i < |p| ensures IsUpper(p[i]) {
        assert !IsDigit(p[i]) && !IsSpecial(p[i]);
      }
    }
  }

  /** A password scores 4 exactly when it passes all four tests. */
  lemma ScoreFourExactly(p: string)
    ensures PasswordScore(p) == 4 <==>
      Utf16Length(p) >= MinLength && HasLower(p) && HasUpper(p) && HasDigit(p) && HasSpecial(p)
  {
  }

  /** The colour of the light grey bar background. */
  const Grey: string := "#E2E8F0"

  /** `getPasswordStrengthColor(strength)`: red, orange, yellow and green for
      1 to 4, grey for anything else. */
  function GetPasswordStrengthColor(strength: int): (r: string)
    ensures r == Grey <==> !(1 <= strength <= 4)
  {
    match strength
    case 1 => "#ea384c"
    case 2 => "#F97316"
    case 3 => "#FACC15"
    case 4 => "#10B981"
    case _ => Grey
  }

  /** The four scores have four different colours. */
  lemma ColoursDistinct(a: int, b: int)
    requires 1 <= a <= 4 && 1 <= b <= 4 && a != b
    ensures GetPasswordStrengthColor(a) != GetPasswordStrengthColor(b)
  {
  }

  /** `getPasswordStrengthText(strength)`: Weak, Fair, Good and Strong for 1
      to 4, and nothing for 0 or any other value. */
  function GetPasswordStrengthText(strength: int): (r: string)
    ensures r == "" <==> !(1 <= strength <= 4)
  {
    match strength
    case 1 => "Weak"
    case 2 => "Fair"
    case 3 => "Good"
    case 4 => "Strong"
    case _ => ""
  }

  /** The four scores have four different labels, so the label tells the
      score. */
  lemma TextsDistinct(a: int, b: int)
    requires 1 <= a <= 4 && 1 <= b <= 4 && a != b
    ensures GetPasswordStrengthText(a) != GetPasswordStrengthText(b)
  {
  }

  /** Every non-empty password that scores makes the meter show a label and
      a colour; a password scoring 0 shows neither. */
  lemma MeterShowsScore(p: string)
    ensures PasswordScore(p) > 0 <==> GetPasswordStrengthText(PasswordScore(p)) != ""
    ensures PasswordScore(p) > 0 <==> GetPasswordStrengthColor(PasswordScore(p)) != Grey
  {
  }
}
