/**
 * The password strength rule applied by the sign-up form whenever the
 * password field changes: at least eight characters (JavaScript's
 * `value.length`, i.e. UTF-16 code units) and at least one character from
 * each of four ASCII classes. The regular expressions of the source are
 * written out as predicates over characters and as the scans they perform.
 */
module PasswordRule {

  /** The four character classes the rule asks for. */
  datatype CharClass = UpperCase | LowerCase | Digit | Special

  predicate IsUpperAscii(c: char) { 'A' <= c <= 'Z' }

  predicate IsLowerAscii(c: char) { 'a' <= c <= 'z' }

  /** `[0-9]`, which is also what `\d` means in a JavaScript regex. */
  predicate IsDigitAscii(c: char) { '0' <= c <= '9' }

  /** `[!@#$%^&*]` */
  predicate IsSpecialChar(c: char) {
    c == '!' || c == '@' || c == '#' || c == '$' || c == '%' || c == '^' || c == '&' || c == '*'
  }

  predicate InClass(k: CharClass, c: char) {
    match k
    case UpperCase => IsUpperAscii(c)
    case LowerCase => IsLowerAscii(c)
    case Digit => IsDigitAscii(c)
    case Special => IsSpecialChar(c)
  }

  /** `/[k]/.test(s)`: the unanchored search for one character of class `k`. */
  predicate Occurs(k: CharClass, s: string) {
    |s| > 0 && (InClass(k, s[0]) || Occurs(k, s[1..]))
  }

  /** `/^[k]*$/.test(s)`: every character of `s` belongs to class `k`. */
  predicate OnlyOf(k: CharClass, s: string) {
    |s| == 0 || (InClass(k, s[0]) && OnlyOf(k, s[1..]))
  }

  /** Number of UTF-16 code units JavaScript uses for the character `c`. */
  function CodeUnits(c: char): nat {
    if c as int < 0x1_0000 then 1 else 2
  }

  /** JavaScript's `s.length`: the number of UTF-16 code units of `s`. */
  function Utf16Length(s: string): (n: nat)
    ensures |s| <= n <= 2 * |s|
    ensures n == 0 <==> s == []
  {
    if s == [] then 0 else CodeUnits(s[0]) + Utf16Length(s[1..])
  }

  const MinLength: nat := 8

  /** The rule computed into `isValid` by the password branch of the change handler. */
  predicate IsStrongPassword(p: string) {
    && Utf16Length(p) >= MinLength
    && Occurs(UpperCase, p)
    && Occurs(LowerCase, p)
    && Occurs(Digit, p)
    && Occurs(Special, p)
  }

  /** The scan finds a character of class `k` exactly when `s` has one at some index. */
  lemma {:induction false} OccursIff(k: CharClass, s: string)
    ensures Occurs(k, s) <==> exists i :: 0 <= i < |s| && InClass(k, s[i])
  {
    if |s| > 0 {
      OccursIff(k, s[1..]);
      if Occurs(k, s[1..]) {
        var j :| 0 <= j < |s[1..]| && InClass(k, s[1..][j]);
        assert InClass(k, s[j + 1]);
      }
      if exists i :: 0 <= i < |s| && InClass(k, s[i]) {
        var i :| 0 <= i < |s| && InClass(k, s[i]);
        if i > 0 {
          assert InClass(k, s[1..][i - 1]);
        }
      }
    }
  }

  /** The anchored match succeeds exactly when every character of `s` is in class `k`. */
  lemma {:induction false} OnlyOfIff(k: CharClass, s: string)
    ensures OnlyOf(k, s) <==> forall i :: 0 <= i < |s| ==> InClass(k, s[i])
  {
    if |s| > 0 {
      OnlyOfIff(k, s[1..]);
      if forall i :: 0 <= i < |s| ==> InClass(k, s[i]) {
        forall j | 0 <= j < |s[1..]| ensures InClass(k, s[1..][j]) {
          assert s[1..][j] == s[j + 1];
        }
      }
      if OnlyOf(k, s) {
        forall i | 0 <= i < |s| ensures InClass(k, s[i]) {
          if i > 0 {
            assert s[i] == s[1..][i - 1];
          }
        }
      }
    }
  }

  /** A search over a concatenation finds what either part holds. */
  lemma {:induction false} OccursAppend(k: CharClass, a: string, b: string)
    ensures Occurs(k, a + b) <==> Occurs(k, a) || Occurs(k, b)
  {
    if |a| > 0 {
      assert (a + b)[0] == a[0];
      assert (a + b)[1..] == a[1..] + b;
      OccursAppend(k, a[1..], b);
    } else {
      assert a + b == b;
    }
  }

  /** JavaScript lengths add up over concatenation. */
  lemma {:induction false} Utf16LengthAppend(a: string, b: string)
    ensures Utf16Length(a + b) == Utf16Length(a) + Utf16Length(b)
  {
    if |a| > 0 {
      assert (a + b)[0] == a[0];
      assert (a + b)[1..] == a[1..] + b;
      Utf16LengthAppend(a[1..], b);
    } else {
      assert a + b == b;
    }
  }

  /** For text in the Basic Multilingual Plane, JavaScript's length is the character count. */
  lemma {:induction false} Utf16LengthBmp(s: string)
    requires forall i :: 0 <= i < |s| ==> s[i] as int < 0x1_0000
    ensures Utf16Length(s) == |s|
  {
    if |s| > 0 {
      assert forall i :: 0 <= i < |s[1..]| ==> s[1..][i] == s[i + 1];
      Utf16LengthBmp(s[1..]);
    }
  }

  /**
   * The rule, stated without the scans: long enough, and one character of each
   * of the four classes somewhere in the password.
   */
  lemma StrongPasswordIff(p: string)
    ensures IsStrongPassword(p) <==>
      && Utf16Length(p) >= 8
      && (exists i :: 0 <= i < |p| && IsUpperAscii(p[i]))
      && (exists i :: 0 <= i < |p| && IsLowerAscii(p[i]))
      && (exists i :: 0 <= i < |p| && IsDigitAscii(p[i]))
      && (exists i :: 0 <= i < |p| && IsSpecialChar(p[i]))
  {
    OccursIff(UpperCase, p);
    OccursIff(LowerCase, p);
    OccursIff(Digit, p);
    OccursIff(Special, p);
  }

  /**
   * No character is forbidden and there is no maximum length: surrounding a
   * strong password with any text whatever keeps it strong.
   */
  lemma StrongPasswordExtends(p: string, before: string, after: string)
    requires IsStrongPassword(p)
    ensures IsStrongPassword(before + p + after)
  {
    var q := before + p + after;
    Utf16LengthAppend(before, p);
    Utf16LengthAppend(before + p, after);
    forall k: CharClass ensures Occurs(k, p) ==> Occurs(k, q) {
      OccursAppend(k, before, p);
      OccursAppend(k, before + p, after);
    }
  }

  /** Each of the four classes is necessary on its own. */
  lemma MissingClassIsWeak(p: string, k: CharClass)
    requires forall i :: 0 <= i < |p| ==> !InClass(k, p[i])
    ensures !IsStrongPassword(p)
  {
    OccursIff(k, p);
  }

  /**
   * Two strong passwords: each has all four classes and at least eight
   * characters. The password is a parameter fixed by the precondition rather
   * than a literal in the conclusion, which keeps the solver from unfolding
   * the scans over the literal eagerly.
   */
  lemma StrongPasswordExamples(p: string)
    requires p == "Abc12345!" || p == "Abc123!!"
    ensures IsStrongPassword(p)
  {
    OccursIff(Digit, p);
    assert InClass(Digit, p[3]);
    OccursIff(Special, p);
    if p == "Abc12345!" {
      assert InClass(Special, p[8]);
    } else {
      assert InClass(Special, p[6]);
    }
  }

  /**
   * Three weak passwords: none of them has an upper-case letter. As above,
   * taking the literal as a parameter keeps the solver from unfolding it.
   */
  lemma WeakPasswordExamples(p: string)
    requires p == "abc12345" || p == "weak" || p == ""
    ensures !IsStrongPassword(p)
  {
    MissingClassIsWeak(p, UpperCase);
  }
}
