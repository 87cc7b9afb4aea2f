// src/utils/auth_utils.ts: the password-complexity rule, a single anchored
// regular expression of five lookaheads, evaluated at position 0.

module AuthUtils {
  import opened Text

  /** The characters JavaScript's `.` does not match without the s flag. */
  predicate IsLineTerminator(c: char)
  {
    c == '\n' || c == '\r' || c == '\U{2028}' || c == '\U{2029}'
  }

  predicate IsAsciiLower(c: char) { 'a' <= c <= 'z' }

  predicate IsAsciiUpper(c: char) { 'A' <= c <= 'Z' }

  /** The classes the lookaheads search for: \d, [a-z], [A-Z] and [^A-Za-z\s0-9]. */
  datatype CharClass = Digit | Lower | Upper | Special

  predicate InClass(c: char, k: CharClass)
  {
    match k
    case Digit => IsDigit(c)
    case Lower => IsAsciiLower(c)
    case Upper => IsAsciiUpper(c)
    case Special => !IsAsciiLower(c) && !IsAsciiUpper(c) && !IsJsWhitespace(c) && !IsDigit(c)
  }

  predicate NoLineTerminator(p: string)
  {
    forall i :: 0 <= i < |p| ==> !IsLineTerminator(p[i])
  }

  predicate HasClass(p: string, k: CharClass)
  {
    exists i :: 0 <= i < |p| && InClass(p[i], k)
  }

  /** The UTF-16 code units a character takes in a JavaScript string: two
      for a character outside the Basic Multilingual Plane, one otherwise. */
  function CodeUnits(c: char): (n: nat)
    ensures n == 1 || n == 2
    ensures n == 2 <==> c as int >= 0x1_0000
  {
    if c as int >= 0x1_0000 then 2 else 1
  }

  /** The string's `length`: its UTF-16 code units, which is what a regular
      expression without the u flag counts and matches one by one. */
  function Utf16Length(p: string): (n: nat)
    ensures |p| <= n <= 2 * |p|
    ensures (forall i :: 0 <= i < |p| ==> p[i] as int < 0x1_0000) ==> n == |p|
    decreases |p|
  {
    if p == [] then 0 else CodeUnits(p[0]) + Utf16Length(p[1..])
  }

  /** `(?=.{8,}$)` at the start: eight or more code units, none a line
      terminator, running to the end of the input. Without the u flag `.`
      matches each half of a surrogate pair, so a character outside the
      Basic Multilingual Plane counts twice. */
  function LongToEnd(p: string): (b: bool)
    ensures b <==> Utf16Length(p) >= 8 && NoLineTerminator(p)
    ensures b ==> |p| >= 4
    decreases |p|
  {
    if p == [] then false
    else if IsLineTerminator(p[0]) then false
    else if Utf16Length(p) >= 8 then NoLineTerminatorScan(p)
    else false
  }

  function NoLineTerminatorScan(p: string): (b: bool)
    ensures b <==> NoLineTerminator(p)
    decreases |p|
  {
    p == [] || (!IsLineTerminator(p[0]) && NoLineTerminatorScan(p[1..]))
  }

  /** `(?=.*?K)` at the start: a lazy scan over non-line-terminators that
      stops at the first character of class K. */
  function Reaches(p: string, k: CharClass): (b: bool)
    ensures b <==> exists i :: 0 <= i < |p| && InClass(p[i], k) && NoLineTerminator(p[..i])
    decreases |p|
  {
    if p == [] then false
    else if InClass(p[0], k) then
      assert NoLineTerminator(p[..0]);
      true
    else if IsLineTerminator(p[0]) then false
    else
      var b := Reaches(p[1..], k);
      if b then
        var i :| 0 <= i < |p[1..]| && InClass(p[1..][i], k) && NoLineTerminator(p[1..][..i]);
        assert p[..i + 1] == [p[0]] + p[1..][..i];
        true
      else
        assert forall i :: 0 < i < |p| ==> p[1..][i - 1] == p[i] && p[1..][..i - 1] == p[1..i];
        false
  }

  /** verifyPasswordComplexity: accepted exactly when the password has at least
      eight UTF-16 code units, no line terminator, and at least one ASCII digit, one
      ASCII lower-case letter, one ASCII upper-case letter and one character
      that is none of those nor whitespace. */
  function VerifyPasswordComplexity(p: string): (ok: bool)
    ensures ok <==> Utf16Length(p) >= 8 && NoLineTerminator(p)
                    && HasClass(p, Digit) && HasClass(p, Lower)
                    && HasClass(p, Upper) && HasClass(p, Special)
  {
    var r := LongToEnd(p) && Reaches(p, Digit) && Reaches(p, Lower) && Reaches(p, Upper) && Reaches(p, Special);
    assert LongToEnd(p) ==> forall i :: 0 <= i <= |p| ==> NoLineTerminator(p[..i]);
    r
  }

  /** Two characters outside the Basic Multilingual Plane make a password of
      six characters long enough: "Aa1!" followed by two emoji is accepted. */
  lemma AstralCharactersCountTwice()
    ensures var p := "Aa1!" + ['\U{1F600}', '\U{1F600}'];
      |p| == 6 && VerifyPasswordComplexity(p)
  {
    var a, b := "Aa1!", ['\U{1F600}', '\U{1F600}'];
    var p := a + b;
    assert Utf16Length(a) == 4;
    assert Utf16Length(b) == 4 by {
      assert b[1..] == ['\U{1F600}'] && b[1..][1..] == [];
    }
    Utf16LengthConcat(a, b);
    assert InClass(p[2], Digit) && InClass(p[1], Lower) && InClass(p[0], Upper) && InClass(p[3], Special);
  }

  lemma {:induction false} Utf16LengthConcat(a: string, b: string)
    ensures Utf16Length(a + b) == Utf16Length(a) + Utf16Length(b)
    decreases |a|
  {
    if a == [] {
      assert a + b == b;
    } else {
      assert (a + b)[1..] == a[1..] + b;
      Utf16LengthConcat(a[1..], b);
    }
  }
}
