// Character classes and string helpers shared by the pages: decimal
// rendering of numbers, digit stripping, JavaScript's String.split/join and
// String.trim.

module Text {

  predicate IsDigit(c: char) { '0' <= c <= '9' }

  predicate AllDigits(s: string) { forall i :: 0 <= i < |s| ==> IsDigit(s[i]) }

  /** Whitespace and line terminators as JavaScript's \s and String.trim see them. */
  predicate IsJsWhitespace(c: char)
  {
    var n := c as int;
    n == 0x09 || n == 0x0A || n == 0x0B || n == 0x0C || n == 0x0D || n == 0x20
    || n == 0xA0 || n == 0x1680 || (0x2000 <= n <= 0x200A)
    || n == 0x2028 || n == 0x2029 || n == 0x202F || n == 0x205F
    || n == 0x3000 || n == 0xFEFF
  }

  predicate StartsWith(s: string, prefix: string)
  {
    |prefix| <= |s| && s[..|prefix|] == prefix
  }

  function DigitChar(d: nat): (c: char)
    requires d < 10
    ensures IsDigit(c)
  {
    (('0' as int) + d) as char
  }

  function DigitValue(c: char): (d: nat)
    requires IsDigit(c)
    ensures d < 10 && DigitChar(d) == c
  {
    c as int - '0' as int
  }

  /** The decimal rendering of a number, as a template literal prints it. */
  function NatToString(n: nat): (s: string)
    ensures |s| > 0 && AllDigits(s)
    ensures s[0] == '0' ==> n == 0
    decreases n
  {
    if n < 10 then [DigitChar(n)] else NatToString(n / 10) + [DigitChar(n % 10)]
  }

  /** The value of a string of decimal digits (parseInt on a digit string). */
  function ParseNat(s: string): nat
    requires AllDigits(s)
    decreases |s|
  {
    if s == [] then 0 else 10 * ParseNat(s[..|s| - 1]) + DigitValue(s[|s| - 1])
  }

  lemma {:induction false} ParseNatToString(n: nat)
    ensures ParseNat(NatToString(n)) == n
    decreases n
  {
    var s := NatToString(n);
    if n >= 10 {
      var t := NatToString(n / 10);
      assert s[..|s| - 1] == t;
      ParseNatToString(n / 10);
    }
  }

  /** Rendering is injective: distinct numbers print differently. */
  lemma NatToStringInjective(a: nat, b: nat)
    requires NatToString(a) == NatToString(b)
    ensures a == b
  {
    ParseNatToString(a);
    ParseNatToString(b);
  }

  /** The decimal rendering of an integer, with a leading '-' when negative. */
  function IntToString(i: int): (s: string)
    ensures |s| > 0
    ensures i >= 0 ==> AllDigits(s)
    ensures i < 0 ==> s[0] == '-'
  {
    if i < 0 then "-" + NatToString(-i) else NatToString(i)
  }

  lemma IntToStringInjective(a: int, b: int)
    requires IntToString(a) == IntToString(b)
    ensures a == b
  {
    if a < 0 && b < 0 {
      assert IntToString(a)[1..] == NatToString(-a);
      assert IntToString(b)[1..] == NatToString(-b);
      NatToStringInjective(-a, -b);
    } else if a >= 0 && b >= 0 {
      NatToStringInjective(a, b);
    }
  }

  /** A fixed prefix followed by a rendered id names exactly one id. */
  lemma PrefixedIdInjective(prefix: string, a: int, b: int)
    requires prefix + IntToString(a) == prefix + IntToString(b)
    ensures a == b
  {
    assert (prefix + IntToString(a))[|prefix|..] == IntToString(a);
    assert (prefix + IntToString(b))[|prefix|..] == IntToString(b);
    IntToStringInjective(a, b);
  }

  /** The longest prefix of digits. */
  function TakeDigits(s: string): (r: string)
    ensures AllDigits(r) && |r| <= |s| && r == s[..|r|]
    ensures |r| < |s| ==> !IsDigit(s[|r|])
    decreases |s|
  {
    if s != [] && IsDigit(s[0]) then [s[0]] + TakeDigits(s[1..]) else []
  }

  lemma {:induction false} TakeDigitsOf(d: string, rest: string)
    requires AllDigits(d)
    requires rest == [] || !IsDigit(rest[0])
    ensures TakeDigits(d + rest) == d
    decreases |d|
  {
    if d != [] {
      assert (d + rest)[1..] == d[1..] + rest;
      TakeDigitsOf(d[1..], rest);
    } else {
      assert d + rest == rest;
    }
  }

  /** `value.replace(/\D/g, '')`: every non-digit removed, digits kept in order. */
  function KeepDigits(s: string): (r: string)
    ensures AllDigits(r) && |r| <= |s|
    ensures forall c :: c in r <==> c in s && IsDigit(c)
    decreases |s|
  {
    if s == [] then []
    else (if IsDigit(s[0]) then [s[0]] else []) + KeepDigits(s[1..])
  }

  lemma {:induction false} KeepDigitsConcat(a: string, b: string)
    ensures KeepDigits(a + b) == KeepDigits(a) + KeepDigits(b)
    decreases |a|
  {
    if a == [] {
      assert a + b == b;
    } else {
      assert (a + b)[1..] == a[1..] + b;
      KeepDigitsConcat(a[1..], b);
    }
  }

  lemma {:induction false} KeepDigitsOfDigits(s: string)
    requires AllDigits(s)
    ensures KeepDigits(s) == s
    decreases |s|
  {
    if s != [] {
      KeepDigitsOfDigits(s[1..]);
    }
  }

  /** `s.split(sep)` for a non-empty separator: the pieces between the
      non-overlapping occurrences of sep, found from left to right. */
  function SplitOn(s: string, sep: string): (parts: seq<string>)
    requires |sep| > 0
    ensures |parts| >= 1
    decreases |s|
  {
    if StartsWith(s, sep) then [""] + SplitOn(s[|sep|..], sep)
    else if s == [] then [""]
    else
      var rest := SplitOn(s[1..], sep);
      [[s[0]] + rest[0]] + rest[1..]
  }

  /** `parts.join(sep)`. */
  function Join(parts: seq<string>, sep: string): string
    decreases |parts|
  {
    if parts == [] then ""
    else if |parts| == 1 then parts[0]
    else parts[0] + sep + Join(parts[1..], sep)
  }

  lemma JoinCons(x: string, parts: seq<string>, sep: string)
    requires |parts| >= 1
    ensures Join([x] + parts, sep) == x + sep + Join(parts, sep)
  {
    assert ([x] + parts)[1..] == parts;
  }

  /** Prepending a character to the first piece prepends it to the joined string. */
  lemma JoinPrependFirst(c: char, parts: seq<string>, sep: string)
    requires |parts| >= 1
    ensures Join([[c] + parts[0]] + parts[1..], sep) == [c] + Join(parts, sep)
  {
    if |parts| > 1 {
      JoinCons([c] + parts[0], parts[1..], sep);
      JoinCons(parts[0], parts[1..], sep);
      assert parts == [parts[0]] + parts[1..];
    }
  }

  /** Joining with the separator undoes splitting on it. */
  lemma {:induction false} JoinSplit(s: string, sep: string)
    requires |sep| > 0
    ensures Join(SplitOn(s, sep), sep) == s
    decreases |s|
  {
    if StartsWith(s, sep) {
      JoinSplit(s[|sep|..], sep);
      JoinSplitAtSep(s, sep);
    } else if s != [] {
      JoinSplit(s[1..], sep);
      JoinSplitAtChar(s, sep);
    }
  }

  /** The step of JoinSplit where s starts with the separator. */
  lemma JoinSplitAtSep(s: string, sep: string)
    requires |sep| > 0 && StartsWith(s, sep)
    requires Join(SplitOn(s[|sep|..], sep), sep) == s[|sep|..]
    ensures Join(SplitOn(s, sep), sep) == s
  {
    var t := s[|sep|..];
    var tail := SplitOn(t, sep);
    assert SplitOn(s, sep) == [""] + tail;
    JoinCons("", tail, sep);
    assert "" + sep + t == sep + t;
    assert s == sep + t;
  }

  /** The step of JoinSplit where s starts with an ordinary character. */
  lemma JoinSplitAtChar(s: string, sep: string)
    requires |sep| > 0 && !StartsWith(s, sep) && s != []
    requires Join(SplitOn(s[1..], sep), sep) == s[1..]
    ensures Join(SplitOn(s, sep), sep) == s
  {
    var rest := SplitOn(s[1..], sep);
    assert SplitOn(s, sep) == [[s[0]] + rest[0]] + rest[1..];
    JoinPrependFirst(s[0], rest, sep);
    assert s == [s[0]] + s[1..];
  }

  /** sep occurs in s starting at index i. */
  predicate OccursAt(s: string, sep: string, i: nat)
  {
    i + |sep| <= |s| && s[i..i + |sep|] == sep
  }

  /** No occurrence of sep starts inside the first k characters of s. */
  predicate NoSepBefore(s: string, sep: string, k: nat)
  {
    forall i: nat :: i < k ==> !OccursAt(s, sep, i)
  }

  /** Splitting r + sep + t, when sep occurs nowhere before the separator that
      follows r, yields r as the first piece and the pieces of t after it. */
  lemma {:induction false} SplitAfterFirst(r: string, sep: string, t: string)
    requires |sep| > 0
    requires NoSepBefore(r + sep + t, sep, |r|)
    ensures SplitOn(r + sep + t, sep) == [r] + SplitOn(t, sep)
    decreases |r|
  {
    var s := r + sep + t;
    if r == [] {
      assert s == sep + t;
      assert s[..|sep|] == sep;
      assert s[|sep|..] == t;
    } else {
      assert !OccursAt(s, sep, 0);
      assert s[0..|sep|] == s[..|sep|];
      assert !StartsWith(s, sep);
      assert s[1..] == r[1..] + sep + t;
      forall i: nat | i < |r| - 1
        ensures !OccursAt(s[1..], sep, i)
      {
        assert !OccursAt(s, sep, i + 1);
        if i + |sep| <= |s[1..]| {
          assert s[1..][i..i + |sep|] == s[i + 1..i + 1 + |sep|];
        }
      }
      SplitAfterFirst(r[1..], sep, t);
      assert [s[0]] + r[1..] == r;
    }
  }

  /** A string without the one-character separator is a single piece. */
  lemma {:induction false} SplitWithoutSep(s: string, c: char)
    requires c !in s
    ensures SplitOn(s, [c]) == [s]
    decreases |s|
  {
    if s != [] {
      assert !StartsWith(s, [c]) by { assert s[..1][0] == s[0]; }
      SplitWithoutSep(s[1..], c);
      assert [s[0]] + s[1..] == s;
    }
  }

  /** Splitting on a one-character separator, a final piece that does not
      contain it becomes the last piece. */
  lemma {:induction false} SplitBeforeLast(q: string, c: char, last: string)
    requires c !in last
    ensures SplitOn(q + [c] + last, [c]) == SplitOn(q, [c]) + [last]
    decreases |q|
  {
    var s := q + [c] + last;
    if q == [] {
      assert s == [c] + last;
      assert StartsWith(s, [c]);
      assert s[1..] == last;
      SplitWithoutSep(last, c);
      assert StartsWith([c], [c]) && [c][1..] == [];
    } else {
      assert s[1..] == q[1..] + [c] + last;
      SplitBeforeLast(q[1..], c, last);
      assert StartsWith(s, [c]) <==> StartsWith(q, [c]) by {
        assert s[..1] == [s[0]] && q[..1] == [q[0]];
      }
      if StartsWith(q, [c]) {
        assert s[|[c]|..] == s[1..];
      } else {
        var rest := SplitOn(q[1..], [c]);
        assert (rest + [last])[0] == rest[0];
        assert (rest + [last])[1..] == rest[1..] + [last];
      }
    }
  }

  /** String.prototype.trim: leading and trailing whitespace removed. */
  /** The index of the first character of s at or after i that is not whitespace, or |s|. */
  function SkipLeading(s: string, i: nat): (j: nat)
    requires i <= |s|
    ensures i <= j <= |s|
    ensures forall k :: i <= k < j ==> IsJsWhitespace(s[k])
    ensures j < |s| ==> !IsJsWhitespace(s[j])
    decreases |s| - i
  {
    if i < |s| && IsJsWhitespace(s[i]) then SkipLeading(s, i + 1) else i
  }

  /** The index just past the last character of s[lo..j] that is not whitespace, or lo. */
  function SkipTrailing(s: string, lo: nat, j: nat): (e: nat)
    requires lo <= j <= |s|
    ensures lo <= e <= j
    ensures forall k :: e <= k < j ==> IsJsWhitespace(s[k])
    ensures lo < e ==> !IsJsWhitespace(s[e - 1])
    decreases j
  {
    if lo < j && IsJsWhitespace(s[j - 1]) then SkipTrailing(s, lo, j - 1) else j
  }

  /** `String.prototype.trimStart`: drops the leading whitespace. */
  function TrimStart(s: string): (r: string)
    ensures |r| <= |s| && r == s[|s| - |r|..]
    ensures r != [] ==> !IsJsWhitespace(r[0])
    ensures forall k :: 0 <= k < |s| - |r| ==> IsJsWhitespace(s[k])
  {
    s[SkipLeading(s, 0)..]
  }

  /** `String.prototype.trimEnd`: drops the trailing whitespace. */
  function TrimEnd(s: string): (r: string)
    ensures |r| <= |s| && r == s[..|r|]
    ensures r != [] ==> !IsJsWhitespace(r[|r| - 1])
    ensures forall k :: |r| <= k < |s| ==> IsJsWhitespace(s[k])
  {
    s[..SkipTrailing(s, 0, |s|)]
  }

  /** `String.prototype.trim`: drops the whitespace at both ends. */
  function Trim(s: string): (r: string)
    ensures |r| <= |s|
    ensures r != [] ==> !IsJsWhitespace(r[0]) && !IsJsWhitespace(r[|r| - 1])
    ensures s != [] && !IsJsWhitespace(s[0]) && !IsJsWhitespace(s[|s| - 1]) ==> r == s
    // r is the slice of s that starts where the leading whitespace ends, and
    // only whitespace lies before and after it
    ensures var i := |s| - |TrimStart(s)|;
      0 <= i <= i + |r| <= |s| && r == s[i..i + |r|]
      && (forall k :: 0 <= k < i ==> IsJsWhitespace(s[k]))
      && (forall k :: i + |r| <= k < |s| ==> IsJsWhitespace(s[k]))
  {
    var i := SkipLeading(s, 0);
    s[i..SkipTrailing(s, i, |s|)]
  }

  /** Trimming both ends at once is trimming the start and then the end. */
  lemma {:induction false} TrimIsTrimEndOfTrimStart(s: string)
    ensures Trim(s) == TrimEnd(TrimStart(s))
  {
    var i := SkipLeading(s, 0);
    var t := s[i..];
    SkipTrailingOfSuffix(s, i, |s|);
    assert SkipTrailing(t, 0, |t|) + i == SkipTrailing(s, i, |s|);
  }

  /** Skipping trailing whitespace inside a suffix of s is the same as inside s. */
  lemma {:induction false} SkipTrailingOfSuffix(s: string, i: nat, j: nat)
    requires i <= j <= |s|
    ensures SkipTrailing(s[i..], 0, j - i) + i == SkipTrailing(s, i, j)
    decreases j
  {
    if i < j {
      assert s[i..][j - i - 1] == s[j - 1];
      if IsJsWhitespace(s[j - 1]) {
        SkipTrailingOfSuffix(s, i, j - 1);
      }
    }
  }

  /** Number of occurrences of a character, as `(s.match(/,/g) || []).length` counts commas. */
  function CountChar(s: string, c: char): (n: nat)
    ensures n <= |s|
    ensures n == 0 <==> c !in s
    decreases |s|
  {
    if s == [] then 0 else (if s[0] == c then 1 else 0) + CountChar(s[1..], c)
  }

  lemma {:induction false} CountCharConcat(a: string, b: string, c: char)
    ensures CountChar(a + b, c) == CountChar(a, c) + CountChar(b, c)
    decreases |a|
  {
    if a == [] {
      assert a + b == b;
    } else {
      assert (a + b)[1..] == a[1..] + b;
      CountCharConcat(a[1..], b, c);
    }
  }
}
