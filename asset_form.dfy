// src/pages/Assets/AssetForm.tsx: the thousands-separator formatters of the
// cost and maintenance-rate fields, the submit validation, the save handler,
// the cursor correction after reformatting, and the label choices offered.

module AssetForm {
  import opened Seqs
  import opened Text
  import opened Domain
  import opened RoleUtils

  // ---------------------------------------------------------------------
  // Digit grouping: `.replace(/\B(?<!\.\d*)(?=(\d{3})+(?!\d))/g, ',')`
  // ---------------------------------------------------------------------

  /** The grouping regex over a run of digits d, scanned from index i: a comma
      goes before every inner position whose distance to the end of the run is
      a positive multiple of three. */
  function Commafy(d: string, i: nat): string
    requires i <= |d|
    decreases |d| - i
  {
    if i == |d| then []
    else Separator(d, i) + [d[i]] + Commafy(d, i + 1)
  }

  /** The comma written before the digit at position i: one when a group of
      three digits starts there, never before the first digit. */
  function Separator(d: string, i: nat): string
  {
    if 0 < i && (|d| - i) % 3 == 0 then [','] else []
  }

  /** A digit count x grouped by threes takes x + x / 3 characters, a
      multiple of four exactly when x is a multiple of three. */
  lemma GroupedLengthMod(x: nat)
    ensures (x + x / 3) % 4 == x % 3
  {
    var q, r := x / 3, x % 3;
    assert x == 3 * q + r;
    FourGroupsMod(q, r);
  }

  lemma FourGroupsMod(q: nat, r: nat)
    requires r < 4
    ensures (4 * q + r) % 4 == r
  {
  }

  /** Putting p before t keeps the comma positions counted from the right,
      provided p's own characters already follow that rule. */
  lemma CommasShift(p: string, t: string)
    requires forall k :: 0 <= k < |t| ==> (t[k] == ',' <==> (|t| - k) % 4 == 0)
    requires forall k :: 0 <= k < |p| ==> (p[k] == ',' <==> (|p| + |t| - k) % 4 == 0)
    ensures forall k :: 0 <= k < |p + t| ==> ((p + t)[k] == ',' <==> (|p + t| - k) % 4 == 0)
  {
    forall k | 0 <= k < |p + t|
      ensures (p + t)[k] == ',' <==> (|p + t| - k) % 4 == 0
    {
      if k >= |p| {
        assert (p + t)[k] == t[k - |p|];
      } else {
        assert (p + t)[k] == p[k];
      }
    }
  }

  lemma {:induction false} CommafyLength(d: string, i: nat)
    requires 0 < i <= |d|
    ensures |Commafy(d, i)| == (|d| - i) + (|d| - i) / 3
    decreases |d| - i
  {
    if i < |d| {
      CommafyLength(d, i + 1);
    }
  }

  lemma {:induction false} CommafyCommas(d: string, i: nat)
    requires AllDigits(d)
    requires 0 < i <= |d|
    ensures forall k :: 0 <= k < |Commafy(d, i)| ==>
              (Commafy(d, i)[k] == ',' <==> (|Commafy(d, i)| - k) % 4 == 0)
    decreases |d| - i
  {
    if i < |d| {
      CommafyCommas(d, i + 1);
      CommafyLength(d, i);
      GroupedLengthMod(|d| - i);
      assert IsDigit(d[i]);
      CommasShift(Separator(d, i) + [d[i]], Commafy(d, i + 1));
    }
  }

  lemma {:induction false} CommafyChars(d: string, i: nat)
    requires AllDigits(d)
    requires i <= |d|
    ensures forall k :: 0 <= k < |Commafy(d, i)| ==> Commafy(d, i)[k] == ',' || IsDigit(Commafy(d, i)[k])
    decreases |d| - i
  {
    if i < |d| {
      var t := Commafy(d, i + 1);
      CommafyChars(d, i + 1);
      var c: string := if 0 < i && (|d| - i) % 3 == 0 then [','] else [];
      var s := c + [d[i]] + t;
      assert Commafy(d, i) == s;
      forall k | 0 <= k < |s|
        ensures s[k] == ',' || IsDigit(s[k])
      {
        if k > |c| {
          assert s[k] == t[k - |c| - 1];
        } else if k == |c| {
          assert s[k] == d[i];
        }
      }
    }
  }

  lemma KeepDigitsCons(c: char, t: string)
    ensures KeepDigits([c] + t) == (if IsDigit(c) then [c] else []) + KeepDigits(t)
  {
    assert ([c] + t)[1..] == t;
  }

  lemma {:induction false} CommafyKeepDigits(d: string, i: nat)
    requires AllDigits(d)
    requires i <= |d|
    ensures KeepDigits(Commafy(d, i)) == d[i..]
    decreases |d| - i
  {
    if i < |d| {
      CommafyKeepDigits(d, i + 1);
      KeepDigitsStep(Separator(d, i), d[i], Commafy(d, i + 1), d[i + 1..]);
      SuffixCons(d, i);
    }
  }

  lemma SuffixCons(s: string, i: nat)
    requires i < |s|
    ensures s[i..] == [s[i]] + s[i + 1..]
  {
  }

  /** One step of the grouping: an optional comma, then a digit, then a rest
      whose digits are known. */
  lemma KeepDigitsStep(c: string, x: char, t: string, rest: string)
    requires c == [] || c == [',']
    requires IsDigit(x) && KeepDigits(t) == rest
    ensures KeepDigits(c + [x] + t) == [x] + rest
  {
    if c == [','] {
      KeepDigitsDropsComma([x] + t);
    } else {
      assert c + [x] + t == [x] + t;
    }
    KeepDigitsCons(x, t);
  }

  lemma KeepDigitsDropsComma(t: string)
    ensures KeepDigits([','] + t) == KeepDigits(t)
  {
    assert ([','] + t)[1..] == t;
  }

  lemma CommafyFromStart(d: string)
    requires AllDigits(d)
    ensures forall k :: 0 <= k < |Commafy(d, 0)| ==>
              (Commafy(d, 0)[k] == ',' <==> k > 0 && (|Commafy(d, 0)| - k) % 4 == 0)
    ensures d != [] ==> |Commafy(d, 0)| == |d| + (|d| - 1) / 3
  {
    if d == [] { return; }
    var t := Commafy(d, 1);
    CommafyLength(d, 1);
    CommafyCommas(d, 1);
    var r := Commafy(d, 0);
    assert r == [d[0]] + t;
    forall k | 0 <= k < |r|
      ensures r[k] == ',' <==> k > 0 && (|r| - k) % 4 == 0
    {
      if k > 0 { assert r[k] == t[k - 1]; } else { assert r[0] == d[0]; }
    }
  }

  /** The grouping regex over a whole run of digits: only digits and commas,
      the digits unchanged and in order, and a comma exactly at the positions
      that close a group of three counted from the right, so never first or
      last. */
  function GroupDigits(d: string): (r: string)
    requires AllDigits(d)
    ensures KeepDigits(r) == d
    ensures forall k :: 0 <= k < |r| ==> r[k] == ',' || IsDigit(r[k])
    ensures forall k :: 0 <= k < |r| ==> (r[k] == ',' <==> k > 0 && (|r| - k) % 4 == 0)
    ensures d != [] ==> |r| == |d| + (|d| - 1) / 3
    ensures r == [] <==> d == []
  {
    CommafyKeepDigits(d, 0);
    CommafyChars(d, 0);
    CommafyFromStart(d);
    Commafy(d, 0)
  }

  /** toInt: every non-digit dropped, then the digits grouped by threes. */
  function ToInt(v: string): (r: string)
    ensures forall k :: 0 <= k < |r| ==> r[k] == ',' || IsDigit(r[k])
    ensures KeepDigits(r) == KeepDigits(v)
    ensures forall k :: 0 <= k < |r| ==> (r[k] == ',' <==> k > 0 && (|r| - k) % 4 == 0)
  {
    GroupDigits(KeepDigits(v))
  }

  /** Reformatting a formatted integer changes nothing. */
  lemma ToIntIdempotent(v: string)
    ensures ToInt(ToInt(v)) == ToInt(v)
  {
  }

  // ---------------------------------------------------------------------
  // toCurrency
  // ---------------------------------------------------------------------

  /** `.replace(/\./g, (m) => (++t > 1 ? '' : m))`: the counter t lets the
      first '.' through and replaces every later one with ''; seen says a '.'
      has already gone by. */
  function DropLaterDots(s: string, seen: bool): string
    decreases |s|
  {
    if s == [] then []
    else if s[0] == '.' then (if seen then [] else ['.']) + DropLaterDots(s[1..], true)
    else [s[0]] + DropLaterDots(s[1..], seen)
  }

  predicate IsDigitOrDot(c: char) { IsDigit(c) || c == '.' }

  /** `.replace(/[^0-9.]/g, '')`. */
  function KeepDigitsAndDots(s: string): (r: string)
    ensures forall k :: 0 <= k < |r| ==> IsDigitOrDot(r[k])
    ensures forall c :: c in r <==> c in s && IsDigitOrDot(c)
    decreases |s|
  {
    if s == [] then []
    else (if IsDigitOrDot(s[0]) then [s[0]] else []) + KeepDigitsAndDots(s[1..])
  }

  /** The replacement keeps exactly the digits and dots, in their order. */
  lemma {:induction false} KeepDigitsAndDotsIsFilter(s: string)
    ensures KeepDigitsAndDots(s) == Filter(s, IsDigitOrDot)
    decreases |s|
  {
    if s != [] {
      KeepDigitsAndDotsIsFilter(s[1..]);
    }
  }

  /** `^(\d+\.\d{2})\d+$`: one or more digits, a '.', then three or more digits. */
  predicate HasExtraCents(s: string)
  {
    var i := TakeDigits(s);
    0 < |i| && |i| + 3 < |s| && s[|i|] == '.' && AllDigits(s[|i| + 1..])
  }

  /** `.replace(/^(\d+\.\d{2})\d+$/g, '$1')`: the match loses every fraction
      digit after the second; anything else is left alone. */
  function TruncateCents(s: string): string
  {
    if HasExtraCents(s) then s[..|TakeDigits(s)| + 3] else s
  }

  /** The value after the first two replacements. */
  function Prepared(v: string): string
  {
    KeepDigitsAndDots(DropLaterDots(v, false))
  }

  /** The value after the first three replacements. */
  function CleanCurrency(v: string): string
  {
    TruncateCents(Prepared(v))
  }

  /** The grouping regex over a cleaned value: the lookbehind `(?<!\.\d*)`
      rules out every position after the '.', so only the leading run of
      digits is grouped. */
  function GroupIntegerPart(c: string): string
  {
    var i := TakeDigits(c);
    GroupDigits(i) + c[|i|..]
  }

  /** toCurrency. */
  function ToCurrency(v: string): string
  {
    GroupIntegerPart(CleanCurrency(v))
  }

  lemma {:induction false} DropLaterDotsWithout(s: string, seen: bool)
    requires '.' !in s
    ensures DropLaterDots(s, seen) == s
    decreases |s|
  {
    if s != [] {
      DropLaterDotsWithout(s[1..], seen);
    }
  }

  lemma {:induction false} DropLaterDotsAfterFirst(a: string, b: string)
    requires '.' !in a
    ensures DropLaterDots(a + "." + b, false) == a + "." + DropLaterDots(b, true)
    decreases |a|
  {
    if a == [] {
      assert a + "." + b == ['.'] + b;
      assert (['.'] + b)[1..] == b;
    } else {
      assert (a + "." + b)[1..] == a[1..] + "." + b;
      DropLaterDotsAfterFirst(a[1..], b);
    }
  }

  lemma {:induction false} KeepDigitsAndDotsConcat(a: string, b: string)
    ensures KeepDigitsAndDots(a + b) == KeepDigitsAndDots(a) + KeepDigitsAndDots(b)
    decreases |a|
  {
    if a == [] {
      assert a + b == b;
    } else {
      assert (a + b)[1..] == a[1..] + b;
      KeepDigitsAndDotsConcat(a[1..], b);
    }
  }

  lemma {:induction false} KeepDigitsAndDotsWithout(s: string)
    requires '.' !in s
    ensures KeepDigitsAndDots(s) == KeepDigits(s)
    decreases |s|
  {
    if s != [] {
      KeepDigitsAndDotsWithout(s[1..]);
    }
  }

  lemma {:induction false} KeepDigitsAndDotsOfSeen(b: string)
    ensures KeepDigitsAndDots(DropLaterDots(b, true)) == KeepDigits(b)
    decreases |b|
  {
    if b != [] {
      KeepDigitsAndDotsOfSeen(b[1..]);
      var rest := DropLaterDots(b[1..], true);
      if b[0] == '.' {
        assert DropLaterDots(b, true) == rest;
      } else {
        assert DropLaterDots(b, true) == [b[0]] + rest;
        assert ([b[0]] + rest)[1..] == rest;
      }
    }
  }

  lemma PreparedSplit(a: string, b: string)
    requires '.' !in a
    ensures Prepared(a + "." + b) == KeepDigits(a) + "." + KeepDigits(b)
  {
    DropLaterDotsAfterFirst(a, b);
    KeepDigitsAndDotsConcat(a + ".", DropLaterDots(b, true));
    KeepDigitsAndDotsConcat(a, ".");
    KeepDigitsAndDotsWithout(a);
    KeepDigitsAndDotsOfSeen(b);
    assert KeepDigitsAndDots(".") == ".";
  }

  /** The first two replacements keep the first '.' and drop every other
      non-digit: the digits before the first '.', that '.', then the digits
      after it; without a '.', just the digits. */
  lemma PreparedValue(v: string)
    ensures '.' !in v ==> Prepared(v) == KeepDigits(v)
    ensures '.' in v ==>
      Prepared(v) == KeepDigits(v[..IndexOf(v, '.')]) + "." + KeepDigits(v[IndexOf(v, '.') + 1..])
  {
    if '.' !in v {
      DropLaterDotsWithout(v, false);
      KeepDigitsAndDotsWithout(v);
    } else {
      var k := IndexOf(v, '.');
      var a, b := v[..k], v[k + 1..];
      assert v == a + "." + b;
      assert '.' !in a by {
        forall j | 0 <= j < |a| ensures a[j] != '.' { assert a[j] == v[j]; }
      }
      PreparedSplit(a, b);
    }
  }

  /** A cleaned value: a run of digits, then nothing or a '.' and digits only;
      after a non-empty run, at most two digits follow the '.'. */
  predicate CurrencyShaped(c: string)
  {
    var i := TakeDigits(c);
    var f := c[|i|..];
    (f == [] || (f[0] == '.' && AllDigits(f[1..])))
    && (0 < |i| && f != [] ==> |f| <= 3)
  }

  /** A run of digits followed by nothing or by a '.' and digits. */
  predicate DigitsThenFraction(a: string, f: string)
  {
    AllDigits(a) && (f == [] || (f[0] == '.' && AllDigits(f[1..])))
  }

  lemma TruncateCentsShapes(a: string, f: string)
    requires DigitsThenFraction(a, f)
    ensures CurrencyShaped(TruncateCents(a + f))
  {
    var p := a + f;
    TakeDigitsOf(a, f);
    assert p[|a|..] == f;
    if HasExtraCents(p) {
      var f3 := f[..3];
      assert p[..|a| + 3] == a + f3;
      TakeDigitsOf(a, f3);
      assert (a + f3)[|a|..] == f3;
      assert f3[1..] == f[1..3];
    } else if f != [] {
      assert p[|a| + 1..] == f[1..];
    }
  }

  lemma CleanCurrencyWithoutDot(v: string)
    requires '.' !in v
    ensures CurrencyShaped(CleanCurrency(v))
    ensures CleanCurrency(v) == KeepDigits(v)
  {
    PreparedValue(v);
    var p := KeepDigits(v);
    assert p + [] == p;
    TruncateCentsShapes(p, []);
    TakeDigitsOf(p, []);
  }

  lemma CleanCurrencyWithDot(v: string)
    requires '.' in v
    ensures CurrencyShaped(CleanCurrency(v))
  {
    PreparedValue(v);
    var k := IndexOf(v, '.');
    DottedShaped(KeepDigits(v[..k]), KeepDigits(v[k + 1..]));
  }

  /** Digits, a '.', then digits: cleaning leaves a CurrencyShaped value. */
  lemma DottedShaped(a: string, b: string)
    requires AllDigits(a) && AllDigits(b)
    ensures CurrencyShaped(TruncateCents(a + "." + b))
  {
    assert a + "." + b == a + ("." + b);
    assert ("." + b)[1..] == b;
    TruncateCentsShapes(a, "." + b);
  }

  /** The three cleaning replacements leave a CurrencyShaped value; without a
      '.', just the digits of the input. */
  lemma CleanCurrencyShaped(v: string)
    ensures CurrencyShaped(CleanCurrency(v))
    ensures '.' !in v ==> CleanCurrency(v) == KeepDigits(v)
  {
    if '.' in v {
      CleanCurrencyWithDot(v);
    } else {
      CleanCurrencyWithoutDot(v);
    }
  }

  lemma TruncateCentsShaped(c: string)
    requires CurrencyShaped(c)
    ensures TruncateCents(c) == c
  {
  }

  /** A CurrencyShaped value split into its run of digits i and the rest f,
      and the grouped value as the grouped run followed by the rest. */
  lemma CurrencyParts(c: string) returns (i: string, f: string)
    requires CurrencyShaped(c)
    ensures c == i + f && i == TakeDigits(c)
    ensures DigitsThenFraction(i, f)
    ensures 0 < |i| && f != [] ==> |f| <= 3
    ensures GroupIntegerPart(c) == GroupDigits(i) + f
  {
    i := TakeDigits(c);
    f := c[|i|..];
  }

  /** Only digits and commas, none of them a '.'. */
  predicate DigitsAndCommas(g: string)
  {
    forall k :: 0 <= k < |g| ==> g[k] == ',' || IsDigit(g[k])
  }

  /** A grouped run followed by a fraction: every character after a '.' is a
      digit, and a '.' that is not first has at most two characters after it. */
  lemma FractionShape(g: string, f: string)
    requires DigitsAndCommas(g)
    requires f == [] || (f[0] == '.' && AllDigits(f[1..]))
    requires 0 < |g| && f != [] ==> |f| <= 3
    ensures forall k :: 0 <= k < |g + f| ==> IsDigit((g + f)[k]) || (g + f)[k] == ',' || (g + f)[k] == '.'
    ensures forall j, k :: 0 <= j < k < |g + f| && (g + f)[j] == '.' ==> IsDigit((g + f)[k])
    ensures forall k :: 0 < k < |g + f| && (g + f)[k] == '.' ==> |g + f| - k - 1 <= 2
  {
    var r := g + f;
    forall k | |g| < k < |r|
      ensures r[k] == f[1..][k - |g| - 1]
    {
    }
    forall k | 0 <= k < |g|
      ensures r[k] == g[k] && r[k] != '.'
    {
    }
  }

  /** The characters before the first '.', or all of them. */
  function IntegerPart(r: string): (p: string)
    ensures |p| <= |r| && p == r[..|p|]
    ensures '.' !in p
    ensures |p| < |r| ==> r[|p|] == '.'
  {
    if '.' in r then r[..IndexOf(r, '.')] else r
  }

  lemma IntegerPartOf(g: string, f: string)
    requires '.' !in g
    requires f == [] || f[0] == '.'
    ensures IntegerPart(g + f) == g
  {
    if f != [] {
      var r := g + f;
      assert r[|g|] == '.';
      var k := IndexOf(r, '.');
      assert k <= |g|;
      assert k == |g|;
      assert r[..k] == g;
    } else {
      assert g + f == g;
    }
  }

  /** toCurrency keeps digits, at most one '.', and commas; every character
      after a '.' is a digit, so commas sit only in the integer part and no
      second '.' survives; after a non-empty integer part at most two digits
      follow the '.'; and the integer part is grouped by threes. */
  lemma ToCurrencyShape(v: string)
    ensures var r := ToCurrency(v);
      && (forall k :: 0 <= k < |r| ==> IsDigit(r[k]) || r[k] == ',' || r[k] == '.')
      && (forall j, k :: 0 <= j < k < |r| && r[j] == '.' ==> IsDigit(r[k]))
      && (forall k :: 0 < k < |r| && r[k] == '.' ==> |r| - k - 1 <= 2)
      && (forall k :: 0 <= k < |IntegerPart(r)| ==>
            (IntegerPart(r)[k] == ',' <==> k > 0 && (|IntegerPart(r)| - k) % 4 == 0))
  {
    var g, f := ToCurrencySplit(v);
    GroupedShape(g, f);
  }

  /** The shape of a grouped run of digits followed by a fraction. */
  lemma GroupedShape(g: string, f: string)
    requires DigitsAndCommas(g) && '.' !in g
    requires f == [] || (f[0] == '.' && AllDigits(f[1..]))
    requires 0 < |g| && f != [] ==> |f| <= 3
    requires forall k :: 0 <= k < |g| ==> (g[k] == ',' <==> k > 0 && (|g| - k) % 4 == 0)
    ensures var r := g + f;
      && (forall k :: 0 <= k < |r| ==> IsDigit(r[k]) || r[k] == ',' || r[k] == '.')
      && (forall j, k :: 0 <= j < k < |r| && r[j] == '.' ==> IsDigit(r[k]))
      && (forall k :: 0 < k < |r| && r[k] == '.' ==> |r| - k - 1 <= 2)
      && (forall k :: 0 <= k < |IntegerPart(r)| ==>
            (IntegerPart(r)[k] == ',' <==> k > 0 && (|IntegerPart(r)| - k) % 4 == 0))
  {
    FractionShape(g, f);
    IntegerPartOf(g, f);
  }

  /** toCurrency's result as a grouped run of digits g followed by the
      fraction f. */
  lemma ToCurrencySplit(v: string) returns (g: string, f: string)
    ensures ToCurrency(v) == g + f
    ensures DigitsAndCommas(g) && '.' !in g
    ensures f == [] || (f[0] == '.' && AllDigits(f[1..]))
    ensures 0 < |g| && f != [] ==> |f| <= 3
    ensures forall k :: 0 <= k < |g| ==> (g[k] == ',' <==> k > 0 && (|g| - k) % 4 == 0)
  {
    CleanCurrencyShaped(v);
    var i;
    i, f := CurrencyParts(CleanCurrency(v));
    g := GroupDigits(i);
    NoDotAmongCommas(g);
  }

  lemma NoDotAmongCommas(g: string)
    requires DigitsAndCommas(g)
    ensures '.' !in g
  {
    forall k | 0 <= k < |g| ensures g[k] != '.' { }
  }

  /** Without a '.', toCurrency and toInt agree. */
  lemma ToCurrencyWithoutDot(v: string)
    requires '.' !in v
    ensures ToCurrency(v) == ToInt(v)
  {
    CleanCurrencyShaped(v);
    var c := KeepDigits(v);
    TakeDigitsOf(c, []);
    assert c + [] == c;
  }

  /** Reformatting a formatted amount changes nothing, which is what lets the
      field be formatted on every keystroke. */
  lemma ToCurrencyIdempotent(v: string)
    ensures ToCurrency(ToCurrency(v)) == ToCurrency(v)
  {
    CleanCurrencyShaped(v);
    var c := CleanCurrency(v);
    var i, f := CurrencyParts(c);
    var g := GroupDigits(i);
    assert '.' !in g by {
      forall k | 0 <= k < |g| ensures g[k] != '.' { }
    }
    PreparedOf(g, f, i);
    TruncateCentsShaped(c);
  }

  /** Cleaning a grouped value removes its commas and nothing else. */
  lemma PreparedOf(g: string, f: string, i: string)
    requires KeepDigits(g) == i && '.' !in g
    requires f == [] || (f[0] == '.' && AllDigits(f[1..]))
    ensures Prepared(g + f) == i + f
  {
    if f == [] {
      assert g + f == g && i + f == i;
      DropLaterDotsWithout(g, false);
      KeepDigitsAndDotsWithout(g);
    } else {
      PreparedWithFraction(g, f[1..]);
      assert f == "." + f[1..];
    }
  }

  lemma PreparedWithFraction(g: string, b: string)
    requires '.' !in g && AllDigits(b)
    ensures Prepared(g + ("." + b)) == KeepDigits(g) + ("." + b)
  {
    assert g + ("." + b) == g + "." + b;
    PreparedSplit(g, b);
    KeepDigitsOfDigits(b);
  }

  // ---------------------------------------------------------------------
  // The form state
  // ---------------------------------------------------------------------

  const PurchaseCost: string := "purchase_cost"
  const LabelRequired: string := "At least one label must be selected"

  /** The cursor shift after the cost field is reformatted: commas in the
      formatted value minus commas in what was typed. */
  function CursorOffset(raw: string): int
  {
    CountChar(ToCurrency(raw), ',') - CountChar(raw, ',')
  }

  /** A value that is already formatted, such as a pasted amount, is
      reformatted with no cursor shift. */
  lemma FormattedKeepsCursor(v: string)
    ensures CursorOffset(ToCurrency(v)) == 0
  {
    ToCurrencyIdempotent(v);
  }

  /** Typing a digit into a formatted amount can shift the cursor: a fourth
      digit typed after three, as in "999" followed by a 9, is grouped as
      "9,999", one comma further on. */
  lemma TypingShiftsCursor(d: string)
    requires |d| == 4 && AllDigits(d)
    ensures ToCurrency(d) == [d[0], ','] + d[1..]
    ensures CursorOffset(d) == 1
  {
    ToCurrencyWithoutDot(d);
    ToIntOfDigits(d);
    GroupsFourDigits(d);
    CountCharConcat([d[0], ','], d[1..], ',');
    CountCharConcat([d[0]], [','], ',');
    assert [d[0], ','] == [d[0]] + [','];
  }

  lemma ToIntOfDigits(d: string)
    requires AllDigits(d)
    ensures ToInt(d) == Commafy(d, 0)
  {
    KeepDigitsOfDigits(d);
  }

  lemma GroupsFourDigits(d: string)
    requires |d| == 4
    ensures Commafy(d, 0) == [d[0], ','] + d[1..]
  {
    assert Commafy(d, 3) == [d[3]];
    assert Commafy(d, 2) == [d[2], d[3]];
    assert Commafy(d, 1) == [',', d[1], d[2], d[3]];
    assert d[1..] == [d[1], d[2], d[3]];
  }

  /** handleSubmit's error dictionary: exactly the 'label' entry, present
      exactly when no label is selected. */
  function SubmitErrors(labels: seq<Label>): (e: map<string, string>)
    ensures "label" in e <==> labels == []
    ensures forall k :: k in e ==> k == "label"
  {
    if |labels| == 0 then map["label" := LabelRequired] else map[]
  }

  /** A text field of the form; a field never typed into reads as empty. */
  function FormField(values: map<string, string>, key: string): string
  {
    if key in values then values[key] else ""
  }

  /** The six text fields as the form holds them. */
  function FieldsOf(values: map<string, string>): AssetFields
  {
    AssetFields(FormField(values, "asset_tag"), FormField(values, "name"), FormField(values, "description"),
                FormField(values, "purchase_date"), FormField(values, PurchaseCost),
                FormField(values, "maintenance_rate"))
  }

  /** The request the save handler sends: the new asset with its fields and
      label objects, or an update of the edited asset's fields, which leaves
      its labels alone. Each field goes out as the form holds it, so the cost
      goes out as formatted on input. */
  function SaveCall(isNew: bool, editId: int, values: map<string, string>, labels: seq<Label>): (c: Call)
    ensures isNew <==> c.AddAsset?
    ensures !isNew <==> c.UpdateAsset?
    ensures c.AddAsset? ==> c.labels == labels
    ensures c.UpdateAsset? ==> c.assetId == editId
    ensures c.fields.assetTag == FormField(values, "asset_tag") && c.fields.name == FormField(values, "name")
    ensures c.fields.description == FormField(values, "description")
    ensures c.fields.purchaseDate == FormField(values, "purchase_date")
    ensures c.fields.purchaseCost == FormField(values, PurchaseCost)
    ensures c.fields.maintenanceRate == FormField(values, "maintenance_rate")
  {
    if isNew then AddAsset(FieldsOf(values), labels) else UpdateAsset(editId, FieldsOf(values))
  }

  /** Once the cost field has been typed into, the cost the save sends is the
      formatted input: digits, commas and at most one dot, and a value the
      formatter leaves alone. */
  lemma SentCostIsFormatted(isNew: bool, editId: int, values: map<string, string>, raw: string, labels: seq<Label>)
    ensures var c := SaveCall(isNew, editId, values[PurchaseCost := ToCurrency(raw)], labels);
      && c.fields.purchaseCost == ToCurrency(raw)
      && ToCurrency(c.fields.purchaseCost) == c.fields.purchaseCost
      && forall k :: 0 <= k < |c.fields.purchaseCost| ==>
           IsDigit(c.fields.purchaseCost[k]) || c.fields.purchaseCost[k] == ',' || c.fields.purchaseCost[k] == '.'
  {
    ToCurrencyIdempotent(raw);
    ToCurrencyShape(raw);
  }

  /** `all_labels.find((label) => label.name == name)`. */
  function FirstNamed(all: seq<Label>, name: string): (r: Option<Label>)
    ensures r.Some? ==> r.value in all && r.value.name == name
    ensures r.None? <==> forall k :: 0 <= k < |all| ==> all[k].name != name
    ensures r.Some? ==> exists i :: 0 <= i < |all| && all[i] == r.value && forall j :: 0 <= j < i ==> all[j].name != name
  {
    Find(all, (l: Label) => l.name == name)
  }

  /** The scopes of the grants, in order. */
  function Scopes(grants: seq<Role>): (scopes: seq<string>)
    ensures |scopes| == |grants|
    ensures forall j :: 0 <= j < |grants| ==> scopes[j] == grants[j].scope
  {
    Map(grants, (g: Role) => g.scope)
  }

  /** `.map((role) => all_labels.find((label) => label.name == role.scope))
      .filter((role) => role != undefined)`: the first label named by each
      grant's scope, in grant order, with scopes that name no label dropped. */
  function ScopeLabels(grants: seq<Role>, all: seq<Label>): (options: seq<Label>)
    ensures forall k :: 0 <= k < |options| ==> options[k] in all
    ensures forall k :: 0 <= k < |options| ==> options[k].name in Scopes(grants)
    ensures forall j :: 0 <= j < |grants| && grants[j].scope in LabelNames(all)
              ==> grants[j].scope in LabelNames(options)
    ensures options == Somes(Map(grants, FindScope(all)))
    ensures |options| == Count(grants, NamesLabel(all))
  {
    ScopeLabelsSound(grants, all);
    ScopeLabelsComplete(grants, all);
    FoundLabelsMapsThenDrops(grants, all);
    FoundLabels(grants, all)
  }

  /** The `find` applied to each grant. */
  function FindScope(all: seq<Label>): Role -> Option<Label>
  {
    (g: Role) => FirstNamed(all, g.scope)
  }

  /** Whether a grant's scope names an existing label. */
  function NamesLabel(all: seq<Label>): Role -> bool
  {
    (g: Role) => g.scope in LabelNames(all)
  }

  /** `find` by name comes back empty exactly when no label has the name. */
  lemma FirstNamedFound(all: seq<Label>, name: string)
    ensures FirstNamed(all, name).Some? <==> name in LabelNames(all)
  {
    var r := FirstNamed(all, name);
    if r.Some? {
      var i :| 0 <= i < |all| && all[i] == r.value;
      assert LabelNames(all)[i] == name;
    }
  }

  /** The fused scan is the source's map, then the filter of undefined: one
      label per grant whose scope names one, in grant order. */
  lemma {:induction false} FoundLabelsMapsThenDrops(grants: seq<Role>, all: seq<Label>)
    ensures FoundLabels(grants, all) == Somes(Map(grants, FindScope(all)))
    ensures |FoundLabels(grants, all)| == Count(grants, NamesLabel(all))
    decreases |grants|
  {
    if grants != [] {
      FoundLabelsMapsThenDrops(grants[1..], all);
      var m := Map(grants, FindScope(all));
      assert m[1..] == Map(grants[1..], FindScope(all));
      assert m[0] == FirstNamed(all, grants[0].scope);
      FirstNamedFound(all, grants[0].scope);
    }
  }

  function FoundLabels(grants: seq<Role>, all: seq<Label>): seq<Label>
    decreases |grants|
  {
    if grants == [] then []
    else
      var first := FirstNamed(all, grants[0].scope);
      (if first.Some? then [first.value] else []) + FoundLabels(grants[1..], all)
  }

  lemma {:induction false} ScopeLabelsSound(grants: seq<Role>, all: seq<Label>)
    ensures forall k :: 0 <= k < |FoundLabels(grants, all)| ==>
      FoundLabels(grants, all)[k] in all && FoundLabels(grants, all)[k].name in Scopes(grants)
    decreases |grants|
  {
    if grants != [] {
      ScopeLabelsSound(grants[1..], all);
      var rest := FoundLabels(grants[1..], all);
      var first := FirstNamed(all, grants[0].scope);
      var head: seq<Label> := if first.Some? then [first.value] else [];
      var options := head + rest;
      assert FoundLabels(grants, all) == options;
      assert Scopes(grants) == [grants[0].scope] + Scopes(grants[1..]);
      forall k | 0 <= k < |options|
        ensures options[k] in all && options[k].name in Scopes(grants)
      {
        if k >= |head| {
          assert options[k] == rest[k - |head|];
          assert rest[k - |head|].name in Scopes(grants[1..]);
        }
      }
    }
  }

  lemma {:induction false} ScopeLabelsComplete(grants: seq<Role>, all: seq<Label>)
    ensures forall j :: 0 <= j < |grants| && grants[j].scope in LabelNames(all)
              ==> grants[j].scope in LabelNames(FoundLabels(grants, all))
    decreases |grants|
  {
    if grants != [] {
      ScopeLabelsComplete(grants[1..], all);
      var rest := FoundLabels(grants[1..], all);
      var first := FirstNamed(all, grants[0].scope);
      var head: seq<Label> := if first.Some? then [first.value] else [];
      var options := head + rest;
      assert FoundLabels(grants, all) == options;
      forall j | 0 <= j < |grants| && grants[j].scope in LabelNames(all)
        ensures grants[j].scope in LabelNames(options)
      {
        if j == 0 {
          var k :| 0 <= k < |all| && LabelNames(all)[k] == grants[0].scope;
          assert all[k].name == grants[0].scope;
          assert LabelNames(options)[0] == first.value.name;
        } else {
          assert grants[j] == grants[1..][j - 1];
          var m :| 0 <= m < |rest| && LabelNames(rest)[m] == grants[j].scope;
          assert LabelNames(options)[m + |head|] == rest[m].name;
        }
      }
    }
  }

  /** The labels offered: all labels with the role on '*'; otherwise, for each
      grant of the role, the first label named by its scope, with scopes that
      name no label dropped. Every offered label is one the user may use, and
      every grant naming an existing label contributes one. */
  function LabelOptions(u: User, role: string, all: seq<Label>): (options: seq<Label>)
    ensures Grants(u, role, Wildcard) ==> options == all
    ensures !Grants(u, role, Wildcard) ==>
      forall k :: 0 <= k < |options| ==> options[k] in all && Grants(u, role, options[k].name)
    ensures !Grants(u, role, Wildcard) ==>
      forall j :: 0 <= j < |u.roles| && u.roles[j].role == role && u.roles[j].scope in LabelNames(all)
        ==> u.roles[j].scope in LabelNames(options)
  {
    if HasScopeAll(u, role) then all
    else
      var grants := LabelsFromRoles(u, role);
      var options := ScopeLabels(grants, all);
      forall k | 0 <= k < |options|
        ensures Grants(u, role, options[k].name)
      {
        var j :| 0 <= j < |grants| && Scopes(grants)[j] == options[k].name;
        assert grants[j] in u.roles;
        var gi :| 0 <= gi < |u.roles| && u.roles[gi] == grants[j];
        assert u.roles[gi] == Role(role, options[k].name);
      }
      forall j | 0 <= j < |u.roles| && u.roles[j].role == role && u.roles[j].scope in LabelNames(all)
        ensures u.roles[j].scope in LabelNames(options)
      {
        var gj :| 0 <= gj < |grants| && grants[gj] == u.roles[j];
      }
      options
  }

  /** The form's state: the text fields by name, the selected labels, the
      error dictionary, the confirm flag, the pending flag and the saved id. */
  class AssetFormPage {
    const isNew: bool
    const editId: int
    var values: map<string, string>
    var labels: seq<Label>
    var errors: map<string, string>
    var confirmOpen: bool
    var pending: bool
    var savedId: Option<int>

    constructor(isNew: bool, editId: int, values: map<string, string>, labels: seq<Label>)
      ensures this.isNew == isNew && this.editId == editId
      ensures this.values == values && this.labels == labels
      ensures errors == map[] && !confirmOpen && !pending && savedId.None?
    {
      this.isNew := isNew;
      this.editId := editId;
      this.values := values;
      this.labels := labels;
      errors := map[];
      confirmOpen := false;
      pending := false;
      savedId := None;
    }

    /** updateForm: the edited field takes the typed value, reformatted for
        the cost field, whose cursor moves by the change in the comma count. */
    method UpdateForm(name: string, raw: string, caret: int) returns (cursor: Option<int>)
      modifies this
      ensures values == old(values)[name := if name == PurchaseCost then ToCurrency(raw) else raw]
      ensures cursor == if name == PurchaseCost then Some(caret + CursorOffset(raw)) else None
      ensures labels == old(labels) && errors == old(errors)
      ensures confirmOpen == old(confirmOpen) && pending == old(pending) && savedId == old(savedId)
    {
      if name == PurchaseCost {
        var formatted := ToCurrency(raw);
        var offset := CursorOffset(raw);
        cursor := Some(caret + offset);
        values := values[name := formatted];
      } else {
        cursor := None;
        values := values[name := raw];
      }
    }

    method HandleLabelChange(value: seq<Label>)
      modifies this
      ensures labels == value
      ensures values == old(values) && errors == old(errors)
      ensures confirmOpen == old(confirmOpen) && pending == old(pending) && savedId == old(savedId)
    {
      labels := value;
    }

    /** handleSubmit: the error dictionary is replaced, and the confirm opens
        only when it is empty. */
    method HandleSubmit()
      modifies this
      ensures errors == SubmitErrors(labels)
      ensures confirmOpen == (labels != [] || old(confirmOpen))
      ensures values == old(values) && labels == old(labels)
      ensures pending == old(pending) && savedId == old(savedId)
    {
      var e: map<string, string> := map[];
      if |labels| == 0 {
        e := e["label" := LabelRequired];
      }
      errors := e;
      if |e| > 0 {
        return;
      }
      confirmOpen := true;
    }

    /** handleConfirmClose: the save request, then the saved id on success or
        the thrown message under 'general' on failure. */
    method HandleConfirmClose(confirm: bool, outcome: Outcome, resultId: int, thrown: string)
      returns (run: HandlerRun)
      modifies this
      ensures run == RunConfirmed(confirm, SaveCall(isNew, editId, values, labels), outcome)
      ensures !confirm ==> pending == old(pending) && savedId == old(savedId) && errors == old(errors)
      ensures confirm ==> !pending
      ensures confirm && outcome == Succeeded ==> savedId == Some(resultId) && errors == old(errors)
      ensures confirm && outcome == Threw ==> errors == map["general" := thrown] && savedId == old(savedId)
      ensures values == old(values) && labels == old(labels) && confirmOpen == old(confirmOpen)
    {
      if !confirm {
        return HandlerRun(None, true);
      }
      pending := true;
      var call := SaveCall(isNew, editId, values, labels);
      if outcome == Succeeded {
        savedId := Some(resultId);
        pending := false;
        return HandlerRun(Some(call), true);
      }
      pending := false;
      errors := map["general" := thrown];
      return HandlerRun(Some(call), false);
    }
  }
}
