/**
 * The JavaScript string built-ins the application relies on, over `string`.
 * A Dafny `char` is a Unicode scalar value; JavaScript counts UTF-16 code
 * units, so `length` is modelled by `JsLength`, which counts a character
 * outside the Basic Multilingual Plane twice. Also modelled:
 * `startsWith`, `includes`, `split` with a one-character separator,
 * `Array.prototype.join`, `trim`, `String(n)` for integers and `parseInt`.
 */
module JsStrings {
  import opened Wrappers

  // ---------------------------------------------------------------------------
  // startsWith / includes
  // ---------------------------------------------------------------------------

  /** `s.startsWith(p)` */
  predicate StartsWith(s: string, p: string) {
    p <= s
  }

  /** `t` occurs in `s` starting at index `i` */
  predicate OccursAt(s: string, t: string, i: int) {
    0 <= i && i + |t| <= |s| && s[i..i + |t|] == t
  }

  /** `s.includes(t)`, scanning `s` from the left */
  predicate Includes(s: string, t: string): (r: bool)
    ensures r ==> |t| <= |s|
    decreases |s|
  {
    t <= s || (|s| > 0 && Includes(s[1..], t))
  }

  /** Dropping the first character shifts every occurrence one place left. */
  lemma OccursAtShift(s: string, t: string, i: int)
    requires |s| > 0 && 0 <= i
    ensures OccursAt(s[1..], t, i) <==> OccursAt(s, t, i + 1)
  {
    if i + |t| <= |s| - 1 {
      assert s[1..][i..i + |t|] == s[i + 1..i + 1 + |t|];
    }
  }

  /** `includes` holds exactly when the needle occurs at some index. */
  lemma {:induction false} IncludesIff(s: string, t: string)
    ensures Includes(s, t) <==> exists i :: OccursAt(s, t, i)
    decreases |s|
  {
    if t <= s {
      assert OccursAt(s, t, 0);
    } else if |s| > 0 {
      IncludesIff(s[1..], t);
      if Includes(s[1..], t) {
        var i :| OccursAt(s[1..], t, i);
        OccursAtShift(s, t, i);
      }
      assert !OccursAt(s, t, 0);
      forall i | OccursAt(s, t, i) ensures exists j :: OccursAt(s[1..], t, j) {
        OccursAtShift(s, t, i - 1);
      }
    }
  }

  // ---------------------------------------------------------------------------
  // length
  // ---------------------------------------------------------------------------

  /** A code point outside the Basic Multilingual Plane, which UTF-16 stores
      as a surrogate pair */
  predicate IsSupplementary(c: char) {
    (c as int) > 0xFFFF
  }

  /** `s.length`: the number of UTF-16 code units, where a supplementary code
      point counts two. */
  function JsLength(s: string): (n: nat)
    ensures |s| <= n <= 2 * |s|
    decreases |s|
  {
    if |s| == 0 then 0 else (if IsSupplementary(s[0]) then 2 else 1) + JsLength(s[1..])
  }

  /** Lengths add up over concatenation. */
  lemma {:induction false} JsLengthAppend(a: string, b: string)
    ensures JsLength(a + b) == JsLength(a) + JsLength(b)
    decreases |a|
  {
    if |a| == 0 {
      assert a + b == b;
    } else {
      assert (a + b)[0] == a[0] && (a + b)[1..] == a[1..] + b;
      JsLengthAppend(a[1..], b);
    }
  }

  /** Within the Basic Multilingual Plane `length` counts characters. */
  lemma {:induction false} JsLengthOfBasic(s: string)
    requires forall k :: 0 <= k < |s| ==> !IsSupplementary(s[k])
    ensures JsLength(s) == |s|
    decreases |s|
  {
    if |s| > 0 {
      JsLengthOfBasic(s[1..]);
    }
  }

  // ---------------------------------------------------------------------------
  // split / join
  // ---------------------------------------------------------------------------

  /** `s.split(sep)` for a one-character separator: never empty, and no piece
      contains the separator. */
  function Split(s: string, sep: char): (parts: seq<string>)
    ensures |parts| >= 1
    ensures forall k :: 0 <= k < |parts| ==> sep !in parts[k]
    decreases |s|
  {
    if |s| == 0 then [""]
    else
      var rest := Split(s[1..], sep);
      if s[0] == sep then [""] + rest
      else [[s[0]] + rest[0]] + rest[1..]
  }

  /** `parts.join(sep)`; the join of no parts is the empty string */
  function Join(parts: seq<string>, sep: string): (r: string)
    ensures |parts| == 0 ==> r == ""
    ensures |parts| >= 1 ==> parts[0] <= r
    decreases |parts|
  {
    if |parts| == 0 then ""
    else if |parts| == 1 then parts[0]
    else parts[0] + sep + Join(parts[1..], sep)
  }

  /** Splitting and re-joining with the same separator gives back the input:
      `split` loses nothing and keeps the order of the pieces. */
  lemma {:induction false} JoinSplit(s: string, sep: char)
    ensures Join(Split(s, sep), [sep]) == s
    decreases |s|
  {
    if |s| > 0 {
      var rest := Split(s[1..], sep);
      JoinSplit(s[1..], sep);
      if s[0] == sep {
        assert Split(s, sep) == [""] + rest;
        assert ([""] + rest)[1..] == rest;
        assert Join([""] + rest, [sep]) == "" + [sep] + Join(rest, [sep]);
        assert s == [s[0]] + s[1..];
      } else {
        var parts := [[s[0]] + rest[0]] + rest[1..];
        assert Split(s, sep) == parts;
        if |rest| == 1 {
          assert Join(parts, [sep]) == [s[0]] + rest[0];
        } else {
          assert parts[1..] == rest[1..];
          assert Join(parts, [sep]) == [s[0]] + rest[0] + [sep] + Join(rest[1..], [sep]);
          assert Join(rest, [sep]) == rest[0] + [sep] + Join(rest[1..], [sep]);
        }
        assert s == [s[0]] + s[1..];
      }
    }
  }

  /** A piece without the separator splits to itself. */
  lemma {:induction false} SplitWithoutSeparator(p: string, sep: char)
    requires sep !in p
    ensures Split(p, sep) == [p]
    decreases |p|
  {
    if |p| > 0 {
      assert sep !in p[1..];
      SplitWithoutSeparator(p[1..], sep);
      assert [p[0]] + p[1..] == p;
    }
  }

  /** Splitting `p + sep + r` cuts at the first separator. */
  lemma {:induction false} SplitAtFirst(p: string, sep: char, r: string)
    requires sep !in p
    ensures Split(p + [sep] + r, sep) == [p] + Split(r, sep)
    decreases |p|
  {
    var s := p + [sep] + r;
    if |p| == 0 {
      assert s[0] == sep && s[1..] == r;
    } else {
      assert s[0] == p[0] && s[1..] == p[1..] + [sep] + r;
      assert sep !in p[1..];
      SplitAtFirst(p[1..], sep, r);
      assert [p[0]] + p[1..] == p;
    }
  }

  /** Joining pieces that do not contain the separator and splitting again
      gives back the pieces, in order. */
  lemma {:induction false} SplitJoin(parts: seq<string>, sep: char)
    requires |parts| >= 1
    requires forall k :: 0 <= k < |parts| ==> sep !in parts[k]
    ensures Split(Join(parts, [sep]), sep) == parts
    decreases |parts|
  {
    if |parts| == 1 {
      SplitWithoutSeparator(parts[0], sep);
    } else {
      SplitJoin(parts[1..], sep);
      SplitAtFirst(parts[0], sep, Join(parts[1..], [sep]));
      assert [parts[0]] + parts[1..] == parts;
    }
  }

  /** A character in neither the pieces nor the separator is not in the join. */
  lemma {:induction false} JoinAvoids(parts: seq<string>, sep: string, c: char)
    requires c !in sep
    requires forall k :: 0 <= k < |parts| ==> c !in parts[k]
    ensures c !in Join(parts, sep)
    decreases |parts|
  {
    if |parts| > 1 {
      JoinAvoids(parts[1..], sep, c);
    }
  }

  // ---------------------------------------------------------------------------
  // trim
  // ---------------------------------------------------------------------------

  /** The WhiteSpace and LineTerminator code points that `String.prototype.trim`
      removes (section 22.1.3.32 of ECMA-262). */
  predicate IsWhiteSpace(c: char) {
    c == '\t' || c == '\n' || c == '\U{000B}' || c == '\U{000C}' || c == '\r' || c == ' '
    || c == '\U{00A0}' || c == '\U{1680}' || ('\U{2000}' <= c <= '\U{200A}')
    || c == '\U{2028}' || c == '\U{2029}' || c == '\U{202F}' || c == '\U{205F}'
    || c == '\U{3000}' || c == '\U{FEFF}'
  }

  predicate AllWhiteSpace(s: string) {
    forall k :: 0 <= k < |s| ==> IsWhiteSpace(s[k])
  }

  /** No white space at either end */
  predicate Trimmed(s: string) {
    s == [] || (!IsWhiteSpace(s[0]) && !IsWhiteSpace(s[|s| - 1]))
  }

  function TrimStart(s: string): (r: string)
    ensures |r| <= |s| && r == s[|s| - |r|..]
    ensures AllWhiteSpace(s[..|s| - |r|])
    ensures r == [] || !IsWhiteSpace(r[0])
    decreases |s|
  {
    if |s| > 0 && IsWhiteSpace(s[0]) then TrimStart(s[1..]) else s
  }

  function TrimEnd(s: string): (r: string)
    ensures |r| <= |s| && r == s[..|r|]
    ensures AllWhiteSpace(s[|r|..])
    ensures r == [] || !IsWhiteSpace(r[|r| - 1])
    decreases |s|
  {
    if |s| > 0 && IsWhiteSpace(s[|s| - 1]) then
      var r := TrimEnd(s[..|s| - 1]);
      assert s[|r|..] == s[..|s| - 1][|r|..] + [s[|s| - 1]];
      r
    else s
  }

  /** `s.trim()`: the result has no white space at either end */
  function Trim(s: string): (r: string)
    ensures Trimmed(r)
    ensures |r| <= |s|
  {
    TrimEnd(TrimStart(s))
  }

  lemma {:induction false} TrimStartPadded(a: string, t: string)
    requires AllWhiteSpace(a)
    requires t == [] || !IsWhiteSpace(t[0])
    ensures TrimStart(a + t) == t
    decreases |a|
  {
    if |a| > 0 {
      assert (a + t)[1..] == a[1..] + t;
      TrimStartPadded(a[1..], t);
    } else {
      assert a + t == t;
    }
  }

  lemma {:induction false} TrimEndPadded(t: string, b: string)
    requires AllWhiteSpace(b)
    requires t == [] || !IsWhiteSpace(t[|t| - 1])
    ensures TrimEnd(t + b) == t
    decreases |b|
  {
    if |b| > 0 {
      assert (t + b)[..|t + b| - 1] == t + b[..|b| - 1];
      TrimEndPadded(t, b[..|b| - 1]);
    } else {
      assert t + b == t;
    }
  }

  /** `trim` removes exactly the white-space padding around an entry and keeps
      the entry itself. */
  lemma TrimPadded(a: string, t: string, b: string)
    requires AllWhiteSpace(a) && AllWhiteSpace(b) && Trimmed(t)
    ensures Trim(a + t + b) == t
  {
    if t == [] {
      assert a + t + b == a + b + [];
      assert AllWhiteSpace(a + b);
      TrimStartPadded(a + b, []);
    } else {
      assert a + t + b == a + (t + b);
      assert (t + b)[0] == t[0];
      TrimStartPadded(a, t + b);
      TrimEndPadded(t, b);
    }
  }

  // ---------------------------------------------------------------------------
  // String(n) for integers
  // ---------------------------------------------------------------------------

  predicate IsDigit(c: char) {
    '0' <= c <= '9'
  }

  function DigitChar(d: nat): (c: char)
    requires d < 10
    ensures IsDigit(c)
  {
    (('0' as int) + d) as char
  }

  /** Decimal digits of a natural number, most significant first, no leading zero */
  function NatToString(n: nat): (r: string)
    ensures |r| >= 1
    ensures forall k :: 0 <= k < |r| ==> IsDigit(r[k])
    decreases n
  {
    if n < 10 then [DigitChar(n)] else NatToString(n / 10) + [DigitChar(n % 10)]
  }

  /** `String(n)` for an integer `n` */
  function IntToString(n: int): (r: string)
    ensures |r| >= 1 && (IsDigit(r[0]) || r[0] == '-')
    ensures forall k :: 1 <= k < |r| ==> IsDigit(r[k])
  {
    if n < 0 then "-" + NatToString(-n) else NatToString(n)
  }

  /** A digit of the given radix (10 or 16) */
  predicate IsRadixDigit(c: char, radix: nat) {
    IsDigit(c) || (radix == 16 && (('a' <= c <= 'f') || ('A' <= c <= 'F')))
  }

  /** The value of a decimal or hexadecimal digit */
  function DigitOf(c: char): nat {
    if IsDigit(c) then (c as int) - ('0' as int)
    else if 'a' <= c <= 'f' then (c as int) - ('a' as int) + 10
    else if 'A' <= c <= 'F' then (c as int) - ('A' as int) + 10
    else 0
  }

  /** The value of a numeral, most significant digit first */
  function NumeralValue(s: string, radix: nat): nat
    decreases |s|
  {
    if |s| == 0 then 0
    else NumeralValue(s[..|s| - 1], radix) * radix + DigitOf(s[|s| - 1])
  }

  lemma {:induction false} NatToStringValue(n: nat)
    ensures NumeralValue(NatToString(n), 10) == n
    decreases n
  {
    if n >= 10 {
      NatToStringValue(n / 10);
      var r := NatToString(n / 10) + [DigitChar(n % 10)];
      assert r[..|r| - 1] == NatToString(n / 10);
    }
  }

  /** The sign of `String(n)`: a minus sign exactly for negative numbers,
      followed by the digits of the magnitude. */
  lemma IntToStringSign(n: int)
    ensures |IntToString(n)| >= 1
    ensures IntToString(n)[0] == '-' <==> n < 0
    ensures n < 0 ==> IntToString(n)[1..] == NatToString(-n)
    ensures n >= 0 ==> IntToString(n) == NatToString(n)
  {
    if n < 0 {
      var s := "-" + NatToString(-n);
      assert s[0] == '-' && s[1..] == NatToString(-n);
    } else {
      assert IsDigit(NatToString(n)[0]);
    }
  }

  lemma NatToStringInjective(m: nat, n: nat)
    requires NatToString(m) == NatToString(n)
    ensures m == n
  {
    NatToStringValue(m);
    NatToStringValue(n);
  }

  /** `String(n)` is injective on integers: distinct numbers never share a
      string form. */
  lemma IntToStringInjective(a: int, b: int)
    requires IntToString(a) == IntToString(b)
    ensures a == b
  {
    IntToStringSign(a);
    IntToStringSign(b);
    if a < 0 {
      NatToStringInjective(-a, -b);
    } else {
      NatToStringInjective(a, b);
    }
  }

  // ---------------------------------------------------------------------------
  // parseInt
  // ---------------------------------------------------------------------------

  /** The longest prefix of `s` made of digits of the radix */
  function DigitPrefix(s: string, radix: nat): (p: string)
    ensures p <= s
    ensures forall k :: 0 <= k < |p| ==> IsRadixDigit(p[k], radix)
    ensures |p| < |s| ==> !IsRadixDigit(s[|p|], radix)
    decreases |s|
  {
    if |s| > 0 && IsRadixDigit(s[0], radix) then [s[0]] + DigitPrefix(s[1..], radix) else []
  }

  /** The numeral after the sign: an optional `0x` or `0X` switches to
      radix 16, and the longest run of digits that follows is the value;
      there is no number when that run is empty. */
  function ParseUnsigned(u: string): Option<nat> {
    var hex := |u| >= 2 && u[0] == '0' && (u[1] == 'x' || u[1] == 'X');
    var radix := if hex then 16 else 10;
    var digits := DigitPrefix(if hex then u[2..] else u, radix);
    if |digits| == 0 then None else Some(NumeralValue(digits, radix))
  }

  /** `parseInt(s)` without a radix (section 19.2.5 of ECMA-262): leading
      white space is skipped, then an optional sign, then the numeral; there
      is no number (`NaN`, here `None`) when no digit follows. Anything after
      the numeral's digits is ignored. */
  function ParseInt(s: string): (r: Option<int>)
    ensures AllWhiteSpace(s) ==> r.None?
  {
    ParseSigned(TrimStart(s))
  }

  /** An optional sign, then the numeral */
  function ParseSigned(t: string): Option<int> {
    var negative := |t| > 0 && t[0] == '-';
    var unsigned := if |t| > 0 && (t[0] == '-' || t[0] == '+') then t[1..] else t;
    match ParseUnsigned(unsigned)
    case None => None
    case Some(v) => var n: int := v; Some(if negative then -n else n)
  }

  lemma {:induction false} DigitPrefixOfNumeral(d: string, rest: string)
    requires forall k :: 0 <= k < |d| ==> IsDigit(d[k])
    requires rest == [] || !IsDigit(rest[0])
    ensures DigitPrefix(d + rest, 10) == d
    decreases |d|
  {
    if |d| > 0 {
      assert (d + rest)[1..] == d[1..] + rest;
      DigitPrefixOfNumeral(d[1..], rest);
    } else {
      assert d + rest == rest;
    }
  }

  /** A text that does not continue a decimal numeral */
  predicate EndsNumeral(rest: string) {
    rest == [] || !(IsDigit(rest[0]) || rest[0] == 'x' || rest[0] == 'X')
  }

  lemma ParseUnsignedOfNatToString(m: nat, rest: string)
    requires EndsNumeral(rest)
    ensures ParseUnsigned(NatToString(m) + rest) == Some(m)
  {
    var d := NatToString(m);
    var u := d + rest;
    assert !(|u| >= 2 && u[0] == '0' && (u[1] == 'x' || u[1] == 'X')) by {
      if |d| >= 2 {
        assert u[1] == d[1];
      } else if |rest| > 0 {
        assert u[1] == rest[0];
      }
    }
    DigitPrefixOfNumeral(d, rest);
    assert DigitPrefix(u, 10) == d;
    NatToStringValue(m);
  }

  lemma ParseSignedOfNatural(m: nat, rest: string)
    requires EndsNumeral(rest)
    ensures ParseSigned(NatToString(m) + rest) == Some(m)
  {
    var t := NatToString(m) + rest;
    assert IsDigit(t[0]);
    ParseUnsignedOfNatToString(m, rest);
  }

  lemma ParseSignedOfNegative(m: nat, rest: string)
    requires EndsNumeral(rest)
    ensures ParseSigned("-" + NatToString(m) + rest) == Some(0 - m)
  {
    var u := NatToString(m) + rest;
    var t := "-" + NatToString(m) + rest;
    assert t == "-" + u;
    assert t[0] == '-' && t[1..] == u;
    ParseUnsignedOfNatToString(m, rest);
    assert ParseUnsigned(t[1..]) == Some(m);
  }

  lemma ParseSignedOfIntToString(n: int, rest: string)
    requires EndsNumeral(rest)
    ensures ParseSigned(IntToString(n) + rest) == Some(n)
  {
    if n < 0 {
      var m: nat := -n;
      ParseSignedOfNegative(m, rest);
      assert IntToString(n) + rest == "-" + NatToString(m) + rest;
    } else {
      ParseSignedOfNatural(n, rest);
    }
  }

  /** `parseInt` reads back the decimal form of any integer, after any
      leading white space and before any text that does not continue the
      numeral (so "12", " -7" and "12abc" give 12, -7 and 12). */
  lemma ParseIntOfDecimal(w: string, n: int, rest: string)
    requires AllWhiteSpace(w) && EndsNumeral(rest)
    ensures ParseInt(w + IntToString(n) + rest) == Some(n)
  {
    var t := IntToString(n) + rest;
    assert w + IntToString(n) + rest == w + t;
    assert t[0] == IntToString(n)[0];
    assert !IsWhiteSpace(t[0]);
    TrimStartPadded(w, t);
    ParseSignedOfIntToString(n, rest);
  }

  lemma ParseIntOfIntToString(n: int)
    ensures ParseInt(IntToString(n)) == Some(n)
  {
    var s := IntToString(n);
    assert s[0] == '-' || IsDigit(s[0]);
    TrimStartPadded("", s);
    assert "" + s == s && s + "" == s;
    ParseSignedOfIntToString(n, "");
  }
}
