/**
 * The JavaScript built-ins the handlers lean on, restated over explicit values:
 * truthiness, `Number(...)`, `parseFloat`, `parseInt`, `isNaN`, `String.prototype.trim`,
 * `split`, `toUpperCase` and integer-to-string conversion.
 *
 * Numeric text is read as an optionally signed decimal numeral (`-12`, `3.5`, `.5`, `7.`);
 * exponents, hexadecimal and the word `Infinity` are not part of this model.
 */
module Js {
  import opened Common

  /** A value decoded from a JSON body, a query parameter or a form field. */
  datatype Val = Undefined | Null | Bool(b: bool) | Num(n: real) | Str(s: string)

  /** A JavaScript number produced by a conversion: finite, or NaN. */
  datatype Number = Finite(value: real) | NaN

  /** JavaScript truthiness (numbers decoded from JSON are never NaN). */
  predicate Truthy(v: Val)
  {
    match v
    case Undefined => false
    case Null => false
    case Bool(b) => b
    case Num(n) => n != 0.0
    case Str(s) => s != ""
  }

  /** Truthiness of a converted number: 0 and NaN are falsy. */
  predicate NumberTruthy(x: Number)
  {
    x.Finite? && x.value != 0.0
  }

  // ---------------------------------------------------------------- whitespace

  /**
   * The characters `trim` and `Number` strip: ECMAScript's WhiteSpace (tab,
   * vertical tab, form feed, space, no-break space, the byte-order mark and
   * the other space separators of Unicode) and its LineTerminators.
   */
  predicate IsSpace(c: char)
  {
    c == ' ' || c == '\t' || c == '\n' || c == '\r' || c == '\U{B}' || c == '\U{C}'
    || c == '\U{A0}' || c == '\U{1680}' || ('\U{2000}' <= c <= '\U{200A}')
    || c == '\U{2028}' || c == '\U{2029}' || c == '\U{202F}' || c == '\U{205F}'
    || c == '\U{3000}' || c == '\U{FEFF}'
  }

  predicate AllSpace(s: string)
  {
    forall i :: 0 <= i < |s| ==> IsSpace(s[i])
  }

  /** Number of whitespace characters at the start of `s`. */
  function LeadingSpaces(s: string): (n: nat)
    ensures n <= |s|
    ensures AllSpace(s[..n])
    ensures n == |s| || !IsSpace(s[n])
  {
    if s != [] && IsSpace(s[0]) then
      var k := LeadingSpaces(s[1..]);
      assert s[..k + 1] == [s[0]] + s[1..][..k];
      k + 1
    else 0
  }

  lemma SpaceAppend(s: string, c: char)
    requires AllSpace(s) && IsSpace(c)
    ensures AllSpace(s + [c])
  {
  }

  /** Number of whitespace characters at the end of `s`. */
  function TrailingSpaces(s: string): (n: nat)
    ensures n <= |s|
    ensures AllSpace(s[|s| - n..])
    ensures n == |s| || !IsSpace(s[|s| - 1 - n])
  {
    if s != [] && IsSpace(s[|s| - 1]) then
      var t := s[..|s| - 1];
      var k := TrailingSpaces(t);
      assert s[|s| - (k + 1)..] == t[|t| - k..] + [s[|s| - 1]];
      SpaceAppend(t[|t| - k..], s[|s| - 1]);
      assert k < |t| ==> s[|s| - 1 - (k + 1)] == t[|t| - 1 - k];
      k + 1
    else 0
  }

  /** `s.trimStart()` */
  function TrimStart(s: string): string
  {
    s[LeadingSpaces(s)..]
  }

  /** `s.trimEnd()` */
  function TrimEnd(s: string): string
  {
    s[..|s| - TrailingSpaces(s)]
  }

  /** `s.trim()`: no whitespace at either end, nothing but whitespace removed. */
  function Trim(s: string): (t: string)
    ensures t == "" || (!IsSpace(t[0]) && !IsSpace(t[|t| - 1]))
    ensures |t| <= |s|
  {
    TrimEnd(TrimStart(s))
  }

  /** What `trim` returns is the text itself with whitespace cut from both ends only. */
  lemma TrimInfix(s: string)
    ensures exists a, b :: 0 <= a <= b <= |s| && Trim(s) == s[a..b] && AllSpace(s[..a]) && AllSpace(s[b..])
  {
    var a := LeadingSpaces(s);
    var u := TrimStart(s);
    var n := TrailingSpaces(u);
    var b := |s| - n;
    assert u == s[a..];
    assert Trim(s) == u[..|u| - n] == s[a..b];
    assert u[|u| - n..] == s[b..];
    assert AllSpace(s[..a]) && AllSpace(s[b..]);
  }

  lemma AllSpaceConcat(x: string, y: string)
    requires AllSpace(x) && AllSpace(y)
    ensures AllSpace(x + y)
  {
    forall i | 0 <= i < |x + y| ensures IsSpace((x + y)[i]) {
      if i < |x| {
        assert (x + y)[i] == x[i];
      } else {
        assert (x + y)[i] == y[i - |x|];
      }
    }
  }

  /** A string trims to empty exactly when it is made of whitespace only. */
  lemma TrimEmptyIff(s: string)
    ensures Trim(s) == "" <==> AllSpace(s)
  {
    var a := LeadingSpaces(s);
    var u := s[a..];
    assert s == s[..a] + u;
    if AllSpace(s) {
      assert a == |s|;
    }
    if Trim(s) == "" {
      assert TrailingSpaces(u) == |u|;
      assert u[|u| - |u|..] == u;
      AllSpaceConcat(s[..a], u);
    }
  }

  // ---------------------------------------------------------------- decimal numerals

  predicate IsDigit(c: char)
  {
    '0' <= c <= '9'
  }

  predicate AllDigits(d: string)
  {
    forall i :: 0 <= i < |d| ==> IsDigit(d[i])
  }

  /** Length of the run of decimal digits at the start of `s`. */
  function DigitRun(s: string): (n: nat)
    ensures n <= |s|
    ensures n == |s| || !IsDigit(s[n])
  {
    if s != [] && IsDigit(s[0]) then 1 + DigitRun(s[1..]) else 0
  }

  lemma {:induction false} DigitRunDigits(s: string)
    ensures AllDigits(s[..DigitRun(s)])
  {
    if s != [] && IsDigit(s[0]) {
      DigitRunDigits(s[1..]);
      assert s[..DigitRun(s)] == [s[0]] + s[1..][..DigitRun(s[1..])];
    }
  }

  lemma {:induction false} DigitRunAppend(a: string, b: string)
    ensures DigitRun(a + b) == if DigitRun(a) < |a| then DigitRun(a) else |a| + DigitRun(b)
  {
    if a != [] {
      assert (a + b)[0] == a[0];
      if IsDigit(a[0]) {
        assert (a + b)[1..] == a[1..] + b;
        DigitRunAppend(a[1..], b);
      }
    } else {
      assert a + b == b;
    }
  }

  function DigitValue(c: char): nat
    requires IsDigit(c)
  {
    (c as int) - ('0' as int)
  }

  /** The value of a string of decimal digits (0 for the empty string). */
  function DigitsValue(d: string): nat
    requires AllDigits(d)
  {
    if d == [] then 0 else 10 * DigitsValue(d[..|d| - 1]) + DigitValue(d[|d| - 1])
  }

  function Pow10(k: nat): (p: nat)
    ensures p >= 1
  {
    if k == 0 then 1 else 10 * Pow10(k - 1)
  }

  /** The parts of an optionally signed decimal numeral at the start of a string. */
  datatype Numeral = Numeral(sign: string, whole: string, dot: bool, fraction: string, rest: string)
  {
    /** At least one digit on either side of the point. */
    predicate Valid()
    {
      |whole| + |fraction| > 0
    }

    function Value(): real
      requires AllDigits(whole) && AllDigits(fraction)
    {
      var magnitude := DigitsValue(whole) as real + DigitsValue(fraction) as real / Pow10(|fraction|) as real;
      if sign == "-" then -magnitude else magnitude
    }
  }

  /** Length of a leading `+` or `-`. */
  function SignLength(s: string): (k: nat)
    ensures k <= |s|
  {
    if s != [] && (s[0] == '+' || s[0] == '-') then 1 else 0
  }

  /** Splits unsigned text into integer digits, point, fraction digits and the unread remainder. */
  function ScanUnsigned(u: string): (m: Numeral)
    ensures m.sign == "" && AllDigits(m.whole) && AllDigits(m.fraction)
  {
    var w := DigitRun(u);
    var after := u[w..];
    DigitRunDigits(u);
    if after != [] && after[0] == '.' then
      var tail := after[1..];
      var f := DigitRun(tail);
      DigitRunDigits(tail);
      Numeral("", u[..w], true, tail[..f], tail[f..])
    else
      Numeral("", u[..w], false, "", after)
  }

  /** Splits `s` into sign, integer digits, point, fraction digits and the unread remainder. */
  function ScanNumeral(s: string): (m: Numeral)
    ensures AllDigits(m.whole) && AllDigits(m.fraction)
  {
    var k := SignLength(s);
    ScanUnsigned(s[k..]).(sign := s[..k])
  }

  /** Appending text that cannot continue a complete unsigned numeral leaves its parts unchanged. */
  lemma ScanUnsignedExtends(u: string, w: string)
    requires ScanUnsigned(u).rest == ""
    requires w == "" || (!IsDigit(w[0]) && w[0] != '.')
    ensures var m, m' := ScanUnsigned(u), ScanUnsigned(u + w);
      m'.whole == m.whole && m'.dot == m.dot && m'.fraction == m.fraction && m'.rest == w
  {
    DigitRunAppend(u, w);
    if DigitRun(u) < |u| {
      ExtendsAfterPoint(u, w);
    } else {
      ExtendsWholeOnly(u, w);
    }
  }

  lemma ExtendsWholeOnly(u: string, w: string)
    requires DigitRun(u) == |u|
    requires w == "" || (!IsDigit(w[0]) && w[0] != '.')
    ensures var m, m' := ScanUnsigned(u), ScanUnsigned(u + w);
      m'.whole == m.whole && m'.dot == m.dot && m'.fraction == m.fraction && m'.rest == w
  {
    DigitRunAppend(u, w);
    assert DigitRun(w) == 0;
    var v := u + w;
    assert DigitRun(v) == |u|;
    assert |u| == |v| || v[|u|] == w[0];
    ScanWithoutPoint(u);
    ScanWithoutPoint(v);
    assert v[..|u|] == u;
    assert v[|u|..] == w;
    assert u[|u|..] == [];
  }

  /** The shape of a scan that meets no point after its integer digits. */
  lemma ScanWithoutPoint(v: string)
    requires DigitRun(v) == |v| || v[DigitRun(v)] != '.'
    ensures ScanUnsigned(v) == Numeral("", v[..DigitRun(v)], false, "", v[DigitRun(v)..])
  {
    var wl := DigitRun(v);
    assert wl < |v| ==> v[wl..][0] == v[wl];
  }

  /** The shape of a scan that meets a point after its integer digits. */
  lemma ScanWithPoint(v: string)
    requires DigitRun(v) < |v| && v[DigitRun(v)] == '.'
    ensures var wl := DigitRun(v); var tail := v[wl + 1..];
      ScanUnsigned(v) == Numeral("", v[..wl], true, tail[..DigitRun(tail)], tail[DigitRun(tail)..])
  {
    var wl := DigitRun(v);
    assert v[wl..][1..] == v[wl + 1..];
  }

  /** A complete unsigned numeral with a point: digits, the point, digits. */
  lemma PointedShape(u: string)
    requires DigitRun(u) < |u|
    requires ScanUnsigned(u).rest == ""
    ensures u[DigitRun(u)] == '.'
    ensures DigitRun(u[DigitRun(u) + 1..]) == |u| - DigitRun(u) - 1
    ensures ScanUnsigned(u) == Numeral("", u[..DigitRun(u)], true, u[DigitRun(u) + 1..], "")
  {
    var wl := DigitRun(u);
    assert u[wl..][0] == u[wl];
    ScanWithPoint(u);
    var tail := u[wl + 1..];
    assert |tail[DigitRun(tail)..]| == 0;
  }

  /** Text that cannot continue the fraction is left unread after it. */
  lemma PointedExtends(u: string, w: string)
    requires DigitRun(u) < |u| && u[DigitRun(u)] == '.'
    requires DigitRun(u[DigitRun(u) + 1..]) == |u| - DigitRun(u) - 1
    requires DigitRun(w) == 0
    ensures ScanUnsigned(u + w) == Numeral("", u[..DigitRun(u)], true, u[DigitRun(u) + 1..], w)
  {
    var wl := DigitRun(u);
    var tail := u[wl + 1..];
    var v := u + w;
    WholeThenPoint(u, w);
    ScanWithPoint(v);
    FractionThenRest(tail, w);
  }

  /** Appending to text whose digits end at a point keeps those digits and the point. */
  lemma WholeThenPoint(u: string, w: string)
    requires DigitRun(u) < |u| && u[DigitRun(u)] == '.'
    ensures DigitRun(u + w) == DigitRun(u)
    ensures (u + w)[DigitRun(u)] == '.'
    ensures (u + w)[..DigitRun(u)] == u[..DigitRun(u)]
    ensures (u + w)[DigitRun(u) + 1..] == u[DigitRun(u) + 1..] + w
  {
    DigitRunAppend(u, w);
  }

  /** A run of digits followed by text that starts with no digit splits back into the two. */
  lemma FractionThenRest(tail: string, w: string)
    requires DigitRun(tail) == |tail|
    requires DigitRun(w) == 0
    ensures DigitRun(tail + w) == |tail|
    ensures (tail + w)[..|tail|] == tail && (tail + w)[|tail|..] == w
  {
    DigitRunAppend(tail, w);
  }

  lemma ExtendsAfterPoint(u: string, w: string)
    requires DigitRun(u) < |u|
    requires ScanUnsigned(u).rest == ""
    requires w == "" || (!IsDigit(w[0]) && w[0] != '.')
    ensures var m, m' := ScanUnsigned(u), ScanUnsigned(u + w);
      m'.whole == m.whole && m'.dot == m.dot && m'.fraction == m.fraction && m'.rest == w
  {
    PointedShape(u);
    assert DigitRun(w) == 0;
    PointedExtends(u, w);
  }

  /** The same for a possibly signed numeral. */
  lemma ScanNumeralExtends(t: string, w: string)
    requires t != ""
    requires ScanNumeral(t).rest == ""
    requires w == "" || (!IsDigit(w[0]) && w[0] != '.')
    ensures var m, m' := ScanNumeral(t), ScanNumeral(t + w);
      m'.sign == m.sign && m'.whole == m.whole && m'.dot == m.dot && m'.fraction == m.fraction && m'.rest == w
  {
    var k := SignLength(t);
    assert (t + w)[0] == t[0];
    assert SignLength(t + w) == k;
    assert (t + w)[k..] == t[k..] + w;
    assert (t + w)[..k] == t[..k];
    ScanUnsignedExtends(t[k..], w);
  }

  // ---------------------------------------------------------------- conversions

  /** `Number(s)` for a string: blank text is 0, otherwise the whole trimmed text must be a numeral. */
  function StringToNumber(s: string): Number
  {
    var t := Trim(s);
    if t == "" then Finite(0.0)
    else
      var m := ScanNumeral(t);
      if m.Valid() && m.rest == "" then Finite(m.Value()) else NaN
  }

  /** `parseFloat(s)`: the longest numeral prefix after leading whitespace. */
  function ParseFloat(s: string): Number
  {
    var m := ScanNumeral(TrimStart(s));
    if m.Valid() then Finite(m.Value()) else NaN
  }

  /** `parseInt(s)` in radix 10: sign and leading digits after leading whitespace. */
  function ParseInt(s: string): Number
  {
    var t := TrimStart(s);
    var signLen := if t != [] && (t[0] == '+' || t[0] == '-') then 1 else 0;
    var u := t[signLen..];
    var w := DigitRun(u);
    DigitRunDigits(u);
    if w == 0 then NaN
    else if signLen == 1 && t[0] == '-' then Finite(-(DigitsValue(u[..w]) as real))
    else Finite(DigitsValue(u[..w]) as real)
  }

  /** `Number(v)` */
  function ToNumber(v: Val): Number
  {
    match v
    case Undefined => NaN
    case Null => Finite(0.0)
    case Bool(b) => if b then Finite(1.0) else Finite(0.0)
    case Num(n) => Finite(n)
    case Str(s) => StringToNumber(s)
  }

  /** Truncation toward zero. */
  function Trunc(x: real): int
  {
    if x >= 0.0 then x.Floor else -((-x).Floor)
  }

  /** `parseFloat(v)`: the argument is converted to its string form first. */
  function ParseFloatVal(v: Val): Number
  {
    match v
    case Num(n) => Finite(n)
    case Str(s) => ParseFloat(s)
    case _ => NaN  // "undefined", "null", "true", "false" are not numerals
  }

  /** `parseInt(v)`: the argument is converted to its string form first. */
  function ParseIntVal(v: Val): Number
  {
    match v
    case Num(n) => Finite(Trunc(n) as real)
    case Str(s) => ParseInt(s)
    case _ => NaN
  }

  /** `Number(v) > 0` (a NaN comparison is false). */
  predicate Positive(v: Val)
  {
    var x := ToNumber(v);
    x.Finite? && x.value > 0.0
  }

  /** `trimStart` leaves the trimmed text followed by whitespace only. */
  lemma TrimmedThenSpaces(s: string)
    ensures |Trim(s)| <= |TrimStart(s)|
    ensures TrimStart(s) == Trim(s) + TrimStart(s)[|Trim(s)|..]
    ensures AllSpace(TrimStart(s)[|Trim(s)|..])
  {
    var t0 := TrimStart(s);
    var k := TrailingSpaces(t0);
    assert Trim(s) == t0[..|t0| - k];
  }

  /** What `trimStart` keeps after the trimmed text cannot continue a numeral. */
  lemma TrimStartTail(s: string) returns (w: string)
    ensures TrimStart(s) == Trim(s) + w
    ensures w == "" || (!IsDigit(w[0]) && w[0] != '.')
  {
    TrimmedThenSpaces(s);
    w := TrimStart(s)[|Trim(s)|..];
    if w != "" {
      assert IsSpace(w[0]);
    }
  }

  /** The value and validity of a scan do not depend on the unread remainder. */
  lemma ValueIgnoresRest(m: Numeral, w: string)
    requires AllDigits(m.whole) && AllDigits(m.fraction)
    ensures m.(rest := w).Valid() == m.Valid()
    ensures m.(rest := w).Value() == m.Value()
  {
  }

  /** Wherever `Number` reads non-blank text as a value, `parseFloat` reads the same value. */
  lemma StringToNumberAgreesWithParseFloat(s: string)
    requires Trim(s) != ""
    requires StringToNumber(s).Finite?
    ensures ParseFloat(s) == StringToNumber(s)
  {
    var t := Trim(s);
    var m := ScanNumeral(t);
    assert m.Valid() && m.rest == "" && StringToNumber(s) == Finite(m.Value());
    var w := TrimStartTail(s);
    ScanNumeralExtends(t, w);
    ValueIgnoresRest(m, w);
    assert ScanNumeral(TrimStart(s)) == m.(rest := w);
  }

  /** A positive `Number` reading of a string or number is also what `parseFloat` returns. */
  lemma PositiveAgreesWithParseFloat(v: Val)
    requires v.Str? || v.Num?
    requires Positive(v)
    ensures ParseFloatVal(v) == ToNumber(v)
  {
    if v.Str? {
      if Trim(v.s) == "" {
        assert false;
      } else {
        StringToNumberAgreesWithParseFloat(v.s);
      }
    }
  }

  /** `true` is a positive number to `Number` but not a numeral to `parseFloat`. */
  lemma BooleanQuantityDisagrees()
    ensures Positive(Bool(true)) && ParseFloatVal(Bool(true)) == NaN
  {
  }

  // ---------------------------------------------------------------- split

  /** Index of the first occurrence of `sep` in `s`. */
  function FirstIndex(s: string, sep: char): (i: nat)
    requires sep in s
    ensures i < |s| && s[i] == sep && sep !in s[..i]
  {
    if s[0] == sep then 0
    else
      assert sep in s[1..] by {
        var j :| 0 <= j < |s| && s[j] == sep;
        assert s[1..][j - 1] == sep;
      }
      var k := FirstIndex(s[1..], sep);
      assert s[..k + 1] == [s[0]] + s[1..][..k];
      k + 1
  }

  /** `s.split(sep)` for a one-character separator. */
  function Split(s: string, sep: char): (parts: seq<string>)
    ensures |parts| >= 1
    ensures forall i :: 0 <= i < |parts| ==> sep !in parts[i]
    decreases |s|
  {
    if sep !in s then [s]
    else
      var i := FirstIndex(s, sep);
      [s[..i]] + Split(s[i + 1..], sep)
  }

  /** `parts.join(sep)` */
  function Join(parts: seq<string>, sep: char): string
    requires |parts| >= 1
  {
    if |parts| == 1 then parts[0] else parts[0] + [sep] + Join(parts[1..], sep)
  }

  /** Splitting loses nothing: joining the parts with the separator gives the text back. */
  lemma {:induction false} SplitJoin(s: string, sep: char)
    ensures Join(Split(s, sep), sep) == s
    decreases |s|
  {
    if sep in s {
      var i := FirstIndex(s, sep);
      var rest := Split(s[i + 1..], sep);
      SplitJoin(s[i + 1..], sep);
      assert Split(s, sep) == [s[..i]] + rest;
      JoinCons(s[..i], rest, sep);
      assert s == s[..i] + [sep] + s[i + 1..];
    }
  }

  lemma JoinCons(head: string, rest: seq<string>, sep: char)
    requires |rest| >= 1
    ensures Join([head] + rest, sep) == head + [sep] + Join(rest, sep)
  {
    assert ([head] + rest)[1..] == rest;
  }

  /** The i-th element of a destructured array: `undefined` past its end. */
  function Nth(parts: seq<string>, i: nat): Val
  {
    if i < |parts| then Str(parts[i]) else Undefined
  }

  // ---------------------------------------------------------------- case

  function UpperChar(c: char): char
  {
    if 'a' <= c <= 'z' then (c as int - 32) as char else c
  }

  /** `s.toUpperCase()` on the Latin letters; every other character maps to itself. */
  function ToUpper(s: string): (u: string)
    ensures |u| == |s|
    ensures forall i :: 0 <= i < |s| ==> u[i] == UpperChar(s[i])
  {
    if s == [] then [] else [UpperChar(s[0])] + ToUpper(s[1..])
  }

  /** When the target text has no lower-case Latin letters, upper-casing matches it only on the text itself. */
  lemma UpperMatchesOnlyItself(s: string, target: string)
    requires forall i :: 0 <= i < |target| ==> !('a' <= target[i] <= 'z') && !('A' <= target[i] <= 'Z')
    ensures ToUpper(s) == target <==> s == target
  {
    if ToUpper(s) == target {
      forall i | 0 <= i < |s| ensures s[i] == target[i] {
        assert UpperChar(s[i]) == target[i];
      }
    }
    if s == target {
      forall i | 0 <= i < |s| ensures UpperChar(s[i]) == s[i] {
      }
      assert ToUpper(s) == target;
    }
  }

  // ---------------------------------------------------------------- integer to text

  function DigitChar(d: nat): char
    requires d < 10
  {
    ('0' as int + d) as char
  }

  /** `String(n)` for a natural number. */
  function NatToString(n: nat): (s: string)
    ensures |s| >= 1 && AllDigits(s)
    ensures n >= 10 <==> |s| >= 2
  {
    if n < 10 then [DigitChar(n)] else NatToString(n / 10) + [DigitChar(n % 10)]
  }

  /** Distinct numbers have distinct decimal text. */
  lemma {:induction false} NatToStringInjective(a: nat, b: nat)
    requires NatToString(a) == NatToString(b)
    ensures a == b
  {
    var s := NatToString(a);
    assert s[|s| - 1] == DigitChar(a % 10) == DigitChar(b % 10);
    if a >= 10 {
      assert b >= 10;
      assert NatToString(a / 10) == s[..|s| - 1] == NatToString(b / 10);
      NatToStringInjective(a / 10, b / 10);
    }
  }

  /** `String(n)` for an integer. */
  function IntToString(n: int): (s: string)
    ensures |s| >= 1
  {
    if n >= 0 then NatToString(n) else "-" + NatToString(-n)
  }

  lemma IntToStringInjective(a: int, b: int)
    requires IntToString(a) == IntToString(b)
    ensures a == b
  {
    var s := IntToString(a);
    assert (a >= 0) == IsDigit(s[0]);
    assert (b >= 0) == IsDigit(s[0]);
    if a >= 0 {
      NatToStringInjective(a, b);
    } else {
      assert NatToString(-a) == s[1..] == NatToString(-b);
      NatToStringInjective(-a, -b);
    }
  }

  // ---------------------------------------------------------------------
  // Array.prototype.slice(0, end)

  /**
   * `s.slice(0, end)` for a finite number `end`: the end is truncated toward
   * zero, and a negative end counts back from the length.
   */
  function SliceTo<T>(s: seq<T>, end: real): (r: seq<T>)
    ensures |r| <= |s| && r == s[..|r|]
    ensures Trunc(end) >= 0 ==> |r| == if Trunc(end) <= |s| then Trunc(end) else |s|
    ensures Trunc(end) < 0 ==> |r| == if |s| + Trunc(end) >= 0 then |s| + Trunc(end) else 0
  {
    var k := Trunc(end);
    if k >= 0 then (if k <= |s| then s[..k] else s)
    else if |s| + k >= 0 then s[..|s| + k] else []
  }
}
