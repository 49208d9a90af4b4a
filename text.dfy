/**
 * The JavaScript string and number built-ins that the app's two scripts rely on,
 * restricted to what they use: `String.prototype.split` and `Array.prototype.join`
 * with a one-character separator, ASCII `toUpperCase`/`toLowerCase`, `parseInt`
 * without a radix argument, and the decimal rendering of an integral Number.
 */
module Text {
  import opened Wrappers

  // ---------------------------------------------------------------------------
  // split / join
  // ---------------------------------------------------------------------------

  /** `s.split(c)`: the pieces between occurrences of `c`, empty pieces included. */
  function Split(s: string, c: char): (r: seq<string>)
    ensures |r| >= 1
    ensures forall w :: w in r ==> c !in w
  {
    if s == [] then [""]
    else
      var rest := Split(s[1..], c);
      if s[0] == c then [""] + rest
      else [[s[0]] + rest[0]] + rest[1..]
  }

  /** `ws.join(c)`: the pieces with one `c` between neighbours. */
  function Join(ws: seq<string>, c: char): string
  {
    if |ws| == 0 then ""
    else if |ws| == 1 then ws[0]
    else ws[0] + [c] + Join(ws[1..], c)
  }

  /** Joining the pieces of a split gives back the original string. */
  lemma {:induction false} JoinSplit(s: string, c: char)
    ensures Join(Split(s, c), c) == s
  {
    if s != [] {
      var rest := Split(s[1..], c);
      JoinSplit(s[1..], c);
      if s[0] == c {
        assert ([""] + rest)[1..] == rest;
      } else if |rest| > 1 {
        var r := [[s[0]] + rest[0]] + rest[1..];
        assert r[1..] == rest[1..];
        calc {
          Join(r, c);
          ([s[0]] + rest[0]) + [c] + Join(rest[1..], c);
          [s[0]] + (rest[0] + [c] + Join(rest[1..], c));
          [s[0]] + s[1..];
        }
      }
    }
  }

  /** A string without the separator splits into itself alone. */
  lemma {:induction false} SplitWithoutSeparator(a: string, c: char)
    requires c !in a
    ensures Split(a, c) == [a]
  {
    if a != [] {
      SplitWithoutSeparator(a[1..], c);
      assert [a[0]] + a[1..] == a;
    }
  }

  /** Splitting stops at the first separator. */
  lemma {:induction false} SplitAtFirst(a: string, b: string, c: char)
    requires c !in a
    ensures Split(a + [c] + b, c) == [a] + Split(b, c)
  {
    var s := a + [c] + b;
    if a == [] {
      assert s[1..] == b;
    } else {
      assert s[1..] == a[1..] + [c] + b;
      SplitAtFirst(a[1..], b, c);
      assert [a[0]] + a[1..] == a;
    }
  }

  /** Splitting a join of separator-free pieces gives the pieces back. */
  lemma {:induction false} SplitJoin(ws: seq<string>, c: char)
    requires |ws| >= 1
    requires forall w :: w in ws ==> c !in w
    ensures Split(Join(ws, c), c) == ws
  {
    if |ws| == 1 {
      SplitWithoutSeparator(ws[0], c);
    } else {
      assert ws[0] in ws;
      forall w | w in ws[1..] ensures c !in w {
        assert w in ws;
      }
      SplitJoin(ws[1..], c);
      SplitAtFirst(ws[0], Join(ws[1..], c), c);
      assert [ws[0]] + ws[1..] == ws;
    }
  }

  // ---------------------------------------------------------------------------
  // ASCII case mapping
  // ---------------------------------------------------------------------------

  /** `toUpperCase` on one character, for the ASCII letters only. */
  function ToUpper(c: char): char
  {
    if 'a' <= c <= 'z' then (c as int - 32) as char else c
  }

  /** `toLowerCase` on one character, for the ASCII letters only. */
  function ToLower(c: char): char
  {
    if 'A' <= c <= 'Z' then (c as int + 32) as char else c
  }

  /** `toLowerCase` on a string. */
  function LowerAll(s: string): string
  {
    seq(|s|, i requires 0 <= i < |s| => ToLower(s[i]))
  }

  /** The case maps send only the space to the space, are idempotent, and invert each other on the letters. */
  lemma CaseMapFacts(c: char)
    ensures ToUpper(c) == ' ' <==> c == ' '
    ensures ToLower(c) == ' ' <==> c == ' '
    ensures ToUpper(ToUpper(c)) == ToUpper(c)
    ensures ToLower(ToLower(c)) == ToLower(c)
    ensures 'a' <= c <= 'z' ==> 'A' <= ToUpper(c) <= 'Z' && ToLower(ToUpper(c)) == c
    ensures 'A' <= c <= 'Z' ==> 'a' <= ToLower(c) <= 'z' && ToUpper(ToLower(c)) == c
  {
  }

  // ---------------------------------------------------------------------------
  // Numbers: rendering and parseInt
  // ---------------------------------------------------------------------------

  predicate IsDecimalDigit(c: char)
  {
    '0' <= c <= '9'
  }

  /** A digit of radix 10 or 16 (either case for the letters). */
  predicate IsDigitIn(c: char, radix: nat)
  {
    IsDecimalDigit(c) || (radix == 16 && ('a' <= c <= 'f' || 'A' <= c <= 'F'))
  }

  function DigitValue(c: char, radix: nat): (v: nat)
    requires IsDigitIn(c, radix)
    requires radix == 10 || radix == 16
    ensures v < radix
  {
    if IsDecimalDigit(c) then c as int - '0' as int
    else if 'a' <= c <= 'f' then c as int - 'a' as int + 10
    else c as int - 'A' as int + 10
  }

  predicate AllDigitsIn(d: string, radix: nat)
  {
    forall i :: 0 <= i < |d| ==> IsDigitIn(d[i], radix)
  }

  /** The value of a digit string, most significant digit first. */
  function DigitsValue(d: string, radix: nat): nat
    requires AllDigitsIn(d, radix)
    requires radix == 10 || radix == 16
  {
    if d == [] then 0
    else DigitsValue(d[..|d| - 1], radix) * radix + DigitValue(d[|d| - 1], radix)
  }

  /** The decimal digit for `d`. */
  function DigitChar(d: nat): (c: char)
    requires d < 10
    ensures IsDecimalDigit(c) && DigitValue(c, 10) == d
  {
    ('0' as int + d) as char
  }

  /** The decimal rendering of a non-negative integer, without leading zeros. */
  function NatToString(n: nat): (r: string)
    ensures |r| >= 1
    ensures AllDigitsIn(r, 10)
    ensures forall i :: 0 <= i < |r| ==> IsDecimalDigit(r[i])
    ensures |r| > 1 ==> r[0] != '0'
  {
    if n < 10 then [DigitChar(n)] else NatToString(n / 10) + [DigitChar(n % 10)]
  }

  /** `${n}` for an integral Number. */
  function IntToString(n: int): string
  {
    if n < 0 then "-" + NatToString(-n) else NatToString(n)
  }

  /** The characters `parseInt` skips at the start: JavaScript's WhiteSpace and LineTerminator. */
  predicate IsJsSpace(c: char)
  {
    || c == '\t' || c == '\n' || c == '\r' || c == ' '
    || c as int == 0x0B || c as int == 0x0C || c as int == 0xA0
    || c as int == 0x1680 || 0x2000 <= c as int <= 0x200A
    || c as int == 0x2028 || c as int == 0x2029 || c as int == 0x202F
    || c as int == 0x205F || c as int == 0x3000 || c as int == 0xFEFF
  }

  /** The string with its leading white space removed. */
  function TrimStart(s: string): (r: string)
    ensures |r| <= |s| && r == s[|s| - |r|..]
    ensures r == [] || !IsJsSpace(r[0])
    ensures forall i :: 0 <= i < |s| - |r| ==> IsJsSpace(s[i])
  {
    if s != [] && IsJsSpace(s[0]) then TrimStart(s[1..]) else s
  }

  /** The length of the longest prefix of `s` made of digits of `radix`. */
  function LeadingDigits(s: string, radix: nat): (n: nat)
    ensures n <= |s|
    ensures forall i :: 0 <= i < n ==> IsDigitIn(s[i], radix)
    ensures n < |s| ==> !IsDigitIn(s[n], radix)
  {
    if s == [] || !IsDigitIn(s[0], radix) then 0 else 1 + LeadingDigits(s[1..], radix)
  }

  /**
   * The magnitude `parseInt` reads once white space and sign are gone:
   * hexadecimal after a `0x`/`0X` prefix, decimal otherwise, up to the first
   * character that is not a digit. `None` when there is no digit at all.
   */
  function ParseMagnitude(u: string): Option<nat>
  {
    var hex := |u| >= 2 && u[0] == '0' && (u[1] == 'x' || u[1] == 'X');
    var radix := if hex then 16 else 10;
    var body := if hex then u[2..] else u;
    var n := LeadingDigits(body, radix);
    if n == 0 then None else Some(DigitsValue(body[..n], radix))
  }

  /**
   * `parseInt(s)` with no radix: skip white space, take an optional sign, then
   * read the magnitude. `None` is NaN.
   */
  function ParseInt(s: string): Option<int>
  {
    var t := TrimStart(s);
    var negative := |t| > 0 && t[0] == '-';
    var unsigned := if |t| > 0 && (t[0] == '-' || t[0] == '+') then t[1..] else t;
    match ParseMagnitude(unsigned)
    case None => None
    case Some(m) => Some(if negative then 0 - m else m)
  }

  lemma {:induction false} NatToStringValue(n: nat)
    ensures DigitsValue(NatToString(n), 10) == n
  {
    var s := NatToString(n);
    if n >= 10 {
      NatToStringValue(n / 10);
      assert s[..|s| - 1] == NatToString(n / 10);
    }
  }

  lemma {:induction false} LeadingDigitsOfDigits(s: string, radix: nat)
    requires AllDigitsIn(s, radix)
    ensures LeadingDigits(s, radix) == |s|
  {
    if s != [] {
      LeadingDigitsOfDigits(s[1..], radix);
    }
  }

  /** A run of decimal digits is read as its decimal value (it cannot hold an `x`). */
  lemma ParseDecimalMagnitude(body: string)
    requires |body| >= 1 && AllDigitsIn(body, 10)
    ensures ParseMagnitude(body) == Some(DigitsValue(body, 10))
  {
    LeadingDigitsOfDigits(body, 10);
    assert body[..|body|] == body;
  }

  /** Without leading white space or sign, parseInt is the magnitude reading. */
  lemma ParseUnsigned(u: string)
    requires u == [] || (!IsJsSpace(u[0]) && u[0] != '-' && u[0] != '+')
    ensures ParseInt(u) == match ParseMagnitude(u) case None => None case Some(m) => Some(m)
  {
    assert TrimStart(u) == u;
  }

  /** After a minus sign, parseInt is the negated magnitude reading. */
  lemma ParseNegative(u: string)
    requires u == [] || (!IsJsSpace(u[0]) && u[0] != '-' && u[0] != '+')
    ensures ParseInt("-" + u) == match ParseMagnitude(u) case None => None case Some(m) => Some(0 - m)
  {
    var s := "-" + u;
    assert !IsJsSpace(s[0]);
    assert TrimStart(s) == s;
    assert s[1..] == u;
  }

  /** A run of decimal digits, say the hour field of a time, parses to its decimal value. */
  lemma ParseDecimal(d: string)
    requires |d| >= 1 && AllDigitsIn(d, 10)
    ensures ParseInt(d) == Some(DigitsValue(d, 10))
  {
    assert IsDigitIn(d[0], 10);
    ParseDecimalMagnitude(d);
    ParseUnsigned(d);
  }

  /** parseInt reads back every integer that `${n}` renders. */
  lemma ParseIntToString(n: int)
    ensures ParseInt(IntToString(n)) == Some(n)
  {
    var m: nat := if n < 0 then -n else n;
    var body := NatToString(m);
    NatToStringValue(m);
    ParseDecimalMagnitude(body);
    assert IsDecimalDigit(body[0]);
    if n < 0 {
      ParseNegative(body);
    } else {
      ParseUnsigned(body);
    }
  }
}
