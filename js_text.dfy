/**
 * The JavaScript string primitives the game relies on: `parseInt` without a radix,
 * `String.prototype.replace` with a string pattern, `String.prototype.trim`, and the
 * decimal rendering of an integer inside a template literal (`${x}px`).
 */
module JsText {
  import opened Wrappers

  /** White space and line terminators as `parseInt` and `trim` skip them. */
  predicate IsWhite(c: char) {
    var n := c as int;
    n == 0x09 || n == 0x0A || n == 0x0B || n == 0x0C || n == 0x0D || n == 0x20
    || n == 0xA0 || n == 0x1680 || (0x2000 <= n <= 0x200A) || n == 0x2028
    || n == 0x2029 || n == 0x202F || n == 0x205F || n == 0x3000 || n == 0xFEFF
  }

  /** The value of `c` as a digit in bases up to 36, or -1 when it is no digit at all. */
  function DigitValue(c: char): (d: int)
    ensures -1 <= d < 36
    ensures '0' <= c <= '9' ==> d == c as int - '0' as int
  {
    if '0' <= c <= '9' then c as int - '0' as int
    else if 'a' <= c <= 'z' then c as int - 'a' as int + 10
    else if 'A' <= c <= 'Z' then c as int - 'A' as int + 10
    else -1
  }

  predicate IsDigitIn(c: char, radix: nat) {
    0 <= DigitValue(c) < radix
  }

  /** The length of the longest prefix of `s` made of digits in `radix`. */
  function DigitRun(s: string, radix: nat): (n: nat)
    ensures n <= |s|
  {
    if |s| == 0 || !IsDigitIn(s[0], radix) then 0 else 1 + DigitRun(s[1..], radix)
  }

  /** The run is as long as possible: digits up to it, a non-digit (or the end) right after. */
  lemma {:induction false} DigitRunMaximal(s: string, radix: nat)
    ensures var n := DigitRun(s, radix);
      && (forall i :: 0 <= i < n ==> IsDigitIn(s[i], radix))
      && (n < |s| ==> !IsDigitIn(s[n], radix))
  {
    if |s| > 0 && IsDigitIn(s[0], radix) {
      DigitRunMaximal(s[1..], radix);
    }
  }

  /**
   * The number that the digit string `ds` denotes in base `radix` (10 or 16), most significant
   * digit first. It is only ever applied to a run of digits; a character that is no digit would
   * count as 0.
   */
  function DigitsValue(ds: string, radix: nat): nat
    requires radix == 10 || radix == 16
  {
    if |ds| == 0 then 0
    else
      var high := DigitsValue(ds[..|ds| - 1], radix);
      var d := DigitValue(ds[|ds| - 1]);
      (if radix == 16 then high * 16 else high * 10) + (if d < 0 then 0 else d)
  }

  /** `s` without its leading white space. */
  function TrimStart(s: string): (r: string)
    ensures |r| <= |s|
  {
    if |s| > 0 && IsWhite(s[0]) then TrimStart(s[1..]) else s
  }

  /** `s` without its trailing white space. */
  function TrimEnd(s: string): (r: string)
    ensures |r| <= |s|
  {
    if |s| > 0 && IsWhite(s[|s| - 1]) then TrimEnd(s[..|s| - 1]) else s
  }

  /** What `TrimStart` removes is white space, and what it keeps is a suffix not starting with any. */
  lemma {:induction false} TrimStartShape(s: string)
    ensures var r := TrimStart(s);
      && r == s[|s| - |r|..]
      && (r == [] || !IsWhite(r[0]))
      && (forall i :: 0 <= i < |s| - |r| ==> IsWhite(s[i]))
  {
    if |s| > 0 && IsWhite(s[0]) {
      TrimStartShape(s[1..]);
    }
  }

  /** What `TrimEnd` removes is white space, and what it keeps is a prefix not ending with any. */
  lemma {:induction false} TrimEndShape(s: string)
    ensures var r := TrimEnd(s);
      && r == s[..|r|]
      && (r == [] || !IsWhite(r[|r| - 1]))
      && (forall i :: |r| <= i < |s| ==> IsWhite(s[i]))
  {
    if |s| > 0 && IsWhite(s[|s| - 1]) {
      TrimEndShape(s[..|s| - 1]);
    }
  }

  /** `String.prototype.trim`. */
  function Trim(s: string): string {
    TrimEnd(TrimStart(s))
  }

  /**
   * `.length` of a JavaScript string: it counts UTF-16 code units, one for a character of the
   * Basic Multilingual Plane and two, a surrogate pair, for a character above U+FFFF.
   */
  function Utf16Length(s: string): (n: nat)
    ensures |s| <= n <= 2 * |s|
  {
    if s == [] then 0
    else Utf16Length(s[..|s| - 1]) + (if s[|s| - 1] as int >= 0x10000 then 2 else 1)
  }

  /** On text made only of characters of the Basic Multilingual Plane, `.length` counts characters. */
  lemma {:induction false} Utf16LengthPlane(s: string)
    requires forall i :: 0 <= i < |s| ==> s[i] as int < 0x10000
    ensures Utf16Length(s) == |s|
  {
    if s != [] {
      Utf16LengthPlane(s[..|s| - 1]);
    }
  }

  /**
   * Where `parseInt` stands in its left-to-right reading: at the start, where the argument is
   * converted to a string (a string is kept as it is), in the leading white space, or past it.
   */
  datatype Phase = Start | Blank | Signed

  /**
   * `parseInt(s)` with no radix: skip leading white space, take an optional sign, switch to
   * base 16 after a `0x`/`0X` prefix, and read the longest run of digits; `None` is `NaN`.
   */
  function ParseInt(s: string): Option<int> {
    Scan(s, Start)
  }

  /** The reading of `parseInt` from `phase` on. */
  function Scan(s: string, phase: Phase): Option<int>
    decreases |s|, if phase.Start? then 2 else if phase.Blank? then 1 else 0
  {
    match phase
    case Start => Scan(s, Blank)
    case Blank => if |s| > 0 && IsWhite(s[0]) then Scan(s[1..], Blank) else Scan(s, Signed)
    case Signed => ParseSigned(s)
  }

  /** `parseInt` after the white space: an optional sign, then the magnitude. */
  function ParseSigned(t: string): Option<int> {
    var negative := |t| > 0 && t[0] == '-';
    var u := if |t| > 0 && (t[0] == '-' || t[0] == '+') then t[1..] else t;
    match ParseMagnitude(u)
    case None => None
    case Some(m) => Some(if negative then -(m as int) else m)
  }

  /** `parseInt` after the sign: the longest run of digits, in base 16 after a `0x` prefix. */
  function ParseMagnitude(u: string): Option<nat> {
    var hex := |u| >= 2 && u[0] == '0' && (u[1] == 'x' || u[1] == 'X');
    var radix := if hex then 16 else 10;
    var body := if hex then u[2..] else u;
    var n := DigitRun(body, radix);
    if n == 0 then None else Some(DigitsValue(body[..n], radix))
  }

  /** `s.replace(pattern, replacement)` for a string pattern: only the first occurrence is replaced. */
  function ReplaceFirst(s: string, pattern: string, replacement: string): string
    requires |pattern| > 0
  {
    if |s| < |pattern| then s
    else if s[..|pattern|] == pattern then replacement + s[|pattern|..]
    else [s[0]] + ReplaceFirst(s[1..], pattern, replacement)
  }

  /** `parseInt(s.replace('px', ''))`: how the server reads a CSS pixel coordinate. */
  function ParsePx(s: string): Option<int> {
    ParseInt(ReplaceFirst(s, "px", ""))
  }

  function DigitChar(d: nat): (c: char)
    requires d < 10
    ensures '0' <= c <= '9' && DigitValue(c) == d
  {
    ('0' as int + d) as char
  }

  /** The decimal rendering of a natural number, without leading zeros. */
  function NatToString(n: nat): (s: string)
    ensures |s| > 0
    ensures forall i :: 0 <= i < |s| ==> '0' <= s[i] <= '9'
  {
    if n < 10 then [DigitChar(n)] else NatToString(n / 10) + [DigitChar(n % 10)]
  }

  /** The rendering of an integer in a template literal. */
  function IntToString(i: int): string {
    if i < 0 then "-" + NatToString(-i) else NatToString(i)
  }

  /** `${i}px`: how the client writes a pixel coordinate. */
  function FormatPx(i: int): string {
    IntToString(i) + "px"
  }

  // ---------------------------------------------------------------------------------------
  // Round trips

  lemma {:induction false} NatToStringValue(n: nat)
    ensures DigitsValue(NatToString(n), 10) == n
  {
    var s := NatToString(n);
    if n >= 10 {
      NatToStringValue(n / 10);
      assert s[..|s| - 1] == NatToString(n / 10);
    }
  }

  /** A rendering starts with '0' only when it is the number zero itself. */
  lemma NatToStringNoLeadingZero(n: nat)
    ensures NatToString(n)[0] == '0' ==> n == 0 && |NatToString(n)| == 1
  {
    if n >= 10 {
      NatToStringLeading(n);
    }
  }

  lemma {:induction false} NatToStringLeading(n: nat)
    requires n >= 1
    ensures NatToString(n)[0] != '0'
  {
    if n >= 10 {
      NatToStringLeading(n / 10);
      assert NatToString(n)[0] == NatToString(n / 10)[0];
    }
  }

  lemma {:induction false} DigitRunStopsAtNonDigit(ds: string, rest: string, radix: nat)
    requires forall i :: 0 <= i < |ds| ==> IsDigitIn(ds[i], radix)
    requires rest == [] || !IsDigitIn(rest[0], radix)
    ensures DigitRun(ds + rest, radix) == |ds|
  {
    if |ds| > 0 {
      assert (ds + rest)[1..] == ds[1..] + rest;
      DigitRunStopsAtNonDigit(ds[1..], rest, radix);
    } else {
      assert ds + rest == rest;
    }
  }

  lemma {:induction false} ReplaceFirstAtEnd(ds: string, pattern: string)
    requires |pattern| > 0
    requires forall i :: 0 <= i < |ds| ==> ds[i] != pattern[0]
    ensures ReplaceFirst(ds + pattern, pattern, "") == ds
  {
    var s := ds + pattern;
    if |ds| == 0 {
      assert s[..|pattern|] == pattern;
      assert s[|pattern|..] == [];
    } else {
      assert s[0] == ds[0] != pattern[0];
      assert s[..|pattern|] != pattern;
      assert s[1..] == ds[1..] + pattern;
      ReplaceFirstAtEnd(ds[1..], pattern);
    }
  }

  /** Reading back the digits of a rendered natural number, followed by any non-digit text. */
  lemma ParseMagnitudeOfRendered(n: nat, rest: string)
    requires rest == [] || (!IsDigitIn(rest[0], 10) && rest[0] != 'x' && rest[0] != 'X')
    ensures ParseMagnitude(NatToString(n) + rest) == Some(n)
  {
    var ds := NatToString(n);
    NatToStringValue(n);
    NatToStringNoLeadingZero(n);
    DigitRunStopsAtNonDigit(ds, rest, 10);
    var u := ds + rest;
    assert u[..|ds|] == ds;
    if |u| >= 2 && u[0] == '0' {
      assert |ds| == 1;
      assert u[1] == rest[0];
    }
  }

  lemma TrimStartKeeps(t: string)
    requires |t| > 0 && !IsWhite(t[0])
    ensures TrimStart(t) == t
  {
  }

  /** `parseInt` reads what is left once the leading white space is trimmed. */
  lemma ParseIntSkipsBlank(s: string)
    ensures ParseInt(s) == ParseSigned(TrimStart(s))
  {
    ScanBlank(s);
    assert Scan(s, Start) == Scan(s, Blank);
  }

  /** The white-space phase of the reading consumes exactly what `TrimStart` removes. */
  lemma {:induction false} ScanBlank(s: string)
    ensures Scan(s, Blank) == ParseSigned(TrimStart(s))
  {
    if |s| > 0 && IsWhite(s[0]) {
      ScanBlank(s[1..]);
      assert Scan(s, Blank) == Scan(s[1..], Blank);
    } else {
      assert Scan(s, Blank) == Scan(s, Signed);
    }
  }

  /** Reading back a rendered integer, followed by any non-digit text, gives the integer. */
  lemma ParseIntOfRendered(i: int, rest: string)
    requires rest == [] || (!IsDigitIn(rest[0], 10) && rest[0] != 'x' && rest[0] != 'X')
    ensures ParseInt(IntToString(i) + rest) == Some(i)
  {
    if i < 0 {
      ParseNegativeRendered(-i, rest);
    } else {
      var t := NatToString(i) + rest;
      ParseMagnitudeOfRendered(i, rest);
      assert '0' <= t[0] <= '9';
      TrimStartKeeps(t);
      ParseIntSkipsBlank(t);
    }
  }

  lemma ParseNegativeRendered(n: nat, rest: string)
    requires n > 0
    requires rest == [] || (!IsDigitIn(rest[0], 10) && rest[0] != 'x' && rest[0] != 'X')
    ensures ParseInt(IntToString(-(n as int)) + rest) == Some(-(n as int))
  {
    var u := NatToString(n) + rest;
    var t := ['-'] + u;
    assert IntToString(-(n as int)) + rest == t;
    ParseMagnitudeOfRendered(n, rest);
    assert t[0] == '-' && t[1..] == u;
    assert ParseSigned(t) == Some(-(n as int));
    TrimStartKeeps(t);
    ParseIntSkipsBlank(t);
  }

  /** The server parses back exactly the integer the client wrote as `${i}px`. */
  lemma ParsePxFormatPx(i: int)
    ensures ParsePx(FormatPx(i)) == Some(i)
    ensures ParseInt(FormatPx(i)) == Some(i)
  {
    var m: nat := if i < 0 then -i else i;
    var ds := NatToString(m);
    var s := IntToString(i);
    assert forall k :: 0 <= k < |s| ==> s[k] != 'p' by {
      if i < 0 {
        forall k | 0 <= k < |s| ensures s[k] != 'p' {
          if k > 0 { assert s[k] == ds[k - 1]; }
        }
      }
    }
    ReplaceFirstAtEnd(s, "px");
    assert FormatPx(i) == s + "px";
    ParseIntOfRendered(i, []);
    assert s + [] == s;
    ParseIntOfRendered(i, "px");
  }

  /** Rendering is injective: distinct integers never render alike. */
  lemma IntToStringInjective(i: int, j: int)
    requires IntToString(i) == IntToString(j)
    ensures i == j
  {
    ParseIntOfRendered(i, []);
    ParseIntOfRendered(j, []);
    assert IntToString(i) + [] == IntToString(i);
    assert IntToString(j) + [] == IntToString(j);
  }

  // ---------------------------------------------------------------------------------------
  // Trim

  /** Trimming twice is trimming once. */
  lemma TrimIdempotent(s: string)
    ensures Trim(Trim(s)) == Trim(s)
  {
    var t := TrimStart(s);
    var r := TrimEnd(t);
    TrimEndShape(t);
    if r != [] {
      TrimStartShape(s);
      assert r[0] == t[0];
      TrimStartKeeps(r);
      assert TrimEnd(r) == r;
    }
  }
}
