/**
 * String helpers of the timer: JavaScript's `trim`, the decimal rendering of
 * integers, and `formatTime`, which shows a number of seconds as "m:ss".
 */
module Text {
  import opened Wrappers

  /**
   * The characters `String.prototype.trim` removes: the ECMAScript white
   * space (tab, vertical tab, form feed, space, no-break space, the byte
   * order mark and the other space separators of category Zs) and the line
   * terminators (line feed, carriage return, line and paragraph separator).
   */
  predicate IsSpace(c: char) {
    c == '\t' || c == '\U{B}' || c == '\U{C}' || c == ' ' || c == '\U{A0}' || c == '\U{FEFF}'
    || c == '\U{1680}' || ('\U{2000}' <= c <= '\U{200A}') || c == '\U{202F}' || c == '\U{205F}'
    || c == '\U{3000}'
    || c == '\n' || c == '\r' || c == '\U{2028}' || c == '\U{2029}'
  }

  /** Drops leading white space: the result is a suffix of `s`, and what was dropped is all white space. */
  function TrimStart(s: string): (r: string)
    ensures |r| <= |s| && r == s[|s| - |r|..]
    ensures r != [] ==> !IsSpace(r[0])
    ensures forall i :: 0 <= i < |s| - |r| ==> IsSpace(s[i])
  {
    if s != [] && IsSpace(s[0]) then TrimStart(s[1..]) else s
  }

  /** Drops trailing white space: the result is a prefix of `s`, and what was dropped is all white space. */
  function TrimEnd(s: string): (r: string)
    ensures |r| <= |s| && r == s[..|r|]
    ensures r != [] ==> !IsSpace(r[|r| - 1])
    ensures forall i :: |r| <= i < |s| ==> IsSpace(s[i])
  {
    if s != [] && IsSpace(s[|s| - 1]) then TrimEnd(s[..|s| - 1]) else s
  }

  /** `s.trim()`: no longer than `s`, and no white space left at either end. */
  function Trim(s: string): (r: string)
    ensures |r| <= |s|
    ensures r != [] ==> !IsSpace(r[0]) && !IsSpace(r[|r| - 1])
  {
    TrimEnd(TrimStart(s))
  }

  /** A title is rejected exactly when it is made of white space only (or empty). */
  lemma TrimEmptyIffBlank(s: string)
    ensures Trim(s) == [] <==> forall i :: 0 <= i < |s| ==> IsSpace(s[i])
  {
  }

  /** Titles typed with other space characters are blank too: an ideographic space, or a line separator and a space. */
  lemma OtherSpacesBlank()
    ensures Trim(['\U{3000}']) == [] && Trim(['\U{2028}', ' ']) == []
  {
    TrimEmptyIffBlank(['\U{3000}']);
    TrimEmptyIffBlank(['\U{2028}', ' ']);
  }

  /** Trimming keeps the characters in between: the result is a contiguous slice of `s` with no white space at either end. */
  lemma TrimIsSlice(s: string)
    ensures exists i, j :: 0 <= i <= j <= |s| && Trim(s) == s[i..j]
    ensures Trim(s) != [] ==> !IsSpace(Trim(s)[0]) && !IsSpace(Trim(s)[|Trim(s)| - 1])
  {
    var t := TrimStart(s);
    var r := TrimEnd(t);
    var i := |s| - |t|;
    assert t == s[i..] && r == t[..|r|];
    assert Trim(s) == r;
    assert 0 <= i <= i + |r| <= |s| && r == s[i..i + |r|];
  }

  /** A string with no white space at either end is its own trim. */
  lemma TrimmedUnchanged(s: string)
    requires s != [] ==> !IsSpace(s[0]) && !IsSpace(s[|s| - 1])
    ensures Trim(s) == s
  {
    assert TrimStart(s) == s;
  }

  /** Trimming twice is trimming once. */
  lemma TrimIdempotent(s: string)
    ensures Trim(Trim(s)) == Trim(s)
  {
    TrimIsSlice(s);
    TrimmedUnchanged(Trim(s));
  }

  predicate IsDigit(c: char) {
    '0' <= c <= '9'
  }

  predicate AllDigits(s: string) {
    forall i :: 0 <= i < |s| ==> IsDigit(s[i])
  }

  function DigitChar(d: nat): (c: char)
    requires d < 10
    ensures IsDigit(c)
  {
    (d + '0' as int) as char
  }

  function DigitValue(c: char): (d: nat)
    requires IsDigit(c)
    ensures d < 10
  {
    c as int - '0' as int
  }

  /** The value of a string of decimal digits, most significant first. */
  function DigitsValue(s: string): nat
    requires AllDigits(s)
  {
    if s == [] then 0 else 10 * DigitsValue(s[..|s| - 1]) + DigitValue(s[|s| - 1])
  }

  /** `n.toString()` for a non-negative integer: decimal digits with no leading zero. */
  function NatToString(n: nat): (r: string)
    ensures 1 <= |r| && AllDigits(r)
    ensures (|r| == 1) == (n < 10)
    ensures r[0] == '0' ==> n == 0
  {
    if n < 10 then [DigitChar(n)] else NatToString(n / 10) + [DigitChar(n % 10)]
  }

  /** Reading back the digits written by `NatToString` gives the number. */
  lemma {:induction false} NatToStringRoundTrip(n: nat)
    ensures DigitsValue(NatToString(n)) == n
  {
    if n >= 10 {
      var r := NatToString(n);
      assert r[..|r| - 1] == NatToString(n / 10);
      NatToStringRoundTrip(n / 10);
    }
  }

  /** `i.toString()` for an integer: its decimal digits, after a minus sign when it is negative. */
  function IntToString(i: int): (r: string)
    ensures i >= 0 ==> AllDigits(r) && r != [] && DigitsValue(r) == i
    ensures i < 0 ==> |r| >= 2 && r[0] == '-' && AllDigits(r[1..]) && DigitsValue(r[1..]) == -i
  {
    if i < 0 then
      NatToStringRoundTrip(-i);
      assert ("-" + NatToString(-i))[1..] == NatToString(-i);
      "-" + NatToString(-i)
    else
      NatToStringRoundTrip(i);
      NatToString(i)
  }

  /** `s.padStart(2, '0')`. */
  function PadTwo(s: string): (r: string)
    ensures |r| == if |s| < 2 then 2 else |s|
    ensures r[|r| - |s|..] == s
    ensures forall i :: 0 <= i < |r| - |s| ==> r[i] == '0'
  {
    if |s| == 0 then "00" else if |s| == 1 then "0" + s else s
  }

  /** `Math.trunc(a / b)`: the quotient rounded toward zero. */
  function JsQuot(a: int, b: int): int
    requires b > 0
  {
    if a >= 0 then a / b else -((-a) / b)
  }

  /**
   * JavaScript's `%` for a positive divisor: what is left of the dividend
   * after the quotient rounded toward zero, so it takes the dividend's sign.
   */
  function JsRem(a: int, b: int): (r: int)
    requires b > 0
    ensures a == JsQuot(a, b) * b + r
    ensures -b < r < b
    ensures a >= 0 ==> 0 <= r
    ensures a <= 0 ==> r <= 0
    ensures a >= 0 ==> r == a % b
  {
    if a >= 0 then a % b else -((-a) % b)
  }

  /** Euclidean division is determined by n == q * k + r with 0 <= r < k. */
  lemma DivUnique(n: int, k: int, q: int, r: int)
    requires k > 0 && 0 <= r < k && n == q * k + r
    ensures n / k == q && n % k == r
  {
    var q', r' := n / k, n % k;
    assert n == q' * k + r';
    var d := q - q';
    assert d * k == r' - r by {
      assert q * k - q' * k == d * k;
    }
    MultipleGap(d, k);
  }

  /** A non-zero multiple of k is at least k away from zero. */
  lemma MultipleGap(d: int, k: int)
    requires k > 0
    ensures d == 0 || d * k >= k || d * k <= -k
  {
    if d >= 1 {
      assert d * k == (d - 1) * k + k;
      assert (d - 1) * k >= 0;
    } else if d <= -1 {
      assert -d * k == (-d - 1) * k + k;
      assert (-d - 1) * k >= 0;
    }
  }

  /**
   * `formatTime(seconds)`: `Math.floor(seconds / 60)` (Dafny's `/` is floor
   * division for a positive divisor), a colon, then `seconds % 60` padded to
   * two characters.
   */
  function FormatTime(seconds: int): string {
    IntToString(seconds / 60) + ":" + PadTwo(IntToString(JsRem(seconds, 60)))
  }

  /** Reads "m:ss" back into seconds; the inverse of `FormatTime` on non-negative input. */
  function ParseTime(t: string): Option<nat> {
    if |t| >= 4 && t[|t| - 3] == ':' && AllDigits(t[..|t| - 3]) && AllDigits(t[|t| - 2..])
       && DigitsValue(t[|t| - 2..]) < 60
    then Some(60 * DigitsValue(t[..|t| - 3]) + DigitsValue(t[|t| - 2..]))
    else None
  }

  /** The seconds field of a non-negative time is exactly two digits, zero-padded. */
  lemma SecondsField(r: nat)
    requires r < 60
    ensures |PadTwo(NatToString(r))| == 2 && AllDigits(PadTwo(NatToString(r)))
    ensures DigitsValue(PadTwo(NatToString(r))) == r
  {
    var p := PadTwo(NatToString(r));
    if r < 10 {
      assert p == ['0', DigitChar(r)];
      assert p[..1] == ['0'] && DigitsValue(['0']) == 0;
      assert DigitValue(DigitChar(r)) == r;
    } else {
      NatToStringRoundTrip(r);
    }
  }

  /** A non-negative time is shown as minutes, a colon and two digits of seconds. */
  lemma FormatTimeShape(seconds: nat)
    ensures FormatTime(seconds) == NatToString(seconds / 60) + ":" + PadTwo(NatToString(seconds % 60))
    ensures |PadTwo(NatToString(seconds % 60))| == 2
  {
    SecondsField(seconds % 60);
  }

  /** "m:ss" with digit minutes worth `a` and two digits of seconds worth `b < 60` parses to 60 * a + b. */
  lemma ParseJoined(m: string, ss: string, a: nat, b: nat)
    requires |m| >= 1 && AllDigits(m) && DigitsValue(m) == a
    requires |ss| == 2 && AllDigits(ss) && DigitsValue(ss) == b && b < 60
    ensures ParseTime(m + ":" + ss) == Some(60 * a + b)
  {
    var t := m + ":" + ss;
    assert |t| == |m| + 3;
    assert t[|t| - 3] == ':';
    assert t[..|t| - 3] == m;
    assert t[|t| - 2..] == ss;
    assert ParseTime(t) == Some(60 * DigitsValue(m) + DigitsValue(ss));
  }

  /** The shown form of a non-negative time reads back as that time. */
  lemma ParseShown(seconds: nat)
    ensures ParseTime(NatToString(seconds / 60) + ":" + PadTwo(NatToString(seconds % 60))) == Some(seconds)
  {
    var q, r := seconds / 60, seconds % 60;
    assert 60 * q + r == seconds;
    SecondsField(r);
    NatToStringRoundTrip(q);
    ParseJoined(NatToString(q), PadTwo(NatToString(r)), q, r);
  }

  /** `formatTime` loses nothing on non-negative input: the seconds can be read back. */
  lemma FormatTimeRoundTrip(seconds: nat)
    ensures ParseTime(FormatTime(seconds)) == Some(seconds)
  {
    FormatTimeShape(seconds);
    ParseShown(seconds);
  }
}
