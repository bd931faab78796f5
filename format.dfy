/**
 * How the client renders its counters (app.js): `formatSeconds` as
 * HH:MM:SS built from `String(n)` and `padStart(2, '0')`, and points shown
 * rounded down.
 */
module Format {

  predicate IsDigit(c: char) {
    '0' <= c <= '9'
  }

  predicate AllDigits(s: string) {
    forall i :: 0 <= i < |s| ==> IsDigit(s[i])
  }

  function DigitChar(d: nat): (c: char)
    requires d < 10
    ensures IsDigit(c) && c as int - '0' as int == d
  {
    ('0' as int + d) as char
  }

  /** The decimal digits of `n`, without leading zeros: `String(n)` for a non-negative integer. */
  function Digits(n: nat): (s: string)
    ensures 1 <= |s| && AllDigits(s)
    ensures n < 10 <==> |s| == 1
    ensures n < 100 ==> |s| <= 2
    decreases n
  {
    if n < 10 then [DigitChar(n)] else Digits(n / 10) + [DigitChar(n % 10)]
  }

  /** The value of a string of decimal digits: the inverse of `Digits`. */
  function ValueOf(s: string): nat
    requires AllDigits(s)
    decreases |s|
  {
    if s == [] then 0 else ValueOf(s[..|s| - 1]) * 10 + (s[|s| - 1] as int - '0' as int)
  }

  lemma {:induction false} ValueOfDigits(n: nat)
    ensures ValueOf(Digits(n)) == n
    decreases n
  {
    if n >= 10 {
      var s := Digits(n);
      assert s[..|s| - 1] == Digits(n / 10);
      ValueOfDigits(n / 10);
    }
  }

  /** `String(n)` for an integer: a minus sign for a negative one, then the digits of its magnitude. */
  function NumberString(n: int): (s: string)
  {
    if n < 0 then "-" + Digits(-n) else Digits(n)
  }

  /** `s.padStart(2, '0')`: at least two characters, ending with `s`. */
  function PadStart2(s: string): (r: string)
    ensures |r| == if |s| >= 2 then |s| else 2
  {
    if |s| >= 2 then s else if |s| == 1 then "0" + s else "00"
  }

  /** `String(n)` reads back as `n`: its digits for a non-negative `n`, a minus sign and the digits of `-n` otherwise. */
  lemma NumberStringReadsBack(n: int)
    ensures var s := NumberString(n);
      && (0 <= n ==> AllDigits(s) && ValueOf(s) == n)
      && (n < 0 ==> |s| >= 2 && s[0] == '-' && AllDigits(s[1..]) && ValueOf(s[1..]) == -n)
  {
    if n < 0 {
      ValueOfDigits(-n);
      assert NumberString(n)[1..] == Digits(-n);
    } else {
      ValueOfDigits(n);
    }
  }

  /** Padding only puts '0' characters in front: the result ends with `s`. */
  lemma PadStart2Pads(s: string)
    ensures var r := PadStart2(s);
      && r[|r| - |s|..] == s
      && forall i :: 0 <= i < |r| - |s| ==> r[i] == '0'
  {
  }

  /**
   * JavaScript's `a % b` for a positive divisor: the remainder takes the
   * sign of `a` and is smaller than `b` in size. For a non-negative `a` it
   * is Dafny's `%`; for a negative one, the negated remainder of `-a`.
   */
  function JsRem(a: int, b: int): (r: int)
    requires b > 0
    ensures 0 <= a ==> 0 <= r < b && r == a % b
    ensures a < 0 ==> -b < r <= 0 && r == -((-a) % b)
  {
    if a >= 0 then a % b else -((-a) % b)
  }

  /**
   * `formatSeconds(seconds)`. `Math.floor(x / 60)` is Dafny's `x / 60`, which
   * rounds down for a positive divisor; `%` is JavaScript's.
   */
  function FormatSeconds(seconds: int): (r: string)
    // three fields separated by ':', the last two of two characters each
    ensures 0 <= seconds ==> 8 <= |r|
  {
    var s := JsRem(seconds, 60);
    var m := JsRem(seconds / 60, 60);
    var h := seconds / 3600;
    PadStart2(NumberString(h)) + ":" + PadStart2(NumberString(m)) + ":" + PadStart2(NumberString(s))
  }

  /** A padded field of a value below 100 is exactly two digits and reads back as the value. */
  lemma TwoDigitField(n: nat)
    requires n < 100
    ensures var f := PadStart2(NumberString(n)); |f| == 2 && AllDigits(f) && ValueOf(f) == n
  {
    ValueOfDigits(n);
    var d := Digits(n);
    if n >= 10 {
      assert d[..|d| - 1] == Digits(n / 10);
      assert |d| == 2;
    } else {
      var f := "0" + d;
      assert f[..1] == "0";
    }
  }

  /** The hours field has at least two digits and reads back as the hour count. */
  lemma HoursField(n: nat)
    ensures var f := PadStart2(NumberString(n)); |f| >= 2 && AllDigits(f) && ValueOf(f) == n
  {
    if n < 100 {
      TwoDigitField(n);
    } else {
      ValueOfDigits(n);
    }
  }

  lemma ClockArithmetic(n: nat)
    ensures (n / 3600) * 3600 + ((n / 60) % 60) * 60 + n % 60 == n
  {
    var q := n / 60;
    assert n == q * 60 + n % 60;
    assert q == (q / 60) * 60 + q % 60;
    assert n == (q / 60) * 3600 + (q % 60) * 60 + n % 60;
    assert n / 3600 == q / 60;
  }

  /**
   * For every non-negative count of seconds, `formatSeconds` yields
   * HH:MM:SS: minutes and seconds are two digits each and below 60, the
   * hours field has at least two digits, and reading the three fields back
   * gives `h * 3600 + m * 60 + s == seconds`.
   */
  lemma FormatSecondsReadsBack(seconds: nat)
    ensures var r := FormatSeconds(seconds);
      && |r| >= 8 && r[|r| - 6] == ':' && r[|r| - 3] == ':'
      && AllDigits(r[..|r| - 6]) && AllDigits(r[|r| - 5..|r| - 3]) && AllDigits(r[|r| - 2..])
      && ValueOf(r[|r| - 5..|r| - 3]) < 60 && ValueOf(r[|r| - 2..]) < 60
      && ValueOf(r[..|r| - 6]) * 3600 + ValueOf(r[|r| - 5..|r| - 3]) * 60 + ValueOf(r[|r| - 2..]) == seconds
  {
    var s, m, h := seconds % 60, (seconds / 60) % 60, seconds / 3600;
    var hh, mm, ss := PadStart2(NumberString(h)), PadStart2(NumberString(m)), PadStart2(NumberString(s));
    HoursField(h);
    TwoDigitField(m);
    TwoDigitField(s);
    ClockArithmetic(seconds);
    var r := FormatSeconds(seconds);
    assert r == hh + ":" + mm + ":" + ss;
    assert r[..|r| - 6] == hh;
    assert r[|r| - 5..|r| - 3] == mm;
    assert r[|r| - 2..] == ss;
  }

  /** An hour, two minutes and five seconds. */
  lemma FormatSecondsExample()
    ensures FormatSeconds(3725) == "01:02:05"
  {
  }

  /** Points as displayed: `Math.floor(points)`, the largest integer not above them. */
  function DisplayedPoints(points: real): (n: int)
    ensures n as real <= points < n as real + 1.0
  {
    points.Floor
  }
}
