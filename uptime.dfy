/**
 * The uptime text of the node-info endpoint (getUptime and intToStr in
 * cluster-manager/main.go), over integer seconds. intToStr builds exactly two
 * characters, `'0' + n/10` and `'0' + n%10`, each converted to a rune, and
 * drops one leading "0"; it is the decimal form only for 0..99. Strings are
 * sequences of Unicode code points here, which is what the Go byte strings
 * decode to.
 */
module Uptime {
  import opened Wrappers

  // ---------------------------------------------------------------------
  // Go integer and string primitives

  /** Go's `/` on int truncates toward zero. */
  function GoDiv(a: int, b: int): int
    requires b > 0
  {
    if a >= 0 then a / b else -((-a) / b)
  }

  /** Go's `%` on int takes the sign of the dividend. */
  function GoRem(a: int, b: int): int
    requires b > 0
  {
    a - GoDiv(a, b) * b
  }

  /** The conversion to rune (int32) keeps the low 32 bits, as a signed value. */
  function ToInt32(x: int): int
  {
    var r := x % 0x1_0000_0000;
    if r >= 0x8000_0000 then r - 0x1_0000_0000 else r
  }

  predicate IsScalar(x: int)
  {
    0 <= x < 0xD800 || 0xE000 <= x < 0x11_0000
  }

  const ReplacementChar: char := 0xFFFD as char

  /** `string(rune(x))`: the code point, or U+FFFD when it is not a valid one. */
  function RuneString(x: int): (s: string)
    ensures |s| == 1
  {
    var r := ToInt32(x);
    if IsScalar(r) then [r as char] else [ReplacementChar]
  }

  /** strings.TrimPrefix. */
  function TrimPrefix(s: string, prefix: string): string
  {
    if |prefix| <= |s| && s[..|prefix|] == prefix then s[|prefix|..] else s
  }

  /** The characters unicode.IsSpace accepts, which strings.TrimSpace removes. */
  predicate IsGoSpace(c: char)
  {
    var x := c as int;
    || x == 0x09 || x == 0x0A || x == 0x0B || x == 0x0C || x == 0x0D || x == 0x20
    || x == 0x85 || x == 0xA0 || x == 0x1680 || (0x2000 <= x <= 0x200A)
    || x == 0x2028 || x == 0x2029 || x == 0x202F || x == 0x205F || x == 0x3000
  }

  /** The string without its leading white space. */
  function TrimLeft(s: string): (r: string)
    ensures |r| <= |s| && r == s[|s| - |r|..]
    ensures r == [] || !IsGoSpace(r[0])
    ensures forall k :: 0 <= k < |s| - |r| ==> IsGoSpace(s[k])
  {
    if s != [] && IsGoSpace(s[0]) then TrimLeft(s[1..]) else s
  }

  /** The string without its trailing white space. */
  function TrimRight(s: string): (r: string)
    ensures |r| <= |s| && r == s[..|r|]
    ensures r == [] || !IsGoSpace(r[|r| - 1])
    ensures forall k :: |r| <= k < |s| ==> IsGoSpace(s[k])
  {
    if s != [] && IsGoSpace(s[|s| - 1]) then TrimRight(s[..|s| - 1]) else s
  }

  /** strings.TrimSpace. */
  function TrimSpace(s: string): string
  {
    TrimRight(TrimLeft(s))
  }

  /** strings.Join with a single space. */
  function JoinSpace(parts: seq<string>): string
  {
    if parts == [] then ""
    else if |parts| == 1 then parts[0]
    else parts[0] + " " + JoinSpace(parts[1..])
  }

  // ---------------------------------------------------------------------
  // intToStr

  /**
   * intToStr as written: two runes, then one leading "0" removed. The text is
   * one or two characters long, and for a natural number its last character
   * is the number's last decimal digit.
   */
  function IntToStr(n: int): (r: string)
    ensures 1 <= |r| <= 2
    ensures n >= 0 ==> r[|r| - 1] == DigitChar(n % 10)
  {
    var lo := RuneString('0' as int + GoRem(n, 10));
    assert n >= 0 ==> lo == [DigitChar(n % 10)];
    TrimPrefix(TrimPrefix(RuneString('0' as int + GoDiv(n, 10)) + lo, "0"), "")
  }

  predicate IsDigitChar(c: char)
  {
    '0' <= c <= '9'
  }

  function DigitChar(d: int): (c: char)
    requires 0 <= d <= 9
    ensures IsDigitChar(c)
  {
    ('0' as int + d) as char
  }

  /** The usual decimal form of a natural number. */
  function Decimal(n: nat): (s: string)
    ensures |s| >= 1
    ensures forall k :: 0 <= k < |s| ==> IsDigitChar(s[k])
  {
    if n < 10 then [DigitChar(n)] else Decimal(n / 10) + [DigitChar(n % 10)]
  }

  /** The value of a string of decimal digits. */
  function DecimalValue(s: string): nat
    requires forall k :: 0 <= k < |s| ==> IsDigitChar(s[k])
  {
    if s == [] then 0
    else
      assert IsDigitChar(s[|s| - 1]);
      DecimalValue(s[..|s| - 1]) * 10 + (s[|s| - 1] as int - '0' as int)
  }

  lemma {:induction false} DecimalRoundTrip(n: nat)
    ensures DecimalValue(Decimal(n)) == n
    ensures |Decimal(n)| == 1 || Decimal(n)[0] != '0'
  {
    if n >= 10 {
      DecimalRoundTrip(n / 10);
      var s := Decimal(n);
      assert s[..|s| - 1] == Decimal(n / 10);
      assert s[0] == Decimal(n / 10)[0];
    }
  }

  /**
   * For 0..99 intToStr is the decimal form, so it reads back as n and has no
   * leading zero; 0 gives "0".
   */
  lemma IntToStrSmall(n: int)
    requires 0 <= n <= 99
    ensures IntToStr(n) == Decimal(n)
    ensures DecimalValue(IntToStr(n)) == n
    ensures |IntToStr(n)| == 1 || IntToStr(n)[0] != '0'
    ensures n == 0 ==> IntToStr(n) == "0"
  {
    if n < 10 {
      IntToStrOneDigit(n);
    } else {
      IntToStrTwoDigits(n);
    }
    DecimalRoundTrip(n);
  }

  /** A digit value converts to the rune of that digit. */
  lemma RuneOfDigit(d: int)
    requires 0 <= d <= 9
    ensures RuneString('0' as int + d) == [DigitChar(d)]
  {
    assert ToInt32('0' as int + d) == '0' as int + d;
  }

  /** TrimPrefix with the empty prefix changes nothing. */
  lemma TrimEmptyPrefix(s: string)
    ensures TrimPrefix(s, "") == s
  {
    assert s[..0] == "";
  }

  /** Below 10 the leading "0" is the one TrimPrefix removes. */
  lemma IntToStrOneDigit(n: int)
    requires 0 <= n <= 9
    ensures IntToStr(n) == [DigitChar(n)]
  {
    RuneOfDigit(0);
    RuneOfDigit(n);
    var hi, lo := [DigitChar(0)], [DigitChar(n)];
    assert (hi + lo)[..1] == "0";
    assert TrimPrefix(hi + lo, "0") == lo;
    TrimEmptyPrefix(lo);
  }

  /** From 10 to 99 both runes are digits and the first is not "0". */
  lemma IntToStrTwoDigits(n: int)
    requires 10 <= n <= 99
    ensures IntToStr(n) == Decimal(n)
  {
    RuneOfDigit(n / 10);
    RuneOfDigit(n % 10);
    var hi, lo := [DigitChar(n / 10)], [DigitChar(n % 10)];
    assert (hi + lo)[..1] != "0" by {
      assert (hi + lo)[0] == DigitChar(n / 10) != '0';
    }
    TrimEmptyPrefix(hi + lo);
    assert Decimal(n) == Decimal(n / 10) + [DigitChar(n % 10)];
  }

  /**
   * From 100 on, the first character is not a digit: it is the code point
   * '0' + n/10 (':' for 100..109) or U+FFFD, and the second is the last
   * digit of n.
   */
  lemma IntToStrLarge(n: int)
    requires 100 <= n && GoDiv(n, 10) < 0x8000_0000 - '0' as int
    ensures |IntToStr(n)| == 2
    ensures !IsDigitChar(IntToStr(n)[0])
    ensures IntToStr(n)[1] == DigitChar(n % 10)
    ensures n < 110 ==> IntToStr(n)[0] == ':'
  {
    var r := '0' as int + GoDiv(n, 10);
    assert ToInt32(r) == r;
    var hi := RuneString(r);
    assert hi[0] != '0';
    assert (hi + RuneString('0' as int + GoRem(n, 10)))[..1] != "0";
  }

  // ---------------------------------------------------------------------
  // getUptime

  /** The broken-down uptime: whole days, and the hours and minutes within them. */
  datatype Breakdown = Breakdown(days: nat, hours: nat, mins: nat)

  /** getUptime's arithmetic on integer seconds: total hours split into days and hours, total minutes mod 60. */
  function BreakDown(secs: nat): (b: Breakdown)
    ensures b.hours < 24 && b.mins < 60
  {
    var totalHours := secs / 3600;
    var totalMinutes := secs / 60;
    Breakdown(totalHours / 24, totalHours % 24, totalMinutes % 60)
  }

  /** The parts are in range and add up to the uptime rounded down to whole minutes. */
  lemma BreakDownExact(secs: nat)
    ensures BreakDown(secs).hours < 24 && BreakDown(secs).mins < 60
    ensures var b := BreakDown(secs);
      var whole := b.days * 86400 + b.hours * 3600 + b.mins * 60;
      whole <= secs < whole + 60
  {
    var b := BreakDown(secs);
    var th := secs / 3600;
    var tm := secs / 60;
    assert secs == th * 3600 + secs % 3600;
    assert th == b.days * 24 + b.hours;
    assert secs % 3600 < 3600;
    var r := secs % 3600;
    assert tm == th * 60 + r / 60 by {
      assert secs == (th * 60 + r / 60) * 60 + r % 60;
    }
    assert r / 60 < 60;
    assert b.mins == r / 60 by {
      assert tm == th * 60 + r / 60;
      assert (th * 60 + r / 60) % 60 == r / 60;
    }
    assert secs == b.days * 86400 + b.hours * 3600 + b.mins * 60 + r % 60;
  }

  /**
   * getUptime, given what Sysinfo reported (None when the call failed). The
   * text is "unknown" exactly when the call failed; otherwise it ends with
   * the minutes' "m".
   */
  function FormatUptime(uptime: Option<nat>): (r: string)
    ensures uptime.None? <==> r == "unknown"
    ensures uptime.Some? ==> r != [] && r[|r| - 1] == 'm'
  {
    match uptime
    case None => "unknown"
    case Some(secs) => FormatPartsEnd(BreakDown(secs)); FormatParts(BreakDown(secs))
  }

  /** The text for a broken-down uptime always ends with the minutes' "m". */
  lemma FormatPartsEnd(b: Breakdown)
    ensures FormatParts(b) != [] && FormatParts(b)[|FormatParts(b)| - 1] == 'm'
  {
    if b.days > 0 {
      var parts := [IntToStr(b.days) + "d", IntToStr(b.hours) + "h", IntToStr(b.mins) + "m"];
      JoinThree(parts[0], parts[1], parts[2]);
      TrimSpaceLast(JoinSpace(parts));
    }
  }

  /** The text for a broken-down uptime. */
  function FormatParts(b: Breakdown): string
  {
    if b.days > 0 then
      TrimSpace(JoinSpace([IntToStr(b.days) + "d", IntToStr(b.hours) + "h", IntToStr(b.mins) + "m"]))
    else if b.hours > 0 then IntToStr(b.hours) + "h " + IntToStr(b.mins) + "m"
    else IntToStr(b.mins) + "m"
  }

  /** TrimSpace keeps a last character that is not white space. */
  lemma TrimSpaceLast(s: string)
    requires s != [] && !IsGoSpace(s[|s| - 1])
    ensures TrimSpace(s) != [] && TrimSpace(s)[|TrimSpace(s)| - 1] == s[|s| - 1]
  {
    var l := TrimLeft(s);
    assert l != [];
    assert l[|l| - 1] == s[|s| - 1];
    assert TrimRight(l) == l;
  }

  lemma TrimSpaceKeeps(s: string)
    requires s != [] && !IsGoSpace(s[0]) && !IsGoSpace(s[|s| - 1])
    ensures TrimSpace(s) == s
  {
  }

  lemma {:induction false} JoinThree(a: string, b: string, c: string)
    ensures JoinSpace([a, b, c]) == a + " " + b + " " + c
  {
    assert [a, b, c][1..] == [b, c];
    assert [b, c][1..] == [c];
    assert JoinSpace([c]) == c;
    assert JoinSpace([b, c]) == b + " " + c;
    assert JoinSpace([a, b, c]) == a + " " + (b + " " + c);
  }

  /** Joining three parts that start with a digit and end in 'm' leaves nothing for TrimSpace. */
  lemma TrimJoinDigits(x: string, y: string, z: string)
    requires x != [] && IsDigitChar(x[0])
    ensures TrimSpace(JoinSpace([x + "d", y + "h", z + "m"])) == x + "d " + y + "h " + z + "m"
  {
    var d, h, m := x + "d", y + "h", z + "m";
    JoinThree(d, h, m);
    var s := d + " " + h + " " + m;
    assert s[0] == x[0];
    assert s[|s| - 1] == 'm';
    TrimSpaceKeeps(s);
  }

  /** The days form: with at most 99 days every number is decimal and TrimSpace changes nothing. */
  lemma FormatDays(b: Breakdown)
    requires 0 < b.days <= 99 && b.hours < 24 && b.mins < 60
    ensures FormatParts(b) == Decimal(b.days) + "d " + Decimal(b.hours) + "h " + Decimal(b.mins) + "m"
  {
    IntToStrSmall(b.days);
    IntToStrSmall(b.hours);
    IntToStrSmall(b.mins);
    TrimJoinDigits(Decimal(b.days), Decimal(b.hours), Decimal(b.mins));
  }

  /**
   * Below 100 days the text is "Dd Hh Mm" when there are days, "Hh Mm" when
   * there are hours, and "Mm" otherwise, each number in decimal; a failed
   * Sysinfo gives "unknown".
   */
  lemma FormatUptimeShape(secs: nat)
    requires BreakDown(secs).days <= 99
    ensures var b := BreakDown(secs);
      FormatUptime(Some(secs)) ==
        if b.days > 0 then Decimal(b.days) + "d " + Decimal(b.hours) + "h " + Decimal(b.mins) + "m"
        else if b.hours > 0 then Decimal(b.hours) + "h " + Decimal(b.mins) + "m"
        else Decimal(b.mins) + "m"
    ensures FormatUptime(None) == "unknown"
  {
    var b := BreakDown(secs);
    BreakDownExact(secs);
    if b.days > 0 {
      FormatDays(b);
    } else {
      IntToStrSmall(b.hours);
      IntToStrSmall(b.mins);
    }
  }

  lemma IntToStr850()
    ensures IntToStr(850) == [0x85 as char, '0']
  {
    var hi := RuneString('0' as int + GoDiv(850, 10));
    assert hi == [0x85 as char];
    assert RuneString('0' as int + GoRem(850, 10)) == "0";
    assert (hi + "0")[..1] != "0";
  }

  /** One leading white-space character is all TrimSpace removes from a string that starts and ends with something else. */
  lemma TrimOneSpace(c: char, t: string)
    requires IsGoSpace(c) && t != [] && !IsGoSpace(t[0]) && !IsGoSpace(t[|t| - 1])
    ensures TrimSpace([c] + t) == t
  {
    assert ([c] + t)[1..] == t;
    assert TrimLeft([c] + t) == TrimLeft(t) == t;
  }

  /** The three parts for 850 days: the days part starts with U+0085. */
  lemma Parts850()
    ensures FormatParts(Breakdown(850, 0, 0)) == TrimSpace(JoinSpace([[0x85 as char] + "0d", "0h", "0m"]))
  {
    IntToStr850();
    IntToStrOneDigit(0);
    assert DigitChar(0) == '0';
    Parts850Texts(IntToStr(850), IntToStr(0));
  }

  lemma Parts850Texts(d: string, z: string)
    requires d == [0x85 as char, '0'] && z == "0"
    ensures [d + "d", z + "h", z + "m"] == [[0x85 as char] + "0d", "0h", "0m"]
  {
    assert d + "d" == [0x85 as char] + "0d";
    assert z + "h" == "0h";
    assert z + "m" == "0m";
  }

  lemma Join850(c: char)
    ensures JoinSpace([[c] + "0d", "0h", "0m"]) == [c] + "0d 0h 0m"
  {
    JoinThree([c] + "0d", "0h", "0m");
    assert [c] + "0d" + " " + "0h" + " " + "0m" == [c] + ("0d" + " " + "0h" + " " + "0m");
  }

  lemma Format850()
    ensures FormatParts(Breakdown(850, 0, 0)) == "0d 0h 0m"
  {
    Parts850();
    Join850(0x85 as char);
    TrimOneSpace(0x85 as char, "0d 0h 0m");
  }

  /**
   * 850 days of uptime reads "0d 0h 0m": intToStr(850) is U+0085 followed
   * by "0", and TrimSpace removes the U+0085 because Go counts it as white
   * space.
   */
  lemma Uptime850Days()
    ensures IntToStr(850) == [0x85 as char, '0']
    ensures FormatUptime(Some(850 * 86400)) == "0d 0h 0m"
  {
    IntToStr850();
    assert BreakDown(850 * 86400) == Breakdown(850, 0, 0) by {
      assert 850 * 86400 / 3600 == 850 * 24;
      assert 850 * 86400 / 60 == 850 * 1440;
    }
    Format850();
  }
}
