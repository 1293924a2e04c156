/** The name of the screenshot file: the user's override, or
    `screenshot_<ip>_<date-time>.<format>` with the local time written as
    `date_time()` does. */
module Naming {
  import opened Wrappers

  /** The fields of `struct tm` that `date_time` prints: years since 1900,
      months since January, day of the month, hours, minutes, seconds. */
  datatype Tm = Tm(year: int, mon: int, mday: int, hour: int, min: int, sec: int)

  /** The ranges `localtime` keeps its fields in (a leap second included). */
  predicate ValidTm(tm: Tm)
  {
    0 <= tm.mon <= 11 && 1 <= tm.mday <= 31 && 0 <= tm.hour <= 23 &&
    0 <= tm.min <= 59 && 0 <= tm.sec <= 60
  }

  function DigitChar(d: nat): (c: char)
    requires d < 10
    ensures '0' <= c <= '9'
  {
    ('0' as int + d) as char
  }

  /** A non-empty run of decimal digits. */
  predicate AllDigits(s: string)
  {
    |s| > 0 && forall i :: 0 <= i < |s| ==> '0' <= s[i] <= '9'
  }

  /** `%d` of a non-negative number: its decimal digits, no leading zeros. */
  function Decimal(n: nat): (s: string)
    ensures AllDigits(s)
    ensures s[0] == '0' ==> n == 0
  {
    if n < 10 then [DigitChar(n)] else Decimal(n / 10) + [DigitChar(n % 10)]
  }

  /** `%d` of any integer: a minus sign before the digits when negative. */
  function SignedDecimal(n: int): string
  {
    if n < 0 then "-" + Decimal(-n) else Decimal(n)
  }

  /** `%02d`: at least two characters, a single digit padded with a zero. */
  function ZeroPad2(n: int): (s: string)
    ensures 0 <= n < 100 ==> |s| == 2
  {
    if 0 <= n < 10 then "0" + Decimal(n)
    else if 10 <= n < 100 then assert Decimal(n / 10) == [DigitChar(n / 10)]; SignedDecimal(n)
    else SignedDecimal(n)
  }

  /** The value of a string of decimal digits. */
  function DigitsValue(s: string): nat
  {
    if s == [] then 0
    else
      var d := s[|s| - 1] as int - '0' as int;
      DigitsValue(s[..|s| - 1]) * 10 + (if 0 <= d < 10 then d else 0)
  }

  /** Reading the digits back gives the number printed. */
  lemma {:induction false} DecimalRoundTrip(n: nat)
    ensures DigitsValue(Decimal(n)) == n
    decreases n
  {
    if n >= 10 {
      DecimalRoundTrip(n / 10);
      var s := Decimal(n);
      assert s[..|s| - 1] == Decimal(n / 10);
    }
  }

  /** A number below one hundred is printed by `%02d` as exactly two digits
      that read back as the number. */
  lemma ZeroPad2RoundTrip(n: int)
    requires 0 <= n < 100
    ensures |ZeroPad2(n)| == 2 && AllDigits(ZeroPad2(n))
    ensures DigitsValue(ZeroPad2(n)) == n
  {
    DecimalRoundTrip(n);
    if n < 10 {
      assert ZeroPad2(n)[..1] == "0";
    } else {
      assert Decimal(n / 10) == [DigitChar(n / 10)];
    }
  }

  /** `date_time()`: "%d-%02d-%02d_%02d:%02d:%02d" of the year, month (from
      one), day, hour, minute and second. */
  function DateTime(tm: Tm): (s: string)
    ensures var year := SignedDecimal(tm.year + 1900);
      |year| <= |s| && s[..|year|] == year
    ensures ValidTm(tm) ==> |s| == |SignedDecimal(tm.year + 1900)| + 15
  {
    SignedDecimal(tm.year + 1900) + "-" + ZeroPad2(tm.mon + 1) + "-" + ZeroPad2(tm.mday) + "_" +
    ZeroPad2(tm.hour) + ":" + ZeroPad2(tm.min) + ":" + ZeroPad2(tm.sec)
  }

  /** The positions of the pieces in a `date_time` string: a year of `n`
      characters, then five two-character fields with one separator before
      each. */
  lemma DateTimePieces(s: string, y: string, mo: string, d: string, h: string, mi: string, se: string)
    requires |mo| == |d| == |h| == |mi| == |se| == 2
    requires s == y + "-" + mo + "-" + d + "_" + h + ":" + mi + ":" + se
    ensures var n := |y|;
      |s| == n + 15 && s[..n] == y &&
      s[n] == '-' && s[n + 1 .. n + 3] == mo &&
      s[n + 3] == '-' && s[n + 4 .. n + 6] == d &&
      s[n + 6] == '_' && s[n + 7 .. n + 9] == h &&
      s[n + 9] == ':' && s[n + 10 .. n + 12] == mi &&
      s[n + 12] == ':' && s[n + 13 .. n + 15] == se
  {
    var n := |y|;
    var p1 := y + "-";
    var p2 := p1 + mo;
    var p3 := p2 + "-";
    var p4 := p3 + d;
    var p5 := p4 + "_";
    var p6 := p5 + h;
    var p7 := p6 + ":";
    var p8 := p7 + mi;
    var p9 := p8 + ":";
    assert s == p9 + se;
    assert s[n + 13 .. n + 15] == se;
    assert s[..|p9|] == p9;
    assert p9[..|p8|] == p8 && p9[n + 12] == ':';
    assert p8[..|p7|] == p7 && p8[n + 10 .. n + 12] == mi;
    assert p7[..|p6|] == p6 && p7[n + 9] == ':';
    assert p6[..|p5|] == p5 && p6[n + 7 .. n + 9] == h;
    assert p5[..|p4|] == p4 && p5[n + 6] == '_';
    assert p4[..|p3|] == p3 && p4[n + 4 .. n + 6] == d;
    assert p3[..|p2|] == p2 && p3[n + 3] == '-';
    assert p2[..|p1|] == p1 && p2[n + 1 .. n + 3] == mo;
    assert p1[..n] == y && p1[n] == '-';
    PrefixChain(s, [p9, p8, p7, p6, p5, p4, p3, p2, p1, y]);
  }

  /** Each string a prefix of the one before it, the first a prefix of
      `s`: then all are prefixes of `s`. */
  lemma {:induction false} PrefixChain(s: string, ps: seq<string>)
    requires |ps| > 0 && |ps[0]| <= |s| && s[..|ps[0]|] == ps[0]
    requires forall k :: 0 < k < |ps| ==> |ps[k]| <= |ps[k - 1]| && ps[k - 1][..|ps[k]|] == ps[k]
    ensures forall k :: 0 <= k < |ps| ==> |ps[k]| <= |s| && s[..|ps[k]|] == ps[k]
    decreases |ps|
  {
    if |ps| > 1 {
      var t := ps[1..];
      assert s[..|t[0]|] == s[..|ps[0]|][..|t[0]|];
      PrefixChain(s, t);
      assert forall k :: 1 <= k < |ps| ==> ps[k] == t[k - 1];
    }
  }

  /** The layout of `date_time()` for a time `localtime` produces in a
      year from 0 on: the year takes the first `n` characters, then each
      two-digit field follows its separator at a fixed offset. */
  lemma DateTimeLayout(tm: Tm)
    requires ValidTm(tm) && tm.year + 1900 >= 0
    ensures var s := DateTime(tm);
      var n := |Decimal(tm.year + 1900)|;
      |s| == n + 15 && s[..n] == Decimal(tm.year + 1900) &&
      s[n] == '-' && s[n + 1 .. n + 3] == ZeroPad2(tm.mon + 1) &&
      s[n + 3] == '-' && s[n + 4 .. n + 6] == ZeroPad2(tm.mday) &&
      s[n + 6] == '_' && s[n + 7 .. n + 9] == ZeroPad2(tm.hour) &&
      s[n + 9] == ':' && s[n + 10 .. n + 12] == ZeroPad2(tm.min) &&
      s[n + 12] == ':' && s[n + 13 .. n + 15] == ZeroPad2(tm.sec)
  {
    var mo, d, h, mi, se := ZeroPad2(tm.mon + 1), ZeroPad2(tm.mday), ZeroPad2(tm.hour), ZeroPad2(tm.min), ZeroPad2(tm.sec);
    assert |mo| == |d| == |h| == |mi| == |se| == 2;
    DateTimePieces(DateTime(tm), Decimal(tm.year + 1900), mo, d, h, mi, se);
  }

  /** Every field of the time can be read back from its place in the
      `date_time()` string. */
  lemma DateTimeFields(tm: Tm)
    requires ValidTm(tm) && tm.year + 1900 >= 0
    ensures var s := DateTime(tm);
      var n := |Decimal(tm.year + 1900)|;
      |s| == n + 15 &&
      AllDigits(s[..n]) && (s[0] == '0' ==> tm.year + 1900 == 0) &&
      AllDigits(s[n + 1 .. n + 3]) && AllDigits(s[n + 4 .. n + 6]) && AllDigits(s[n + 7 .. n + 9]) &&
      AllDigits(s[n + 10 .. n + 12]) && AllDigits(s[n + 13 .. n + 15]) &&
      DigitsValue(s[..n]) == tm.year + 1900 &&
      DigitsValue(s[n + 1 .. n + 3]) == tm.mon + 1 &&
      DigitsValue(s[n + 4 .. n + 6]) == tm.mday &&
      DigitsValue(s[n + 7 .. n + 9]) == tm.hour &&
      DigitsValue(s[n + 10 .. n + 12]) == tm.min &&
      DigitsValue(s[n + 13 .. n + 15]) == tm.sec
  {
    DateTimeLayout(tm);
    DecimalRoundTrip(tm.year + 1900);
    ZeroPad2RoundTrip(tm.mon + 1);
    ZeroPad2RoundTrip(tm.mday);
    ZeroPad2RoundTrip(tm.hour);
    ZeroPad2RoundTrip(tm.min);
    ZeroPad2RoundTrip(tm.sec);
  }

  /** The automatically generated screenshot file name. */
  function AutomaticFilename(ip: string, dateTime: string, format: string): (name: string)
    ensures |name| == 13 + |ip| + |dateTime| + |format|
    ensures name[..11] == "screenshot_" && name[11 .. 11 + |ip|] == ip && name[11 + |ip|] == '_'
    ensures name[|name| - |format| - 1] == '.' && name[|name| - |format|..] == format
  {
    "screenshot_" + ip + "_" + dateTime + "." + format
  }

  /** The position of the first `c` in `s`, or `|s|` if there is none. */
  function FirstIndex(s: string, c: char): (i: nat)
    ensures i <= |s| && c !in s[..i]
    ensures i < |s| ==> s[i] == c
  {
    if s == [] then 0 else if s[0] == c then 0 else 1 + FirstIndex(s[1..], c)
  }

  /** The position of the last `c` in `s`, or `|s|` if there is none. */
  function LastIndex(s: string, c: char): (i: nat)
    ensures i <= |s|
    ensures i < |s| ==> s[i] == c && c !in s[i + 1..]
    ensures i == |s| ==> c !in s
  {
    if s == [] then 0
    else if s[|s| - 1] == c then |s| - 1
    else
      var j := LastIndex(s[..|s| - 1], c);
      if j == |s| - 1 then |s| else j
  }

  /** Splits an automatic file name back into address, date-time and
      format: the address runs up to the first underscore after the prefix,
      the format follows the last dot. */
  function SplitAutomaticFilename(name: string): Option<(string, string, string)>
  {
    if |name| < 11 || name[..11] != "screenshot_" then None
    else SplitFields(name[11..])
  }

  /** `<ip>_<date-time>.<format>` split at its first underscore and its last
      dot. */
  function SplitFields(rest: string): Option<(string, string, string)>
  {
    var u := FirstIndex(rest, '_');
    var d := LastIndex(rest, '.');
    if u < d && d < |rest| then Some((rest[..u], rest[u + 1 .. d], rest[d + 1..]))
    else None
  }

  lemma {:induction false} FirstIndexAt(a: string, c: char, b: string)
    requires c !in a
    ensures FirstIndex(a + [c] + b, c) == |a|
    decreases |a|
  {
    if a != [] {
      assert (a + [c] + b)[1..] == a[1..] + [c] + b;
      FirstIndexAt(a[1..], c, b);
    }
  }

  lemma {:induction false} LastIndexAt(a: string, c: char, b: string)
    requires c !in b
    ensures LastIndex(a + [c] + b, c) == |a|
    decreases |b|
  {
    var s := a + [c] + b;
    if b != [] {
      var b0 := b[..|b| - 1];
      assert s[..|s| - 1] == a + [c] + b0;
      LastIndexAt(a, c, b0);
    }
  }

  lemma SplitFieldsOf(ip: string, dateTime: string, format: string)
    requires '_' !in ip && '.' !in dateTime && '.' !in format
    ensures SplitFields(ip + "_" + dateTime + "." + format) == Some((ip, dateTime, format))
  {
    var rest := ip + "_" + dateTime + "." + format;
    var u, d := |ip|, |ip| + 1 + |dateTime|;
    assert FirstIndex(rest, '_') == u by {
      assert rest == ip + ['_'] + (dateTime + "." + format);
      FirstIndexAt(ip, '_', dateTime + "." + format);
    }
    assert LastIndex(rest, '.') == d by {
      assert rest == (ip + "_" + dateTime) + ['.'] + format;
      LastIndexAt(ip + "_" + dateTime, '.', format);
    }
    assert rest[..u] == ip;
    assert rest[u + 1 .. d] == dateTime;
    assert rest[d + 1..] == format;
  }

  /** The automatic name determines the address, the date-time and the
      format it was made from, as long as the address has no underscore and
      neither the date-time nor the format has a dot. */
  lemma AutomaticFilenameSplits(ip: string, dateTime: string, format: string)
    requires '_' !in ip && '.' !in dateTime && '.' !in format
    ensures SplitAutomaticFilename(AutomaticFilename(ip, dateTime, format)) == Some((ip, dateTime, format))
  {
    var rest := ip + "_" + dateTime + "." + format;
    var name := AutomaticFilename(ip, dateTime, format);
    assert name == "screenshot_" + rest;
    assert name[..11] == "screenshot_" && name[11..] == rest;
    SplitFieldsOf(ip, dateTime, format);
  }

  lemma SignedDecimalHasNoDot(n: int)
    ensures '.' !in SignedDecimal(n)
  {
    var digits := Decimal(if n < 0 then -n else n);
    assert forall i :: 0 <= i < |digits| ==> digits[i] != '.';
  }

  /** The date-time part never contains a dot, so the split above applies
      to every name the tool generates. */
  lemma DateTimeHasNoDot(tm: Tm)
    ensures '.' !in DateTime(tm)
  {
    SignedDecimalHasNoDot(tm.year + 1900);
    var fields := [tm.mon + 1, tm.mday, tm.hour, tm.min, tm.sec];
    forall k | 0 <= k < 5 ensures '.' !in ZeroPad2(fields[k]) {
      SignedDecimalHasNoDot(fields[k]);
      if 0 <= fields[k] < 10 {
        assert Decimal(fields[k]) == [DigitChar(fields[k])];
      }
    }
    assert '.' !in ZeroPad2(fields[0]) && '.' !in ZeroPad2(fields[1]) && '.' !in ZeroPad2(fields[2]);
    assert '.' !in ZeroPad2(fields[3]) && '.' !in ZeroPad2(fields[4]);
  }

  /** The file name resolution of `screenshot_file_dump` followed by
      `fopen`: the override when it is not empty, the automatic name
      otherwise; a file that cannot be opened for writing is an error. */
  function FileDump(override: string, ip: string, now: Tm, format: string, canOpen: string -> bool)
    : (r: Result<string, Failure>)
    ensures r.Ok? ==> canOpen(r.value)
    ensures r.Err? ==> r.error == CannotWriteFile
    ensures |override| > 0 ==> r == (if canOpen(override) then Ok(override) else Err(CannotWriteFile))
    ensures |override| == 0 ==> r == (if canOpen(AutomaticFilename(ip, DateTime(now), format))
                                      then Ok(AutomaticFilename(ip, DateTime(now), format))
                                      else Err(CannotWriteFile))
  {
    var name := if |override| == 0 then AutomaticFilename(ip, DateTime(now), format) else override;
    if canOpen(name) then Ok(name) else Err(CannotWriteFile)
  }
}
