/** `formatToYYYYMMDD` of the delivery cell component: the calendar date in
    the extended format of ISO 8601 (`YYYY-MM-DD`), and the parse that undoes
    it. */
module DateFormat {
  import opened Dates
  import opened Wrappers

  predicate IsDigit(c: char) {
    '0' <= c <= '9'
  }

  predicate AllDigits(s: string) {
    forall i :: 0 <= i < |s| ==> IsDigit(s[i])
  }

  function DigitChar(n: int): (c: char)
    requires 0 <= n < 10
    ensures IsDigit(c) && (c as int) - ('0' as int) == n
  {
    ('0' as int + n) as char
  }

  function Pow10(k: nat): (p: nat)
    ensures p >= 1
  {
    if k == 0 then 1 else 10 * Pow10(k - 1)
  }

  /** `String(n)` for a non-negative integer: its decimal digits, most
      significant first, without leading zeros. */
  function NatToString(n: nat): (s: string)
    ensures 1 <= |s| && AllDigits(s)
    ensures n >= 10 ==> s[0] != '0'
  {
    if n < 10 then [DigitChar(n)] else NatToString(n / 10) + [DigitChar(n % 10)]
  }

  /** The value of a string of decimal digits (leading zeros allowed). */
  function ParseNat(s: string): nat
    requires AllDigits(s)
  {
    if s == [] then 0 else 10 * ParseNat(s[..|s| - 1]) + ((s[|s| - 1] as int) - ('0' as int))
  }

  lemma {:induction false} ParseNatToString(n: nat)
    ensures ParseNat(NatToString(n)) == n
  {
    if n >= 10 {
      var s := NatToString(n);
      assert s[..|s| - 1] == NatToString(n / 10);
      ParseNatToString(n / 10);
    }
  }

  /** A decimal number has exactly `k` digits when 10^(k-1) <= n < 10^k. */
  lemma {:induction false} NatToStringLength(n: nat, k: nat)
    requires 1 <= k && Pow10(k - 1) <= n < Pow10(k)
    ensures |NatToString(n)| == k
  {
    if k > 1 {
      NatToStringLength(n / 10, k - 1);
    } else {
      assert n < 10;
    }
  }

  /** A leading '0' does not change the value of a digit string. */
  lemma {:induction false} ParseNatLeadingZero(t: string)
    requires AllDigits(t)
    ensures AllDigits("0" + t) && ParseNat("0" + t) == ParseNat(t)
  {
    if t != [] {
      var s := "0" + t;
      assert s[..|s| - 1] == "0" + t[..|t| - 1];
      ParseNatLeadingZero(t[..|t| - 1]);
    }
  }

  /** `String(year)`: a minus sign in front of negative years. */
  function YearString(year: int): string {
    if year >= 0 then NatToString(year) else "-" + NatToString(-year)
  }

  /** `padStart(2, '0')`. */
  function PadStart2(s: string): (r: string)
    ensures |r| == if |s| < 2 then 2 else |s|
    ensures r[|r| - |s|..] == s && forall i :: 0 <= i < |r| - |s| ==> r[i] == '0'
  {
    if |s| == 0 then "00" else if |s| == 1 then "0" + s else s
  }

  /** `formatToYYYYMMDD`: year, '-', 1-based month padded to two digits,
      '-', day padded to two digits. */
  function FormatYYYYMMDD(d: Date): string
    requires ValidDate(d)
  {
    YearString(d.year) + "-" + PadStart2(NatToString(d.month0 + 1)) + "-" + PadStart2(NatToString(d.day))
  }

  /** Reads a `YYYY-MM-DD` string back into a date. */
  function ParseYYYYMMDD(s: string): Option<Date> {
    if |s| == 10 && s[4] == '-' && s[7] == '-'
       && AllDigits(s[..4]) && AllDigits(s[5..7]) && AllDigits(s[8..])
    then Some(Date(ParseNat(s[..4]), ParseNat(s[5..7]) - 1, ParseNat(s[8..])))
    else None
  }

  /** A one- or two-digit number padded to two characters reads back as itself. */
  lemma PaddedTwoDigits(n: nat)
    requires 1 <= n < 100
    ensures |PadStart2(NatToString(n))| == 2 && AllDigits(PadStart2(NatToString(n)))
    ensures ParseNat(PadStart2(NatToString(n))) == n
  {
    ParseNatToString(n);
    if n < 10 {
      NatToStringLength(n, 1);
      ParseNatLeadingZero(NatToString(n));
    } else {
      NatToStringLength(n, 2);
    }
  }

  /** Splitting a `YYYY-MM-DD` string at its fixed positions. */
  lemma {:induction false} ParseFields(y: string, m: string, dd: string)
    requires |y| == 4 && |m| == 2 && |dd| == 2
    requires AllDigits(y) && AllDigits(m) && AllDigits(dd)
    ensures ParseYYYYMMDD(y + "-" + m + "-" + dd) == Some(Date(ParseNat(y), ParseNat(m) - 1, ParseNat(dd)))
  {
    var s := y + "-" + m + "-" + dd;
    assert s[..4] == y && s[5..7] == m && s[8..] == dd;
  }

  /** For four-digit years the formatted string is the ISO 8601 extended
      calendar date: ten characters, '-' at positions 4 and 7, and parsing it
      gives back the date. */
  lemma {:induction false} FormatRoundTrip(d: Date)
    requires ValidDate(d) && 1000 <= d.year <= 9999
    ensures var s := FormatYYYYMMDD(d);
            |s| == 10 && s[4] == '-' && s[7] == '-' && ParseYYYYMMDD(s) == Some(d)
  {
    var y := NatToString(d.year);
    var m := PadStart2(NatToString(d.month0 + 1));
    var dd := PadStart2(NatToString(d.day));
    assert Pow10(3) == 1000 && Pow10(4) == 10000;
    NatToStringLength(d.year, 4);
    ParseNatToString(d.year);
    PaddedTwoDigits(d.month0 + 1);
    PaddedTwoDigits(d.day);
    ParseFields(y, m, dd);
    assert FormatYYYYMMDD(d) == y + "-" + m + "-" + dd;
  }
}
