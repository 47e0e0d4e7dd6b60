/**
 * The request date format 'Y-m-d H:i:s' (for example "2025-01-17 09:00:00"):
 * what the DateTime constraint of the event payload accepts, and the value that
 * `DateTime::createFromFormat('Y-m-d H:i:s', …)` yields for it.
 */
module DateTimes {
  import opened Wrappers

  datatype DateTime = DateTime(year: nat, month: nat, day: nat, hour: nat, minute: nat, second: nat)

  predicate IsLeapYear(y: nat) {
    (y % 4 == 0 && y % 100 != 0) || y % 400 == 0
  }

  function DaysInMonth(y: nat, m: nat): (n: nat)
    requires 1 <= m <= 12
    ensures 28 <= n <= 31
  {
    if m == 2 then (if IsLeapYear(y) then 29 else 28)
    else if m == 4 || m == 6 || m == 9 || m == 11 then 30
    else 31
  }

  /** A date that exists on the calendar and a time of day; the parser warns about anything else. */
  predicate ValidDateTime(d: DateTime) {
    && d.year < 10000
    && 1 <= d.month <= 12
    && 1 <= d.day <= DaysInMonth(d.year, d.month)
    && d.hour < 24
    && d.minute < 60
    && d.second < 60
  }

  predicate IsDigit(c: char) {
    '0' <= c <= '9'
  }

  function DigitValue(c: char): (n: nat)
    requires IsDigit(c)
  {
    c as int - '0' as int
  }

  function DigitChar(n: nat): (c: char)
    requires n < 10
  {
    ('0' as int + n) as char
  }

  predicate DigitPairAt(s: string, i: nat)
    requires i + 2 <= |s|
  {
    IsDigit(s[i]) && IsDigit(s[i + 1])
  }

  function PairAt(s: string, i: nat): (n: nat)
    requires i + 2 <= |s| && DigitPairAt(s, i)
  {
    DigitValue(s[i]) * 10 + DigitValue(s[i + 1])
  }

  /** Two digits, zero-padded. */
  function Pad2(n: nat): (r: string)
    requires n < 100
    ensures |r| == 2
  {
    [DigitChar(n / 10), DigitChar(n % 10)]
  }

  /** "YYYY-MM-DD HH:MM:SS": fixed-width digit fields and the separators between them. */
  predicate HasLayout(s: string) {
    && |s| == 19
    && DigitPairAt(s, 0) && DigitPairAt(s, 2) && s[4] == '-'
    && DigitPairAt(s, 5) && s[7] == '-'
    && DigitPairAt(s, 8) && s[10] == ' '
    && DigitPairAt(s, 11) && s[13] == ':'
    && DigitPairAt(s, 14) && s[16] == ':'
    && DigitPairAt(s, 17)
  }

  /** Reads a string in the request format; None when the layout or the date is wrong. */
  function ParseDateTime(s: string): (r: Option<DateTime>)
    ensures r.Some? ==> ValidDateTime(r.value)
    ensures r.Some? ==> HasLayout(s)
  {
    if !HasLayout(s) then None
    else
      var d := DateTime(PairAt(s, 0) * 100 + PairAt(s, 2), PairAt(s, 5), PairAt(s, 8),
                        PairAt(s, 11), PairAt(s, 14), PairAt(s, 17));
      if ValidDateTime(d) then Some(d) else None
  }

  /** The string the date format accepts (the DateTime constraint on startDate/endDate). */
  predicate IsDateTime(s: string) {
    ParseDateTime(s).Some?
  }

  /** Writes a date back in the request format. */
  function FormatDateTime(d: DateTime): (s: string)
    requires ValidDateTime(d)
    ensures |s| == 19
  {
    Pad2(d.year / 100) + Pad2(d.year % 100) + "-" + Pad2(d.month) + "-" + Pad2(d.day)
      + " " + Pad2(d.hour) + ":" + Pad2(d.minute) + ":" + Pad2(d.second)
  }

  lemma PadPair(s: string, i: nat)
    requires i + 2 <= |s| && DigitPairAt(s, i)
    ensures PairAt(s, i) < 100
    ensures Pad2(PairAt(s, i)) == s[i..i + 2]
  {
    var n := PairAt(s, i);
    assert n / 10 == DigitValue(s[i]) && n % 10 == DigitValue(s[i + 1]);
  }

  lemma PairOfPad(n: nat, s: string, i: nat)
    requires n < 100 && i + 2 <= |s| && s[i..i + 2] == Pad2(n)
    ensures DigitPairAt(s, i) && PairAt(s, i) == n
  {
    assert s[i] == s[i..i + 2][0] && s[i + 1] == s[i..i + 2][1];
  }

  /** Two adjacent slices glue into one. */
  lemma Glue(s: string, i: nat, j: nat, k: nat)
    requires i <= j <= k <= |s|
    ensures s[i..j] + s[j..k] == s[i..k]
  {
    assert forall n :: 0 <= n < k - i ==> (s[i..j] + s[j..k])[n] == s[i..k][n];
  }

  /** Parsing a string that parses, then formatting the result, gives the string back. */
  lemma {:induction false} FormatOfParse(s: string)
    requires IsDateTime(s)
    ensures FormatDateTime(ParseDateTime(s).value) == s
  {
    var d := ParseDateTime(s).value;
    PadPair(s, 0); PadPair(s, 2); PadPair(s, 5); PadPair(s, 8);
    PadPair(s, 11); PadPair(s, 14); PadPair(s, 17);
    assert d.year / 100 == PairAt(s, 0) && d.year % 100 == PairAt(s, 2);
    assert s[4..5] == "-" && s[7..8] == "-" && s[10..11] == " ";
    assert s[13..14] == ":" && s[16..17] == ":";
    Glue(s, 0, 2, 4); Glue(s, 0, 4, 5); Glue(s, 0, 5, 7); Glue(s, 0, 7, 8);
    Glue(s, 0, 8, 10); Glue(s, 0, 10, 11); Glue(s, 0, 11, 13); Glue(s, 0, 13, 14);
    Glue(s, 0, 14, 16); Glue(s, 0, 16, 17); Glue(s, 0, 17, 19);
    assert s[0..19] == s;
  }

  /** Formatting a valid date, then parsing it, gives the date back. */
  lemma {:induction false} ParseOfFormat(d: DateTime)
    requires ValidDateTime(d)
    ensures ParseDateTime(FormatDateTime(d)) == Some(d)
  {
    var s := FormatDateTime(d);
    PairOfPad(d.year / 100, s, 0);
    PairOfPad(d.year % 100, s, 2);
    PairOfPad(d.month, s, 5);
    PairOfPad(d.day, s, 8);
    PairOfPad(d.hour, s, 11);
    PairOfPad(d.minute, s, 14);
    PairOfPad(d.second, s, 17);
    assert HasLayout(s);
  }
}
