/**
 * Local calendar timestamps and the two renderings the source asks of moment.js:
 * `YYYY-MM-DD` (the rate-table key) and `DD/MM/YYYY` (the CSV date column).
 */
module Calendar {

  type Year = y: int | 0 <= y <= 9999
  type Month = m: int | 1 <= m <= 12 witness 1
  type DayOfMonth = d: int | 1 <= d <= 31 witness 1
  /** Milliseconds since local midnight. */
  type TimeOfDay = t: int | 0 <= t < 86400000

  /** A timestamp, already resolved to the local time zone. */
  datatype DateTime = DateTime(year: Year, month: Month, day: DayOfMonth, time: TimeOfDay)

  /** Two timestamps fall on the same calendar day. */
  predicate SameDay(a: DateTime, b: DateTime)
  {
    a.year == b.year && a.month == b.month && a.day == b.day
  }

  function Pow10(n: nat): (p: nat)
    ensures p >= 1
  {
    if n == 0 then 1 else 10 * Pow10(n - 1)
  }

  predicate IsDigit(c: char)
  {
    '0' <= c <= '9'
  }

  function DigitChar(d: nat): (c: char)
    requires d < 10
    ensures IsDigit(c) && (c as int) - ('0' as int) == d
  {
    ['0', '1', '2', '3', '4', '5', '6', '7', '8', '9'][d]
  }

  /** The last `width` decimal digits of `n`, zero-padded on the left. */
  function Digits(n: nat, width: nat): (s: seq<char>)
    ensures |s| == width
    ensures forall i :: 0 <= i < |s| ==> IsDigit(s[i])
  {
    if width == 0 then [] else Digits(n / 10, width - 1) + [DigitChar(n % 10)]
  }

  /** Reads a string of decimal digits back as a number. */
  function ParseDigits(s: seq<char>): nat
  {
    if |s| == 0 then 0
    else 10 * ParseDigits(s[..|s| - 1]) + (if IsDigit(s[|s| - 1]) then (s[|s| - 1] as int) - ('0' as int) else 0)
  }

  /** Zero-padded digits read back give the number, when it fits in the width. */
  lemma {:induction false} ParseDigitsRoundTrip(n: nat, width: nat)
    requires n < Pow10(width)
    ensures ParseDigits(Digits(n, width)) == n
  {
    if width > 0 {
      var s := Digits(n, width);
      assert s[..|s| - 1] == Digits(n / 10, width - 1);
      ParseDigitsRoundTrip(n / 10, width - 1);
    }
  }

  /** moment(date).format('YYYY-MM-DD'). */
  function IsoDay(d: DateTime): (s: string)
    ensures |s| == 10 && s[4] == '-' && s[7] == '-'
  {
    Digits(d.year, 4) + "-" + Digits(d.month, 2) + "-" + Digits(d.day, 2)
  }

  /** moment(date).format('DD/MM/YYYY'). */
  function SlashDay(d: DateTime): (s: string)
    ensures |s| == 10 && s[2] == '/' && s[5] == '/'
  {
    Digits(d.day, 2) + "/" + Digits(d.month, 2) + "/" + Digits(d.year, 4)
  }

  /** Reads a `YYYY-MM-DD` key back as (year, month, day). */
  function ParseIsoDay(s: string): (int, int, int)
    requires |s| == 10
  {
    (ParseDigits(s[0..4]), ParseDigits(s[5..7]), ParseDigits(s[8..10]))
  }

  /** Reads a `DD/MM/YYYY` cell back as (year, month, day). */
  function ParseSlashDay(s: string): (int, int, int)
    requires |s| == 10
  {
    (ParseDigits(s[6..10]), ParseDigits(s[3..5]), ParseDigits(s[0..2]))
  }

  lemma IsoDayRoundTrip(d: DateTime)
    ensures ParseIsoDay(IsoDay(d)) == (d.year, d.month, d.day)
  {
    var s := IsoDay(d);
    assert s[0..4] == Digits(d.year, 4);
    assert s[5..7] == Digits(d.month, 2);
    assert s[8..10] == Digits(d.day, 2);
    ParseDigitsRoundTrip(d.year, 4);
    ParseDigitsRoundTrip(d.month, 2);
    ParseDigitsRoundTrip(d.day, 2);
  }

  lemma SlashDayRoundTrip(d: DateTime)
    ensures ParseSlashDay(SlashDay(d)) == (d.year, d.month, d.day)
  {
    var s := SlashDay(d);
    assert s[0..2] == Digits(d.day, 2);
    assert s[3..5] == Digits(d.month, 2);
    assert s[6..10] == Digits(d.year, 4);
    ParseDigitsRoundTrip(d.year, 4);
    ParseDigitsRoundTrip(d.month, 2);
    ParseDigitsRoundTrip(d.day, 2);
  }

  /** The `YYYY-MM-DD` key identifies the calendar day exactly: same key iff same day. */
  lemma IsoDayIdentifiesDay(a: DateTime, b: DateTime)
    ensures IsoDay(a) == IsoDay(b) <==> SameDay(a, b)
  {
    IsoDayRoundTrip(a);
    IsoDayRoundTrip(b);
  }

  /** The `DD/MM/YYYY` cell identifies the calendar day exactly: same cell iff same day. */
  lemma SlashDayIdentifiesDay(a: DateTime, b: DateTime)
    ensures SlashDay(a) == SlashDay(b) <==> SameDay(a, b)
  {
    SlashDayRoundTrip(a);
    SlashDayRoundTrip(b);
  }
}
