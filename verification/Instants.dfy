/**
 Instants on the wire (apps/query-gateway/src/auth.ts, `parseInstant`): a pinned RFC 3339 form, read by
 `Date.parse` as ECMA-262 has it (sections 21.4.1 and 21.4.3.2).
 */
module Instants {
  import opened Options

  /**
   What `Date.parse` makes of a text: milliseconds since the epoch, or not a number, which every comparison
   answers with false.
   */
  datatype Instant = At(ms: int) | NotADate

  predicate IsDigit(c: char) { '0' <= c <= '9' }

  /** `n` digits from `i` on. */
  predicate Digits(s: string, i: nat, n: nat)
    requires i + n <= |s|
    decreases n
  {
    n == 0 || (IsDigit(s[i]) && Digits(s, i + 1, n - 1))
  }

  function DigitOf(c: char): nat { if IsDigit(c) then c as nat - '0' as nat else 0 }

  /** The two-digit number at `i`. */
  function Two(s: string, i: nat): nat
    requires i + 2 <= |s|
  {
    10 * DigitOf(s[i]) + DigitOf(s[i+1])
  }

  /** `(?:\.\d+)?Z` */
  predicate EndsWell(t: string) {
    t == "Z" || (|t| >= 3 && t[0] == '.' && t[|t|-1] == 'Z' && Digits(t, 1, |t| - 2))
  }

  /** The pinned form. */
  predicate InFormat(s: string) {
    && |s| >= 20
    && Digits(s, 0, 4) && s[4] == '-' && Digits(s, 5, 2) && s[7] == '-' && Digits(s, 8, 2) && s[10] == 'T'
    && Digits(s, 11, 2) && s[13] == ':' && Digits(s, 14, 2) && s[16] == ':' && Digits(s, 17, 2)
    && EndsWell(s[19..])
  }

  /** The fraction's milliseconds, anything finer cut off. */
  function Millis(t: string): nat {
    if |t| < 3 then 0
    else 100 * DigitOf(t[1]) + 10 * DigitOf(t[2]) + (if |t| > 3 then DigitOf(t[3]) else 0)
  }

  predicate InBounds(month: nat, day: nat, hour: nat, minute: nat, second: nat, millis: nat) {
    && 1 <= month <= 12 && 1 <= day <= 31 && minute <= 59 && second <= 59
    && (hour <= 23 || (hour == 24 && minute == 0 && second == 0 && millis == 0))
  }

  /** Days from the epoch to the first of January. */
  function DayFromYear(y: int): int {
    365 * (y - 1970) + (y - 1969) / 4 - (y - 1901) / 100 + (y - 1601) / 400
  }

  predicate Leap(y: int) { y % 4 == 0 && (y % 100 != 0 || y % 400 == 0) }

  function DaysBeforeMonth(month: nat, leap: bool): nat {
    (if month <= 1 then 0 else if month == 2 then 31 else if month == 3 then 59 else if month == 4 then 90
     else if month == 5 then 120 else if month == 6 then 151 else if month == 7 then 181 else if month == 8 then 212
     else if month == 9 then 243 else if month == 10 then 273 else if month == 11 then 304 else 334)
    + (if leap && month > 2 then 1 else 0)
  }

  function TimeOf(y: nat, month: nat, day: nat, hour: nat, minute: nat, second: nat, millis: nat): int {
    (DayFromYear(y) + DaysBeforeMonth(month, Leap(y)) + day - 1) * 86_400_000
    + hour * 3_600_000 + minute * 60_000 + second * 1_000 + millis
  }

  /** None: not in the form. */
  function ParseInstant(s: string): Option<Instant> {
    if !InFormat(s) then None
    else
      var y, month, day := 100 * Two(s, 0) + Two(s, 2), Two(s, 5), Two(s, 8);
      var hour, minute, second, millis := Two(s, 11), Two(s, 14), Two(s, 17), Millis(s[19..]);
      if InBounds(month, day, hour, minute, second, millis)
      then Some(At(TimeOf(y, month, day, hour, minute, second, millis)))
      else Some(NotADate)
  }

  // ----- the calendar -----

  function DaysIn(y: nat, month: nat): nat {
    if month == 2 then (if y % 400 == 0 || (y % 4 == 0 && y % 100 != 0) then 29 else 28)
    else if month == 4 || month == 6 || month == 9 || month == 11 then 30
    else 31
  }

  function DaysTo(y: nat, month: nat, day: nat): int { DayFromYear(y) + DaysBeforeMonth(month, Leap(y)) + day - 1 }

  /** The day after. */
  function Tomorrow(y: nat, month: nat, day: nat): (nat, nat, nat) {
    if day < DaysIn(y, month) then (y, month, day + 1)
    else if month < 12 then (y, month + 1, 1)
    else (y + 1, 1, 1)
  }

  lemma NextDayCounts(y: nat, month: nat, day: nat)
    requires 1 <= month <= 12 && 1 <= day <= DaysIn(y, month)
    ensures var (y', month', day') := Tomorrow(y, month, day); DaysTo(y', month', day') == DaysTo(y, month, day) + 1
  {
    LeapAgrees(y);
    if month == 12 && day == 31 { NextYear(y); } else { NextInYear(y, month, day); }
  }

  /** Midnights count days from the epoch, through every month and leap year. */
  lemma NextDay(y: nat, month: nat, day: nat)
    requires 1 <= month <= 12 && 1 <= day <= DaysIn(y, month)
    ensures
      var (y', month', day') := Tomorrow(y, month, day);
      TimeOf(y', month', day', 0, 0, 0, 0) == TimeOf(y, month, day, 0, 0, 0, 0) + 24 * 60 * 60 * 1000
    ensures TimeOf(1970, 1, 1, 0, 0, 0, 0) == 0
  {
    NextDayCounts(y, month, day);
  }

  lemma LeapAgrees(y: int)
    ensures Leap(y) <==> y % 400 == 0 || (y % 4 == 0 && y % 100 != 0)
  {
    if y % 400 == 0 {
      FourthCenturyIsCentury(y);
      CenturyIsFourth(y);
    }
  }

  lemma NextInYear(y: nat, month: nat, day: nat)
    requires 1 <= month <= 12 && 1 <= day <= DaysIn(y, month) && (month < 12 || day < 31)
    ensures
      var days := DaysBeforeMonth(month, Leap(y)) + day;
      if day < DaysIn(y, month) then DaysBeforeMonth(month, Leap(y)) + (day + 1) == days + 1
      else DaysBeforeMonth(month + 1, Leap(y)) + 1 == days + 1
  {
    LeapAgrees(y);
  }

  lemma NextFourth(a: int)
    ensures (a + 1) / 4 == a / 4 + if (a + 1) % 4 == 0 then 1 else 0
  {
  }

  lemma NextHundredth(a: int)
    ensures (a + 1) / 100 == a / 100 + if (a + 1) % 100 == 0 then 1 else 0
  {
  }

  lemma NextFourHundredth(a: int)
    ensures (a + 1) / 400 == a / 400 + if (a + 1) % 400 == 0 then 1 else 0
  {
  }

  lemma FromLeapYear(y: int)
    ensures (y - 1968) % 4 == y % 4
  {
  }

  lemma FromCentury(y: int)
    ensures (y - 1900) % 100 == y % 100
  {
  }

  lemma FromFourthCentury(y: int)
    ensures (y - 1600) % 400 == y % 400
  {
  }

  lemma CenturyIsFourth(y: int)
    requires y % 100 == 0
    ensures y % 4 == 0
  {
    assert y == 4 * (25 * (y / 100));
  }

  lemma FourthCenturyIsCentury(y: int)
    requires y % 400 == 0
    ensures y % 100 == 0
  {
    assert y == 100 * (4 * (y / 400));
  }

  lemma NextYear(y: nat)
    ensures DayFromYear(y + 1) == DayFromYear(y) + if Leap(y) then 366 else 365
  {
    NextFourth(y - 1969);
    NextHundredth(y - 1901);
    NextFourHundredth(y - 1601);
    FromLeapYear(y);
    FromCentury(y);
    FromFourthCentury(y);
    if y % 400 == 0 { FourthCenturyIsCentury(y); }
    if y % 100 == 0 { CenturyIsFourth(y); }
  }

  /** What a text in the form reads as: its fields within bounds, and the instant they name. */
  lemma ReadAsWritten(s: string)
    requires InFormat(s)
    ensures
      var y, month, day := 1000 * DigitOf(s[0]) + 100 * DigitOf(s[1]) + 10 * DigitOf(s[2]) + DigitOf(s[3]),
                           10 * DigitOf(s[5]) + DigitOf(s[6]), 10 * DigitOf(s[8]) + DigitOf(s[9]);
      var hour, minute, second := 10 * DigitOf(s[11]) + DigitOf(s[12]), 10 * DigitOf(s[14]) + DigitOf(s[15]),
                                  10 * DigitOf(s[17]) + DigitOf(s[18]);
      var instant := ParseInstant(s);
      && instant.Some?
      && (instant.value.At? ==>
            1 <= month <= 12 && 1 <= day <= 31 && hour <= 24 && minute <= 59 && second <= 59)
      && (1 <= month <= 12 && 1 <= day <= 31 && hour <= 23 && minute <= 59 && second <= 59 ==>
            && instant.value.At?
            && 0 <= instant.value.ms - (TimeOf(y, month, day, 0, 0, 0, 0) + ((hour * 60 + minute) * 60 + second) * 1000) < 1000)
  {
  }

  // ----- two texts -----

  /** In the form, but no date. */
  const THIRTEENTH_MONTH := "2026-13-01T00:00:00Z"

  /** The last second the form can name. */
  const LAST_SECOND := "9999-12-31T23:59:59Z"

  const LAST_SECOND_MS := 253_402_300_799_000

  lemma ThirteenthMonth()
    ensures ParseInstant(THIRTEENTH_MONTH) == Some(NotADate)
  {
    var s := THIRTEENTH_MONTH;
    assert s[19..] == "Z";
    assert Two(s, 5) == 13;
  }

  lemma LastSecond()
    ensures ParseInstant(LAST_SECOND) == Some(At(LAST_SECOND_MS))
  {
    var s := LAST_SECOND;
    assert s[19..] == "Z";
    assert Two(s, 0) == 99 && Two(s, 2) == 99 && Two(s, 5) == 12 && Two(s, 8) == 31;
    assert Two(s, 11) == 23 && Two(s, 14) == 59 && Two(s, 17) == 59 && Millis("Z") == 0;
  }
}
