/**
 * `_to_iso` (main.py): a parsed time record (`time.struct_time`, of which the
 * six date and time fields are used) becomes `datetime(..., tzinfo=utc).isoformat()`,
 * or `None` when the record is absent or `datetime` rejects its fields.
 */
module Timestamps {
  import opened Wrappers
  import opened PyStrings

  datatype TimeStruct = TimeStruct(year: int, month: int, day: int, hour: int, minute: int, second: int)

  /** Gregorian leap years. */
  predicate IsLeapYear(y: int) {
    y % 4 == 0 && (y % 100 != 0 || y % 400 == 0)
  }

  function DaysInMonth(y: int, m: int): (d: int)
    requires 1 <= m <= 12
    ensures 28 <= d <= 31
  {
    if m == 2 then (if IsLeapYear(y) then 29 else 28)
    else if m == 4 || m == 6 || m == 9 || m == 11 then 30
    else 31
  }

  /** The fields `datetime` accepts: years 1 to 9999, a real calendar day, hours 0-23, minutes and seconds 0-59. */
  predicate Valid(t: TimeStruct) {
    && 1 <= t.year <= 9999
    && 1 <= t.month <= 12
    && 1 <= t.day <= DaysInMonth(t.year, t.month)
    && 0 <= t.hour <= 23
    && 0 <= t.minute <= 59
    && 0 <= t.second <= 59
  }

  function Digit(d: int): (c: char)
    requires 0 <= d <= 9
    ensures '0' <= c <= '9'
  {
    (48 + d) as char
  }

  function DigitValue(c: char): int {
    c as int - 48
  }

  function Pad2(n: int): (s: string)
    requires 0 <= n <= 99
    ensures |s| == 2
  {
    [Digit(n / 10), Digit(n % 10)]
  }

  function Pad4(n: int): (s: string)
    requires 0 <= n <= 9999
    ensures |s| == 4
  {
    Pad2(n / 100) + Pad2(n % 100)
  }

  const UtcOffset: string := "+00:00"

  /** `isoformat()` of a whole-second UTC datetime: `YYYY-MM-DDTHH:MM:SS+00:00`. */
  function IsoFormat(t: TimeStruct): (s: string)
    requires Valid(t)
    ensures |s| == 25
  {
    Pad4(t.year) + ("-" + (Pad2(t.month) + ("-" + (Pad2(t.day) + ("T" + (Pad2(t.hour)
      + (":" + (Pad2(t.minute) + (":" + (Pad2(t.second) + UtcOffset))))))))))
  }

  /** `_to_iso(struct)` */
  function ToIso(st: Option<TimeStruct>): (r: Option<string>)
    ensures r.None? <==> st.None? || !Valid(st.value)
    ensures r.Some? ==> r.value == IsoFormat(st.value) && |r.value| == 25
  {
    match st
    case None => None
    case Some(t) => if Valid(t) then Some(IsoFormat(t)) else None
  }

  function Number(s: string): int {
    if s == [] then 0 else 10 * Number(s[..|s| - 1]) + DigitValue(s[|s| - 1])
  }

  /**
   * Reads the six fields back out of a 25-character canonical string; the
   * partner of `IsoFormat`.
   */
  function ParseIso(s: string): Option<TimeStruct> {
    if |s| != 25 then None
    else Some(TimeStruct(Number(s[0..4]), Number(s[5..7]), Number(s[8..10]),
                         Number(s[11..13]), Number(s[14..16]), Number(s[17..19])))
  }

  lemma DigitRoundTrip(d: int)
    requires 0 <= d <= 9
    ensures DigitValue(Digit(d)) == d
  {
  }

  lemma NumberStep(s: string)
    requires s != []
    ensures Number(s) == 10 * Number(s[..|s| - 1]) + DigitValue(s[|s| - 1])
  {
  }

  lemma Pad2Number(n: int)
    requires 0 <= n <= 99
    ensures Number(Pad2(n)) == n
  {
    var s := Pad2(n);
    DigitRoundTrip(n / 10);
    DigitRoundTrip(n % 10);
    assert s[..1][..0] == [];
    NumberStep(s[..1]);
    assert Number(s[..1]) == n / 10;
    NumberStep(s);
  }

  lemma Pad2Digits(n: int)
    requires 0 <= n <= 99
    ensures Number(Pad2(n)) == 10 * DigitValue(Pad2(n)[0]) + DigitValue(Pad2(n)[1])
  {
    var s := Pad2(n);
    assert s[..1][..0] == [];
    NumberStep(s[..1]);
    NumberStep(s);
  }

  lemma Pad4Number(n: int)
    requires 0 <= n <= 9999
    ensures Number(Pad4(n)) == n
  {
    var hi, lo := Pad2(n / 100), Pad2(n % 100);
    var s := Pad4(n);
    Pad2Number(n / 100);
    Pad2Number(n % 100);
    Pad2Digits(n % 100);
    assert s[..3][..2] == hi;
    NumberStep(s[..3]);
    assert s[..3][2] == lo[0] && s[3] == lo[1];
    NumberStep(s);
  }

  /** The canonical string determines the record: parsing it gives the fields back. */
  lemma IsoFormatRoundTrip(t: TimeStruct)
    requires Valid(t)
    ensures ParseIso(IsoFormat(t)) == Some(t)
  {
    var s := IsoFormat(t);
    assert s[0..4] == Pad4(t.year);
    assert s[5..7] == Pad2(t.month);
    assert s[8..10] == Pad2(t.day);
    assert s[11..13] == Pad2(t.hour);
    assert s[14..16] == Pad2(t.minute);
    assert s[17..19] == Pad2(t.second);
    Pad4Number(t.year);
    Pad2Number(t.month);
    Pad2Number(t.day);
    Pad2Number(t.hour);
    Pad2Number(t.minute);
    Pad2Number(t.second);
  }

  /** Distinct valid records give distinct canonical strings. */
  lemma IsoFormatInjective(a: TimeStruct, b: TimeStruct)
    requires Valid(a) && Valid(b) && IsoFormat(a) == IsoFormat(b)
    ensures a == b
  {
    IsoFormatRoundTrip(a);
    IsoFormatRoundTrip(b);
  }

  /** Chronological order of two records: lexicographic on the fields, year first. */
  predicate Before(a: TimeStruct, b: TimeStruct) {
    a.year < b.year || (a.year == b.year &&
    (a.month < b.month || (a.month == b.month &&
    (a.day < b.day || (a.day == b.day &&
    (a.hour < b.hour || (a.hour == b.hour &&
    (a.minute < b.minute || (a.minute == b.minute && a.second < b.second)))))))))
  }

  lemma Pad2Order(x: int, y: int)
    requires 0 <= x <= 99 && 0 <= y <= 99
    ensures StrLt(Pad2(x), Pad2(y)) <==> x < y
    ensures Pad2(x) == Pad2(y) <==> x == y
  {
    Pad2Number(x);
    Pad2Number(y);
    var a, b := Pad2(x), Pad2(y);
    assert a[1..][1..] == [] && b[1..][1..] == [];
    assert StrLt(a[1..], b[1..]) <==> a[1] < b[1];
    assert a[0] < b[0] <==> x / 10 < y / 10 by {
      assert a[0] as int == 48 + x / 10 && b[0] as int == 48 + y / 10;
    }
    assert a[1] < b[1] <==> x % 10 < y % 10 by {
      assert a[1] as int == 48 + x % 10 && b[1] as int == 48 + y % 10;
    }
    assert a[0] == b[0] <==> x / 10 == y / 10 by {
      assert a[0] as int == 48 + x / 10 && b[0] as int == 48 + y / 10;
    }
  }

  /** Two digits at the front, then two more: how `Pad4` splits. */
  lemma Pad4Order(x: int, y: int)
    requires 0 <= x <= 9999 && 0 <= y <= 9999
    ensures StrLt(Pad4(x), Pad4(y)) <==> x < y
    ensures Pad4(x) == Pad4(y) <==> x == y
  {
    Pad4Number(x);
    Pad4Number(y);
    StrLtConcat(Pad2(x / 100), Pad2(x % 100), Pad2(y / 100), Pad2(y % 100));
    Pad2Order(x / 100, y / 100);
    Pad2Order(x % 100, y % 100);
    assert x < y <==> x / 100 < y / 100 || (x / 100 == y / 100 && x % 100 < y % 100);
  }

  /** A one-character separator in front of both sides does not change the comparison. */
  lemma SeparatorOrder(c: char, u: string, v: string)
    ensures StrLt([c] + u, [c] + v) <==> StrLt(u, v)
  {
    assert ([c] + u)[1..] == u && ([c] + v)[1..] == v;
  }

  /**
   * For valid records, comparing the canonical strings as Python compares
   * str agrees with chronological order, so sorting the strings in reverse
   * puts the newest first.
   */
  lemma IsoFormatOrder(a: TimeStruct, b: TimeStruct)
    requires Valid(a) && Valid(b)
    ensures StrLt(IsoFormat(a), IsoFormat(b)) <==> Before(a, b)
  {
    var sec := Pad2(a.second) + UtcOffset;
    var sec' := Pad2(b.second) + UtcOffset;
    StrLtConcat(Pad2(a.second), UtcOffset, Pad2(b.second), UtcOffset);
    StrLtIrreflexive(UtcOffset);
    Pad2Order(a.second, b.second);
    var mi := Pad2(a.minute) + (":" + sec);
    var mi' := Pad2(b.minute) + (":" + sec');
    SeparatorOrder(':', sec, sec');
    StrLtConcat(Pad2(a.minute), ":" + sec, Pad2(b.minute), ":" + sec');
    Pad2Order(a.minute, b.minute);
    var ho := Pad2(a.hour) + (":" + mi);
    var ho' := Pad2(b.hour) + (":" + mi');
    SeparatorOrder(':', mi, mi');
    StrLtConcat(Pad2(a.hour), ":" + mi, Pad2(b.hour), ":" + mi');
    Pad2Order(a.hour, b.hour);
    var da := Pad2(a.day) + ("T" + ho);
    var da' := Pad2(b.day) + ("T" + ho');
    SeparatorOrder('T', ho, ho');
    StrLtConcat(Pad2(a.day), "T" + ho, Pad2(b.day), "T" + ho');
    Pad2Order(a.day, b.day);
    var mo := Pad2(a.month) + ("-" + da);
    var mo' := Pad2(b.month) + ("-" + da');
    SeparatorOrder('-', da, da');
    StrLtConcat(Pad2(a.month), "-" + da, Pad2(b.month), "-" + da');
    Pad2Order(a.month, b.month);
    SeparatorOrder('-', mo, mo');
    StrLtConcat(Pad4(a.year), "-" + mo, Pad4(b.year), "-" + mo');
    Pad4Order(a.year, b.year);
  }

  /** Calendar edge cases `datetime` rejects or accepts. */
  lemma CalendarExamples()
    ensures !Valid(TimeStruct(2024, 13, 1, 0, 0, 0))
    ensures !Valid(TimeStruct(1900, 2, 29, 0, 0, 0))
    ensures Valid(TimeStruct(2000, 2, 29, 0, 0, 0))
    ensures !Valid(TimeStruct(2024, 6, 30, 12, 0, 60))
    ensures !Valid(TimeStruct(0, 1, 1, 0, 0, 0))
  {
  }
}
