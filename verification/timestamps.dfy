/** The `opened_at` timestamps and their calendar dates.

    The dashboard hands `opened_at` to `pd.to_datetime` and keeps only the
    `.dt.date` part. Format inference is library behaviour; this module instead
    reads the shape of the commented-out conversion at app.py:62-65,
    `MM/DD/YYYY HH:MM:SS AM` (or `PM`), twelve-hour clock, and rejects
    anything else, as `pd.to_datetime` rejects a value it cannot read. */
module Timestamps {
  import opened Wrappers

  /** A calendar date, the `datetime.date` the per-day tables are keyed by. */
  datatype Date = Date(year: nat, month: nat, day: nat)

  /** A full timestamp: date, twelve-hour clock time and the AM/PM marker. */
  datatype Stamp = Stamp(date: Date, hour: nat, minute: nat, second: nat, pm: bool)

  predicate IsLeapYear(y: nat)
  {
    y % 4 == 0 && (y % 100 != 0 || y % 400 == 0)
  }

  function DaysInMonth(y: nat, m: nat): nat
    requires 1 <= m <= 12
  {
    if m == 2 then (if IsLeapYear(y) then 29 else 28)
    else if m == 4 || m == 6 || m == 9 || m == 11 then 30
    else 31
  }

  predicate ValidDate(d: Date)
  {
    && 1 <= d.year <= 9999
    && 1 <= d.month <= 12
    && 1 <= d.day <= DaysInMonth(d.year, d.month)
  }

  predicate ValidStamp(s: Stamp)
  {
    && ValidDate(s.date)
    && 1 <= s.hour <= 12
    && s.minute < 60
    && s.second < 60
  }

  // ---------------------------------------------------------------- digits

  predicate IsDigit(c: char)
  {
    '0' <= c <= '9'
  }

  function DigitValue(c: char): nat
    requires IsDigit(c)
  {
    c as int - '0' as int
  }

  function DigitChar(n: nat): char
    requires n < 10
  {
    (n + '0' as int) as char
  }

  function Value2(s: string): nat
    requires |s| == 2 && IsDigit(s[0]) && IsDigit(s[1])
  {
    10 * DigitValue(s[0]) + DigitValue(s[1])
  }

  function Value4(s: string): nat
    requires |s| == 4 && forall i :: 0 <= i < 4 ==> IsDigit(s[i])
  {
    1000 * DigitValue(s[0]) + 100 * DigitValue(s[1]) + 10 * DigitValue(s[2]) + DigitValue(s[3])
  }

  /** Two-digit, zero-padded decimal. */
  function Pad2(n: nat): (r: string)
    requires n < 100
    ensures |r| == 2 && IsDigit(r[0]) && IsDigit(r[1])
    ensures Value2(r) == n
  {
    [DigitChar(n / 10), DigitChar(n % 10)]
  }

  /** Four-digit, zero-padded decimal. */
  function Pad4(n: nat): (r: string)
    requires n < 10000
    ensures |r| == 4 && forall i :: 0 <= i < 4 ==> IsDigit(r[i])
    ensures Value4(r) == n
  {
    var r := Pad2(n / 100) + Pad2(n % 100);
    assert r[..2] == Pad2(n / 100) && r[2..] == Pad2(n % 100);
    r
  }

  lemma Pad2OfValue(s: string)
    requires |s| == 2 && IsDigit(s[0]) && IsDigit(s[1])
    ensures Pad2(Value2(s)) == s
  {
  }

  lemma Pad4OfValue(s: string)
    requires |s| == 4 && forall i :: 0 <= i < 4 ==> IsDigit(s[i])
    ensures Pad4(Value4(s)) == s
  {
    var hi, lo := s[..2], s[2..];
    var n := Value4(s);
    assert n == 100 * Value2(hi) + Value2(lo);
    DivMod100(n, Value2(hi), Value2(lo));
    Pad2OfValue(hi);
    Pad2OfValue(lo);
    assert s == hi + lo;
  }

  lemma DivMod100(n: nat, q: nat, r: nat)
    requires r < 100
    requires n == 100 * q + r
    ensures n / 100 == q && n % 100 == r
  {
    assert n == 100 * q + r;
  }

  // ---------------------------------------------------------------- format

  /** `MM/DD/YYYY HH:MM:SS AM` — the text of a timestamp as exported. */
  function Format(s: Stamp): (r: string)
    requires ValidStamp(s)
    ensures |r| == 22
  {
    Pad2(s.date.month) + "/" + Pad2(s.date.day) + "/" + Pad4(s.date.year) + " "
      + Pad2(s.hour) + ":" + Pad2(s.minute) + ":" + Pad2(s.second) + " "
      + (if s.pm then "PM" else "AM")
  }

  /** The fixed layout: digits, separators and the AM/PM marker in place. */
  predicate Shaped(ts: string)
  {
    && |ts| == 22
    && IsDigit(ts[0]) && IsDigit(ts[1]) && IsDigit(ts[3]) && IsDigit(ts[4])
    && IsDigit(ts[6]) && IsDigit(ts[7]) && IsDigit(ts[8]) && IsDigit(ts[9])
    && IsDigit(ts[11]) && IsDigit(ts[12]) && IsDigit(ts[14]) && IsDigit(ts[15])
    && IsDigit(ts[17]) && IsDigit(ts[18])
    && ts[2] == '/' && ts[5] == '/' && ts[10] == ' '
    && ts[13] == ':' && ts[16] == ':' && ts[19] == ' '
    && (ts[20] == 'A' || ts[20] == 'P') && ts[21] == 'M'
  }

  /** Reads a timestamp; `None` when the text is not a well-formed, real
      timestamp. */
  function ParseStamp(ts: string): (r: Option<Stamp>)
    ensures r.Some? ==> ValidStamp(r.value) && Shaped(ts)
  {
    if !Shaped(ts) then None
    else
      var st := Stamp(Date(Value4(ts[6..10]), Value2(ts[0..2]), Value2(ts[3..5])),
                      Value2(ts[11..13]), Value2(ts[14..16]), Value2(ts[17..19]), ts[20] == 'P');
      if ValidStamp(st) then Some(st) else None
  }

  /** Whatever the reader accepts is exactly the text `Format` writes for
      it, so no two texts read as the same timestamp. */
  lemma ParsedIsFormatted(ts: string)
    requires ParseStamp(ts).Some?
    ensures Format(ParseStamp(ts).value) == ts
  {
    var st := Stamp(Date(Value4(ts[6..10]), Value2(ts[0..2]), Value2(ts[3..5])),
                    Value2(ts[11..13]), Value2(ts[14..16]), Value2(ts[17..19]), ts[20] == 'P');
    FormatOfParse(ts, st);
  }

  lemma FormatOfParse(ts: string, st: Stamp)
    requires Shaped(ts)
    requires st == Stamp(Date(Value4(ts[6..10]), Value2(ts[0..2]), Value2(ts[3..5])),
                         Value2(ts[11..13]), Value2(ts[14..16]), Value2(ts[17..19]), ts[20] == 'P')
    requires ValidStamp(st)
    ensures Format(st) == ts
  {
    Pad2OfValue(ts[0..2]);
    Pad2OfValue(ts[3..5]);
    Pad4OfValue(ts[6..10]);
    Pad2OfValue(ts[11..13]);
    Pad2OfValue(ts[14..16]);
    Pad2OfValue(ts[17..19]);
    assert ts == ts[0..2] + "/" + ts[3..5] + "/" + ts[6..10] + " " + ts[11..13] + ":" + ts[14..16]
                 + ":" + ts[17..19] + " " + ts[20..22];
  }

  /** Every valid timestamp reads back as itself. */
  lemma ParseOfFormat(st: Stamp)
    requires ValidStamp(st)
    ensures ParseStamp(Format(st)) == Some(st)
  {
    var ts := Format(st);
    assert ts[0..2] == Pad2(st.date.month);
    assert ts[3..5] == Pad2(st.date.day);
    assert ts[6..10] == Pad4(st.date.year);
    assert ts[11..13] == Pad2(st.hour);
    assert ts[14..16] == Pad2(st.minute);
    assert ts[17..19] == Pad2(st.second);
  }

  /** `pd.to_datetime(ts).date()`: the calendar date of a timestamp, or
      `None` when the text cannot be read. */
  function DateOf(ts: string): (r: Option<Date>)
    ensures r.Some? ==> ValidDate(r.value)
  {
    match ParseStamp(ts)
    case None => None
    case Some(st) => Some(st.date)
  }

  /** Cutting a timestamp down to its date forgets the time of day: two
      timestamps of one day land in one bucket whatever their times. */
  lemma DateOfDropsTime(a: Stamp, b: Stamp)
    requires ValidStamp(a) && ValidStamp(b)
    requires a.date == b.date
    ensures DateOf(Format(a)) == DateOf(Format(b)) == Some(a.date)
  {
    ParseOfFormat(a);
    ParseOfFormat(b);
  }

  // ----------------------------------------------------------------- order

  /** Chronological order on dates. */
  predicate DateLe(a: Date, b: Date)
  {
    || a.year < b.year
    || (a.year == b.year && a.month < b.month)
    || (a.year == b.year && a.month == b.month && a.day <= b.day)
  }
}
