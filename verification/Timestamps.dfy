/** Timestamps as the job hash stores them: the `date-time` text of section 5.6 of
    RFC 3339, written by Go's `Time.Format(time.RFC3339)` and read by `time.Parse`. */
module Timestamps {
  import opened Text

  /** A clock reading in its own zone. `offset` is the zone's distance from UTC in seconds. */
  datatype Time = Time(year: int, month: int, day: int, hour: int, minute: int,
                       second: int, nanos: int, offset: int)

  predicate IsLeap(year: int) {
    year % 4 == 0 && (year % 100 != 0 || year % 400 == 0)
  }

  function DaysIn(month: int, year: int): int {
    if month == 2 then (if IsLeap(year) then 29 else 28)
    else if month == 4 || month == 6 || month == 9 || month == 11 then 30
    else 31
  }

  predicate Valid(t: Time) {
    && 1 <= t.month <= 12 && 1 <= t.day <= DaysIn(t.month, t.year)
    && 0 <= t.hour < 24 && 0 <= t.minute < 60 && 0 <= t.second < 60
    && 0 <= t.nanos < 1_000_000_000
    && -86400 < t.offset < 86400
  }

  const ZERO_TIME := Time(1, 1, 1, 0, 0, 0, 0, 0)

  type Instant = t: Time | Valid(t) witness ZERO_TIME

  /** What the text can carry: four-digit years and whole-minute zone offsets. */
  predicate Representable(t: Time) {
    0 <= t.year <= 9999 && t.offset % 60 == 0
  }

  /** A zone offset cut to whole minutes, toward zero. */
  function WholeMinutes(offset: int): (o: int)
    ensures o == offset <==> offset % 60 == 0
    ensures -86400 < offset < 86400 ==> -86400 < o < 86400
  {
    if offset < 0 then -(-offset / 60 * 60) else offset / 60 * 60
  }

  /** `t` with its fraction of a second dropped. */
  function ToSecond(t: Instant): Instant { t.(nanos := 0) }

  function Pad2(n: nat): (s: string)
    requires n < 100
    ensures |s| == 2 && ParseUint(s, 0, 99) == Some(n)
  {
    var s := [Digit(n / 10), Digit(n % 10)];
    assert s[..1] == [Digit(n / 10)] && s[..1][..0] == [];
    assert Value(s[..1]) == n / 10;
    s
  }

  /** `appendInt(b, year, 4)`: at least four digits, the sign in front of them. */
  function PadYear(year: int): string {
    if year < 0 then "-" + Pad4(-year) else Pad4(year)
  }

  function Pad4(n: nat): (s: string)
    ensures |s| >= 4 && AllDigits(s)
    ensures |s| == 4 <==> n <= 9999
    ensures n <= 9999 ==> ParseUint(s, 0, 9999) == Some(n)
  {
    if n > 9999 then LongNat(n); FormatNat(n)
    else FourDigitsRead(n); FourDigits(n)
  }

  function FourDigits(n: nat): string
    requires n <= 9999
  {
    [Digit(n / 1000), Digit(n / 100 % 10), Digit(n / 10 % 10), Digit(n % 10)]
  }

  lemma FourDigitsRead(n: nat)
    requires n <= 9999
    ensures |FourDigits(n)| == 4 && AllDigits(FourDigits(n)) && ParseUint(FourDigits(n), 0, 9999) == Some(n)
  {
    hide Value;
    Value4(FourDigits(n));
    Places(n);
  }

  lemma Places(n: nat)
    ensures 1000 * (n / 1000) + 100 * (n / 100 % 10) + 10 * (n / 10 % 10) + n % 10 == n
  {
    assert n / 100 == n / 10 / 10 && n / 1000 == n / 100 / 10;
  }

  lemma LongNat(n: nat)
    requires n > 9999
    ensures |FormatNat(n)| > 4
  {
    assert FormatNat(n / 1000 / 10) != [];
    assert |FormatNat(n / 1000)| >= 2;
    assert n / 1000 == n / 10 / 10 / 10;
    assert |FormatNat(n / 10 / 10)| >= 3;
    assert |FormatNat(n / 10)| >= 4;
  }

  lemma Value4(s: string)
    requires |s| == 4 && AllDigits(s)
    ensures Value(s) == 1000 * DigitValue(s[0]) + 100 * DigitValue(s[1]) + 10 * DigitValue(s[2]) + DigitValue(s[3])
  {
    assert s[..3][..2] == s[..2] && s[..2][..1] == s[..1] && s[..1][..0] == [];
    assert Value(s[..1]) == DigitValue(s[0]);
    assert Value(s[..2]) == 10 * Value(s[..1]) + DigitValue(s[1]);
    assert Value(s[..3]) == 10 * Value(s[..2]) + DigitValue(s[2]);
  }

  function ParseUint(s: string, lo: nat, hi: nat): Option<nat> {
    if AllDigits(s) && lo <= Value(s) <= hi then Some(Value(s)) else None
  }

  /** The zone designator: `Z` at offset zero, otherwise sign, hours, colon, minutes of
      the offset cut to whole minutes toward zero. */
  function FormatZone(offset: int): string
    requires -86400 < offset < 86400
  {
    if offset == 0 then "Z"
    else
      var zone := if offset < 0 then -offset / 60 else offset / 60;
      [if offset <= -60 then '-' else '+'] + Pad2(zone / 60) + ":" + Pad2(zone % 60)
  }

  function ParseZone(s: string): Option<int> {
    if s == "Z" then Some(0)
    else if |s| != 6 then None
    else
      var hh := ParseUint(s[1..3], 0, 23);
      var mm := ParseUint(s[4..6], 0, 59);
      if hh.None? || mm.None? || !(s[0] == '-' || s[0] == '+') || s[3] != ':' then None
      else
        var seconds: int := (hh.value * 60 + mm.value) * 60;
        Some(if s[0] == '-' then -seconds else seconds)
  }

  function Format(t: Instant): string {
    FormatDateTime(t) + FormatZone(t.offset)
  }

  function FormatDateTime(t: Instant): string {
    PadYear(t.year) + "-" + Pad2(t.month) + "-" + Pad2(t.day) + "T"
    + Pad2(t.hour) + ":" + Pad2(t.minute) + ":" + Pad2(t.second)
  }

  /** Reading back; text without a fraction of a second, as `Format` writes it. */
  function Parse(s: string): Option<Instant> {
    if |s| < 19 then None
    else
      var year := ParseUint(s[0..4], 0, 9999);
      var month := ParseUint(s[5..7], 1, 12);
      if year.None? || month.None? then None
      else
        var day := ParseUint(s[8..10], 1, DaysIn(month.value, year.value));
        var hour := ParseUint(s[11..13], 0, 23);
        var minute := ParseUint(s[14..16], 0, 59);
        var second := ParseUint(s[17..19], 0, 59);
        var zone := ParseZone(s[19..]);
        if day.None? || hour.None? || minute.None? || second.None? || zone.None? then None
        else if !(s[4] == '-' && s[7] == '-' && s[10] == 'T' && s[13] == ':' && s[16] == ':') then None
        else
          Some(Time(year.value, month.value, day.value, hour.value, minute.value, second.value, 0, zone.value))
  }

  lemma Narrow(s: string, n: nat, lo: nat, hi: nat, max: nat)
    requires ParseUint(s, 0, max) == Some(n) && lo <= n <= hi
    ensures ParseUint(s, lo, hi) == Some(n)
  {}

  lemma ZoneRoundTrip(offset: int)
    requires -86400 < offset < 86400
    ensures ParseZone(FormatZone(offset)) == Some(WholeMinutes(offset))
  {
    if offset != 0 {
      var s := FormatZone(offset);
      var zone := if offset < 0 then -offset / 60 else offset / 60;
      var hh, mm := Pad2(zone / 60), Pad2(zone % 60);
      var sign := if offset <= -60 then '-' else '+';
      assert s == [sign] + hh + ":" + mm;
      assert s[1..3] == hh;
      assert s[4..6] == mm;
      Narrow(hh, zone / 60, 0, 23, 99);
      Narrow(mm, zone % 60, 0, 59, 99);
      assert |s| == 6 && s[0] == sign && s[3] == ':';
      assert zone / 60 * 60 + zone % 60 == zone;
      assert ParseZone(s) == Some(if sign == '-' then -(zone * 60) else zone * 60);
    }
  }

  lemma Layout(y: string, mo: string, d: string, h: string, mi: string, se: string, z: string)
    requires |y| == 4 && |mo| == |d| == |h| == |mi| == |se| == 2
    ensures var s := y + "-" + mo + "-" + d + "T" + h + ":" + mi + ":" + se + z;
            && |s| == 19 + |z|
            && s[0..4] == y && s[4] == '-' && s[5..7] == mo && s[7] == '-' && s[8..10] == d && s[10] == 'T'
            && s[11..13] == h && s[13] == ':' && s[14..16] == mi && s[16] == ':' && s[17..19] == se
            && s[19..] == z
  {}

  /** Four-digit years: the text reads back as the same clock reading, to the second,
      in a zone whose offset is cut to whole minutes. */
  lemma ReadsBack(t: Instant)
    requires 0 <= t.year <= 9999
    ensures Parse(Format(t)) == Some(ToSecond(t).(offset := WholeMinutes(t.offset)))
  {
    var y, mo, d := PadYear(t.year), Pad2(t.month), Pad2(t.day);
    var h, mi, se := Pad2(t.hour), Pad2(t.minute), Pad2(t.second);
    Layout(y, mo, d, h, mi, se, FormatZone(t.offset));
    ZoneRoundTrip(t.offset);
    Narrow(mo, t.month, 1, 12, 99);
    Narrow(d, t.day, 1, DaysIn(t.month, t.year), 99);
    Narrow(h, t.hour, 0, 23, 99);
    Narrow(mi, t.minute, 0, 59, 99);
    Narrow(se, t.second, 0, 59, 99);
  }

  lemma LongYearUnreadable(t: Instant)
    requires t.year < 0 || 9999 < t.year
    ensures Parse(Format(t)).None?
  {
    var s := Format(t);
    var y := PadYear(t.year);
    assert y <= FormatDateTime(t) <= s;
    if t.year < 0 {
      assert s[0..4][0] == '-';
    } else {
      assert s[4] == y[4] && IsDigit(y[4]);
    }
  }

  /** A stored timestamp reads back as itself, to the second, exactly when it is
      representable: outside that the year cannot be read or the zone has moved. */
  lemma RoundTripIffRepresentable(t: Instant)
    ensures Parse(Format(t)) == Some(ToSecond(t)) <==> Representable(t)
  {
    if 0 <= t.year <= 9999 {
      ReadsBack(t);
    } else {
      LongYearUnreadable(t);
    }
  }

  /** Where each field stands in the text, as section 5.6 of RFC 3339 has it. */
  lemma TextLayout(t: Instant)
    requires 0 <= t.year <= 9999
    ensures var s := Format(t);
            && |s| >= 20 && s[4] == s[7] == '-' && s[10] == 'T' && s[13] == s[16] == ':'
            && ParseUint(s[..4], 0, 9999) == Some(t.year)
            && ParseUint(s[5..7], 0, 99) == Some(t.month) && ParseUint(s[8..10], 0, 99) == Some(t.day)
            && ParseUint(s[11..13], 0, 99) == Some(t.hour) && ParseUint(s[14..16], 0, 99) == Some(t.minute)
            && ParseUint(s[17..19], 0, 99) == Some(t.second)
            && s[19..] == FormatZone(t.offset)
  {
    hide ParseUint, FormatZone, Pad2, Pad4;
    Layout(PadYear(t.year), Pad2(t.month), Pad2(t.day), Pad2(t.hour), Pad2(t.minute), Pad2(t.second),
           FormatZone(t.offset));
    ZoneNotEmpty(t.offset);
  }

  lemma ZoneNotEmpty(offset: int)
    requires -86400 < offset < 86400
    ensures if offset == 0 then FormatZone(offset) == "Z"
            else |FormatZone(offset)| == 6 && FormatZone(offset)[0] == if offset <= -60 then '-' else '+'
  {}
}
