/** The text that bio/main.py derives from clocks and configuration: the decimal
    form of an integer, strftime's zero-padded fields, the punch time, the batch
    file name and the unique id of a log row. */
module Formats {
  import opened Wrappers

  predicate IsDigit(c: char) {
    '0' <= c <= '9'
  }

  predicate AllDigits(s: string) {
    forall i :: 0 <= i < |s| ==> IsDigit(s[i])
  }

  function DigitValue(c: char): nat
    requires IsDigit(c)
  {
    (c as int) - ('0' as int)
  }

  function DigitChar(d: nat): (c: char)
    requires d < 10
    ensures IsDigit(c) && DigitValue(c) == d
  {
    (('0' as int) + d) as char
  }

  function Pow10(k: nat): (p: nat)
    ensures p >= 1
  {
    if k == 0 then 1 else 10 * Pow10(k - 1)
  }

  /** The number a digit string denotes in base 10, its last digit being the units. */
  function ValueOf(s: string): nat
    requires AllDigits(s)
  {
    if s == [] then 0 else 10 * ValueOf(s[..|s| - 1]) + DigitValue(s[|s| - 1])
  }

  // ---------------------------------------------------------------------------
  // Decimal numbers, as Python's f"{n}" writes a non-negative int
  // ---------------------------------------------------------------------------

  /** Base-10 digits without leading zeros ("0" for zero). */
  function Decimal(n: nat): (s: string)
    ensures 1 <= |s| && AllDigits(s)
    ensures 1 < |s| ==> s[0] != '0'
  {
    if n < 10 then [DigitChar(n)] else Decimal(n / 10) + [DigitChar(n % 10)]
  }

  /** Reads a canonical decimal numeral back: digits only, no leading zero. */
  function ParseDecimal(s: string): Option<nat>
  {
    if 1 <= |s| && AllDigits(s) && (|s| == 1 || s[0] != '0') then Some(ValueOf(s)) else None
  }

  lemma {:induction false} DecimalValue(n: nat)
    ensures ValueOf(Decimal(n)) == n
  {
    var s := Decimal(n);
    if n < 10 {
      assert s[..|s| - 1] == [];
    } else {
      assert s[..|s| - 1] == Decimal(n / 10);
      DecimalValue(n / 10);
    }
  }

  lemma DecimalRoundTrip(n: nat)
    ensures ParseDecimal(Decimal(n)) == Some(n)
  {
    DecimalValue(n);
  }

  // ---------------------------------------------------------------------------
  // Zero-padded fields and the timestamps built from them
  // ---------------------------------------------------------------------------

  /** n written in exactly `width` digits, zero-padded on the left, as strftime's
      %m, %d, %H, %M, %S (width 2) and %Y (width 4) write a field. */
  function Padded(n: nat, width: nat): (s: string)
    ensures |s| == width && AllDigits(s)
  {
    if width == 0 then [] else Padded(n / 10, width - 1) + [DigitChar(n % 10)]
  }

  lemma {:induction false} PaddedValue(n: nat, width: nat)
    requires n < Pow10(width)
    ensures ValueOf(Padded(n, width)) == n
  {
    var s := Padded(n, width);
    if width > 0 {
      assert s[..|s| - 1] == Padded(n / 10, width - 1);
      assert n / 10 < Pow10(width - 1);
      PaddedValue(n / 10, width - 1);
    }
  }

  /** A digit string denotes less than ten to the power of its length. */
  lemma {:induction false} ValueBound(s: string)
    requires AllDigits(s)
    ensures ValueOf(s) < Pow10(|s|)
  {
    if s != [] {
      ValueBound(s[..|s| - 1]);
    }
  }

  /** Every digit string is the padded form of its own value at its own width. */
  lemma {:induction false} PaddedOfValue(s: string)
    requires AllDigits(s)
    ensures Padded(ValueOf(s), |s|) == s
  {
    if s != [] {
      var init := s[..|s| - 1];
      PaddedOfValue(init);
      assert ValueOf(s) / 10 == ValueOf(init);
      assert ValueOf(s) % 10 == DigitValue(s[|s| - 1]);
      assert s == init + [s[|s| - 1]];
    }
  }

  /** The wall-clock reading of datetime.now(). */
  datatype DateTime = DateTime(year: nat, month: nat, day: nat, hour: nat, minute: nat, second: nat)

  /** Readings whose fields strftime prints at their nominal widths (four-digit years). */
  predicate ValidDateTime(t: DateTime) {
    1000 <= t.year <= 9999 && 1 <= t.month <= 12 && 1 <= t.day <= 31 &&
    t.hour < 24 && t.minute < 60 && t.second < 60
  }

  /** strftime("%Y%m%d") */
  function DateStamp(t: DateTime): (s: string)
    ensures |s| == 8 && AllDigits(s)
  {
    Padded(t.year, 4) + Padded(t.month, 2) + Padded(t.day, 2)
  }

  /** strftime("%H%M%S") */
  function ClockStamp(t: DateTime): (s: string)
    ensures |s| == 6 && AllDigits(s)
  {
    Padded(t.hour, 2) + Padded(t.minute, 2) + Padded(t.second, 2)
  }

  /** strftime("%Y-%m-%d %H:%M:%S"), the punch_time column. */
  function PunchTime(t: DateTime): string
  {
    Padded(t.year, 4) + "-" + Padded(t.month, 2) + "-" + Padded(t.day, 2) + " " +
    Padded(t.hour, 2) + ":" + Padded(t.minute, 2) + ":" + Padded(t.second, 2)
  }

  /** Where each field of the reading sits in the punch time: 19 characters, the
      date fields joined by '-', a space, and the clock fields joined by ':'. */
  lemma PunchTimeLayout(t: DateTime)
    ensures var s := PunchTime(t);
      |s| == 19 && s[4] == '-' && s[7] == '-' && s[10] == ' ' && s[13] == ':' && s[16] == ':' &&
      s[..4] == Padded(t.year, 4) && s[5..7] == Padded(t.month, 2) && s[8..10] == Padded(t.day, 2) &&
      s[11..13] == Padded(t.hour, 2) && s[14..16] == Padded(t.minute, 2) && s[17..] == Padded(t.second, 2) &&
      s[..4] + s[5..7] + s[8..10] == DateStamp(t) && s[11..13] + s[14..16] + s[17..] == ClockStamp(t)
  {
    var s := PunchTime(t);
    var y, mo, d := Padded(t.year, 4), Padded(t.month, 2), Padded(t.day, 2);
    var h, mi, se := Padded(t.hour, 2), Padded(t.minute, 2), Padded(t.second, 2);
    assert s == y + "-" + mo + "-" + d + " " + h + ":" + mi + ":" + se;
    assert s[..4] == y;
    assert s[5..7] == mo;
    assert s[8..10] == d;
    assert s[11..13] == h;
    assert s[14..16] == mi;
    assert s[17..] == se;
  }

  /** Two readings give the same punch time exactly when they fall in the same second. */
  lemma PunchTimeInjective(t1: DateTime, t2: DateTime)
    requires ValidDateTime(t1) && ValidDateTime(t2)
    ensures PunchTime(t1) == PunchTime(t2) <==> t1 == t2
  {
    if PunchTime(t1) == PunchTime(t2) {
      PunchTimeLayout(t1);
      PunchTimeLayout(t2);
      assert Pow10(2) == 100 && Pow10(4) == 10000;
      PaddedValue(t1.year, 4);
      PaddedValue(t2.year, 4);
      PaddedValue(t1.month, 2);
      PaddedValue(t2.month, 2);
      PaddedValue(t1.day, 2);
      PaddedValue(t2.day, 2);
      PaddedValue(t1.hour, 2);
      PaddedValue(t2.hour, 2);
      PaddedValue(t1.minute, 2);
      PaddedValue(t2.minute, 2);
      PaddedValue(t1.second, 2);
      PaddedValue(t2.second, 2);
    }
  }

  const BatchPrefix: string := "attendance_"
  const BatchSuffix: string := ".csv"

  /** f"attendance_{timestamp}.csv" with timestamp = strftime("%Y%m%d_%H%M%S"). */
  function BatchFileName(t: DateTime): string
  {
    BatchPrefix + DateStamp(t) + "_" + ClockStamp(t) + BatchSuffix
  }

  /** Where each field of the reading sits in the batch file name. */
  lemma BatchFileNameLayout(t: DateTime)
    ensures var name := BatchFileName(t);
      |name| == 30 && name[..11] == BatchPrefix && name[19] == '_' && name[26..] == BatchSuffix &&
      name[11..19] == DateStamp(t) && name[20..26] == ClockStamp(t) &&
      name[11..15] == Padded(t.year, 4) && name[15..17] == Padded(t.month, 2) &&
      name[17..19] == Padded(t.day, 2) && name[20..22] == Padded(t.hour, 2) &&
      name[22..24] == Padded(t.minute, 2) && name[24..26] == Padded(t.second, 2)
  {
    var name := BatchFileName(t);
    assert name == BatchPrefix + DateStamp(t) + "_" + ClockStamp(t) + BatchSuffix;
    assert name[11..19] == DateStamp(t);
    assert name[20..26] == ClockStamp(t);
    assert DateStamp(t)[..4] == Padded(t.year, 4);
    assert DateStamp(t)[4..6] == Padded(t.month, 2);
    assert DateStamp(t)[6..] == Padded(t.day, 2);
    assert ClockStamp(t)[..2] == Padded(t.hour, 2);
    assert ClockStamp(t)[2..4] == Padded(t.minute, 2);
    assert ClockStamp(t)[4..] == Padded(t.second, 2);
  }

  /** Two readings give the same batch file name exactly when they fall in the same
      second: batches prepared within one second share their name. */
  lemma BatchFileNameInjective(t1: DateTime, t2: DateTime)
    requires ValidDateTime(t1) && ValidDateTime(t2)
    ensures BatchFileName(t1) == BatchFileName(t2) <==> t1 == t2
  {
    if BatchFileName(t1) == BatchFileName(t2) {
      BatchFileNameLayout(t1);
      BatchFileNameLayout(t2);
      assert Pow10(2) == 100 && Pow10(4) == 10000;
      PaddedValue(t1.year, 4);
      PaddedValue(t2.year, 4);
      PaddedValue(t1.month, 2);
      PaddedValue(t2.month, 2);
      PaddedValue(t1.day, 2);
      PaddedValue(t2.day, 2);
      PaddedValue(t1.hour, 2);
      PaddedValue(t2.hour, 2);
      PaddedValue(t1.minute, 2);
      PaddedValue(t2.minute, 2);
      PaddedValue(t1.second, 2);
      PaddedValue(t2.second, 2);
    }
  }

  // ---------------------------------------------------------------------------
  // The unique id of a log row
  // ---------------------------------------------------------------------------

  /** f"{device_id}_{int(time.time()*1000)}" */
  function UniqueId(deviceId: string, epochMillis: nat): string
  {
    deviceId + "_" + Decimal(epochMillis)
  }

  /** Position of the last underscore, if any. */
  function LastUnderscore(s: string): (r: Option<nat>)
    ensures r.Some? ==> r.value < |s| && s[r.value] == '_' &&
                        forall j :: r.value < j < |s| ==> s[j] != '_'
    ensures r.None? ==> forall j :: 0 <= j < |s| ==> s[j] != '_'
  {
    if s == [] then None
    else if s[|s| - 1] == '_' then Some(|s| - 1)
    else LastUnderscore(s[..|s| - 1])
  }

  /** Splits an id at its last underscore into the device id and the milliseconds. */
  function ParseUniqueId(id: string): Option<(string, nat)>
  {
    match LastUnderscore(id)
    case None => None
    case Some(k) =>
      match ParseDecimal(id[k + 1..])
      case None => None
      case Some(millis) => Some((id[..k], millis))
  }

  /** The id keeps both of its parts: the device id and the millisecond it was made. */
  lemma UniqueIdRoundTrip(deviceId: string, epochMillis: nat)
    ensures ParseUniqueId(UniqueId(deviceId, epochMillis)) == Some((deviceId, epochMillis))
  {
    var id := UniqueId(deviceId, epochMillis);
    var k := |deviceId|;
    assert id[k] == '_';
    assert id[k + 1..] == Decimal(epochMillis);
    assert id[..k] == deviceId;
    var r := LastUnderscore(id);
    assert forall j :: k < j < |id| ==> id[j] == Decimal(epochMillis)[j - k - 1];
    assert r.Some? && r.value == k;
    DecimalRoundTrip(epochMillis);
  }

  /** Ids collide exactly when device and millisecond both coincide, whatever
      underscores the device id itself contains. */
  lemma UniqueIdInjective(d1: string, m1: nat, d2: string, m2: nat)
    ensures UniqueId(d1, m1) == UniqueId(d2, m2) <==> d1 == d2 && m1 == m2
  {
    UniqueIdRoundTrip(d1, m1);
    UniqueIdRoundTrip(d2, m2);
  }
}
