/**
 * Timestamps and their rendering. Every resource renders created_at and
 * updated_at with Carbon's toDateTimeString(), whose format is
 * "Y-m-d H:i:s": a four-digit year and two-digit month, day, hour, minute and
 * second, each zero-padded.
 */
module Dates {
  import opened Wrappers
  import opened Text

  datatype DateTime = DateTime(year: nat, month: nat, day: nat, hour: nat, minute: nat, second: nat)

  /** The fields fit the widths of the format. */
  predicate FitsFormat(t: DateTime) {
    t.year < 10000 && t.month < 100 && t.day < 100 && t.hour < 100 && t.minute < 100 && t.second < 100
  }

  /** n in base ten, left-padded with zeros to at least width characters. */
  function Pad(n: nat, width: nat): (s: string)
    ensures AllDigits(s) && |s| >= width
  {
    var d := DecimalString(n);
    if |d| < width then Zeros(width - |d|) + d else d
  }

  lemma PadExact(n: nat, width: nat)
    requires 1 <= width && n < Pow10(width)
    ensures |Pad(n, width)| == width && ParseDecimal(Pad(n, width)) == Some(n)
  {
    DecimalLength(n, width);
    DecimalRoundTrip(n);
    var d := DecimalString(n);
    if |d| < width {
      LeadingZerosValue(width - |d|, d);
    }
  }

  lemma PadWidths(t: DateTime)
    ensures FitsFormat(t) ==>
      |Pad(t.year, 4)| == 4 && |Pad(t.month, 2)| == 2 && |Pad(t.day, 2)| == 2 &&
      |Pad(t.hour, 2)| == 2 && |Pad(t.minute, 2)| == 2 && |Pad(t.second, 2)| == 2
  {
    if FitsFormat(t) {
      PadExact(t.year, 4); PadExact(t.month, 2); PadExact(t.day, 2);
      PadExact(t.hour, 2); PadExact(t.minute, 2); PadExact(t.second, 2);
    }
  }

  /** Carbon's toDateTimeString(). */
  function ToDateTimeString(t: DateTime): (s: string)
    ensures FitsFormat(t) ==>
      |s| == 19 && s[4] == '-' && s[7] == '-' && s[10] == ' ' && s[13] == ':' && s[16] == ':'
  {
    PadWidths(t);
    Pad(t.year, 4) + "-" + Pad(t.month, 2) + "-" + Pad(t.day, 2) + " " +
    Pad(t.hour, 2) + ":" + Pad(t.minute, 2) + ":" + Pad(t.second, 2)
  }

  /** Reads a "Y-m-d H:i:s" string back; the reference against which the rendering is checked. */
  function ParseDateTime(s: string): Option<DateTime> {
    if |s| != 19 || s[4] != '-' || s[7] != '-' || s[10] != ' ' || s[13] != ':' || s[16] != ':' then None
    else
      match (ParseDecimal(s[0..4]), ParseDecimal(s[5..7]), ParseDecimal(s[8..10]),
             ParseDecimal(s[11..13]), ParseDecimal(s[14..16]), ParseDecimal(s[17..19]))
      case (Some(y), Some(mo), Some(d), Some(h), Some(mi), Some(se)) => Some(DateTime(y, mo, d, h, mi, se))
      case _ => None
  }

  /** The rendering loses nothing: it parses back to the same timestamp. */
  lemma DateTimeRoundTrip(t: DateTime)
    requires FitsFormat(t)
    ensures ParseDateTime(ToDateTimeString(t)) == Some(t)
  {
    PadExact(t.year, 4); PadExact(t.month, 2); PadExact(t.day, 2);
    PadExact(t.hour, 2); PadExact(t.minute, 2); PadExact(t.second, 2);
    var s := ToDateTimeString(t);
    assert s[0..4] == Pad(t.year, 4);
    assert s[5..7] == Pad(t.month, 2);
    assert s[8..10] == Pad(t.day, 2);
    assert s[11..13] == Pad(t.hour, 2);
    assert s[14..16] == Pad(t.minute, 2);
    assert s[17..19] == Pad(t.second, 2);
  }

  /** Two timestamps that render alike are equal. */
  lemma DateTimeStringInjective(t: DateTime, u: DateTime)
    requires FitsFormat(t) && FitsFormat(u)
    requires ToDateTimeString(t) == ToDateTimeString(u)
    ensures t == u
  {
    DateTimeRoundTrip(t);
    DateTimeRoundTrip(u);
  }
}
