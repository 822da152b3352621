/** The export file name `annotations_YYYYMMDD_HHMMSS.<ext>`: the timestamp
    formatted with `strftime('%Y%m%d_%H%M%S')`, and the extension `geojson`
    when the chosen format is exactly "GeoJSON", `csv` otherwise. The wall
    clock is not read here: the timestamp is a parameter. */
module ExportName {

  /** The fields of a `datetime` that `%Y%m%d_%H%M%S` prints. */
  datatype Timestamp = Timestamp(year: int, month: int, day: int, hour: int, minute: int, second: int)

  /** The ranges a `datetime` guarantees for those fields. */
  predicate ValidStamp(t: Timestamp) {
    && 1 <= t.year <= 9999 && 1 <= t.month <= 12 && 1 <= t.day <= 31
    && 0 <= t.hour < 24 && 0 <= t.minute < 60 && 0 <= t.second < 60
  }

  const Prefix: string := "annotations_"

  function Pow10(w: nat): (p: nat)
    ensures p >= 1
  {
    if w == 0 then 1 else 10 * Pow10(w - 1)
  }

  predicate IsDigit(c: char) {
    '0' <= c <= '9'
  }

  predicate AllDigits(s: string) {
    forall i :: 0 <= i < |s| ==> IsDigit(s[i])
  }

  function DigitChar(d: nat): (c: char)
    requires d < 10
    ensures IsDigit(c) && c as int - '0' as int == d
  {
    ('0' as int + d) as char
  }

  /** `n` printed in decimal, zero-padded (or cut) to its last `width`
      digits, as `%04d` / `%02d` print the `strftime` fields. */
  function Pad(n: nat, width: nat): (s: string)
    ensures |s| == width && AllDigits(s)
  {
    if width == 0 then "" else Pad(n / 10, width - 1) + [DigitChar(n % 10)]
  }

  /** The number a string of decimal digits denotes. */
  function DigitsValue(s: string): nat
    requires AllDigits(s)
  {
    if s == [] then 0
    else DigitsValue(s[..|s| - 1]) * 10 + (s[|s| - 1] as int - '0' as int)
  }

  /** Zero-padding loses nothing for a number that fits in the width:
      reading the digits back gives the number. */
  lemma {:induction false} PadRoundTrip(n: nat, width: nat)
    requires n < Pow10(width)
    ensures DigitsValue(Pad(n, width)) == n
  {
    if width > 0 {
      var s := Pad(n, width);
      assert s[..width - 1] == Pad(n / 10, width - 1);
      PadRoundTrip(n / 10, width - 1);
    }
  }

  /** `strftime('%Y%m%d')` and `strftime('%H%M%S')`. */
  function DatePart(t: Timestamp): string
    requires ValidStamp(t)
  {
    Pad(t.year, 4) + Pad(t.month, 2) + Pad(t.day, 2)
  }

  function TimePart(t: Timestamp): string
    requires ValidStamp(t)
  {
    Pad(t.hour, 2) + Pad(t.minute, 2) + Pad(t.second, 2)
  }

  /** The extension: `.geojson` for exactly the format "GeoJSON", `.csv`
      for every other format, including formats other than "CSV". */
  function Extension(format: string): (e: string)
    ensures e == ".geojson" || e == ".csv"
    ensures e == ".geojson" <==> format == "GeoJSON"
  {
    if format == "GeoJSON" then ".geojson" else ".csv"
  }

  /** The name the Export button writes to. */
  function FileName(t: Timestamp, format: string): (name: string)
    requires ValidStamp(t)
    ensures |name| == 27 + |Extension(format)|
    ensures name[..|Prefix|] == Prefix
    ensures name[27..] == Extension(format)
  {
    Prefix + DatePart(t) + "_" + TimePart(t) + Extension(format)
  }

  /** The layout of the name: the fixed prefix, eight digits, an underscore,
      six digits, then `.geojson` exactly when the format is "GeoJSON" and
      `.csv` for every other format. */
  lemma FileNameLayout(t: Timestamp, format: string)
    requires ValidStamp(t)
    ensures var name := FileName(t, format);
      && |name| == 27 + |Extension(format)|
      && name[..12] == Prefix
      && AllDigits(name[12..20]) && name[20] == '_' && AllDigits(name[21..27])
      && name[27..] == (if format == "GeoJSON" then ".geojson" else ".csv")
  {
  }

  /** The six digit fields of a name in the layout above. */
  predicate HasStampFields(name: string) {
    && |name| >= 27
    && AllDigits(name[12..16]) && AllDigits(name[16..18]) && AllDigits(name[18..20])
    && AllDigits(name[21..23]) && AllDigits(name[23..25]) && AllDigits(name[25..27])
  }

  /** Reading the timestamp back out of a file name. */
  function StampOf(name: string): Timestamp
    requires HasStampFields(name)
  {
    Timestamp(
      DigitsValue(name[12..16]), DigitsValue(name[16..18]), DigitsValue(name[18..20]),
      DigitsValue(name[21..23]), DigitsValue(name[23..25]), DigitsValue(name[25..27]))
  }

  /** The name records the timestamp to the second and the format's
      extension; in particular two exports a second or more apart never
      share a name, and a GeoJSON and a CSV export never do. */
  lemma FileNameRoundTrip(t: Timestamp, format: string)
    requires ValidStamp(t)
    ensures var name := FileName(t, format);
      HasStampFields(name) && StampOf(name) == t
      && (name[27..] == ".geojson" <==> format == "GeoJSON")
  {
    var name := FileName(t, format);
    FileNameLayout(t, format);
    assert name[12..16] == Pad(t.year, 4);
    assert name[16..18] == Pad(t.month, 2);
    assert name[18..20] == Pad(t.day, 2);
    assert name[21..23] == Pad(t.hour, 2);
    assert name[23..25] == Pad(t.minute, 2);
    assert name[25..27] == Pad(t.second, 2);
    assert Pow10(4) == 10000 && Pow10(2) == 100;
    PadRoundTrip(t.year, 4);
    PadRoundTrip(t.month, 2);
    PadRoundTrip(t.day, 2);
    PadRoundTrip(t.hour, 2);
    PadRoundTrip(t.minute, 2);
    PadRoundTrip(t.second, 2);
  }

  /** Distinct timestamps or distinct extensions give distinct names. */
  lemma FileNameInjective(t1: Timestamp, f1: string, t2: Timestamp, f2: string)
    requires ValidStamp(t1) && ValidStamp(t2)
    requires FileName(t1, f1) == FileName(t2, f2)
    ensures t1 == t2 && Extension(f1) == Extension(f2)
  {
    FileNameRoundTrip(t1, f1);
    FileNameRoundTrip(t2, f2);
    FileNameLayout(t1, f1);
    FileNameLayout(t2, f2);
  }
}
