/**
 * Backup file names: `generate_filename` stamps the database name with the current time
 * formatted by `strftime("%Y%m%d_%H%M")`. The clock is read by the caller and passed in.
 */
module Timestamps {

  /** A wall-clock time at minute resolution, as `datetime.now()` reports it. */
  datatype Stamp = Stamp(year: nat, month: nat, day: nat, hour: nat, minute: nat)

  function DigitChar(d: nat): (c: char)
    requires d < 10
    ensures '0' <= c <= '9'
  {
    ('0' as int + d) as char
  }

  function DigitValue(c: char): nat {
    if '0' <= c <= '9' then (c as int - '0' as int) as nat else 0
  }

  function Pow10(k: nat): (r: nat)
    ensures r >= 1
  {
    if k == 0 then 1 else 10 * Pow10(k - 1)
  }

  /** `str(n)` for a natural number: its decimal digits, without leading zeros. */
  function Decimal(n: nat): (s: string)
    ensures 1 <= |s|
    ensures forall i :: 0 <= i < |s| ==> '0' <= s[i] <= '9'
  {
    if n < 10 then [DigitChar(n)] else Decimal(n / 10) + [DigitChar(n % 10)]
  }

  function Zeros(k: nat): (s: string)
    ensures |s| == k
    ensures forall i :: 0 <= i < k ==> s[i] == '0'
  {
    if k == 0 then [] else Zeros(k - 1) + "0"
  }

  /** A zero-padded field such as `%m` or `%H`: at least `width` digits. */
  function Pad(n: nat, width: nat): string {
    var d := Decimal(n);
    if |d| < width then Zeros(width - |d|) + d else d
  }

  /** The value of a string of decimal digits (reading `int(s)` for well-formed input). */
  function ParseDecimal(s: string): nat {
    if s == [] then 0 else ParseDecimal(s[..|s| - 1]) * 10 + DigitValue(s[|s| - 1])
  }

  /**
   * `strftime("%Y%m%d_%H%M")`. The C library prints `%Y` without padding, so a year below
   * 1000 has fewer than four digits; the other fields are padded to two.
   */
  function FormatStamp(t: Stamp): string {
    Decimal(t.year) + Pad(t.month, 2) + Pad(t.day, 2) + "_" + Pad(t.hour, 2) + Pad(t.minute, 2)
  }

  /** Reads the fields back from a formatted stamp of the usual 13 characters. */
  function ParseStamp(s: string): Stamp
    requires |s| == 13
  {
    Stamp(ParseDecimal(s[0..4]), ParseDecimal(s[4..6]), ParseDecimal(s[6..8]),
          ParseDecimal(s[9..11]), ParseDecimal(s[11..13]))
  }

  /** A time whose year has four digits and whose other fields have at most two. */
  predicate Formattable(t: Stamp) {
    1000 <= t.year < 10000 && t.month < 100 && t.day < 100 && t.hour < 100 && t.minute < 100
  }

  /** `generate_filename(dbname)` with the clock reading `now`: `<dbname>_<stamp>`. */
  function GenerateFilename(dbName: string, now: Stamp): string {
    dbName + "_" + FormatStamp(now)
  }

  lemma ParseDecimalSnoc(s: string, c: char)
    ensures ParseDecimal(s + [c]) == ParseDecimal(s) * 10 + DigitValue(c)
  {
    assert (s + [c])[..|s|] == s;
  }

  lemma {:induction false} DecimalRoundTrip(n: nat)
    ensures ParseDecimal(Decimal(n)) == n
  {
    if n < 10 {
      assert Decimal(n) == [] + [DigitChar(n)];
      ParseDecimalSnoc([], DigitChar(n));
    } else {
      DecimalRoundTrip(n / 10);
      ParseDecimalSnoc(Decimal(n / 10), DigitChar(n % 10));
    }
  }

  lemma {:induction false} ZerosParse(k: nat)
    ensures ParseDecimal(Zeros(k)) == 0
  {
    if k > 0 {
      ZerosParse(k - 1);
      ParseDecimalSnoc(Zeros(k - 1), '0');
    }
  }

  lemma {:induction false} LeadingZerosParse(k: nat, s: string)
    ensures ParseDecimal(Zeros(k) + s) == ParseDecimal(s)
    decreases |s|
  {
    if s == [] {
      assert Zeros(k) + s == Zeros(k);
      ZerosParse(k);
    } else {
      var init, last := s[..|s| - 1], s[|s| - 1];
      assert s == init + [last];
      assert Zeros(k) + s == (Zeros(k) + init) + [last];
      LeadingZerosParse(k, init);
      ParseDecimalSnoc(Zeros(k) + init, last);
      ParseDecimalSnoc(init, last);
    }
  }

  /** The number of digits of `n` is the `k` with 10^(k-1) <= n < 10^k. */
  lemma {:induction false} DecimalLength(n: nat)
    ensures n < Pow10(|Decimal(n)|)
    ensures |Decimal(n)| > 1 ==> Pow10(|Decimal(n)| - 1) <= n
  {
    if n >= 10 {
      DecimalLength(n / 10);
      var k := |Decimal(n / 10)|;
      assert |Decimal(n)| == k + 1;
      assert n / 10 < Pow10(k);
      assert n < 10 * Pow10(k);
      if k > 1 {
        assert Pow10(k - 1) <= n / 10;
        assert 10 * Pow10(k - 1) <= n;
      }
    }
  }

  lemma {:induction false} Pow10Monotone(i: nat, j: nat)
    requires i <= j
    ensures Pow10(i) <= Pow10(j)
    decreases j
  {
    if i < j {
      Pow10Monotone(i, j - 1);
    }
  }

  lemma PadRoundTrip(n: nat, width: nat)
    requires n < Pow10(width)
    ensures |Pad(n, width)| == if width == 0 then 1 else width
    ensures ParseDecimal(Pad(n, width)) == n
  {
    DecimalLength(n);
    DecimalRoundTrip(n);
    var d := Decimal(n);
    var k := |d|;
    if k < width {
      assert Pad(n, width) == Zeros(width - k) + d;
      LeadingZerosParse(width - k, d);
    } else {
      assert Pad(n, width) == d;
      if k > width && k > 1 {
        Pow10Monotone(width, k - 1);
        assert false;
      }
    }
  }

  lemma YearDigits(y: nat)
    requires 1000 <= y < 10000
    ensures |Decimal(y)| == 4
  {
    DecimalLength(y);
    var k := |Decimal(y)|;
    if k < 4 {
      Pow10Monotone(k, 3);
    } else if k > 4 {
      Pow10Monotone(4, k - 1);
    }
  }

  /** Every formattable time survives formatting: the stamp has 13 characters and reads back as the same time. */
  lemma StampRoundTrip(t: Stamp)
    requires Formattable(t)
    ensures |FormatStamp(t)| == 13
    ensures FormatStamp(t)[8] == '_'
    ensures ParseStamp(FormatStamp(t)) == t
  {
    YearDigits(t.year);
    DecimalRoundTrip(t.year);
    PadRoundTrip(t.month, 2);
    PadRoundTrip(t.day, 2);
    PadRoundTrip(t.hour, 2);
    PadRoundTrip(t.minute, 2);
    var y, mo, d, h, mi := Decimal(t.year), Pad(t.month, 2), Pad(t.day, 2), Pad(t.hour, 2), Pad(t.minute, 2);
    var s := FormatStamp(t);
    assert s == y + mo + d + "_" + h + mi;
    assert s[0..4] == y;
    assert s[4..6] == mo;
    assert s[6..8] == d;
    assert s[9..11] == h;
    assert s[11..13] == mi;
  }

  /**
   * The file name is the database name, an underscore and a 13-character stamp from which
   * the clock reading can be read back.
   */
  lemma FilenameRoundTrip(dbName: string, now: Stamp)
    requires Formattable(now)
    ensures |GenerateFilename(dbName, now)| == |dbName| + 14
    ensures GenerateFilename(dbName, now)[..|dbName| + 1] == dbName + "_"
    ensures ParseStamp(GenerateFilename(dbName, now)[|dbName| + 1..]) == now
  {
    StampRoundTrip(now);
    var f := GenerateFilename(dbName, now);
    assert f[|dbName| + 1..] == FormatStamp(now);
  }
}
