/** The clock reading that names every stored image, rendered as Python's
    `datetime.strftime("%Y%m%d_%H%M%S_%f")` renders it (api/main.py:137). */
module Timestamps {
  import opened Wrappers

  /** A `datetime` value, field by field. The clock itself is not modelled:
      a reading is passed in wherever the source calls `datetime.now()`. */
  datatype Timestamp = Timestamp(
    year: int, month: int, day: int,
    hour: int, minute: int, second: int, microsecond: int)

  predicate IsLeapYear(year: int)
  {
    year % 4 == 0 && (year % 100 != 0 || year % 400 == 0)
  }

  function DaysInMonth(year: int, month: int): int
  {
    if month == 2 then (if IsLeapYear(year) then 29 else 28)
    else if month in {4, 6, 9, 11} then 30
    else 31
  }

  /** The ranges Python's `datetime` enforces on its fields. */
  predicate Valid(t: Timestamp)
  {
    && 1 <= t.year <= 9999
    && 1 <= t.month <= 12
    && 1 <= t.day <= DaysInMonth(t.year, t.month)
    && 0 <= t.hour < 24
    && 0 <= t.minute < 60
    && 0 <= t.second < 60
    && 0 <= t.microsecond < 1000000
  }

  function Pow10(n: nat): (p: nat)
    ensures p >= 1
  {
    if n == 0 then 1 else 10 * Pow10(n - 1)
  }

  predicate IsDigit(c: char)
  {
    '0' <= c <= '9'
  }

  predicate AllDigits(s: string)
  {
    forall i :: 0 <= i < |s| ==> IsDigit(s[i])
  }

  function DigitChar(d: nat): (c: char)
    requires d < 10
    ensures IsDigit(c)
  {
    ('0' as int + d) as char
  }

  function DigitValue(c: char): (d: nat)
    requires IsDigit(c)
    ensures d < 10 && DigitChar(d) == c
  {
    c as int - '0' as int
  }

  /** `n` in decimal, zero-padded on the left to exactly `width` digits
      (strftime's `%Y`, `%m`, `%d`, `%H`, `%M`, `%S`, `%f`). */
  function Pad(n: nat, width: nat): (s: string)
    ensures |s| == width && AllDigits(s)
  {
    if width == 0 then "" else Pad(n / 10, width - 1) + [DigitChar(n % 10)]
  }

  /** The value of a string of decimal digits. */
  function Decode(s: string): nat
    requires AllDigits(s)
  {
    if s == [] then 0 else Decode(s[..|s| - 1]) * 10 + DigitValue(s[|s| - 1])
  }

  /** Decoding a padded number gives the number back when it fits the width. */
  lemma {:induction false} DecodePad(n: nat, width: nat)
    requires n < Pow10(width)
    ensures Decode(Pad(n, width)) == n
  {
    if width > 0 {
      var s := Pad(n, width);
      assert s[..|s| - 1] == Pad(n / 10, width - 1);
      DecodePad(n / 10, width - 1);
    }
  }

  /** Every digit string is the padding of its own value at its own width. */
  lemma {:induction false} PadDecode(s: string)
    requires AllDigits(s)
    ensures Decode(s) < Pow10(|s|)
    ensures Pad(Decode(s), |s|) == s
  {
    if s != [] {
      var init, last := s[..|s| - 1], s[|s| - 1];
      PadDecode(init);
      var n := Decode(s);
      assert n == Decode(init) * 10 + DigitValue(last);
      assert n / 10 == Decode(init) && n % 10 == DigitValue(last);
      assert s == init + [last];
    }
  }

  /** `strftime("%Y%m%d_%H%M%S_%f")`. */
  function Render(t: Timestamp): (s: string)
    requires Valid(t)
    ensures |s| == 22
  {
    Pad(t.year, 4) + Pad(t.month, 2) + Pad(t.day, 2) + "_" +
    Pad(t.hour, 2) + Pad(t.minute, 2) + Pad(t.second, 2) + "_" +
    Pad(t.microsecond, 6)
  }

  /** Twenty-two characters: digits, with `_` at indices 8 and 15. */
  predicate Shaped(s: string)
  {
    && |s| == 22 && s[8] == '_' && s[15] == '_'
    && AllDigits(s[0..4]) && AllDigits(s[4..6]) && AllDigits(s[6..8])
    && AllDigits(s[9..11]) && AllDigits(s[11..13]) && AllDigits(s[13..15])
    && AllDigits(s[16..22])
  }

  /** Reads a rendered timestamp back; `None` unless `s` has the rendered
      shape and denotes a valid date and time. */
  function Parse(s: string): (r: Option<Timestamp>)
    ensures r.Some? ==> Valid(r.value)
  {
    if Shaped(s) then
      var t := Timestamp(
        Decode(s[0..4]), Decode(s[4..6]), Decode(s[6..8]),
        Decode(s[9..11]), Decode(s[11..13]), Decode(s[13..15]),
        Decode(s[16..22]));
      if Valid(t) then Some(t) else None
    else None
  }

  /** Parsing undoes rendering. */
  lemma ParseRender(t: Timestamp)
    requires Valid(t)
    ensures Parse(Render(t)) == Some(t)
  {
    var s := Render(t);
    assert s[0..4] == Pad(t.year, 4);
    assert s[4..6] == Pad(t.month, 2);
    assert s[6..8] == Pad(t.day, 2);
    assert s[9..11] == Pad(t.hour, 2);
    assert s[11..13] == Pad(t.minute, 2);
    assert s[13..15] == Pad(t.second, 2);
    assert s[16..22] == Pad(t.microsecond, 6);
    DecodePad(t.year, 4);
    DecodePad(t.month, 2);
    DecodePad(t.day, 2);
    DecodePad(t.hour, 2);
    DecodePad(t.minute, 2);
    DecodePad(t.second, 2);
    DecodePad(t.microsecond, 6);
  }

  /** Rendering undoes parsing: a string `Parse` accepts is the rendering
      of what it parses to. */
  lemma RenderParse(s: string)
    requires Parse(s).Some?
    ensures Render(Parse(s).value) == s
  {
    PadDecode(s[0..4]);
    PadDecode(s[4..6]);
    PadDecode(s[6..8]);
    PadDecode(s[9..11]);
    PadDecode(s[11..13]);
    PadDecode(s[13..15]);
    PadDecode(s[16..22]);
    assert s == s[0..4] + s[4..6] + s[6..8] + "_" + s[9..11] + s[11..13] + s[13..15] + "_" + s[16..22];
  }

  /** Two different clock readings never render alike. */
  lemma RenderInjective(t1: Timestamp, t2: Timestamp)
    requires Valid(t1) && Valid(t2) && t1 != t2
    ensures Render(t1) != Render(t2)
  {
    ParseRender(t1);
    ParseRender(t2);
  }
}
