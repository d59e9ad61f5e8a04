/** The logger's timestamp: `"[" + now.strftime("%H:%M:%S") + "]"`, or with
    `":%f"` (microseconds) appended inside the brackets in the extra-long form.
    The current instant is an input: the clock itself is not modelled. */
module Timestamps {
  import opened Wrappers
  import opened Text

  /** The fields of a `datetime` that the timestamp reads. */
  datatype Clock = Clock(hour: nat, minute: nat, second: nat, micro: nat)

  /** The ranges `datetime` guarantees for these fields. */
  predicate ValidClock(c: Clock) {
    c.hour < 24 && c.minute < 60 && c.second < 60 && c.micro < 1000000
  }

  /** The instant as the short form can show it (microseconds dropped). */
  function Shown(c: Clock, extraLong: bool): Clock {
    if extraLong then c else c.(micro := 0)
  }

  /** `%H:%M:%S`. */
  function Hms(c: Clock): (s: string)
    requires ValidClock(c)
    ensures |s| == 8
  {
    assert Pow10(2) == 100;
    Digits(c.hour, 2) + ":" + Digits(c.minute, 2) + ":" + Digits(c.second, 2)
  }

  /** What stands between the brackets. */
  function Body(c: Clock, extraLong: bool): (s: string)
    requires ValidClock(c)
    ensures |s| == if extraLong then 15 else 8
  {
    assert Pow10(6) == 1000000;
    Hms(c) + (if extraLong then ":" + Digits(c.micro, 6) else "")
  }

  /** `_timestamp_now_(extra_long)` for the instant `c`. */
  function Format(c: Clock, extraLong: bool): (s: string)
    requires ValidClock(c)
    ensures |s| == if extraLong then 17 else 10
    ensures s[0] == '[' && s[|s| - 1] == ']'
  {
    "[" + Body(c, extraLong) + "]"
  }

  /** A field of `w` digits. */
  function ParseField(f: string, w: nat): Option<nat> {
    if |f| == w && AllDigits(f) then Some(Value(f)) else None
  }

  /** Reads `%H:%M:%S` back into hour, minute and second. */
  function ParseHms(b: string): Option<(nat, nat, nat)> {
    if |b| == 8 && b[2] == ':' && b[5] == ':' then
      var h, m, s := ParseField(b[..2], 2), ParseField(b[3..5], 2), ParseField(b[6..], 2);
      if h.Some? && m.Some? && s.Some? then Some((h.value, m.value, s.value)) else None
    else None
  }

  /** Reads what stands between the brackets; the flag says whether it was the long form. */
  function ParseBody(b: string): Option<(Clock, bool)> {
    if |b| == 8 || (|b| == 15 && b[8] == ':') then
      var hms := ParseHms(b[..8]);
      var micro := if |b| == 15 then ParseField(b[9..], 6) else Some(0);
      if hms.Some? && micro.Some? then
        var c := Clock(hms.value.0, hms.value.1, hms.value.2, micro.value);
        if ValidClock(c) then Some((c, |b| == 15)) else None
      else None
    else None
  }

  /** Reads a timestamp back; `None` for anything `Format` cannot produce. */
  function Parse(s: string): Option<(Clock, bool)> {
    if 2 <= |s| && s[0] == '[' && s[|s| - 1] == ']' then ParseBody(s[1..|s| - 1]) else None
  }

  lemma ParseFieldDigits(n: nat, w: nat)
    requires n < Pow10(w)
    ensures ParseField(Digits(n, w), w) == Some(n)
  {
    ValueOfDigits(n, w);
  }

  lemma ParseFieldInverse(f: string, w: nat)
    requires ParseField(f, w).Some?
    ensures ParseField(f, w).value < Pow10(w) && Digits(ParseField(f, w).value, w) == f
  {
    DigitsOfValue(f);
  }

  lemma ParseHmsOf(c: Clock)
    requires ValidClock(c)
    ensures ParseHms(Hms(c)) == Some((c.hour, c.minute, c.second))
  {
    assert Pow10(2) == 100;
    var b := Hms(c);
    assert b[..2] == Digits(c.hour, 2);
    assert b[3..5] == Digits(c.minute, 2);
    assert b[6..] == Digits(c.second, 2);
    ParseFieldDigits(c.hour, 2);
    ParseFieldDigits(c.minute, 2);
    ParseFieldDigits(c.second, 2);
  }

  lemma ParseBodyOf(c: Clock, extraLong: bool)
    requires ValidClock(c)
    ensures ParseBody(Body(c, extraLong)) == Some((Shown(c, extraLong), extraLong))
  {
    assert Pow10(6) == 1000000;
    var b := Body(c, extraLong);
    assert b[..8] == Hms(c);
    ParseHmsOf(c);
    if extraLong {
      assert b[9..] == Digits(c.micro, 6);
      ParseFieldDigits(c.micro, 6);
    }
  }

  /** Parsing a rendered timestamp recovers the instant it shows and its form. */
  lemma ParseFormat(c: Clock, extraLong: bool)
    requires ValidClock(c)
    ensures Parse(Format(c, extraLong)) == Some((Shown(c, extraLong), extraLong))
  {
    var s := Format(c, extraLong);
    assert s[1..|s| - 1] == Body(c, extraLong);
    ParseBodyOf(c, extraLong);
  }

  lemma HmsOfParse(b: string)
    requires ParseHms(b).Some?
    ensures ParseHms(b).value.0 < 100 && ParseHms(b).value.1 < 100 && ParseHms(b).value.2 < 100
    ensures var (h, m, s) := ParseHms(b).value;
      h < 24 && m < 60 && s < 60 ==> Hms(Clock(h, m, s, 0)) == b
  {
    assert Pow10(2) == 100;
    ParseFieldInverse(b[..2], 2);
    ParseFieldInverse(b[3..5], 2);
    ParseFieldInverse(b[6..], 2);
    var (h, m, s) := ParseHms(b).value;
    if h < 24 && m < 60 && s < 60 {
      assert b == b[..2] + ":" + b[3..5] + ":" + b[6..];
    }
  }

  lemma BodyOfParse(b: string)
    requires ParseBody(b).Some?
    ensures ValidClock(ParseBody(b).value.0)
    ensures Body(ParseBody(b).value.0, ParseBody(b).value.1) == b
  {
    assert Pow10(6) == 1000000;
    var (c, extraLong) := ParseBody(b).value;
    HmsOfParse(b[..8]);
    assert Hms(c) == Hms(Clock(c.hour, c.minute, c.second, 0));
    if extraLong {
      ParseFieldInverse(b[9..], 6);
      assert b == b[..8] + ":" + b[9..];
    } else {
      assert b == b[..8];
    }
  }

  /** Everything `Parse` accepts is exactly one rendered timestamp. */
  lemma FormatParse(s: string)
    requires Parse(s).Some?
    ensures ValidClock(Parse(s).value.0)
    ensures Format(Parse(s).value.0, Parse(s).value.1) == s
  {
    BodyOfParse(s[1..|s| - 1]);
    assert s == "[" + s[1..|s| - 1] + "]";
  }

  /** Two instants give the same timestamp exactly when they agree on what it shows. */
  lemma FormatInjective(c: Clock, d: Clock, extraLong: bool)
    requires ValidClock(c) && ValidClock(d)
    ensures Format(c, extraLong) == Format(d, extraLong) <==> Shown(c, extraLong) == Shown(d, extraLong)
  {
    ParseFormat(c, extraLong);
    ParseFormat(d, extraLong);
  }
}
