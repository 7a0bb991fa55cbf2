/** Python's float `//`, `%` and `int()`, the hour/minute/second fields both timestamp
    formatters of the backend compute with them, and the `{:02d}` rendering of a field. */
module Clock {
  import opened Wrappers
  import opened Text

  /** `x // d` on floats with a positive divisor; the integral float is kept as an int. */
  function FloorDiv(x: real, d: real): int
    requires d > 0.0
  {
    (x / d).Floor
  }

  /** `x % d` on floats with a positive divisor: the remainder takes the divisor's sign. */
  function FloorMod(x: real, d: real): real
    requires d > 0.0
  {
    x - d * FloorDiv(x, d) as real
  }

  /** `int(x)` on a float: truncation toward zero. */
  function Trunc(x: real): int {
    if x >= 0.0 then x.Floor else -((-x).Floor)
  }

  /** The three integer fields of a time given in seconds. */
  datatype Fields = Fields(hours: int, minutes: int, seconds: int)

  /** The fields both formatters compute: `int(t // 3600)`, `int((t % 3600) // 60)`, `int(t % 60)`. */
  function ClockFields(t: real): Fields {
    Fields(Trunc(FloorDiv(t, 3600.0) as real),
           Trunc(FloorDiv(FloorMod(t, 3600.0), 60.0) as real),
           Trunc(FloorMod(t, 60.0)))
  }

  /** Whatever the sign of `t`, the fields count the whole seconds of `t`, with minutes and seconds
      in [0, 59]; the hours are positive from one hour on and negative before zero. */
  lemma ClockFieldsCount(t: real)
    ensures var f := ClockFields(t);
      && 0 <= f.minutes < 60 && 0 <= f.seconds < 60
      && f.hours * 3600 + f.minutes * 60 + f.seconds == t.Floor
      && (f.hours > 0 <==> t >= 3600.0)
      && (f.hours >= 0 <==> t >= 0.0)
  {
    var n := t.Floor;
    HoursField(t);
    MinutesField(t);
    SecondsField(t);
    SplitSeconds(n);
  }

  /** The hours field is the whole seconds divided by 3600, rounded down. */
  lemma HoursField(t: real)
    ensures ClockFields(t).hours == t.Floor / 3600
  {
    FloorOfQuotient(t, 3600);
  }

  /** The minutes field is the whole seconds past the hour divided by 60, rounded down. */
  lemma MinutesField(t: real)
    ensures ClockFields(t).minutes == (t.Floor % 3600) / 60
  {
    var h := FloorDiv(t, 3600.0);
    FloorOfQuotient(t, 3600);
    FloorOfShift(t, 3600 * h);
    var rem := FloorMod(t, 3600.0);
    assert rem == t - (3600 * h) as real;
    assert rem.Floor == t.Floor % 3600;
    FloorOfQuotient(rem, 60);
  }

  /** The seconds field is the whole seconds past the minute. */
  lemma SecondsField(t: real)
    ensures ClockFields(t).seconds == t.Floor % 60
  {
    var q := FloorDiv(t, 60.0);
    FloorOfQuotient(t, 60);
    FloorOfShift(t, 60 * q);
    assert FloorMod(t, 60.0) == t - (60 * q) as real;
  }

  lemma FloorOfQuotient(x: real, d: int)
    requires d > 0
    ensures (x / d as real).Floor == x.Floor / d
  {
    var n, dr := x.Floor, d as real;
    var q := n / d;
    assert q * d <= n < q * d + d;
    assert (q * d) as real <= x < (q * d + d) as real;
    assert (q * d) as real == q as real * dr && (q * d + d) as real == (q + 1) as real * dr;
    assert q as real <= x / dr by {
      assert q as real * dr <= x;
    }
    assert x / dr < (q + 1) as real by {
      assert x < (q + 1) as real * dr;
    }
  }

  lemma FloorOfShift(x: real, k: int)
    ensures (x - k as real).Floor == x.Floor - k
  {
  }

  lemma SplitSeconds(n: int)
    ensures 3600 * (n / 3600) + 60 * ((n % 3600) / 60) + n % 60 == n
    ensures (n % 3600) % 60 == n % 60
  {
    var q, r := n / 3600, n % 3600;
    var m, s := r / 60, r % 60;
    assert n == 60 * (60 * q + m) + s;
  }

  /** Python's `f"{n:02d}"`: a leading zero below ten, a minus sign before the digits of a
      negative number. A non-negative field always has two digits or more and reads back as itself. */
  function ZeroPad2(n: int): (s: string)
    ensures n >= 0 ==> |s| >= 2 && ParseNat(s) == Some(n)
    ensures 0 <= n < 100 ==> |s| == 2
    ensures n < 0 ==> |s| >= 2 && s[0] == '-'
  {
    if n < 0 then "-" + NatToString(-n)
    else if n < 10 then
      DigitsValueLeadingZero(NatToString(n));
      ParseNatToString(n);
      "0" + NatToString(n)
    else
      ParseNatToString(n);
      NatToString(n)
  }

  /** Reads colon-separated decimal fields as a count of seconds, each field worth sixty of the
      next, so "HH:MM:SS" and "MM:SS" both read back; None when a field is not decimal. */
  function ParseClock(s: string): Option<int>
    decreases |s|
  {
    var i := LastIndexOf(s, ':');
    if i < 0 then
      match ParseNat(s)
      case None => None
      case Some(v) => Some(v)
    else
      match ParseClock(s[..i])
      case None => None
      case Some(v) =>
        match ParseNat(s[i + 1..])
        case None => None
        case Some(d) => Some(v * 60 + d)
  }

  /** A single zero-padded field reads back as itself. */
  lemma ParseClockOne(n: int)
    requires n >= 0
    ensures ParseClock(ZeroPad2(n)) == Some(n)
  {
    var s := ZeroPad2(n);
    assert AllDigits(s);
  }

  /** Appending ":" and one more zero-padded field multiplies the reading by sixty and adds the field. */
  lemma ParseClockAppend(p: string, v: int, n: int)
    requires ParseClock(p) == Some(v) && n >= 0
    ensures ParseClock(p + ":" + ZeroPad2(n)) == Some(v * 60 + n)
  {
    var d := ZeroPad2(n);
    var s := p + ":" + d;
    assert s[|p|] == ':';
    assert forall j :: |p| < j < |s| ==> s[j] != ':' by {
      forall j | |p| < j < |s| ensures s[j] != ':' {
        assert s[j] == d[j - |p| - 1];
        assert IsDigit(d[j - |p| - 1]);
      }
    }
    assert LastIndexOf(s, ':') == |p|;
    assert s[..|p|] == p;
    assert s[|p| + 1..] == d;
  }

  /** "MM:SS" of two zero-padded fields reads back as minutes·60 + seconds. */
  lemma ParseClockTwo(m: int, s: int)
    requires m >= 0 && s >= 0
    ensures ParseClock(ZeroPad2(m) + ":" + ZeroPad2(s)) == Some(m * 60 + s)
  {
    ParseClockOne(m);
    ParseClockAppend(ZeroPad2(m), m, s);
  }

  /** "HH:MM:SS" of three zero-padded fields reads back as hours·3600 + minutes·60 + seconds. */
  lemma ParseClockThree(h: int, m: int, s: int)
    requires h >= 0 && m >= 0 && s >= 0
    ensures ParseClock(ZeroPad2(h) + ":" + ZeroPad2(m) + ":" + ZeroPad2(s)) == Some(h * 3600 + m * 60 + s)
  {
    ParseClockTwo(h, m);
    ParseClockAppend(ZeroPad2(h) + ":" + ZeroPad2(m), h * 60 + m, s);
  }
}
