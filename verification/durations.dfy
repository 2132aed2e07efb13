/**
 * Elapsed-time arithmetic and the `formatDuration` helper, which the meeting
 * controller and the video-call page define identically.
 */
module Durations {
  import opened Common

  /** Whole seconds between two timestamps: `Math.floor((leftAt - joinedAt) / 1000)`. */
  function ElapsedSeconds(joinedAt: Time, leftAt: Time): (s: int)
    ensures s * 1000 <= leftAt - joinedAt < s * 1000 + 1000
    ensures joinedAt <= leftAt ==> s >= 0
  {
    FloorSeconds(leftAt - joinedAt)
  }

  /** The fallback for a completed meeting without a recorded leave time: scheduled minutes in seconds. */
  function ScheduledSeconds(minutes: int): (s: int)
    ensures s / 60 == minutes && s % 60 == 0
  {
    minutes * 60
  }

  // ---------------------------------------------------------------------------
  // Decimal rendering of numbers, as a template literal `${n}` prints them.

  function Digit(d: nat): (c: char)
    requires d < 10
    ensures '0' <= c <= '9'
    ensures c as int - '0' as int == d
  {
    ('0' as int + d) as char
  }

  predicate IsDigit(c: char) {
    '0' <= c <= '9'
  }

  /** The shortest decimal rendering of `n`, most significant digit first. */
  function NatToString(n: nat): (r: string)
    ensures |r| >= 1
    ensures forall i :: 0 <= i < |r| ==> IsDigit(r[i])
    ensures n < 10 <==> |r| == 1
    decreases n
  {
    if n < 10 then [Digit(n)] else NatToString(n / 10) + [Digit(n % 10)]
  }

  /** `${i}` for an integer that may be negative. */
  function IntToString(i: int): (r: string)
    ensures forall k :: 0 <= k < |r| ==> IsDigit(r[k]) || r[k] == '-'
    ensures i >= 0 ==> r == NatToString(i)
  {
    if i < 0 then "-" + NatToString(-i) else NatToString(i)
  }

  /** The value a digit string denotes, read most significant digit first. */
  function DigitsValue(s: string): int
    requires forall i :: 0 <= i < |s| ==> IsDigit(s[i])
  {
    if |s| == 0 then 0 else DigitsValue(s[..|s| - 1]) * 10 + (s[|s| - 1] as int - '0' as int)
  }

  lemma {:induction false} NatToStringValue(n: nat)
    ensures DigitsValue(NatToString(n)) == n
    decreases n
  {
    if n >= 10 {
      var r := NatToString(n);
      assert r[..|r| - 1] == NatToString(n / 10);
      NatToStringValue(n / 10);
    }
  }

  /** Different numbers never render to the same digits. */
  lemma NatToStringInjective(a: nat, b: nat)
    requires NatToString(a) == NatToString(b)
    ensures a == b
  {
    NatToStringValue(a);
    NatToStringValue(b);
  }

  // ---------------------------------------------------------------------------
  // formatDuration

  /** The three numbers `formatDuration` computes: `Math.floor(s / 3600)`,
      `Math.floor((s % 3600) / 60)` and `s % 60`, with JavaScript's truncating `%`. */
  datatype Clock = Clock(hrs: int, mins: int, secs: int)

  function Split(seconds: int): (c: Clock)
    ensures seconds >= 0 ==>
      && c.hrs >= 0 && 0 <= c.mins < 60 && 0 <= c.secs < 60
      && c.hrs * 3600 + c.mins * 60 + c.secs == seconds
  {
    Clock(seconds / 3600, JsRem(seconds, 3600) / 60, JsRem(seconds, 60))
  }

  /** `formatDuration(seconds)`: "Hh Mm Ss", dropping the leading segments that are zero. */
  function FormatDuration(seconds: int): string
  {
    var c := Split(seconds);
    if c.hrs > 0 then
      IntToString(c.hrs) + "h " + IntToString(c.mins) + "m " + IntToString(c.secs) + "s"
    else if c.mins > 0 then
      IntToString(c.mins) + "m " + IntToString(c.secs) + "s"
    else
      IntToString(c.secs) + "s"
  }

  lemma NoLetters(i: int)
    ensures 'h' !in IntToString(i) && 'm' !in IntToString(i) && 's' !in IntToString(i)
  {
    var r := IntToString(i);
    forall k | 0 <= k < |r| ensures r[k] != 'h' && r[k] != 'm' && r[k] != 's' {
      assert IsDigit(r[k]) || r[k] == '-';
    }
  }

  /** The hours segment appears exactly when there is at least one full hour, and the minutes
      segment exactly when there is an hour or a full minute; every rendering ends in seconds. */
  lemma FormatDurationSegments(seconds: int)
    ensures 'h' in FormatDuration(seconds) <==> Split(seconds).hrs > 0
    ensures 'm' in FormatDuration(seconds) <==> Split(seconds).hrs > 0 || Split(seconds).mins > 0
    ensures FormatDuration(seconds)[|FormatDuration(seconds)| - 1] == 's'
  {
    var c := Split(seconds);
    NoLetters(c.hrs);
    NoLetters(c.mins);
    NoLetters(c.secs);
    var r := FormatDuration(seconds);
    var hs, ms, ss := IntToString(c.hrs), IntToString(c.mins), IntToString(c.secs);
    if c.hrs > 0 {
      assert r == hs + "h " + ms + "m " + ss + "s";
      assert r[|hs|] == 'h';
      assert r[|hs| + 2 + |ms|] == 'm';
    } else if c.mins > 0 {
      assert r == ms + "m " + ss + "s";
      assert r[|ms|] == 'm';
      assert forall k :: 0 <= k < |r| ==> r[k] != 'h' by {
        forall k | 0 <= k < |r| ensures r[k] != 'h' {
          if k < |ms| { assert r[k] == ms[k]; }
          else if k >= |ms| + 2 && k < |ms| + 2 + |ss| { assert r[k] == ss[k - |ms| - 2]; }
        }
      }
    } else {
      assert r == ss + "s";
      assert forall k :: 0 <= k < |r| ==> r[k] != 'h' && r[k] != 'm' by {
        forall k | 0 <= k < |r| ensures r[k] != 'h' && r[k] != 'm' {
          if k < |ss| { assert r[k] == ss[k]; }
        }
      }
    }
  }

  // ---------------------------------------------------------------------------
  // A reader for the rendered durations: the partner that shows nothing is lost.

  /** Reader state: seconds accounted for so far, and the number being read. */
  datatype Reader = Reader(total: int, current: nat)

  function ReadChar(st: Reader, c: char): Reader
  {
    if IsDigit(c) then Reader(st.total, st.current * 10 + (c as int - '0' as int))
    else if c == 'h' then Reader(st.total + st.current * 3600, 0)
    else if c == 'm' then Reader(st.total + st.current * 60, 0)
    else if c == 's' then Reader(st.total + st.current, 0)
    else st
  }

  function Read(st: Reader, s: string): Reader
    decreases |s|
  {
    if |s| == 0 then st else Read(ReadChar(st, s[0]), s[1..])
  }

  /** The number of seconds a "1h 2m 3s" string denotes. */
  function ParseDuration(s: string): int
  {
    Read(Reader(0, 0), s).total
  }

  lemma {:induction false} ReadAppend(st: Reader, a: string, b: string)
    ensures Read(st, a + b) == Read(Read(st, a), b)
    decreases |a|
  {
    if |a| > 0 {
      assert (a + b)[1..] == a[1..] + b;
      ReadAppend(ReadChar(st, a[0]), a[1..], b);
    } else {
      assert a + b == b;
    }
  }

  lemma {:induction false} ReadNumber(total: int, n: nat)
    ensures Read(Reader(total, 0), NatToString(n)) == Reader(total, n)
    decreases n
  {
    if n >= 10 {
      ReadNumber(total, n / 10);
      ReadAppend(Reader(total, 0), NatToString(n / 10), [Digit(n % 10)]);
    }
  }

  /** Reading a number and then its unit and separator, after whatever `prefix` left behind. */
  lemma ReadNumberThen(prefix: string, total: int, n: nat, unit: string, after: Reader)
    requires Read(Reader(0, 0), prefix) == Reader(total, 0)
    requires Read(Reader(total, n), unit) == after
    ensures Read(Reader(0, 0), prefix + NatToString(n) + unit) == after
  {
    ReadAppend(Reader(0, 0), prefix + NatToString(n), unit);
    ReadAppend(Reader(0, 0), prefix, NatToString(n));
    ReadNumber(total, n);
  }

  /** The unit suffixes the rendering puts after a number. */
  lemma ReadUnits(total: int, n: nat)
    ensures Read(Reader(total, n), "h ") == Reader(total + n * 3600, 0)
    ensures Read(Reader(total, n), "m ") == Reader(total + n * 60, 0)
    ensures Read(Reader(total, n), "s") == Reader(total + n, 0)
  {
    assert "h "[1..] == " " && "m "[1..] == " " && " "[1..] == [] && "s"[1..] == [];
  }

  /** The same for the leading number. */
  lemma ReadFirstNumber(n: nat, unit: string, after: Reader)
    requires Read(Reader(0, n), unit) == after
    ensures Read(Reader(0, 0), NatToString(n) + unit) == after
  {
    ReadAppend(Reader(0, 0), NatToString(n), unit);
    ReadNumber(0, n);
  }

  /** The three shapes the rendering takes, each read back to the seconds it denotes. */
  lemma ReadHours(h: nat, m: nat, s: nat)
    ensures ParseDuration(NatToString(h) + "h " + NatToString(m) + "m " + NatToString(s) + "s")
      == h * 3600 + m * 60 + s
  {
    var hs, ms := NatToString(h), NatToString(m);
    var t1, t2 := h * 3600, h * 3600 + m * 60;
    ReadUnits(0, h);
    ReadUnits(t1, m);
    ReadFirstNumber(h, "h ", Reader(t1, 0));
    var p1 := hs + "h ";
    ReadNumberThen(p1, t1, m, "m ", Reader(t2, 0));
    var p2 := p1 + ms + "m ";
    ReadUnits(t2, s);
    ReadNumberThen(p2, t2, s, "s", Reader(t2 + s, 0));
  }

  lemma ReadMinutes(m: nat, s: nat)
    ensures ParseDuration(NatToString(m) + "m " + NatToString(s) + "s") == m * 60 + s
  {
    var ms := NatToString(m);
    ReadUnits(0, m);
    ReadUnits(m * 60, s);
    ReadFirstNumber(m, "m ", Reader(m * 60, 0));
    ReadNumberThen(ms + "m ", m * 60, s, "s", Reader(m * 60 + s, 0));
  }

  lemma ReadSeconds(s: nat)
    ensures ParseDuration(NatToString(s) + "s") == s
  {
    ReadUnits(0, s);
    ReadFirstNumber(s, "s", Reader(s, 0));
  }

  /** For a negative total the truncating remainders lose the whole hours: an hour and five
      seconds overdrawn renders like five seconds overdrawn, so the round trip below is stated
      for totals that are not negative. */
  lemma NegativeTotalsCollide()
    ensures FormatDuration(-3605) == FormatDuration(-5) == "-5s"
  {
    assert Split(-3605) == Clock(-2, -1, -5);
    assert Split(-5) == Clock(-1, -1, -5);
    assert IntToString(-5) == "-5";
  }

  /** Reading back a rendered duration yields the seconds it was made from. */
  lemma FormatDurationRoundTrip(seconds: nat)
    ensures ParseDuration(FormatDuration(seconds)) == seconds
  {
    var c := Split(seconds);
    var h, m, s := c.hrs as nat, c.mins as nat, c.secs as nat;
    if c.hrs > 0 {
      ReadHours(h, m, s);
    } else if c.mins > 0 {
      ReadMinutes(m, s);
    } else {
      ReadSeconds(s);
    }
  }
}
