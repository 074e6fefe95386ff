/**
 * The floating stopwatch (frontend/src/components/StopWatch.jsx): a seconds
 * counter that an interval advances while it runs, and the HH:MM:SS text it
 * shows.
 */
module Stopwatch {

  /** The decimal digit character for `d`. */
  function Digit(d: nat): (c: char)
    requires d < 10
    ensures '0' <= c <= '9'
    ensures c as int - '0' as int == d
  {
    (d + '0' as int) as char
  }

  /** The numeric value of a digit character. */
  function DigitValue(c: char): int {
    c as int - '0' as int
  }

  /** JavaScript's `${n}` for a natural number: its decimal digits, most significant first. */
  function Decimal(n: nat): (s: string)
    ensures |s| >= 1
    ensures s[|s| - 1] == Digit(n % 10)
    ensures n >= 10 ==> |s| >= 2 && s[|s| - 2] == Digit((n / 10) % 10)
    decreases n
  {
    if n < 10 then [Digit(n)] else Decimal(n / 10) + [Digit(n % 10)]
  }

  /** `s.slice(-2)`: the last two characters, or all of them when there are fewer. */
  function LastTwo(s: string): (r: string)
    ensures |r| == if |s| < 2 then |s| else 2
    ensures |s| >= 2 ==> r[0] == s[|s| - 2] && r[1] == s[|s| - 1]
  {
    if |s| <= 2 then s else s[|s| - 2..]
  }

  /** `` `0${n}`.slice(-2) ``: the field of a count. */
  function Pad(n: nat): string {
    LastTwo("0" + Decimal(n))
  }

  /** A field is the count's last two decimal digits: zero-padded below 10, wrapped from 100 up. */
  lemma PadDigits(n: nat)
    ensures Pad(n) == [Digit((n / 10) % 10), Digit(n % 10)]
  {
    var s := "0" + Decimal(n);
    if n < 10 {
      assert s == ['0', Digit(n)];
    } else {
      assert s[|s| - 2] == Decimal(n)[|Decimal(n)| - 2];
    }
  }

  /** `formatTime`: hours, minutes and seconds of a count of seconds, separated by colons. */
  function FormatTime(time: nat): (r: string)
    ensures |r| == 8 && r[2] == ':' && r[5] == ':'
  {
    PadDigits(time / 3600);
    PadDigits(time / 60 % 60);
    PadDigits(time % 60);
    Pad(time / 3600) + ":" + Pad(time / 60 % 60) + ":" + Pad(time % 60)
  }

  /** The two-digit number written at `r[i]` and `r[i + 1]`. */
  function Field(r: string, i: nat): int
    requires i + 1 < |r|
  {
    10 * DigitValue(r[i]) + DigitValue(r[i + 1])
  }

  /** Every character but the two colons is a digit. */
  lemma FormatTimeDigits(time: nat, i: nat)
    requires i < 8 && i != 2 && i != 5
    ensures '0' <= FormatTime(time)[i] <= '9'
  {
    PadDigits(time / 3600);
    PadDigits(time / 60 % 60);
    PadDigits(time % 60);
  }

  /**
   * The three fields are the seconds modulo 60, the minutes modulo 60 and
   * the hours modulo 100: the hour field wraps at 100 hours.
   */
  lemma FormatTimeFields(time: nat)
    ensures Field(FormatTime(time), 6) == time % 60
    ensures Field(FormatTime(time), 3) == time / 60 % 60
    ensures Field(FormatTime(time), 0) == time / 3600 % 100
  {
    var h, m, sec := Pad(time / 3600), Pad(time / 60 % 60), Pad(time % 60);
    var r := FormatTime(time);
    assert r == h + ":" + m + ":" + sec;
    assert r[0] == h[0] && r[1] == h[1];
    assert r[3] == m[0] && r[4] == m[1];
    assert r[6] == sec[0] && r[7] == sec[1];
    PadValue(time / 3600);
    PadValue(time / 60 % 60);
    PadValue(time % 60);
  }

  /** The two characters of a field read back as the count modulo 100. */
  lemma PadValue(n: nat)
    ensures |Pad(n)| == 2 && 10 * DigitValue(Pad(n)[0]) + DigitValue(Pad(n)[1]) == n % 100
  {
    PadDigits(n);
    TwoDigits(n);
  }

  /** Ten times the tens digit plus the units digit is the number modulo 100. */
  lemma TwoDigits(n: nat)
    ensures 10 * ((n / 10) % 10) + n % 10 == n % 100
  {
  }

  /** Below 100 hours the text reads back as the count it shows. */
  lemma FormatTimeReadBack(time: nat)
    requires time < 360000
    ensures Field(FormatTime(time), 0) * 3600 + Field(FormatTime(time), 3) * 60 + Field(FormatTime(time), 6) == time
  {
    FormatTimeFields(time);
    var m := time / 60;
    assert time == m * 60 + time % 60;
    assert m == (m / 60) * 60 + m % 60;
    assert time / 3600 == m / 60;
    assert time / 3600 < 100;
  }

  /** From 100 hours on, the text of a count equals the text of the count 100 hours earlier. */
  lemma FormatTimeWraps(time: nat)
    requires time >= 360000
    ensures FormatTime(time) == FormatTime(time - 360000)
  {
    var t := time - 360000;
    ShiftDiv(t, 6000, 60);
    assert time / 60 == t / 60 + 6000;
    ShiftDiv(t / 60, 100, 60);
    assert time / 60 % 60 == t / 60 % 60;
    ShiftDiv(t, 100, 3600);
    var h := t / 3600;
    assert time / 3600 == h + 100;
    ShiftDiv(h, 10, 10);
    ShiftDiv(h / 10, 1, 10);
    PadDigits(h + 100);
    PadDigits(h);
    assert Pad(time / 3600) == Pad(h);
  }

  /** Adding `k` multiples of the divisor adds `k` to the quotient and keeps the remainder. */
  lemma ShiftDiv(a: nat, k: nat, b: nat)
    requires b > 0
    ensures (a + k * b) / b == a / b + k
    ensures (a + k * b) % b == a % b
  {
    MulAdd(a / b, k, b);
    DivUnique(a + k * b, b, a / b + k, a % b);
  }

  /** Quotient and remainder are the only ones that rebuild the dividend. */
  lemma DivUnique(x: int, b: int, q: int, r: int)
    requires b > 0 && 0 <= r < b && x == q * b + r
    ensures x / b == q && x % b == r
  {
    var q' := x / b;
    var r' := x % b;
    assert x == q' * b + r';
    if q' != q {
      var d := if q' < q then q - q' else q' - q;
      MulSub(q, q', b);
      MulAtLeast(d, b);
    }
  }

  lemma MulAdd(q: int, k: int, b: int)
    ensures (q + k) * b == q * b + k * b
  {
  }

  lemma MulSub(q: int, q': int, b: int)
    ensures (q - q') * b == q * b - q' * b
    ensures (q' - q) * b == q' * b - q * b
  {
  }

  lemma MulAtLeast(d: int, b: int)
    requires d >= 1 && b > 0
    ensures d * b >= b
  {
  }

  /** The counter and its running flag. */
  class Stopwatch {
    var time: nat
    var running: bool

    /** A new stopwatch shows zero and is stopped. */
    constructor ()
      ensures time == 0 && !running
    {
      time := 0;
      running := false;
    }

    /** The text the stopwatch shows. */
    function Display(): (r: string)
      reads this
      ensures |r| == 8
    {
      FormatTime(time)
    }

    /**
     * One firing of the interval: the interval exists only while the
     * stopwatch runs, so a firing adds one second then and nothing otherwise.
     */
    method Tick()
      modifies this
      ensures running == old(running)
      ensures time == old(time) + if old(running) then 1 else 0
    {
      if running {
        time := time + 1;
      }
    }

    /** `handleStartStop`: flip the running flag, keep the count. */
    method StartStop()
      modifies this
      ensures running == !old(running)
      ensures time == old(time)
    {
      running := !running;
    }

    /** `handleReset`: stop and go back to zero. */
    method Reset()
      modifies this
      ensures time == 0 && !running
    {
      running := false;
      time := 0;
    }
  }
}
