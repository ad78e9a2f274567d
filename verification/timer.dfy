/**
 * The per-question countdown (frontend/src/components/Timer.jsx): a local `timeLeft`
 * that starts at the `seconds` prop, is reset when the prop changes, loses one per
 * scheduled tick (reporting the new value to `onTick`) and, once it is at or below zero,
 * calls `onTimeUp` and schedules nothing further. Also the `m:ss` formatter `fmt`.
 *
 * Real time is abstracted away: `Step` is one run of the countdown effect together with
 * the one-second callback it schedules.
 */
module Timer {

  import opened Text

  /** The values `onTick` receives while counting down from `n`: n-1, n-2, ..., 0, one per
      second; nothing when `n` is not positive. */
  function TickValues(n: int): (r: seq<int>)
    ensures |r| == if n > 0 then n else 0
    ensures forall i :: 0 <= i < |r| ==> r[i] == n - 1 - i
    decreases n
  {
    if n <= 0 then [] else [n - 1] + TickValues(n - 1)
  }

  /** The tick values strictly decrease by one and never go below zero. */
  lemma TickValuesDescend(n: int, i: int)
    requires 0 <= i < |TickValues(n)|
    ensures TickValues(n)[i] >= 0
    ensures i + 1 < |TickValues(n)| ==> TickValues(n)[i + 1] == TickValues(n)[i] - 1
    ensures i + 1 == |TickValues(n)| ==> TickValues(n)[i] == 0
  {
  }

  class Countdown {
    /** The `seconds` prop. */
    var seconds: int
    /** The component's `timeLeft` state. */
    var timeLeft: int
    /** A run of the countdown effect is pending (a tick is scheduled or the expiry check is
        due); false once `onTimeUp` has been called. */
    var running: bool
    /** Every value passed to `onTick` so far. */
    var ticks: seq<int>
    /** How many times `onTimeUp` has been called. */
    var timeUps: nat

    /** Mounting: `useState(seconds)`. */
    constructor (seconds: int)
      ensures this.seconds == seconds && timeLeft == seconds && running
      ensures ticks == [] && timeUps == 0
    {
      this.seconds := seconds;
      timeLeft := seconds;
      running := true;
      ticks := [];
      timeUps := 0;
    }

    /** A new `seconds` prop: a changed value resets the countdown and restarts it. */
    method SetSeconds(s: int)
      modifies this
      ensures s != old(seconds) ==> seconds == s && timeLeft == s && running
      ensures s == old(seconds) ==> seconds == old(seconds) && timeLeft == old(timeLeft) && running == old(running)
      ensures ticks == old(ticks) && timeUps == old(timeUps)
    {
      if s != seconds {
        seconds := s;
        timeLeft := s;
        running := true;
      }
    }

    /** One run of the countdown effect: at or below zero it calls `onTimeUp` and stops;
        otherwise the scheduled tick lowers `timeLeft` by one and reports the new value. */
    method Step()
      modifies this
      ensures seconds == old(seconds)
      ensures !old(running) ==>
        timeLeft == old(timeLeft) && !running && ticks == old(ticks) && timeUps == old(timeUps)
      ensures old(running) && old(timeLeft) <= 0 ==>
        timeLeft == old(timeLeft) && !running && ticks == old(ticks) && timeUps == old(timeUps) + 1
      ensures old(running) && old(timeLeft) > 0 ==>
        timeLeft == old(timeLeft) - 1 && running && ticks == old(ticks) + [timeLeft] && timeUps == old(timeUps)
    {
      if running {
        if timeLeft <= 0 {
          timeUps := timeUps + 1;
          running := false;
        } else {
          timeLeft := timeLeft - 1;
          ticks := ticks + [timeLeft];
        }
      }
    }

    /** Lets the countdown run, with the prop unchanged, until it expires: `onTick` sees
        exactly the values TickValues(timeLeft), then `onTimeUp` fires once. */
    method RunToExpiry()
      requires running
      modifies this
      ensures ticks == old(ticks) + TickValues(old(timeLeft))
      ensures timeUps == old(timeUps) + 1 && !running
      ensures timeLeft == if old(timeLeft) > 0 then 0 else old(timeLeft)
      ensures seconds == old(seconds)
    {
      ghost var n0, t0, u0 := timeLeft, ticks, timeUps;
      while running
        invariant seconds == old(seconds)
        invariant n0 > 0 ==> 0 <= timeLeft <= n0
        invariant n0 <= 0 ==> timeLeft == n0
        invariant ticks == t0 + TickValues(n0)[..if n0 > 0 then n0 - timeLeft else 0]
        invariant running ==> timeUps == u0
        invariant !running ==> timeUps == u0 + 1 && timeLeft <= 0
        decreases if running then 1 else 0, if timeLeft > 0 then timeLeft else 0
      {
        ghost var before := timeLeft;
        Step();
        if running {
          assert TickValues(n0)[..n0 - timeLeft] == TickValues(n0)[..n0 - before] + [timeLeft];
        }
      }
      if n0 > 0 {
        assert TickValues(n0)[..n0] == TickValues(n0);
      }
    }
  }

  /** The quotient JavaScript's `%` pairs with: division truncated toward zero. */
  function JsQuot(a: int, b: int): int
    requires b > 0
  {
    if a >= 0 then a / b else -((-a) / b)
  }

  /** JavaScript `%`: the remainder takes the sign of the dividend, and the dividend is the
      truncated quotient times the divisor plus the remainder. */
  function JsRem(a: int, b: int): (r: int)
    requires b > 0
    ensures a >= 0 ==> 0 <= r < b
    ensures a < 0 ==> -b < r <= 0
  {
    if a >= 0 then a % b else -((-a) % b)
  }

  /** The remainder completes the truncated division: the dividend is the divisor times
      the truncated quotient plus the remainder, so `a - r` is a multiple of `b`. */
  lemma JsRemDivision(a: int, b: int)
    requires b > 0
    ensures a == b * JsQuot(a, b) + JsRem(a, b)
  {
    if a < 0 {
      assert -a == b * ((-a) / b) + (-a) % b;
    }
  }

  /** `padStart(2, "0")`. */
  function PadTwo(s: string): (r: string)
    ensures |r| == if |s| >= 2 then |s| else 2
  {
    if |s| >= 2 then s else seq(2 - |s|, _ => '0') + s
  }

  /** Padding only puts zeros in front: the result ends with the text, and everything
      before it is `0`. */
  lemma PadTwoShape(s: string)
    ensures EndsWith(PadTwo(s), s)
    ensures forall k :: 0 <= k < |PadTwo(s)| - |s| ==> PadTwo(s)[k] == '0'
  {
    var r := PadTwo(s);
    assert r[|r| - |s|..] == s;
  }

  /** `fmt(total)`: minutes `Math.floor(total / 60)`, a colon, seconds `total % 60` padded to
      two characters. */
  function Fmt(total: int): string
  {
    IntToString(total / 60) + ":" + PadTwo(IntToString(JsRem(total, 60)))
  }

  lemma TwoDigits(s: nat)
    requires s < 60
    ensures PadTwo(IntToString(s)) == [DigitChar(s / 10), DigitChar(s % 10)]
  {
    if s < 10 {
      assert IntToString(s) == [DigitChar(s)];
      assert seq(1, _ => '0') == [DigitChar(0)];
    } else {
      assert NatToString(s / 10) == [DigitChar(s / 10)];
    }
  }

  /** For a non-negative total, `fmt` writes the minutes, a colon and exactly two digits of
      seconds below 60, and reading them back as 60 * minutes + seconds gives the total. */
  lemma FmtReadsBack(total: int)
    requires total >= 0
    ensures var f := Fmt(total);
      && |f| >= 4 && f[|f| - 3] == ':'
      && (forall k :: 0 <= k < |f| && k != |f| - 3 ==> IsDigit(f[k]))
      && DigitsValue(f[|f| - 2..]) < 60
      && 60 * DigitsValue(f[..|f| - 3]) + DigitsValue(f[|f| - 2..]) == total
  {
    var m, s := total / 60, total % 60;
    TwoDigits(s);
    var f := Fmt(total);
    assert f == NatToString(m) + ":" + [DigitChar(s / 10), DigitChar(s % 10)];
    assert f[..|f| - 3] == NatToString(m);
    assert f[|f| - 2..] == [DigitChar(s / 10), DigitChar(s % 10)];
    DigitsValueOfNatToString(m);
    var two := [DigitChar(s / 10), DigitChar(s % 10)];
    assert DigitsValue(two) == s by {
      assert two[..1] == [DigitChar(s / 10)];
      assert [DigitChar(s / 10)][..0] == [];
      assert DigitsValue(two[..1]) == s / 10;
    }
  }

  /** Distinct non-negative totals are displayed differently. */
  lemma FmtInjective(a: int, b: int)
    requires a >= 0 && b >= 0 && Fmt(a) == Fmt(b)
    ensures a == b
  {
    FmtReadsBack(a);
    FmtReadsBack(b);
  }
}
