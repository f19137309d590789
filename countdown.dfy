/**
 * The rate-limit countdown: the remaining-time text, the fraction shown on the
 * progress bar, the countdown loop itself, and the streaming progress fraction.
 * Fractions are exact rationals (`real`) where the plugin uses `Double`.
 */
module Countdown {
  import opened Wrappers
  import opened KotlinStrings
  import opened Cancellation

  // ---------------------------------------------------------------- remaining time

  /** `String.format("%02d", n)` for `0 <= n < 100` */
  function Pad2(n: nat): (r: string)
    requires n < 100
    ensures |r| == 2 && AllDigits(r) && DigitsValue(r) == n
  {
    var r := [DigitChar(n / 10), DigitChar(n % 10)];
    assert r[..1] == [DigitChar(n / 10)] && r[..1][..0] == [];
    assert DigitsValue(r[..1]) == n / 10;
    r
  }

  /** The remaining time: `m:ss` from one minute on, `Ns` below. */
  function TimeDisplay(remaining: nat): (r: string)
    ensures |r| >= 2
  {
    var minutes := remaining / 60;
    var secs := remaining % 60;
    if minutes > 0 then NatToString(minutes) + ":" + Pad2(secs) else NatToString(secs) + "s"
  }

  /** Reads a remaining-time text back into seconds. */
  function ReadTimeDisplay(t: string): Option<nat>
  {
    if |t| >= 2 && t[|t| - 1] == 's' && AllDigits(t[..|t| - 1]) then
      Some(DigitsValue(t[..|t| - 1]))
    else if |t| >= 4 && t[|t| - 3] == ':' && AllDigits(t[..|t| - 3]) && AllDigits(t[|t| - 2..]) then
      Some(60 * DigitsValue(t[..|t| - 3]) + DigitsValue(t[|t| - 2..]))
    else None
  }

  /** The text shown for every remaining time determines that time. */
  lemma ReadTimeDisplayOfTimeDisplay(remaining: nat)
    ensures ReadTimeDisplay(TimeDisplay(remaining)) == Some(remaining)
  {
    var t := TimeDisplay(remaining);
    var minutes, secs := remaining / 60, remaining % 60;
    if minutes > 0 {
      var m := NatToString(minutes);
      assert t == m + ":" + Pad2(secs);
      assert t[..|t| - 3] == m;
      assert t[|t| - 2..] == Pad2(secs);
      assert t[|t| - 1] == Pad2(secs)[1];
      DigitsValueOfNatToString(minutes);
    } else {
      var m := NatToString(secs);
      assert t[..|t| - 1] == m;
      DigitsValueOfNatToString(secs);
    }
  }

  /** The minutes form is used exactly from 60 seconds on. */
  lemma TimeDisplayForm(remaining: nat)
    ensures remaining >= 60 <==> ':' in TimeDisplay(remaining)
    ensures remaining < 60 <==> TimeDisplay(remaining)[|TimeDisplay(remaining)| - 1] == 's'
  {
    var t := TimeDisplay(remaining);
    if remaining >= 60 {
      var m := NatToString(remaining / 60);
      assert t[|m|] == ':';
      assert t[|t| - 1] == Pad2(remaining % 60)[1];
    } else {
      var m := NatToString(remaining);
      assert t == m + "s";
      assert forall i :: 0 <= i < |m| ==> t[i] == m[i];
      assert forall i :: 0 <= i < |t| ==> t[i] != ':';
    }
  }

  lemma TimeDisplayExamples()
    ensures TimeDisplay(62) == "1:02"
    ensures TimeDisplay(45) == "45s"
  {
    assert NatToString(4) == "4";
    assert NatToString(45) == NatToString(4) + "5";
  }

  // ---------------------------------------------------------------- fractions

  /** `1.0 - remaining / seconds`, the share of the wait already over. */
  function CountdownFraction(remaining: int, seconds: int): (f: real)
    requires 0 < remaining <= seconds
    ensures 0.0 <= f < 1.0
  {
    1.0 - (remaining as real) / (seconds as real)
  }

  /** The fraction grows as the remaining time shrinks. */
  lemma CountdownFractionGrows(r1: int, r2: int, seconds: int)
    requires 0 < r2 < r1 <= seconds
    ensures CountdownFraction(r1, seconds) < CountdownFraction(r2, seconds)
  {
    var s := seconds as real;
    assert (r2 as real) / s < (r1 as real) / s;
  }

  /** `min(totalCharsWritten / 2000.0, 0.95)`, the streaming progress fraction. */
  function ProgressFraction(totalCharsWritten: nat): (f: real)
    ensures 0.0 <= f <= 0.95
    ensures f == 0.95 <==> totalCharsWritten >= 1900
  {
    var x := (totalCharsWritten as real) / 2000.0;
    if x <= 0.95 then x else 0.95
  }

  /** More text written never moves the progress bar back. */
  lemma ProgressFractionMonotone(a: nat, b: nat)
    requires a <= b
    ensures ProgressFraction(a) <= ProgressFraction(b)
  {
    assert (a as real) / 2000.0 <= (b as real) / 2000.0;
  }

  // ---------------------------------------------------------------- the countdown loop

  function Max0(n: int): nat
  {
    if n > 0 then n else 0
  }

  /**
   * The countdown task's loop. Each second shows the remaining time and the
   * fraction, then sleeps in ten slices, each after a poll of the indicator; a
   * cancelled poll ends the slices. `completed` is the poll after the loop: the
   * full wait elapsed without the user cancelling.
   */
  method RunCountdown(seconds: int, cancel: CancelPoint) returns (completed: bool, remaining: int, shown: seq<string>, fractions: seq<real>)
    ensures |shown| == |fractions| <= Max0(seconds)
    ensures remaining == seconds - |shown|
    ensures forall i :: 0 <= i < |shown| ==> shown[i] == TimeDisplay(seconds - i)
    ensures forall i :: 0 <= i < |fractions| ==> fractions[i] == CountdownFraction(seconds - i, seconds)
    ensures forall i :: 0 <= i < |fractions| ==> 0.0 <= fractions[i] < 1.0
    ensures NeverCanceled(cancel) ==> completed
    ensures completed ==> |shown| == Max0(seconds) && remaining == Min0(seconds)
  {
    remaining := seconds;
    shown, fractions := [], [];
    var poll := 0;
    while remaining > 0 && !Canceled(cancel, poll)
      invariant remaining == seconds - |shown|
      invariant |shown| == |fractions| <= Max0(seconds)
      invariant forall i :: 0 <= i < |shown| ==> shown[i] == TimeDisplay(seconds - i)
      invariant forall i :: 0 <= i < |fractions| ==> fractions[i] == CountdownFraction(seconds - i, seconds)
      invariant seconds > 0 ==> remaining >= 0
      invariant seconds <= 0 ==> shown == []
      decreases remaining
    {
      poll := poll + 1;  // the poll of the loop condition
      shown := shown + [TimeDisplay(remaining)];
      fractions := fractions + [CountdownFraction(remaining, seconds)];
      poll := SleepSecond(cancel, poll);
      remaining := remaining - 1;
    }
    if remaining > 0 {
      poll := poll + 1;  // the poll that ended the loop
    }
    completed := !Canceled(cancel, poll);
  }

  /**
   * One second of the countdown in ten slices of 100 ms, each after a poll of the
   * indicator; the slices stop at the first cancelled poll. `next` is the poll after them.
   */
  method SleepSecond(cancel: CancelPoint, poll: nat) returns (next: nat)
    ensures poll < next <= poll + 10
    ensures next < poll + 10 ==> Canceled(cancel, next - 1)
    ensures next > poll + 1 ==> !Canceled(cancel, next - 2)
  {
    next := poll;
    var slice := 0;
    while slice < 10
      invariant 0 <= slice <= 10 && next == poll + slice
      invariant slice > 0 ==> !Canceled(cancel, next - 1)
    {
      var c := Canceled(cancel, next);
      next := next + 1;
      if c {
        return;
      }
      slice := slice + 1;
    }
  }

  function Min0(n: int): int
  {
    if n < 0 then n else 0
  }
}
