/**
 * The five-minute meditation timer: a count of seconds, a running flag and
 * the interval that counts down while the timer runs.  The interval is
 * driven by an effect that re-runs whenever `running` or `seconds` changes;
 * the effect's completion branch checks `interval.current`, which is
 * assigned when the first interval is scheduled and never set back to null.
 * The completion sound itself is left out; the model counts how many times
 * it is played.
 */
module MeditationTimer {
  import opened Wrappers
  import opened Text

  /** `FIVE_MINUTES`. */
  const FiveMinutes: nat := 5 * 60

  /** `formatTime`: whole minutes, a colon, and the remaining seconds padded to two digits. */
  function FormatTime(s: nat): (t: string)
    ensures |t| == |NatToString(s / 60)| + 3 && t[|t| - 3] == ':'
  {
    NatToString(s / 60) + ":" + TwoDigits(s % 60)
  }

  /** Reads a clock face "m:ss" back into seconds. */
  function ReadTime(t: string): Option<nat>
  {
    match ReadNumber(t)
    case None => None
    case Some((m, rest)) =>
      if rest == [] || rest[0] != ':' then None
      else
        match ReadNumber(rest[1..])
        case None => None
        case Some((ss, tail)) => if tail == [] && ss < 60 then Some(m * 60 + ss) else None
  }

  /** The clock face names exactly the number of seconds left. */
  lemma FormatTimeRoundTrip(s: nat)
    ensures ReadTime(FormatTime(s)) == Some(s)
  {
    ReadFace(s / 60, s % 60);
  }

  lemma ReadFace(m: nat, r: nat)
    requires r < 60
    ensures ReadTime(NatToString(m) + ":" + TwoDigits(r)) == Some(m * 60 + r)
  {
    var minutes, secs := NatToString(m), TwoDigits(r);
    ReadNatToString(m, ":" + secs);
    ReadPadded(r, 2, []);
    assert secs + [] == secs;
    assert minutes + ":" + secs == minutes + (":" + secs);
    ReadClock(minutes, secs, m, r);
  }

  lemma ReadClock(m: string, ss: string, minutes: nat, secs: nat)
    requires ReadNumber(m + ":" + ss) == Some((minutes, ":" + ss))
    requires ReadNumber(ss) == Some((secs, [])) && secs < 60
    ensures ReadTime(m + ":" + ss) == Some(minutes * 60 + secs)
  {
    assert (":" + ss)[1..] == ss;
  }

  /** Within the timer's range the face is always one minute digit, a colon and two second digits. */
  lemma FormatTimeWidth(s: nat)
    requires s <= FiveMinutes
    ensures |FormatTime(s)| == 4 && FormatTime(s)[1] == ':'
  {
  }

  class Timer {
    var seconds: int
    var running: bool
    /** Whether `interval.current` has been assigned; nothing ever resets it. */
    var armed: bool
    /** Whether an interval is scheduled and not yet cleared. */
    var ticking: bool
    /** How many times the completion sound has been played. */
    var chimes: nat

    /** The count stays within five minutes, and an interval is scheduled exactly while the timer runs. */
    predicate Valid()
      reads this
    {
      0 <= seconds <= FiveMinutes && (ticking <==> running) && (running ==> seconds > 0 && armed)
    }

    constructor()
      ensures Valid()
      ensures seconds == FiveMinutes && !running && !armed && !ticking && chimes == 0
    {
      seconds, running := FiveMinutes, false;
      armed, ticking := false, false;
      chimes := 0;
    }

    /**
     * One run of the effect after a render whose `running` or `seconds`
     * changed: the cleanup clears the scheduled interval, a new one is
     * scheduled while running with time left, and at zero with
     * `interval.current` set the timer is stopped and the sound played.
     * `stopped` says whether that changed `running`, which renders again.
     */
    method Effect() returns (stopped: bool)
      requires ticking ==> armed
      modifies this
      ensures seconds == old(seconds)
      ensures armed == (old(armed) || (old(running) && seconds > 0))
      ensures ticking == (old(running) && seconds > 0)
      ensures var done := seconds == 0 && armed;
        running == (old(running) && !done) &&
        chimes == (if done then old(chimes) + 1 else old(chimes)) &&
        stopped == (old(running) && done)
    {
      if armed {
        ticking := false;
      }
      if running && seconds > 0 {
        armed, ticking := true, true;
      } else if !running && armed {
        ticking := false;
      }
      stopped := false;
      if seconds == 0 && armed {
        ticking := false;
        stopped := running;
        running := false;
        chimes := chimes + 1;
      }
    }

    /** The effect, and once more if it stopped the timer, since that is a change of `running`. */
    method Settle()
      requires ticking ==> armed
      modifies this
      ensures seconds == old(seconds)
      ensures armed == (old(armed) || (old(running) && seconds > 0))
      ensures ticking == (old(running) && seconds > 0)
      ensures var done := seconds == 0 && armed;
        running == (old(running) && !done) &&
        chimes == (if !done then old(chimes) else if old(running) then old(chimes) + 2 else old(chimes) + 1)
    {
      var stopped := Effect();
      if stopped {
        stopped := Effect();
      }
    }

    /** `handleStart`; the button is disabled at zero and shows Pause instead while running. */
    method Start()
      requires Valid()
      modifies this
      ensures Valid()
      ensures old(seconds) > 0 ==> running
      ensures old(seconds) == 0 ==> !running
      ensures seconds == old(seconds) && chimes == old(chimes)
    {
      if seconds == 0 || running {
        return;
      }
      running := true;
      Settle();
    }

    /** `handlePause`: the timer stops and keeps its count. */
    method Pause()
      requires Valid()
      modifies this
      ensures Valid()
      ensures !running && seconds == old(seconds) && chimes == old(chimes)
    {
      if !running {
        return;
      }
      running := false;
      Settle();
    }

    /** `handleReset`: back to five minutes, stopped, from any state. */
    method Reset()
      requires Valid()
      modifies this
      ensures Valid()
      ensures seconds == FiveMinutes && !running && chimes == old(chimes)
    {
      if !running && seconds == FiveMinutes {
        return;
      }
      running, seconds := false, FiveMinutes;
      Settle();
    }

    /**
     * One firing of the scheduled interval, `setSeconds(s => s - 1)`, and
     * the effect it triggers.  With no interval scheduled nothing fires.
     * Reaching zero stops the timer; the effect then runs twice with
     * `interval.current` still set, so the sound is played twice.
     */
    method Tick()
      requires Valid()
      modifies this
      ensures Valid()
      ensures !old(ticking) ==> seconds == old(seconds) && running == old(running) && chimes == old(chimes)
      ensures old(ticking) ==> seconds == old(seconds) - 1
      ensures old(ticking) && seconds > 0 ==> running && chimes == old(chimes)
      ensures old(ticking) && seconds == 0 ==> !running && chimes == old(chimes) + 2
    {
      if !ticking {
        return;
      }
      seconds := seconds - 1;
      Settle();
    }
  }
}
