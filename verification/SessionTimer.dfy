/** The recording timer: whole seconds are added, and the fraction left over is kept or dropped. */
module SessionTimer {
  import opened Core

  datatype Timer = Timer(sessionSeconds: u64, lastTick: Time)

  /** One tick: whether the app is recording, the clock read that measures, and the one that resets. */
  datatype Tick = Tick(recording: bool, measured: Time, reset: Time)

  /** Elapsed time is never negative. */
  function WholeSeconds(since: Time, now: Time): u64 {
    if now <= since then 0 else Saturate((now - since) / SECOND)
  }

  /** Whole seconds are those that have fully elapsed, up to saturation; a clock that went back has shown none. */
  lemma WholeSecondsElapsed(since: Time, now: Time)
    ensures var n := WholeSeconds(since, now);
            && (now < since ==> n == 0)
            && (since <= now ==> n * 1_000_000_000 <= now - since)
            && (since <= now && n < 0xFFFF_FFFF_FFFF_FFFF ==> now - since < (n + 1) * 1_000_000_000)
  {
  }

  function Ticked(t: Timer, tick: Tick): Timer {
    if tick.recording then
      var elapsed := WholeSeconds(t.lastTick, tick.measured);
      if elapsed > 0 then Timer(SaturatingAdd(t.sessionSeconds, elapsed), tick.reset) else t
    else t.(lastTick := tick.reset)
  }

  function TimerAfter(t: Timer, ticks: seq<Tick>): Timer {
    if ticks == [] then t else Ticked(TimerAfter(t, ticks[..|ticks| - 1]), ticks[|ticks| - 1])
  }

  /** When the tick before the end measured, or the start if there was none. */
  function LastMeasured(start: Time, ticks: seq<Tick>): Time {
    if ticks == [] then start else ticks[|ticks| - 1].measured
  }

  function LastRead(start: Time, ticks: seq<Tick>): Time {
    if ticks == [] then start else ticks[|ticks| - 1].reset
  }

  /** The clock never runs backwards, within a tick or from one tick to the next. */
  predicate IsMonotonic(start: Time, ticks: seq<Tick>) {
    ticks == [] ||
    (var before, tick := ticks[..|ticks| - 1], ticks[|ticks| - 1];
     IsMonotonic(start, before) && LastRead(start, before) <= tick.measured <= tick.reset)
  }

  /** The time between consecutive measurements, over the intervals that end at a recording tick. */
  function RecordedTime(start: Time, ticks: seq<Tick>): int {
    if ticks == [] then 0
    else
      var before, tick := ticks[..|ticks| - 1], ticks[|ticks| - 1];
      RecordedTime(start, before) + if tick.recording then tick.measured - LastMeasured(start, before) else 0
  }

  /** The time lost between the two clock reads of all ticks; zero when the clock is read once per tick. */
  function ReadLag(ticks: seq<Tick>): int {
    if ticks == [] then 0
    else ReadLag(ticks[..|ticks| - 1]) + ticks[|ticks| - 1].reset - ticks[|ticks| - 1].measured
  }

  /** The timer never shows more than the time in intervals that ended while recording. */
  lemma {:induction false} TimerNeverOvercounts(t: Timer, ticks: seq<Tick>)
    requires IsMonotonic(t.lastTick, ticks)
    ensures var after, recorded := TimerAfter(t, ticks), RecordedTime(t.lastTick, ticks);
            && (after.sessionSeconds - t.sessionSeconds) * SECOND <= recorded
            && (after.sessionSeconds - t.sessionSeconds) * SECOND
               + LastMeasured(t.lastTick, ticks) - after.lastTick <= recorded
            && after.lastTick <= LastRead(t.lastTick, ticks)
  {
    if ticks != [] {
      TimerNeverOvercounts(t, ticks[..|ticks| - 1]);
    }
  }

  /**
   While recording without interruption and below saturation, each counted tick drops less than it adds: the
   time since the start stays strictly below twice the seconds shown plus one, up to the lag between the two
   clock reads of a tick.
   */
  lemma {:induction false} TimerCountsAtLeastHalf(t: Timer, ticks: seq<Tick>)
    requires IsMonotonic(t.lastTick, ticks) && forall i | 0 <= i < |ticks| :: ticks[i].recording
    requires TimerAfter(t, ticks).sessionSeconds < U64_MAX
    ensures var after := TimerAfter(t, ticks);
            && t.sessionSeconds <= after.sessionSeconds
            && after.lastTick - t.lastTick <= 2 * (after.sessionSeconds - t.sessionSeconds) * SECOND + ReadLag(ticks)
            && LastMeasured(t.lastTick, ticks) - t.lastTick
               < (2 * (after.sessionSeconds - t.sessionSeconds) + 1) * SECOND + ReadLag(ticks)
  {
    if ticks != [] {
      var before, tick := ticks[..|ticks| - 1], ticks[|ticks| - 1];
      TimerCountsAtLeastHalf(t, before);
    }
  }

  /** Reading the clock once per tick, the time since the start stays below twice the seconds shown plus one. */
  lemma {:induction false} SingleReadBound(t: Timer, ticks: seq<Tick>)
    requires IsMonotonic(t.lastTick, ticks)
    requires forall i | 0 <= i < |ticks| :: ticks[i].recording && ticks[i].reset == ticks[i].measured
    requires TimerAfter(t, ticks).sessionSeconds < U64_MAX
    ensures LastMeasured(t.lastTick, ticks) - t.lastTick
          < (2 * (TimerAfter(t, ticks).sessionSeconds - t.sessionSeconds) + 1) * SECOND
  {
    NoLag(ticks);
    TimerCountsAtLeastHalf(t, ticks);
  }

  /**
   Read twice per tick, the clock can drive the time since the start past that bound: one second is shown,
   and the last tick, 0.9 s after the reset before it, measures 3.9 s.
   */
  lemma SecondReadBreaksBound()
    ensures var start := Timer(0, 0);
            var ticks := [Tick(true, 1_900_000_000, 3_000_000_000), Tick(true, 3_900_000_000, 3_900_000_000)];
            && IsMonotonic(0, ticks)
            && TimerAfter(start, ticks).sessionSeconds == 1
            && LastMeasured(0, ticks) >= (2 * 1 + 1) * SECOND
  {
    var first := Tick(true, 1_900_000_000, 3_000_000_000);
    var ticks := [first, Tick(true, 3_900_000_000, 3_900_000_000)];
    assert ticks[..1] == [first] && [first][..0] == [];
    assert TimerAfter(Timer(0, 0), [first]) == Timer(1, 3_000_000_000);
    assert IsMonotonic(0, [first]);
  }

  lemma {:induction false} NoLag(ticks: seq<Tick>)
    requires forall i | 0 <= i < |ticks| :: ticks[i].reset == ticks[i].measured
    ensures ReadLag(ticks) == 0
  {
    if ticks != [] { NoLag(ticks[..|ticks| - 1]); }
  }
}
