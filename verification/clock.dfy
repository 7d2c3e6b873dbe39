/**
 The timer's mutable state and how the script changes it: the `alarmPlayed`
 latch, whether the overtime stopwatch interval (`overtimeTimer`) exists, and
 the stopwatch text on screen. `updateBar`, `startClock` and the ticks of the
 overtime interval become functions from one state to the next; `Run` plays a
 sequence of them, counting alarms and intervals created.
 */
module Clock {
  import Colour
  import Stopwatch
  import Wrappers

  /** What `startClock` writes into the stopwatch before it restarts. */
  const ResetText: string := "00:00:00"

  datatype ClockState = ClockState(alarmPlayed: bool, overtimeTimerSet: bool, stopwatchText: string)

  /** The state at page load: latch down, no overtime interval, the page's own stopwatch text. */
  function Initial(text: string): (s: ClockState)
    ensures !s.alarmPlayed && !s.overtimeTimerSet && s.stopwatchText == text
    ensures LatchNeedsStopwatch(s)
  {
    ClockState(false, false, text)
  }

  /**
   One transition: the new state, whether the alarm sound is played, and
   whether a new overtime interval is created (`setInterval(updateOvertime)`).
   */
  datatype Step = Step(state: ClockState, playAlarm: bool, startsStopwatch: bool)

  /**
   The state half of `updateBar`: below the period the latch is re-armed;
   in overtime the alarm sounds if the latch is down, the latch is set, and an
   overtime interval is created if none exists. Leaving overtime does not
   remove the interval, and the stopwatch text is never touched.
   */
  function UpdateBar(s: ClockState, overtime: bool): (r: Step)
    ensures r.state.stopwatchText == s.stopwatchText
    ensures r.state.alarmPlayed == overtime
    ensures r.playAlarm <==> overtime && !s.alarmPlayed
    ensures r.startsStopwatch <==> overtime && !s.overtimeTimerSet
    ensures r.state.overtimeTimerSet <==> s.overtimeTimerSet || overtime
  {
    if !overtime then
      Step(s.(alarmPlayed := false), false, false)
    else
      Step(ClockState(true, true, s.stopwatchText), !s.alarmPlayed, !s.overtimeTimerSet)
  }

  /**
   `startClock`: clear both intervals, re-arm the latch, reset the stopwatch
   text, then run `updateBar` at once. What follows depends only on whether
   the clock is in overtime, never on the state before.
   */
  function StartClock(s: ClockState, overtime: bool): (r: Step)
    ensures r.state.stopwatchText == ResetText
    ensures r.playAlarm == overtime && r.startsStopwatch == overtime
    ensures r.state.alarmPlayed == overtime && r.state.overtimeTimerSet == overtime
  {
    UpdateBar(ClockState(false, false, ResetText), overtime)
  }

  /**
   One tick of the overtime interval, which runs `updateOvertime`; without an
   interval there is no tick and nothing changes.
   */
  function OvertimeTick(s: ClockState, elapsed: real, duration: int): (r: ClockState)
    ensures r.alarmPlayed == s.alarmPlayed && r.overtimeTimerSet == s.overtimeTimerSet
    ensures !s.overtimeTimerSet ==> r == s
    ensures s.overtimeTimerSet && (elapsed - duration as real).Floor >= 0 ==>
      Stopwatch.Decode(r.stopwatchText) == Wrappers.Some((elapsed - duration as real).Floor)
    ensures s.overtimeTimerSet && 0 <= (elapsed - duration as real).Floor < 100 * 3600 ==>
      |r.stopwatchText| == 8
    ensures (elapsed - duration as real).Floor < 0 ==> r == s
  {
    if s.overtimeTimerSet then
      s.(stopwatchText := Stopwatch.UpdateOvertime(elapsed, duration, s.stopwatchText))
    else
      s
  }

  /** What can happen to the timer: an `updateBar`, a `startClock`, an overtime tick. */
  datatype Event =
    | Update(overtime: bool)
    | Restart(overtime: bool)
    | Tick(elapsed: real, duration: int)

  function Apply(s: ClockState, e: Event): Step {
    match e
    case Update(o) => UpdateBar(s, o)
    case Restart(o) => StartClock(s, o)
    case Tick(elapsed, duration) => Step(OvertimeTick(s, elapsed, duration), false, false)
  }

  /** The end of a run: final state, alarms sounded, overtime intervals created. */
  datatype Trace = Trace(state: ClockState, alarms: nat, stopwatches: nat)

  function Run(s: ClockState, es: seq<Event>): Trace
    decreases |es|
  {
    if es == [] then
      Trace(s, 0, 0)
    else
      var step := Apply(s, es[0]);
      var rest := Run(step.state, es[1..]);
      Trace(rest.state,
            rest.alarms + (if step.playAlarm then 1 else 0),
            rest.stopwatches + (if step.startsStopwatch then 1 else 0))
  }

  /** Events that re-arm the latch: an update below the period, or a restart. */
  predicate Rearms(e: Event) {
    e == Update(false) || e.Restart?
  }

  function CountRearms(es: seq<Event>): nat {
    if es == [] then 0 else (if Rearms(es[0]) then 1 else 0) + CountRearms(es[1..])
  }

  function CountRestarts(es: seq<Event>): nat {
    if es == [] then 0 else (if es[0].Restart? then 1 else 0) + CountRestarts(es[1..])
  }

  /** Events of a stretch of overtime: updates in overtime and overtime ticks. */
  predicate InOvertime(e: Event) {
    e == Update(true) || e.Tick?
  }

  /**
   A stretch of overtime updates and ticks sounds the alarm once if the latch
   was down when it began and it holds an update, and never otherwise, however
   long it lasts; the latch ends set exactly when it was set or an update came.
   */
  lemma {:induction false} AlarmOncePerOvertime(s: ClockState, es: seq<Event>)
    requires forall i | 0 <= i < |es| :: InOvertime(es[i])
    ensures Run(s, es).alarms == if Update(true) in es && !s.alarmPlayed then 1 else 0
    ensures Run(s, es).state.alarmPlayed <==> s.alarmPlayed || Update(true) in es
    decreases |es|
  {
    if es != [] {
      var next := Apply(s, es[0]).state;
      assert next.alarmPlayed <==> s.alarmPlayed || es[0] == Update(true);
      AlarmOncePerOvertime(next, es[1..]);
      assert Update(true) in es <==> es[0] == Update(true) || Update(true) in es[1..] by {
        assert es == [es[0]] + es[1..];
      }
    }
  }

  /**
   Over any run the alarm sounds at most once per re-arming event, plus once
   if the latch was down at the start: it cannot sound twice without the
   clock dropping below the period or being restarted in between.
   */
  lemma {:induction false} AlarmsBoundedByRearms(s: ClockState, es: seq<Event>)
    ensures Run(s, es).alarms <= CountRearms(es) + (if s.alarmPlayed then 0 else 1)
    decreases |es|
  {
    if es != [] {
      var next := Apply(s, es[0]).state;
      AlarmsBoundedByRearms(next, es[1..]);
    }
  }

  /** Without a re-arming event a set latch stays set and the alarm stays silent. */
  lemma {:induction false} LatchHeldWithoutRearm(s: ClockState, es: seq<Event>)
    requires s.alarmPlayed && CountRearms(es) == 0
    ensures Run(s, es).state.alarmPlayed && Run(s, es).alarms == 0
    decreases |es|
  {
    if es != [] {
      var next := Apply(s, es[0]).state;
      LatchHeldWithoutRearm(next, es[1..]);
    }
  }

  /**
   Overtime intervals are created at most once per restart, plus once if none
   existed at the start: `updateBar` never creates a second one beside a
   live one, so none is orphaned.
   */
  lemma {:induction false} StopwatchesBoundedByRestarts(s: ClockState, es: seq<Event>)
    ensures Run(s, es).stopwatches <= CountRestarts(es) + (if s.overtimeTimerSet then 0 else 1)
    decreases |es|
  {
    if es != [] {
      var next := Apply(s, es[0]).state;
      StopwatchesBoundedByRestarts(next, es[1..]);
    }
  }

  /** Only a restart removes the overtime interval; without one it survives any run. */
  lemma {:induction false} StopwatchHeldWithoutRestart(s: ClockState, es: seq<Event>)
    requires s.overtimeTimerSet && CountRestarts(es) == 0
    ensures Run(s, es).state.overtimeTimerSet && Run(s, es).stopwatches == 0
    decreases |es|
  {
    if es != [] {
      var next := Apply(s, es[0]).state;
      StopwatchHeldWithoutRestart(next, es[1..]);
    }
  }

  /** A set latch always comes with a live overtime interval. */
  predicate LatchNeedsStopwatch(s: ClockState) {
    s.alarmPlayed ==> s.overtimeTimerSet
  }

  lemma {:induction false} LatchNeedsStopwatchKept(s: ClockState, es: seq<Event>)
    requires LatchNeedsStopwatch(s)
    ensures LatchNeedsStopwatch(Run(s, es).state)
    decreases |es|
  {
    if es != [] {
      var next := Apply(s, es[0]).state;
      LatchNeedsStopwatchKept(next, es[1..]);
    }
  }

  /** `updateBar` calls alone never change the stopwatch text. */
  lemma {:induction false} UpdatesKeepText(s: ClockState, es: seq<Event>)
    requires forall i | 0 <= i < |es| :: es[i].Update?
    ensures Run(s, es).state.stopwatchText == s.stopwatchText
    decreases |es|
  {
    if es != [] {
      var next := Apply(s, es[0]).state;
      UpdatesKeepText(next, es[1..]);
    }
  }

  /**
   From page load, whatever happens: at most one alarm per re-arming event
   plus one, at most one overtime interval per restart plus one, and a set
   latch always with a live interval.
   */
  lemma RunFromLoad(text: string, es: seq<Event>)
    ensures Run(Initial(text), es).alarms <= CountRearms(es) + 1
    ensures Run(Initial(text), es).stopwatches <= CountRestarts(es) + 1
    ensures LatchNeedsStopwatch(Run(Initial(text), es).state)
    ensures UpdateBar(Initial(text), true).playAlarm && UpdateBar(Initial(text), true).startsStopwatch
    ensures (forall i | 0 <= i < |es| :: InOvertime(es[i])) && Update(true) in es ==>
      Run(Initial(text), es).alarms == 1
  {
    if forall i | 0 <= i < |es| :: InOvertime(es[i]) {
      AlarmOncePerOvertime(Initial(text), es);
    }
    AlarmsBoundedByRearms(Initial(text), es);
    StopwatchesBoundedByRestarts(Initial(text), es);
    LatchNeedsStopwatchKept(Initial(text), es);
  }

  /** One whole `updateBar`: the bar as drawn and the state transition it makes. */
  datatype Frame = Frame(bar: Colour.Bar, step: Step)

  /**
   `updateBar` for `elapsed` seconds into a period of `duration` seconds:
   the alarm sounds only when the period is used up and the latch was down,
   afterwards the latch records whether the clock is in overtime, an overtime
   interval is created only when in overtime without one, and the stopwatch
   text is left alone.
   */
  function Refresh(s: ClockState, elapsed: real, duration: int): (f: Frame)
    requires duration > 0
    ensures f.step.playAlarm <==> elapsed >= duration as real && !s.alarmPlayed
    ensures f.step.state.alarmPlayed <==> elapsed >= duration as real
    ensures f.bar.overtime == f.step.state.alarmPlayed
    ensures f.step.startsStopwatch <==> elapsed >= duration as real && !s.overtimeTimerSet
    ensures f.step.state.overtimeTimerSet <==> s.overtimeTimerSet || elapsed >= duration as real
    ensures f.step.state.stopwatchText == s.stopwatchText
    ensures f.bar == Colour.Render(elapsed, duration)
  {
    var bar := Colour.Render(elapsed, duration);
    Frame(bar, UpdateBar(s, bar.overtime))
  }

  /**
   Started at 09:00 with an eight-hour period: the update at 17:00:00 sounds
   the alarm and starts the stopwatch; the one at 17:00:01 does neither;
   restarting the clock at 17:05 resets the stopwatch to `00:00:00` and, the
   latch being re-armed, sounds the alarm again.
   */
  lemma AlarmScenario(text: string)
    ensures var first := Refresh(Initial(text), 28800.0, 28800).step;
      && first.playAlarm && first.startsStopwatch
      && var second := Refresh(first.state, 28801.0, 28800).step;
      && !second.playAlarm && !second.startsStopwatch
      && var restart := StartClock(second.state, Colour.Render(29100.0, 28800).overtime);
      && restart.playAlarm && restart.state.stopwatchText == ResetText
  {
  }
}
