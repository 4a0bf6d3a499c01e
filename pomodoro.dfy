/**
 * The work/break interval timer (`PomodoroTimer`).
 *
 * The first half of the module gives each operation as a pure transition on a
 * snapshot of the timer's fields (`TimerState`), returning the next snapshot and
 * the callback invocations it makes (`Step`). The class `PomodoroTimer` at the
 * end holds the same fields and updates them in place; every method is proved to
 * perform the corresponding transition. The three callbacks `onStateChange`,
 * `onMinuteChange` and `onCycleComplete` are an event log the methods append to.
 */
module Pomodoro {
  import opened Wrappers

  /** The timer's configuration (`this.config`). Durations are whole minutes. */
  datatype Config = Config(
    workMinutes: nat,
    breakMinutes: nat,
    longBreakMinutes: nat,
    cyclesBeforeLongBreak: nat,
    enabled: bool)

  /** The defaults the constructor starts from. */
  const Defaults := Config(25, 5, 15, 4, true)

  /**
   * A settings object as given to the constructor or to `configure`: None is an
   * absent key. `initialCycles` is read only by the constructor.
   */
  datatype Settings = Settings(
    workMinutes: Option<nat>,
    breakMinutes: Option<nat>,
    longBreakMinutes: Option<nat>,
    cyclesBeforeLongBreak: Option<nat>,
    enabled: Option<bool>,
    initialCycles: Option<nat>)

  const NoSettings := Settings(None, None, None, None, None, None)

  /** `{ ...c, ...s }`: each key present in `s` replaces the one in `c`. */
  function Merge(c: Config, s: Settings): Config
  {
    Config(
      s.workMinutes.GetOr(c.workMinutes),
      s.breakMinutes.GetOr(c.breakMinutes),
      s.longBreakMinutes.GetOr(c.longBreakMinutes),
      s.cyclesBeforeLongBreak.GetOr(c.cyclesBeforeLongBreak),
      s.enabled.GetOr(c.enabled))
  }

  /** `currentState`: the source's strings 'idle', 'running' and 'paused' as a closed enumeration. */
  datatype Phase = Idle | Running | Paused

  /** The string `getState()` reports for a phase. */
  function PhaseName(p: Phase): string
  {
    match p
    case Idle => "idle"
    case Running => "running"
    case Paused => "paused"
  }

  /**
   * One callback invocation. `StateChanged` and `CycleCompleted` carry the
   * callback's arguments. `MinuteChanged` also records the phase that the
   * callback reads back through `getState()` at that moment, and
   * `CycleCompleted` the time it reads back through `getTime()`.
   */
  datatype Event =
    | StateChanged(reported: string, isWorkSession: bool, minutes: nat, seconds: nat)
    | MinuteChanged(minutes: nat, seconds: nat, observed: Phase)
    | CycleCompleted(finished: string, cycles: nat, minutes: nat, seconds: nat)

  /** The timer's fields; `running` stands for `timerInterval != null`. */
  datatype TimerState = TimerState(
    minutes: nat,
    seconds: nat,
    cycles: nat,
    phase: Phase,
    isWorkSession: bool,
    config: Config,
    running: bool)

  /** The snapshot after an operation and the callbacks it fired, in order. */
  datatype Step = Step(next: TimerState, emitted: seq<Event>)

  /**
   * `cycles % cyclesBeforeLongBreak === 0`. In JavaScript `x % 0` is NaN, which
   * equals nothing, so a zero setting never asks for a long break.
   */
  predicate LongBreakDue(cycles: nat, every: nat)
  {
    every != 0 && cycles % every == 0
  }

  /** The full length of the current session, as `start`, `skipTo` and `configure` compute it. */
  function SessionMinutes(t: TimerState): nat
  {
    if t.isWorkSession then t.config.workMinutes
    else if t.cycles > 0 && LongBreakDue(t.cycles, t.config.cyclesBeforeLongBreak) then t.config.longBreakMinutes
    else t.config.breakMinutes
  }

  /** The length `start` compares a paused time against: the same choice without the `cycles > 0` guard. */
  function ResumeTestMinutes(t: TimerState): nat
  {
    if t.isWorkSession then t.config.workMinutes
    else if LongBreakDue(t.cycles, t.config.cyclesBeforeLongBreak) then t.config.longBreakMinutes
    else t.config.breakMinutes
  }

  /** The remaining time in seconds. */
  function Remaining(t: TimerState): nat
  {
    t.minutes * 60 + t.seconds
  }

  /**
   * The invariant every operation keeps: seconds below 60, the countdown active
   * exactly in the running phase, the remaining time within the session's length,
   * and an idle timer showing its full session.
   */
  ghost predicate WellFormed(t: TimerState)
  {
    && t.seconds < 60
    && (t.running <==> t.phase == Running)
    && Remaining(t) <= SessionMinutes(t) * 60
    && (t.phase == Idle ==> t.minutes == SessionMinutes(t) && t.seconds == 0)
  }

  /** The constructor: merge the settings into the defaults, take the initial cycles, then `resetTimer()`. */
  function Init(s: Settings): TimerState
  {
    var c := Merge(Defaults, s);
    TimerState(c.workMinutes, 0, s.initialCycles.GetOr(0), Idle, true, c, false)
  }

  /** `resetTimer()`. */
  function ResetStep(t: TimerState): Step
  {
    var n := t.(running := false, phase := Idle, isWorkSession := true, minutes := t.config.workMinutes, seconds := 0);
    Step(n, [StateChanged(PhaseName(Idle), true, n.minutes, 0), MinuteChanged(n.minutes, 0, Idle)])
  }

  /** `start()`: the state-change callback receives 'work' or 'break', while the stored phase becomes running. */
  function StartStep(t: TimerState): Step
  {
    if t.running then Step(t, [])
    else
      var refill := t.phase == Idle || (t.phase == Paused && t.minutes == ResumeTestMinutes(t) && t.seconds == 0);
      var t1 := if refill then t.(minutes := SessionMinutes(t), seconds := 0) else t;
      var n := t1.(phase := Running, running := true);
      Step(n, [StateChanged(if t.isWorkSession then "work" else "break", t.isWorkSession, n.minutes, n.seconds)])
  }

  /** One run of the interval callback. */
  function TickStep(t: TimerState): Step
    requires t.running
  {
    if t.seconds > 0 then
      var n := t.(seconds := t.seconds - 1);
      Step(n, [MinuteChanged(n.minutes, n.seconds, n.phase)])
    else if t.minutes > 0 then
      var n := t.(minutes := t.minutes - 1, seconds := 59);
      Step(n, [MinuteChanged(n.minutes, n.seconds, n.phase)])
    else if t.isWorkSession then
      var c := t.cycles + 1;
      var m := if LongBreakDue(c, t.config.cyclesBeforeLongBreak) then t.config.longBreakMinutes else t.config.breakMinutes;
      var n := t.(running := false, cycles := c, isWorkSession := false, minutes := m, seconds := 0, phase := Idle);
      Step(n, [CycleCompleted("work", c, m, t.seconds), StateChanged(PhaseName(Idle), false, m, 0), MinuteChanged(m, 0, Idle)])
    else
      var m := t.config.workMinutes;
      var n := t.(running := false, isWorkSession := true, minutes := m, seconds := 0, phase := Idle);
      Step(n, [CycleCompleted("break", t.cycles, m, t.seconds), StateChanged(PhaseName(Idle), true, m, 0), MinuteChanged(m, 0, Idle)])
  }

  /** `pause()`. */
  function PauseStep(t: TimerState): Step
  {
    if !t.running then Step(t, [])
    else
      var n := t.(running := false, phase := Paused);
      Step(n, [StateChanged(PhaseName(Paused), n.isWorkSession, n.minutes, n.seconds)])
  }

  /** `skipTo(sessionType)`: any string other than "work" selects a break. */
  function SkipToStep(t: TimerState, sessionType: string): Step
  {
    var w := t.(running := false, isWorkSession := sessionType == "work");
    var n := w.(minutes := SessionMinutes(w), seconds := 0, phase := Idle);
    Step(n, [StateChanged(PhaseName(Idle), n.isWorkSession, n.minutes, 0), MinuteChanged(n.minutes, 0, Idle)])
  }

  /** `configure(newConfig)`: pause if running, merge, then show the full session under the new settings. */
  function ConfigureStep(t: TimerState, s: Settings): Step
  {
    var p := PauseStep(t);
    var c := p.next.(config := Merge(p.next.config, s));
    if c.phase == Idle || c.phase == Paused then
      var n := c.(minutes := SessionMinutes(c), seconds := 0);
      Step(n, p.emitted + [MinuteChanged(n.minutes, 0, n.phase)])
    else
      Step(c, p.emitted)
  }

  /** A user action or a tick of the interval, for reasoning about sequences of operations. */
  datatype Command =
    | StartCmd
    | TickCmd
    | PauseCmd
    | ResetCmd
    | SkipCmd(sessionType: string)
    | ConfigureCmd(settings: Settings)

  /** The effect of one command. A tick with no interval set does not happen. */
  function Apply(t: TimerState, cmd: Command): Step
  {
    match cmd
    case StartCmd => StartStep(t)
    case TickCmd => if t.running then TickStep(t) else Step(t, [])
    case PauseCmd => PauseStep(t)
    case ResetCmd => ResetStep(t)
    case SkipCmd(k) => SkipToStep(t, k)
    case ConfigureCmd(s) => ConfigureStep(t, s)
  }

  lemma InitWellFormed(s: Settings)
    ensures WellFormed(Init(s))
  {
  }

  /** Every operation keeps the invariant. */
  lemma ApplyKeepsWellFormed(t: TimerState, cmd: Command)
    requires WellFormed(t)
    ensures WellFormed(Apply(t, cmd).next)
  {
    match cmd
    case TickCmd =>
      if t.running && t.seconds == 0 && t.minutes == 0 {
        var n := Apply(t, cmd).next;
        assert SessionMinutes(n) == n.minutes;
      }
    case ConfigureCmd(s) =>
      assert PauseStep(t).next.phase != Running;
    case _ =>
  }

  /** The timer object. Its methods update the fields in place and append the callbacks they fire to `events`. */
  class PomodoroTimer {
    var minutes: nat
    var seconds: nat
    var cycles: nat
    var currentState: Phase
    var isWorkSession: bool
    var config: Config
    var running: bool
    var events: seq<Event>

    /** The fields as a snapshot. */
    function State(): TimerState
      reads this
    {
      TimerState(minutes, seconds, cycles, currentState, isWorkSession, config, running)
    }

    ghost predicate Valid()
      reads this
    {
      WellFormed(State())
    }

    /**
     * `new PomodoroTimer(settings)`. The callbacks are attached only after the
     * constructor returns, so the `resetTimer()` it runs fires none of them.
     */
    constructor (settings: Settings)
      ensures Valid()
      ensures State() == Init(settings) && events == []
    {
      config := Merge(Defaults, settings);
      cycles := settings.initialCycles.GetOr(0);
      running := false;
      currentState := Idle;
      isWorkSession := true;
      minutes := Merge(Defaults, settings).workMinutes;
      seconds := 0;
      events := [];
    }

    /** `stop()`: clear the interval. */
    method Stop()
      modifies this
      ensures State() == old(State()).(running := false)
      ensures events == old(events)
    {
      running := false;
    }

    method ResetTimer()
      requires Valid()
      modifies this
      ensures Valid()
      ensures State() == ResetStep(old(State())).next
      ensures events == old(events) + ResetStep(old(State())).emitted
    {
      Stop();
      currentState := Idle;
      isWorkSession := true;
      minutes := config.workMinutes;
      seconds := 0;
      events := events + [StateChanged(PhaseName(currentState), isWorkSession, minutes, seconds)];
      events := events + [MinuteChanged(minutes, seconds, currentState)];
    }

    method Start()
      requires Valid()
      modifies this
      ensures Valid()
      ensures State() == StartStep(old(State())).next
      ensures events == old(events) + StartStep(old(State())).emitted
    {
      if running {
        return;
      }
      if currentState == Idle || (currentState == Paused && minutes == ResumeTestMinutes(State()) && seconds == 0) {
        minutes := SessionMinutes(State());
        seconds := 0;
      }
      currentState := Running;
      events := events + [StateChanged(if isWorkSession then "work" else "break", isWorkSession, minutes, seconds)];
      running := true;
      ApplyKeepsWellFormed(old(State()), StartCmd);
    }

    /** The body of the interval callback; it runs only while the interval is set. */
    method Tick()
      requires Valid() && running
      modifies this
      ensures Valid()
      ensures State() == TickStep(old(State())).next
      ensures events == old(events) + TickStep(old(State())).emitted
    {
      ApplyKeepsWellFormed(State(), TickCmd);
      if seconds > 0 {
        seconds := seconds - 1;
      } else if minutes > 0 {
        minutes := minutes - 1;
        seconds := 59;
      } else {
        Stop();
        if isWorkSession {
          cycles := cycles + 1;
          isWorkSession := false;
          minutes := if LongBreakDue(cycles, config.cyclesBeforeLongBreak) then config.longBreakMinutes else config.breakMinutes;
          events := events + [CycleCompleted("work", cycles, minutes, seconds)];
        } else {
          isWorkSession := true;
          minutes := config.workMinutes;
          events := events + [CycleCompleted("break", cycles, minutes, seconds)];
        }
        seconds := 0;
        currentState := Idle;
        events := events + [StateChanged(PhaseName(currentState), isWorkSession, minutes, seconds)];
        events := events + [MinuteChanged(minutes, seconds, currentState)];
        return;
      }
      events := events + [MinuteChanged(minutes, seconds, currentState)];
    }

    method Pause()
      requires Valid()
      modifies this
      ensures Valid()
      ensures State() == PauseStep(old(State())).next
      ensures events == old(events) + PauseStep(old(State())).emitted
    {
      if !running {
        return;
      }
      running := false;
      currentState := Paused;
      events := events + [StateChanged(PhaseName(currentState), isWorkSession, minutes, seconds)];
    }

    method SkipTo(sessionType: string)
      requires Valid()
      modifies this
      ensures Valid()
      ensures State() == SkipToStep(old(State()), sessionType).next
      ensures events == old(events) + SkipToStep(old(State()), sessionType).emitted
    {
      Stop();
      isWorkSession := sessionType == "work";
      if isWorkSession {
        minutes := config.workMinutes;
      } else {
        minutes := if cycles > 0 && LongBreakDue(cycles, config.cyclesBeforeLongBreak) then config.longBreakMinutes else config.breakMinutes;
      }
      seconds := 0;
      currentState := Idle;
      events := events + [StateChanged(PhaseName(currentState), isWorkSession, minutes, seconds)];
      events := events + [MinuteChanged(minutes, seconds, currentState)];
    }

    method Configure(newConfig: Settings)
      requires Valid()
      modifies this
      ensures Valid()
      ensures State() == ConfigureStep(old(State()), newConfig).next
      ensures events == old(events) + ConfigureStep(old(State()), newConfig).emitted
    {
      ApplyKeepsWellFormed(State(), ConfigureCmd(newConfig));
      var wasRunning := running;
      if wasRunning {
        Pause();
      }
      config := Merge(config, newConfig);
      if currentState == Idle || currentState == Paused {
        minutes := SessionMinutes(State());
        seconds := 0;
        events := events + [MinuteChanged(minutes, seconds, currentState)];
      }
    }

    /** `getTime()`: the displayed minutes and seconds. */
    function GetTime(): (r: (nat, nat))
      reads this
      ensures Valid() ==> r.1 < 60
    {
      (minutes, seconds)
    }

    /** `getState()`: the phase name reads 'running' exactly while the interval is set. */
    function GetState(): (r: (string, bool, nat))
      reads this
      ensures Valid() ==> (r.0 == "running" <==> running)
    {
      (PhaseName(currentState), isWorkSession, cycles)
    }
  }
}
