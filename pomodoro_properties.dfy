/** What the timer's transitions guarantee, one operation at a time and over runs of ticks. */
module PomodoroProperties {
  import opened Wrappers
  import opened Pomodoro

  /** The displayed time of a snapshot. */
  function Time(t: TimerState): (nat, nat)
  {
    (t.minutes, t.seconds)
  }

  /** A new timer is an idle, stopped work session showing the full work length, with the initial cycles. */
  lemma InitIsFreshWorkSession(s: Settings)
    ensures var t := Init(s);
      && t.phase == Idle && !t.running && t.isWorkSession
      && t.minutes == t.config.workMinutes && t.seconds == 0
      && t.cycles == s.initialCycles.GetOr(0)
      && WellFormed(t)
    ensures Init(NoSettings).config == Defaults && Init(NoSettings).minutes == 25
  {
  }

  /** Each key given to the merge wins, every other key is kept, and merging the same settings twice changes nothing more. */
  lemma MergeProperties(c: Config, s: Settings)
    ensures s.workMinutes.Some? ==> Merge(c, s).workMinutes == s.workMinutes.value
    ensures s.workMinutes.None? ==> Merge(c, s).workMinutes == c.workMinutes
    ensures s.breakMinutes.Some? ==> Merge(c, s).breakMinutes == s.breakMinutes.value
    ensures s.breakMinutes.None? ==> Merge(c, s).breakMinutes == c.breakMinutes
    ensures s.longBreakMinutes.Some? ==> Merge(c, s).longBreakMinutes == s.longBreakMinutes.value
    ensures s.longBreakMinutes.None? ==> Merge(c, s).longBreakMinutes == c.longBreakMinutes
    ensures s.cyclesBeforeLongBreak.Some? ==> Merge(c, s).cyclesBeforeLongBreak == s.cyclesBeforeLongBreak.value
    ensures s.cyclesBeforeLongBreak.None? ==> Merge(c, s).cyclesBeforeLongBreak == c.cyclesBeforeLongBreak
    ensures s.enabled.Some? ==> Merge(c, s).enabled == s.enabled.value
    ensures s.enabled.None? ==> Merge(c, s).enabled == c.enabled
    ensures Merge(c, NoSettings) == c
    ensures Merge(Merge(c, s), s) == Merge(c, s)
  {
  }

  /** `resetTimer` leaves a stopped, idle work session at its full length and keeps the cycle count. */
  lemma ResetLeavesIdleWork(t: TimerState)
    ensures var n := ResetStep(t).next;
      && !n.running && n.phase == Idle && n.isWorkSession
      && n.minutes == t.config.workMinutes && n.seconds == 0
      && n.cycles == t.cycles && n.config == t.config
  {
  }

  /** A tick with time left removes exactly one second and changes nothing but the time. */
  lemma TickCountsDown(t: TimerState)
    requires WellFormed(t) && t.running && Remaining(t) > 0
    ensures var n := TickStep(t).next;
      && Remaining(n) == Remaining(t) - 1
      && n.seconds < 60
      && (t.seconds == 0 ==> n.minutes == t.minutes - 1 && n.seconds == 59)
      && (t.seconds > 0 ==> n.minutes == t.minutes && n.seconds == t.seconds - 1)
      && n.running && n.phase == Running
      && n.cycles == t.cycles && n.isWorkSession == t.isWorkSession && n.config == t.config
    ensures TickStep(t).emitted == [MinuteChanged(TickStep(t).next.minutes, TickStep(t).next.seconds, Running)]
  {
  }

  /**
   * A tick at 0:00 completes the session: a finished work session adds one
   * cycle and starts a break (long exactly when the new count is due), a
   * finished break starts a work session with the count unchanged; either way
   * the timer stops, idle.
   */
  lemma TickCompletesSession(t: TimerState)
    requires WellFormed(t) && t.running && Remaining(t) == 0
    ensures var n := TickStep(t).next;
      && !n.running && n.phase == Idle && n.seconds == 0 && n.config == t.config
      && n.isWorkSession == !t.isWorkSession
      && (t.isWorkSession ==> n.cycles == t.cycles + 1)
      && (t.isWorkSession ==> n.minutes == if LongBreakDue(t.cycles + 1, t.config.cyclesBeforeLongBreak) then t.config.longBreakMinutes else t.config.breakMinutes)
      && (!t.isWorkSession ==> n.cycles == t.cycles && n.minutes == t.config.workMinutes)
    ensures TickStep(t).emitted[0] == CycleCompleted(if t.isWorkSession then "work" else "break", TickStep(t).next.cycles, TickStep(t).next.minutes, 0)
  {
  }

  /** A tick completes a session, switching its kind and firing the cycle callback, exactly when no time is left. */
  lemma CompletionOnlyAtZero(t: TimerState)
    requires WellFormed(t) && t.running
    ensures TickStep(t).emitted[0].CycleCompleted? <==> Remaining(t) == 0
    ensures TickStep(t).next.isWorkSession != t.isWorkSession <==> Remaining(t) == 0
    ensures TickStep(t).next.cycles != t.cycles ==> Remaining(t) == 0 && t.isWorkSession
  {
  }

  /** The cycle count changes only when a work session completes, and then grows by one. */
  lemma CyclesChangeOnlyOnWorkCompletion(t: TimerState, cmd: Command)
    requires WellFormed(t)
    ensures var n := Apply(t, cmd).next;
      n.cycles == t.cycles || (cmd == TickCmd && t.running && t.isWorkSession && Remaining(t) == 0 && n.cycles == t.cycles + 1)
  {
  }

  /** The snapshot after a sequence of commands, and all the callbacks they fired. */
  function Run(t: TimerState, cmds: seq<Command>): Step
    decreases |cmds|
  {
    if cmds == [] then Step(t, [])
    else
      var first := Apply(t, cmds[0]);
      var rest := Run(first.next, cmds[1..]);
      Step(rest.next, first.emitted + rest.emitted)
  }

  /** Over any sequence of operations the invariant holds and the cycle count never decreases. */
  lemma {:induction false} RunKeepsInvariant(t: TimerState, cmds: seq<Command>)
    requires WellFormed(t)
    ensures WellFormed(Run(t, cmds).next)
    ensures Run(t, cmds).next.cycles >= t.cycles
    decreases |cmds|
  {
    if cmds != [] {
      ApplyKeepsWellFormed(t, cmds[0]);
      CyclesChangeOnlyOnWorkCompletion(t, cmds[0]);
      RunKeepsInvariant(Apply(t, cmds[0]).next, cmds[1..]);
    }
  }

  /** No callback of `onStateChange` ever receives the string 'running'. */
  lemma {:induction false} NoStateChangeReportsRunning(t: TimerState, cmds: seq<Command>)
    requires WellFormed(t)
    ensures forall e :: e in Run(t, cmds).emitted && e.StateChanged? ==> e.reported in {"idle", "paused", "work", "break"}
    decreases |cmds|
  {
    if cmds != [] {
      ApplyKeepsWellFormed(t, cmds[0]);
      NoStateChangeReportsRunning(Apply(t, cmds[0]).next, cmds[1..]);
    }
  }

  /** `start` on a running timer does nothing. */
  lemma StartWhileRunningIsNoop(t: TimerState)
    requires t.running
    ensures StartStep(t) == Step(t, [])
  {
  }

  /** `start` from idle runs the full session; the stored phase is running but the callback reports the session kind. */
  lemma StartFromIdle(t: TimerState)
    requires WellFormed(t) && t.phase == Idle
    ensures var n := StartStep(t).next;
      && n.running && n.phase == Running
      && n.minutes == SessionMinutes(t) && n.seconds == 0
      && n.cycles == t.cycles && n.isWorkSession == t.isWorkSession
    ensures StartStep(t).emitted == [StateChanged(if t.isWorkSession then "work" else "break", t.isWorkSession, SessionMinutes(t), 0)]
  {
  }

  /** The length `start` compares against differs from the session's length only for a break at zero cycles with distinct break lengths. */
  lemma ResumeTestDiffers(t: TimerState)
    ensures ResumeTestMinutes(t) != SessionMinutes(t) <==>
      !t.isWorkSession && t.cycles == 0 && t.config.cyclesBeforeLongBreak != 0
      && t.config.longBreakMinutes != t.config.breakMinutes
  {
  }

  /**
   * `start` from paused keeps the shown time exactly, unless the time is
   * exactly the unguarded comparison length at 0 seconds and that length is not
   * the session's. Then it refills to the session's length.
   */
  lemma StartFromPaused(t: TimerState)
    requires WellFormed(t) && t.phase == Paused
    ensures var n := StartStep(t).next;
      && n.running && n.phase == Running && n.cycles == t.cycles && n.isWorkSession == t.isWorkSession
      && (Time(n) == Time(t) <==> !(t.minutes == ResumeTestMinutes(t) && t.seconds == 0 && ResumeTestMinutes(t) != SessionMinutes(t)))
  {
  }

  /** `pause` does nothing when stopped; otherwise it stops, marks paused, and keeps the time, cycles and session kind. */
  lemma PauseKeepsTime(t: TimerState)
    requires WellFormed(t)
    ensures !t.running ==> PauseStep(t) == Step(t, [])
    ensures t.running ==> PauseStep(t).next == t.(running := false, phase := Paused)
    ensures t.running ==> PauseStep(t).emitted == [StateChanged("paused", t.isWorkSession, t.minutes, t.seconds)]
  {
  }

  /** Pausing a running timer and starting it again resumes at the paused time, outside the one case `StartFromPaused` names. */
  lemma PauseThenStartResumes(t: TimerState)
    requires WellFormed(t) && t.running
    requires !(t.minutes == ResumeTestMinutes(t) && t.seconds == 0 && ResumeTestMinutes(t) != SessionMinutes(t))
    ensures StartStep(PauseStep(t).next).next == t
  {
    StartFromPaused(PauseStep(t).next);
  }

  /**
   * `skipTo` stops the timer and shows the full session of the requested kind
   * ("work" for a work session, anything else for a break) without touching
   * the cycle count.
   */
  lemma SkipToProperties(t: TimerState, sessionType: string)
    ensures var n := SkipToStep(t, sessionType).next;
      && !n.running && n.phase == Idle
      && n.isWorkSession == (sessionType == "work")
      && n.cycles == t.cycles && n.config == t.config && n.seconds == 0
      && n.minutes == (if sessionType == "work" then t.config.workMinutes
                       else if t.cycles > 0 && LongBreakDue(t.cycles, t.config.cyclesBeforeLongBreak) then t.config.longBreakMinutes
                       else t.config.breakMinutes)
  {
  }

  /** `configure` always leaves the timer stopped at the full session under the merged settings, with cycles and kind kept. */
  lemma ConfigureResets(t: TimerState, s: Settings)
    requires WellFormed(t)
    ensures var n := ConfigureStep(t, s).next;
      && !n.running && n.phase == (if t.running then Paused else t.phase)
      && n.config == Merge(t.config, s)
      && n.minutes == SessionMinutes(n) && n.seconds == 0
      && n.cycles == t.cycles && n.isWorkSession == t.isWorkSession
  {
  }

  /** `k` ticks of the interval, which stop having any effect once the interval is cleared. */
  function Ticks(t: TimerState, k: nat): TimerState
    decreases k
  {
    if k == 0 || !t.running then t else Ticks(TickStep(t).next, k - 1)
  }

  /** Up to the remaining time, each tick takes one second off and nothing else changes. */
  lemma {:induction false} CountDown(t: TimerState, k: nat)
    requires WellFormed(t) && t.running && k <= Remaining(t)
    ensures var n := Ticks(t, k);
      && WellFormed(n) && n.running && Remaining(n) == Remaining(t) - k
      && n.cycles == t.cycles && n.isWorkSession == t.isWorkSession && n.config == t.config
    decreases k
  {
    if k > 0 {
      TickCountsDown(t);
      ApplyKeepsWellFormed(t, TickCmd);
      CountDown(TickStep(t).next, k - 1);
    }
  }

  /** One more tick after `k` ticks. */
  lemma {:induction false} TicksOneMore(t: TimerState, k: nat)
    ensures Ticks(t, k + 1) == (if Ticks(t, k).running then TickStep(Ticks(t, k)).next else Ticks(t, k))
    decreases k
  {
    if k > 0 && t.running {
      TicksOneMore(TickStep(t).next, k - 1);
    }
  }

  /**
   * A running session completes on the tick after its time reaches 0:00, that
   * is after `Remaining(t) + 1` ticks, and not sooner.
   */
  lemma {:induction false} SessionCompletes(t: TimerState)
    requires WellFormed(t) && t.running
    ensures Ticks(t, Remaining(t)).running && Remaining(Ticks(t, Remaining(t))) == 0
    ensures var n := Ticks(t, Remaining(t) + 1);
      && !n.running && n.phase == Idle && n.seconds == 0
      && n.isWorkSession == !t.isWorkSession
      && (t.isWorkSession ==> n.cycles == t.cycles + 1)
      && (t.isWorkSession ==> n.minutes == if LongBreakDue(t.cycles + 1, t.config.cyclesBeforeLongBreak) then t.config.longBreakMinutes else t.config.breakMinutes)
      && (!t.isWorkSession ==> n.cycles == t.cycles && n.minutes == t.config.workMinutes)
  {
    var k := Remaining(t);
    CountDown(t, k);
    TicksOneMore(t, k);
    TickCompletesSession(Ticks(t, k));
  }

  /**
   * With 25/5/15 minutes, a long break every 4 cycles and 3 cycles done, a
   * started work session ends after 25*60+1 ticks in a 15-minute long break
   * with 4 cycles.
   */
  lemma LongBreakOnFourthCycle()
    ensures var t := StartStep(Init(Settings(Some(25), Some(5), Some(15), Some(4), None, Some(3)))).next;
      var n := Ticks(t, 25 * 60 + 1);
      n.cycles == 4 && !n.isWorkSession && n.minutes == 15 && n.seconds == 0 && n.phase == Idle
  {
    var t := StartStep(Init(Settings(Some(25), Some(5), Some(15), Some(4), None, Some(3)))).next;
    assert WellFormed(t) && Remaining(t) == 25 * 60;
    SessionCompletes(t);
  }

  /**
   * The one case where resuming loses time: a break at zero cycles with a
   * 20-minute break and a 15-minute long break, paused after five minutes at
   * 15:00, resumes at 20:00.
   */
  lemma ResumeAtZeroCyclesRefills()
    ensures var t0 := Init(Settings(None, Some(20), Some(15), None, None, Some(0)));
      var running := StartStep(SkipToStep(t0, "break").next).next;
      var paused := PauseStep(Ticks(running, 5 * 60)).next;
      Time(paused) == (15, 0) && Time(StartStep(paused).next) == (20, 0)
  {
    var t0 := Init(Settings(None, Some(20), Some(15), None, None, Some(0)));
    var running := StartStep(SkipToStep(t0, "break").next).next;
    assert WellFormed(running) && Remaining(running) == 20 * 60;
    CountDown(running, 5 * 60);
    var n := Ticks(running, 5 * 60);
    assert n.minutes * 60 + n.seconds == 15 * 60 && n.seconds < 60;
    assert n.minutes == 15 && n.seconds == 0;
  }
}
