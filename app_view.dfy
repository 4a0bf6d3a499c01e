/**
 * The non-DOM logic of the main page: the timer display format, the timer
 * configuration read from the persisted state, the state records the timer's
 * callbacks persist, the skip toggle, the task-list view filter, the task picked
 * when entering focus mode, and the validation of the task form.
 */
module AppView {
  import opened Wrappers
  import opened Json
  import opened Text
  import opened Tasks
  import opened Pomodoro
  import PomodoroProperties
  import opened TaskModel
  import FocusMode

  // ---------------------------------------------------------------------------
  // Decimal digits
  // ---------------------------------------------------------------------------

  predicate IsDigit(c: char)
  {
    '0' <= c <= '9'
  }

  predicate AllDigits(s: string)
  {
    forall i :: 0 <= i < |s| ==> IsDigit(s[i])
  }

  function DigitChar(d: nat): (c: char)
    requires d < 10
    ensures IsDigit(c)
  {
    "0123456789"[d]
  }

  function DigitValue(c: char): (d: nat)
    requires IsDigit(c)
    ensures d < 10
  {
    (c as int - '0' as int) as nat
  }

  /** `String(n)` for a non-negative integer. */
  function Decimal(n: nat): (s: string)
    ensures 1 <= |s| && AllDigits(s)
    ensures n < 10 <==> |s| == 1
    ensures 10 <= n < 100 ==> |s| == 2
  {
    if n < 10 then [DigitChar(n)] else Decimal(n / 10) + [DigitChar(n % 10)]
  }

  /** The value of a string of decimal digits (empty reads as 0). */
  function DecimalValue(s: string): nat
    requires AllDigits(s)
  {
    if s == [] then 0 else DecimalValue(s[..|s| - 1]) * 10 + DigitValue(s[|s| - 1])
  }

  lemma {:induction false} DecimalRoundTrip(n: nat)
    ensures DecimalValue(Decimal(n)) == n
  {
    if n >= 10 {
      var s := Decimal(n);
      assert s[..|s| - 1] == Decimal(n / 10);
      DecimalRoundTrip(n / 10);
    }
  }

  /** Leading zeros do not change the value of a digit string. */
  lemma {:induction false} LeadingZeroValue(s: string)
    requires AllDigits(s)
    ensures DecimalValue("0" + s) == DecimalValue(s)
    decreases |s|
  {
    if s != [] {
      var t := "0" + s;
      assert t[..|t| - 1] == "0" + s[..|s| - 1];
      LeadingZeroValue(s[..|s| - 1]);
    }
  }

  // ---------------------------------------------------------------------------
  // The timer display
  // ---------------------------------------------------------------------------

  /** `String(n).padStart(2, '0')`. */
  function Pad2(n: nat): (s: string)
    ensures AllDigits(s) && |s| >= 2
    ensures DecimalValue(s) == n
    ensures n < 100 ==> |s| == 2
    ensures n >= 10 ==> s == Decimal(n)
  {
    DecimalRoundTrip(n);
    var d := Decimal(n);
    if |d| < 2 then
      LeadingZeroValue(d);
      "0" + d
    else d
  }

  /** `formatPomodoroTime(minutes, seconds)`. */
  function FormatPomodoroTime(minutes: nat, seconds: nat): string
  {
    Pad2(minutes) + ":" + Pad2(seconds)
  }

  predicate IsColon(c: char)
  {
    c == ':'
  }

  /** Reads a displayed time back: the digits before the first colon and after it. */
  function ParseTime(s: string): Option<(nat, nat)>
  {
    match FirstIndex(s, IsColon)
    case None => None
    case Some(i) =>
      if AllDigits(s[..i]) && AllDigits(s[i + 1..]) then Some((DecimalValue(s[..i]), DecimalValue(s[i + 1..])))
      else None
  }

  /** In digits followed by a colon, the first colon is the one after the digits. */
  lemma {:induction false} FirstColonAfterDigits(a: string, b: string)
    requires AllDigits(a)
    ensures FirstIndex(a + ":" + b, IsColon) == Some(|a|)
  {
    if a != [] {
      assert (a + ":" + b)[1..] == a[1..] + ":" + b;
      FirstColonAfterDigits(a[1..], b);
    }
  }

  /** The display reads back as the time shown, and for two-digit values it has five characters with the colon in the middle. */
  lemma FormatPomodoroTimeProperties(minutes: nat, seconds: nat)
    ensures ParseTime(FormatPomodoroTime(minutes, seconds)) == Some((minutes, seconds))
    ensures minutes < 100 && seconds < 100 ==> |FormatPomodoroTime(minutes, seconds)| == 5 && FormatPomodoroTime(minutes, seconds)[2] == ':'
  {
    var r := FormatPomodoroTime(minutes, seconds);
    var m := Pad2(minutes);
    var sec := Pad2(seconds);
    FirstColonAfterDigits(m, sec);
    assert r[..|m|] == m;
    assert r[|m| + 1..] == sec;
  }

  // ---------------------------------------------------------------------------
  // Timer configuration from the persisted state
  // ---------------------------------------------------------------------------

  /**
   * `v || d` for a numeric setting: positive integers are used, a missing,
   * null, zero, false or empty-string value falls back. The timer's settings
   * are natural numbers, so a negative integer falls back here too, where
   * JavaScript would pass it on.
   */
  function NumberOr(v: Option<Json>, d: nat): nat
  {
    if v.Some? && v.value.JInt? && v.value.i > 0 then v.value.i else d
  }

  /** `v !== undefined ? v : true`, read for truthiness as every use of `config.enabled` does. */
  function EnabledOr(v: Option<Json>): bool
  {
    if v.Some? then JsTruthy(v.value) else true
  }

  /** The settings `initializePomodoro` passes to the timer's constructor, from the fetched state. */
  function TimerSettings(appState: Json): Settings
  {
    var p := FieldOrNull(appState, "pomodoro");
    var pomodoro := if JsTruthy(p) then p else JObj(map[]);
    Settings(
      Some(NumberOr(Field(pomodoro, "work_minutes"), 25)),
      Some(NumberOr(Field(pomodoro, "break_minutes"), 5)),
      Some(NumberOr(Field(pomodoro, "long_break_minutes"), 15)),
      Some(NumberOr(Field(pomodoro, "cycles_before_long_break"), 4)),
      Some(EnabledOr(Field(pomodoro, "enabled"))),
      Some(NumberOr(Field(pomodoro, "cycles_completed_today"), 0)))
  }

  /**
   * How `pomodoroState[key] || d` reads one numeric setting from the fetched
   * `pomodoro` value `p`: a positive integer is used, and a missing key, a
   * non-object `p` or a falsy value (null, 0, false, "") gives the fallback.
   */
  ghost predicate ReadsSetting(p: Json, key: string, d: nat, got: Option<nat>)
  {
    && (p.JObj? && key in p.fields && p.fields[key].JInt? && p.fields[key].i > 0 ==> got == Some(p.fields[key].i))
    && (!p.JObj? || key !in p.fields || p.fields[key] in {JNull, JInt(0), JBool(false), JStr("")} ==> got == Some(d))
  }

  /**
   * Each numeric setting is read with its own fallback (25, 5, 15, 4 and 0);
   * `enabled` is the stored value's truthiness, and true only when absent.
   */
  lemma TimerSettingsProperties(appState: Json)
    ensures var p := FieldOrNull(appState, "pomodoro");
      var s := TimerSettings(appState);
      && ReadsSetting(p, "work_minutes", 25, s.workMinutes)
      && ReadsSetting(p, "break_minutes", 5, s.breakMinutes)
      && ReadsSetting(p, "long_break_minutes", 15, s.longBreakMinutes)
      && ReadsSetting(p, "cycles_before_long_break", 4, s.cyclesBeforeLongBreak)
      && ReadsSetting(p, "cycles_completed_today", 0, s.initialCycles)
      && (!p.JObj? || "enabled" !in p.fields ==> s.enabled == Some(true))
      && (p.JObj? && "enabled" in p.fields ==> s.enabled == Some(JsTruthy(p.fields["enabled"])))
  {
  }

  /** The server's default state starts the timer with the timer's own defaults and no cycles. */
  lemma DefaultStateStartsDefaultTimer()
    ensures Init(TimerSettings(DefaultAppState)) == Init(NoSettings)
    ensures Init(NoSettings).config == Defaults && Init(NoSettings).cycles == 0
  {
    DefaultStateSettings();
  }

  /** The settings read from the server's default state: 25 and 5 minutes as stored, the rest from the fallbacks. */
  lemma DefaultStateSettings()
    ensures TimerSettings(DefaultAppState) == Settings(Some(25), Some(5), Some(15), Some(4), Some(true), Some(0))
  {
    var p := DefaultAppState.fields["pomodoro"];
    assert FieldOrNull(DefaultAppState, "pomodoro") == p;
    assert "long_break_minutes" !in p.fields && "cycles_before_long_break" !in p.fields && "cycles_completed_today" !in p.fields;
  }

  // ---------------------------------------------------------------------------
  // State records persisted by the timer callbacks
  // ---------------------------------------------------------------------------

  /** `{pomodoro: fields}`. */
  function PomodoroWrite(fields: map<string, Json>): Json
  {
    JObj(map["pomodoro" := JObj(fields)])
  }

  /** The fields a callback invocation writes under `pomodoro`, when it sends anything. */
  function WrittenFields(e: Event): (f: map<string, Json>)
    ensures f != map[] && forall k :: k in f ==> !f[k].JObj?
  {
    match e
    case StateChanged(reported, isWork, m, s) =>
      var f := map[
        "active" := JBool(reported == "running"),
        "on_break" := JBool(if reported != "idle" then !isWork else false),
        "current_minutes" := JInt(m),
        "current_seconds" := JInt(s)];
      assert "active" in f;
      f
    case MinuteChanged(m, s, _) =>
      var f := map["current_minutes" := JInt(m), "current_seconds" := JInt(s)];
      assert "current_minutes" in f;
      f
    case CycleCompleted(finished, cycles, m, s) =>
      var f := map[
        "cycles_completed_today" := JInt(cycles),
        "active" := JBool(false),
        "on_break" := JBool(finished == "work"),
        "current_minutes" := JInt(m),
        "current_seconds" := JInt(s)];
      assert "active" in f;
      f
  }

  /** The minute callback writes only when the timer reads back as paused or idle; the other two always write. */
  predicate Sends(e: Event)
  {
    !e.MinuteChanged? || e.observed == Paused || e.observed == Idle
  }

  /** The `PUT /api/state` body a callback invocation sends, if any. */
  function WriteFor(e: Event): Option<Json>
  {
    if Sends(e) then Some(PomodoroWrite(WrittenFields(e))) else None
  }

  /** The bodies sent for a sequence of callback invocations, in order. */
  function Writes(events: seq<Event>): (ws: seq<Json>)
    ensures |ws| <= |events|
  {
    if events == [] then []
    else (match WriteFor(events[0]) case Some(w) => [w] case None => []) + Writes(events[1..])
  }

  /** The first sync at start-up, when the timer is enabled: the state-change handler on the fresh timer's state. */
  function InitialSync(t: TimerState): Option<Json>
  {
    if t.config.enabled then WriteFor(StateChanged(PhaseName(t.phase), t.isWorkSession, t.minutes, t.seconds)) else None
  }

  /** The `pomodoro.active` flag a body sets, if it sets one. */
  function ActiveFlag(w: Json): Option<Json>
  {
    match Field(w, "pomodoro")
    case None => None
    case Some(p) => Field(p, "active")
  }

  /** A body somewhere in `events` sets `pomodoro.active` to true. */
  predicate PersistsActive(events: seq<Event>)
  {
    exists i :: 0 <= i < |events| && WriteFor(events[i]).Some? && ActiveFlag(WriteFor(events[i]).value) == Some(JBool(true))
  }

  /**
   * Because the state-change callback never receives 'running', no sequence of
   * timer operations ever persists `active: true`, from start-up on.
   */
  lemma NeverPersistsActive(s: Settings, cmds: seq<Command>)
    ensures InitialSync(Init(s)).Some? ==> ActiveFlag(InitialSync(Init(s)).value) == Some(JBool(false))
    ensures !PersistsActive(PomodoroProperties.Run(Init(s), cmds).emitted)
  {
    InitWellFormed(s);
    var es := PomodoroProperties.Run(Init(s), cmds).emitted;
    PomodoroProperties.NoStateChangeReportsRunning(Init(s), cmds);
    forall i | 0 <= i < |es| && WriteFor(es[i]).Some?
      ensures ActiveFlag(WriteFor(es[i]).value) != Some(JBool(true))
    {
      assert es[i] in es;
    }
  }

  /** A tick that does not complete the session persists nothing. */
  lemma RunningTickPersistsNothing(t: TimerState)
    requires t.running && WellFormed(t) && Remaining(t) > 0
    ensures Writes(TickStep(t).emitted) == []
  {
  }

  /**
   * The cycle record of a completing work session carries the new cycle count,
   * marks the timer inactive and on a break, and shows the break's full length.
   */
  lemma CycleWriteMatchesTimer(t: TimerState)
    requires t.running && WellFormed(t) && Remaining(t) == 0 && t.isWorkSession
    ensures var n := TickStep(t).next;
      WriteFor(TickStep(t).emitted[0]) == Some(PomodoroWrite(map[
        "cycles_completed_today" := JInt(n.cycles),
        "active" := JBool(false),
        "on_break" := JBool(!n.isWorkSession),
        "current_minutes" := JInt(n.minutes),
        "current_seconds" := JInt(0)]))
    ensures TickStep(t).next.cycles == t.cycles + 1
  {
  }

  /** The stored state can take a callback's body: its `pomodoro` entry is absent or an object. */
  predicate PomodoroSlotOk(d: map<string, Json>)
  {
    "pomodoro" !in d || d["pomodoro"].JObj?
  }

  /** Merging non-object values is a right-biased map union. */
  lemma MergeScalars(d: map<string, Json>, f: map<string, Json>)
    requires forall k :: k in f ==> !f[k].JObj?
    ensures Mergeable(d, f) && DeepMerge(d, f) == d + f
  {
  }

  /** Merging a callback body replaces the written `pomodoro` fields and keeps every other field and key. */
  lemma MergePomodoroWrite(d: map<string, Json>, f: map<string, Json>)
    requires PomodoroSlotOk(d) && f != map[] && forall k :: k in f ==> !f[k].JObj?
    ensures Mergeable(d, PomodoroWrite(f).fields)
    ensures DeepMerge(d, PomodoroWrite(f).fields) == d["pomodoro" := JObj(ExistingOrEmpty(d, "pomodoro").fields + f)]
  {
    var u := PomodoroWrite(f).fields;
    var p := ExistingOrEmpty(d, "pomodoro");
    MergeScalars(p.fields, f);
    assert Mergeable(d, u);
  }

  /** The stored state after the server merges one callback body. */
  function ApplyWrite(d: map<string, Json>, e: Event): (r: map<string, Json>)
    requires PomodoroSlotOk(d) && Sends(e)
    ensures PomodoroSlotOk(r)
    ensures r == d["pomodoro" := JObj(ExistingOrEmpty(d, "pomodoro").fields + WrittenFields(e))]
  {
    MergePomodoroWrite(d, WrittenFields(e));
    DeepMerge(d, PomodoroWrite(WrittenFields(e)).fields)
  }

  /** The stored state after the server merges the bodies for `events`, one request after another. */
  function Persist(d: map<string, Json>, events: seq<Event>): (r: map<string, Json>)
    requires PomodoroSlotOk(d)
    ensures PomodoroSlotOk(r)
    ensures forall k :: k in d && k != "pomodoro" ==> k in r && r[k] == d[k]
    decreases |events|
  {
    if events == [] then d
    else Persist(if Sends(events[0]) then ApplyWrite(d, events[0]) else d, events[1..])
  }

  /** The `pomodoro` object of a stored state, reading an absent one as empty. */
  function PomodoroOf(d: map<string, Json>): map<string, Json>
    requires PomodoroSlotOk(d)
  {
    ExistingOrEmpty(d, "pomodoro").fields
  }

  /** The keys a callback body sets under `pomodoro`. */
  function WrittenKeys(e: Event): set<string>
  {
    if Sends(e) then WrittenFields(e).Keys else {}
  }

  /**
   * Fields of the stored `pomodoro` object that none of the bodies names survive
   * the sequence of merges: the timer's callbacks never erase the persisted
   * settings or, outside a cycle completion, the cycle count.
   */
  lemma {:induction false} PersistKeepsUnwritten(d: map<string, Json>, events: seq<Event>, k: string)
    requires PomodoroSlotOk(d) && k in PomodoroOf(d)
    requires forall i :: 0 <= i < |events| ==> k !in WrittenKeys(events[i])
    ensures k in PomodoroOf(Persist(d, events)) && PomodoroOf(Persist(d, events))[k] == PomodoroOf(d)[k]
    decreases |events|
  {
    if events != [] {
      var next := if Sends(events[0]) then ApplyWrite(d, events[0]) else d;
      assert k in PomodoroOf(next) && PomodoroOf(next)[k] == PomodoroOf(d)[k];
      PersistKeepsUnwritten(next, events[1..], k);
    }
  }

  /**
   * After a work session completes, the stored record holds the new cycle count
   * and the break's length, and is marked inactive and, because the idle
   * state-change record comes after the cycle record, not on a break.
   */
  lemma CompletionPersisted(d: map<string, Json>, t: TimerState)
    requires PomodoroSlotOk(d)
    requires t.running && Remaining(t) == 0 && t.isWorkSession
    ensures var p := PomodoroOf(Persist(d, TickStep(t).emitted));
      var n := TickStep(t).next;
      && "cycles_completed_today" in p && p["cycles_completed_today"] == JInt(t.cycles + 1)
      && "active" in p && p["active"] == JBool(false)
      && "on_break" in p && p["on_break"] == JBool(false)
      && "current_minutes" in p && p["current_minutes"] == JInt(n.minutes)
      && "current_seconds" in p && p["current_seconds"] == JInt(0)
  {
    WorkCompletionEvents(t);
    PersistCompletionRecords(d, t.cycles + 1, TickStep(t).next.minutes);
  }

  /** The three records of a work completion, merged in order. */
  lemma PersistCompletionRecords(d: map<string, Json>, c: nat, m: nat)
    requires PomodoroSlotOk(d)
    ensures var p := PomodoroOf(Persist(d, [CycleCompleted("work", c, m, 0), StateChanged("idle", false, m, 0), MinuteChanged(m, 0, Idle)]));
      && "cycles_completed_today" in p && p["cycles_completed_today"] == JInt(c)
      && "active" in p && p["active"] == JBool(false)
      && "on_break" in p && p["on_break"] == JBool(false)
      && "current_minutes" in p && p["current_minutes"] == JInt(m)
      && "current_seconds" in p && p["current_seconds"] == JInt(0)
  {
    PersistThree(d, CycleCompleted("work", c, m, 0), StateChanged("idle", false, m, 0), MinuteChanged(m, 0, Idle));
    CompletionRecordsOverride(PomodoroOf(d), c, m);
  }

  /** The three completion records laid over any stored `pomodoro` object. */
  lemma CompletionRecordsOverride(p: map<string, Json>, c: nat, m: nat)
    ensures var q := p + WrittenFields(CycleCompleted("work", c, m, 0)) + WrittenFields(StateChanged("idle", false, m, 0)) + WrittenFields(MinuteChanged(m, 0, Idle));
      && "cycles_completed_today" in q && q["cycles_completed_today"] == JInt(c)
      && "active" in q && q["active"] == JBool(false)
      && "on_break" in q && q["on_break"] == JBool(false)
      && "current_minutes" in q && q["current_minutes"] == JInt(m)
      && "current_seconds" in q && q["current_seconds"] == JInt(0)
  {
    var f0, f1, f2 := WrittenFields(CycleCompleted("work", c, m, 0)), WrittenFields(StateChanged("idle", false, m, 0)), WrittenFields(MinuteChanged(m, 0, Idle));
    IdleRecord(m);
    CycleRecord(c, m);
    MinuteRecord(m);
    LastWriteWins(p, f0, f1, f2, "cycles_completed_today", JInt(c));
    LastWriteWins(p, f0, f1, f2, "active", JBool(false));
    LastWriteWins(p, f0, f1, f2, "on_break", JBool(false));
    LastWriteWins(p, f0, f1, f2, "current_minutes", JInt(m));
    LastWriteWins(p, f0, f1, f2, "current_seconds", JInt(0));
  }

  /** A lookup in a map overridden three times finds the last write of the key. */
  lemma LastWriteWins(p: map<string, Json>, f0: map<string, Json>, f1: map<string, Json>, f2: map<string, Json>, k: string, v: Json)
    requires if k in f2 then f2[k] == v else if k in f1 then f1[k] == v else k in f0 && f0[k] == v
    ensures k in p + f0 + f1 + f2 && (p + f0 + f1 + f2)[k] == v
  {
  }

  lemma CycleRecord(c: nat, m: nat)
    ensures var f := WrittenFields(CycleCompleted("work", c, m, 0));
      "cycles_completed_today" in f && f["cycles_completed_today"] == JInt(c)
  {
  }

  lemma MinuteRecord(m: nat)
    ensures var f := WrittenFields(MinuteChanged(m, 0, Idle));
      && f.Keys == {"current_minutes", "current_seconds"}
      && f["current_minutes"] == JInt(m) && f["current_seconds"] == JInt(0)
  {
  }

  lemma PersistCons(d: map<string, Json>, e: Event, rest: seq<Event>)
    requires PomodoroSlotOk(d)
    ensures Persist(d, [e] + rest) == Persist(if Sends(e) then ApplyWrite(d, e) else d, rest)
  {
    assert ([e] + rest)[1..] == rest;
  }

  /** One sent body overrides the stored `pomodoro` object with its fields. */
  lemma PomodoroOfApply(d: map<string, Json>, e: Event)
    requires PomodoroSlotOk(d) && Sends(e)
    ensures PomodoroOf(ApplyWrite(d, e)) == PomodoroOf(d) + WrittenFields(e)
  {
  }

  /** A single sent body, then nothing more. */
  lemma PersistOne(d: map<string, Json>, e: Event)
    requires PomodoroSlotOk(d) && Sends(e)
    ensures Persist(d, [e]) == ApplyWrite(d, e)
  {
    PersistCons(d, e, []);
    assert [e] + [] == [e];
  }

  /** Two sent bodies, then nothing more. */
  lemma PersistTwo(d: map<string, Json>, e1: Event, e2: Event)
    requires PomodoroSlotOk(d) && Sends(e1) && Sends(e2)
    ensures Persist(d, [e1, e2]) == ApplyWrite(ApplyWrite(d, e1), e2)
  {
    assert [e1, e2][1..] == [e2];
    PersistOne(ApplyWrite(d, e1), e2);
  }

  /** Three callback bodies that are all sent, merged one after another. */
  lemma PersistThree(d: map<string, Json>, e0: Event, e1: Event, e2: Event)
    requires PomodoroSlotOk(d) && Sends(e0) && Sends(e1) && Sends(e2)
    ensures PomodoroOf(Persist(d, [e0, e1, e2])) == PomodoroOf(d) + WrittenFields(e0) + WrittenFields(e1) + WrittenFields(e2)
  {
    var d1 := ApplyWrite(d, e0);
    var d2 := ApplyWrite(d1, e1);
    assert [e0, e1, e2][1..] == [e1, e2];
    PersistTwo(d1, e1, e2);
    PomodoroOfApply(d, e0);
    PomodoroOfApply(d1, e1);
    PomodoroOfApply(d2, e2);
  }

  /** The callbacks a completing work session fires, in order. */
  lemma WorkCompletionEvents(t: TimerState)
    requires t.running && Remaining(t) == 0 && t.isWorkSession
    ensures var n := TickStep(t).next;
      TickStep(t).emitted == [CycleCompleted("work", t.cycles + 1, n.minutes, 0), StateChanged("idle", false, n.minutes, 0), MinuteChanged(n.minutes, 0, Idle)]
  {
  }

  /** The record of the idle state change that follows a completion. */
  lemma IdleRecord(m: nat)
    ensures var f := WrittenFields(StateChanged("idle", false, m, 0));
      && f.Keys == {"active", "on_break", "current_minutes", "current_seconds"}
      && f["active"] == JBool(false) && f["on_break"] == JBool(false)
  {
    assert "idle" != "running" by {
      assert "idle"[0] != "running"[0];
    }
  }

  // ---------------------------------------------------------------------------
  // Skip, view filter, focus-mode entry
  // ---------------------------------------------------------------------------

  /** The skip button's argument to `skipTo`. */
  function SkipTarget(isWorkSession: bool): string
  {
    if isWorkSession then "break" else "work"
  }

  /** Skipping always switches the session kind and leaves the timer idle and stopped at the new session's full length. */
  lemma SkipToggles(t: TimerState)
    ensures var n := SkipToStep(t, SkipTarget(t.isWorkSession)).next;
      n.isWorkSession == !t.isWorkSession && n.phase == Idle && !n.running
      && n.minutes == SessionMinutes(n) && n.seconds == 0 && n.cycles == t.cycles
  {
  }

  /** The list `fetchAndDisplayTasks` shows for a view. */
  function ViewFilter(tasks: seq<Task>, view: string): seq<Task>
  {
    if view == "active" then Incomplete(tasks)
    else if view == "completed" then CompletedOnly(tasks)
    else tasks
  }

  /**
   * The active view shows exactly the incomplete tasks, the completed view
   * exactly the completed ones, any other view everything; each keeps the
   * order of the list.
   */
  lemma ViewFilterProperties(tasks: seq<Task>, view: string)
    ensures IsSubsequence(ViewFilter(tasks, view), tasks)
    ensures forall i :: 0 <= i < |ViewFilter(tasks, view)| ==> ViewFilter(tasks, view)[i] in tasks
    ensures view == "active" ==> forall t :: t in tasks ==> (t in ViewFilter(tasks, view) <==> !t.completed)
    ensures view == "completed" ==> forall t :: t in tasks ==> (t in ViewFilter(tasks, view) <==> t.completed)
    ensures view != "active" && view != "completed" ==> ViewFilter(tasks, view) == tasks
  {
    FilterIsSubsequence(tasks, (t: Task) => !t.completed);
    FilterIsSubsequence(tasks, (t: Task) => t.completed);
    FilterMembers(tasks, (t: Task) => !t.completed);
    FilterMembers(tasks, (t: Task) => t.completed);
    if view != "active" && view != "completed" {
      SubsequenceOfItself(tasks);
    }
  }

  /** Counted with repetitions, the active view holds every copy of each incomplete task and the completed view every copy of each completed one. */
  lemma ViewCounts(tasks: seq<Task>, view: string, t: Task)
    ensures view == "active" ==> multiset(ViewFilter(tasks, view))[t] == if t.completed then 0 else multiset(tasks)[t]
    ensures view == "completed" ==> multiset(ViewFilter(tasks, view))[t] == if t.completed then multiset(tasks)[t] else 0
  {
    FilterCounts(tasks, (t: Task) => !t.completed, t);
    FilterCounts(tasks, (t: Task) => t.completed, t);
  }

  lemma {:induction false} SubsequenceOfItself<T>(xs: seq<T>)
    ensures IsSubsequence(xs, xs)
  {
    if xs != [] {
      SubsequenceOfItself(xs[1..]);
    }
  }

  /** The active and the completed views split the list between them. */
  lemma {:induction false} ViewsPartition(tasks: seq<Task>)
    ensures |ViewFilter(tasks, "active")| + |ViewFilter(tasks, "completed")| == |tasks|
  {
    if tasks != [] {
      ViewsPartition(tasks[1..]);
    }
  }

  /** The `selected_task_id` written when entering focus mode from a view. */
  function FocusPick(tasks: seq<Task>, view: string): Json
  {
    var candidates := if view == "active" || view == "all" then Incomplete(tasks) else [];
    if |candidates| > 0 then JStr(candidates[0].id) else JNull
  }

  /** The body sent when entering focus mode. */
  function FocusEntryWrite(tasks: seq<Task>, view: string): Json
  {
    JObj(map["focus_mode" := JBool(true), "selected_task_id" := FocusPick(tasks, view)])
  }

  /**
   * The pick is the first incomplete task in the active and all views, and null
   * in the completed view or when nothing is incomplete; either way the focus
   * page, given the same list, starts at its first task without clearing anything.
   */
  lemma FocusPickProperties(tasks: seq<Task>, view: string)
    ensures (view == "active" || view == "all") && |Incomplete(tasks)| > 0 ==> FocusPick(tasks, view) == JStr(Incomplete(tasks)[0].id)
    ensures view != "active" && view != "all" ==> FocusPick(tasks, view) == JNull
    ensures |Incomplete(tasks)| == 0 ==> FocusPick(tasks, view) == JNull
    ensures FocusMode.ResolveSelection(Incomplete(tasks), FocusPick(tasks, view)) == FocusMode.Resolution(0, false)
  {
    var active := Incomplete(tasks);
    if (view == "active" || view == "all") && |active| > 0 {
      FindTaskAt(active, active[0].id, 0);
    }
  }

  // ---------------------------------------------------------------------------
  // The task form
  // ---------------------------------------------------------------------------

  /** The longest prefix of decimal digits. */
  function DigitPrefix(s: string): (r: string)
    ensures AllDigits(r) && r <= s
    ensures |r| < |s| ==> !IsDigit(s[|r|])
  {
    if s == [] || !IsDigit(s[0]) then [] else [s[0]] + DigitPrefix(s[1..])
  }

  /**
   * `parseInt(s, 10)`: leading whitespace, an optional sign, then the longest
   * run of digits; None stands for NaN, when there are no digits.
   */
  function ParseIntJs(s: string): Option<int>
  {
    var t := TrimStart(s);
    var signed := |t| > 0 && (t[0] == '-' || t[0] == '+');
    var digits := DigitPrefix(if signed then t[1..] else t);
    if digits == [] then None
    else if signed && t[0] == '-' then Some(-(DecimalValue(digits) as int))
    else Some(DecimalValue(digits))
  }

  lemma {:induction false} DigitPrefixOfDigits(s: string)
    requires AllDigits(s)
    ensures DigitPrefix(s) == s
  {
    if s != [] {
      DigitPrefixOfDigits(s[1..]);
    }
  }

  /** A run of digits parses to its decimal value. */
  lemma ParseIntOfDigits(s: string)
    requires AllDigits(s) && s != []
    ensures ParseIntJs(s) == Some(DecimalValue(s))
  {
    assert IsDigit(s[0]);
    assert TrimStart(s) == s;
    assert !(s[0] == '-' || s[0] == '+');
    DigitPrefixOfDigits(s);
  }

  /** `parseInt` reads back what `String` writes. */
  lemma ParseIntOfDecimal(n: nat)
    ensures ParseIntJs(Decimal(n)) == Some(n)
  {
    ParseIntOfDigits(Decimal(n));
    DecimalRoundTrip(n);
  }

  /** Why the form refused to submit. */
  datatype FormError = TitleRequired | EffortOutOfRange

  /** What submitting the task form does: refuse, update the task being edited, or create a task. */
  datatype FormOutcome =
    | Refused(error: FormError)
    | PutTask(taskId: string, body: map<string, Json>)
    | PostTask(body: map<string, Json>)

  /** `{ title, urgency, effort }`. */
  function TaskFormBody(title: string, urgency: int, effort: int): (b: map<string, Json>)
    ensures b.Keys == {"title", "urgency", "effort"}
    ensures b["title"] == JStr(title) && b["urgency"] == JInt(urgency) && b["effort"] == JInt(effort)
  {
    map["title" := JStr(title), "urgency" := JInt(urgency), "effort" := JInt(effort)]
  }

  /** `handleTaskFormSubmit` up to the request it sends. `editingTaskId` is None for null. */
  function SubmitTaskForm(titleInput: string, urgencyChecked: bool, effortInput: string, editingTaskId: Option<string>): FormOutcome
  {
    var title := Trim(titleInput);
    var urgency := if urgencyChecked then 1 else 0;
    var effort := ParseIntJs(effortInput);
    if title == [] then Refused(TitleRequired)
    else if effort.None? || effort.value < 1 || effort.value > 3 then Refused(EffortOutOfRange)
    else
      var body := TaskFormBody(title, urgency, effort.value);
      if editingTaskId.Some? && editingTaskId.value != "" then PutTask(editingTaskId.value, body) else PostTask(body)
  }

  /** The form is refused exactly for a blank title, and otherwise exactly for an effort that does not parse to 1, 2 or 3. */
  lemma SubmitTaskFormRefusals(titleInput: string, urgencyChecked: bool, effortInput: string, editingTaskId: Option<string>)
    ensures var o := SubmitTaskForm(titleInput, urgencyChecked, effortInput, editingTaskId);
      var e := ParseIntJs(effortInput);
      && (o == Refused(TitleRequired) <==> IsBlank(titleInput))
      && (o == Refused(EffortOutOfRange) <==> !IsBlank(titleInput) && (e.None? || !(1 <= e.value <= 3)))
  {
    TrimEmptyIffBlank(titleInput);
    var e := ParseIntJs(effortInput);
    if IsBlank(titleInput) {
      assert SubmitTaskForm(titleInput, urgencyChecked, effortInput, editingTaskId) == Refused(TitleRequired);
    } else if e.None? || !(1 <= e.value <= 3) {
      assert SubmitTaskForm(titleInput, urgencyChecked, effortInput, editingTaskId) == Refused(EffortOutOfRange);
    } else {
      SubmitTaskFormAccepts(titleInput, urgencyChecked, effortInput, editingTaskId, e.value);
    }
  }

  /**
   * An accepted submission sends the trimmed title, urgency 1 exactly when
   * checked and 0 otherwise, and the parsed effort; it is an update of the task
   * being edited when there is one, else a creation.
   */
  lemma SubmitTaskFormBody(titleInput: string, urgencyChecked: bool, effortInput: string, editingTaskId: Option<string>)
    requires !SubmitTaskForm(titleInput, urgencyChecked, effortInput, editingTaskId).Refused?
    ensures var o := SubmitTaskForm(titleInput, urgencyChecked, effortInput, editingTaskId);
      && o.body.Keys == {"title", "urgency", "effort"}
      && o.body["title"] == JStr(Trim(titleInput)) && Trim(titleInput) != []
      && o.body["urgency"] == JInt(if urgencyChecked then 1 else 0)
      && ParseIntJs(effortInput).Some? && o.body["effort"] == JInt(ParseIntJs(effortInput).value)
      && 1 <= ParseIntJs(effortInput).value <= 3
      && (o.PutTask? <==> editingTaskId.Some? && editingTaskId.value != "")
      && (o.PutTask? ==> o.taskId == editingTaskId.value)
  {
    var title := Trim(titleInput);
    var e := ParseIntJs(effortInput);
    assert title != [] && e.Some? && 1 <= e.value <= 3;
    var body := TaskFormBody(title, if urgencyChecked then 1 else 0, e.value);
    assert SubmitTaskForm(titleInput, urgencyChecked, effortInput, editingTaskId).body == body;
  }

  /** A title that trims to something and an effort that parses to 1, 2 or 3 are accepted and sent as given. */
  lemma SubmitTaskFormAccepts(titleInput: string, urgencyChecked: bool, effortInput: string, editingTaskId: Option<string>, effort: int)
    requires Trim(titleInput) != [] && ParseIntJs(effortInput) == Some(effort) && 1 <= effort <= 3
    ensures !SubmitTaskForm(titleInput, urgencyChecked, effortInput, editingTaskId).Refused?
    ensures SubmitTaskForm(titleInput, urgencyChecked, effortInput, editingTaskId).body
      == TaskFormBody(Trim(titleInput), if urgencyChecked then 1 else 0, effort)
  {
    var body := TaskFormBody(Trim(titleInput), if urgencyChecked then 1 else 0, effort);
    var o := SubmitTaskForm(titleInput, urgencyChecked, effortInput, editingTaskId);
    assert Trim(titleInput) != [] && ParseIntJs(effortInput) == Some(effort);
    assert o == if editingTaskId.Some? && editingTaskId.value != "" then PutTask(editingTaskId.value, body) else PostTask(body);
    assert o.body == body;
  }

  /** The effort select's own values are accepted, and sent as that number. */
  lemma FormAcceptsEffortChoices(titleInput: string, urgencyChecked: bool, effort: nat, editingTaskId: Option<string>)
    requires !IsBlank(titleInput) && 1 <= effort <= 3
    ensures !SubmitTaskForm(titleInput, urgencyChecked, Decimal(effort), editingTaskId).Refused?
    ensures SubmitTaskForm(titleInput, urgencyChecked, Decimal(effort), editingTaskId).body
      == TaskFormBody(Trim(titleInput), if urgencyChecked then 1 else 0, effort)
  {
    TrimEmptyIffBlank(titleInput);
    ParseIntOfDecimal(effort);
    SubmitTaskFormAccepts(titleInput, urgencyChecked, Decimal(effort), editingTaskId, effort);
  }
}
