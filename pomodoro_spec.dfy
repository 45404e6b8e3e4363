/**
 * The operations of the PomodoroTimer of pomodoro.py, as functions on a
 * `Timer` value. The countdown thread, thread joins and audio playback are
 * abstracted away: `time_left` changes only through the operations below,
 * and the `playback_active` event is a boolean. Module `Pomodoro` holds the
 * class that updates these fields in place.
 */
module PomodoroSpec {
  import opened Optional

  /** Seconds in a minute: every duration the setters receive is in minutes. */
  const SecondsPerMinute: int := 60

  /** Work length of a freshly constructed timer: 25 minutes, in seconds. */
  const DefaultWorkTime: int := 25 * SecondsPerMinute

  /**
   * Python truthiness of `selected_noise_path`: `None` and the empty string
   * are false, every other string is true (the string "None" included).
   */
  predicate HasNoise(path: Option<string>) {
    path.Some? && path.value != ""
  }

  /**
   * The timer's fields. The two break lengths and the cycle count are `None`
   * until their setters have run: the constructor does not create them.
   */
  datatype Timer = Timer(
    workTime: int,
    timeLeft: int,
    isRunning: bool,
    shortBreak: Option<int>,
    longBreak: Option<int>,
    cyclesBeforeLongBreak: Option<int>,
    selectedNoisePath: Option<string>,
    playbackActive: bool)

  /** The `is_default` property: full work time left and not running. */
  predicate IsDefault(t: Timer) {
    t.timeLeft == t.workTime && !t.isRunning
  }

  /** `a` and `b` hold the same configured durations, cycle count and noise path. */
  predicate SameConfig(a: Timer, b: Timer) {
    && a.workTime == b.workTime
    && a.shortBreak == b.shortBreak
    && a.longBreak == b.longBreak
    && a.cyclesBeforeLongBreak == b.cyclesBeforeLongBreak
    && a.selectedNoisePath == b.selectedNoisePath
  }

  /** The state `__init__` builds. */
  function Initial(): (t: Timer)
    ensures t.workTime == 1500 && t.timeLeft == t.workTime && !t.isRunning
    ensures t.selectedNoisePath == None && !t.playbackActive
    ensures t.shortBreak == None && t.longBreak == None && t.cyclesBeforeLongBreak == None
    ensures IsDefault(t)
  {
    Timer(DefaultWorkTime, DefaultWorkTime, false, None, None, None, None, false)
  }

  /** `start`: a no-op on a running timer; otherwise only the running flag is raised. */
  function Start(t: Timer): (r: Timer)
    ensures t.isRunning ==> r == t
    ensures r.isRunning && !IsDefault(r)
    ensures r.timeLeft == t.timeLeft && SameConfig(r, t) && r.playbackActive == t.playbackActive
  {
    if t.isRunning then t else t.(isRunning := true)
  }

  /** `stop`: the running flag is cleared and nothing else changes. */
  function Stop(t: Timer): (r: Timer)
    ensures !r.isRunning
    ensures !t.isRunning ==> r == t
    ensures r.timeLeft == t.timeLeft && SameConfig(r, t) && r.playbackActive == t.playbackActive
  {
    t.(isRunning := false)
  }

  /** `reset`: stop, then refill the time left with the work time. */
  function Reset(t: Timer): (r: Timer)
    ensures IsDefault(r) && r.timeLeft == t.workTime
    ensures SameConfig(r, t) && r.playbackActive == t.playbackActive
  {
    Stop(t).(timeLeft := t.workTime)
  }

  /**
   * `update_work_time`: stores the new length in seconds and, on a stopped
   * timer only, resets so that the time left shows the new length.
   */
  function UpdateWorkTime(t: Timer, minutes: int): (r: Timer)
    ensures r.workTime == minutes * SecondsPerMinute
    ensures !t.isRunning ==> r.timeLeft == minutes * SecondsPerMinute && IsDefault(r)
    ensures t.isRunning ==> r.timeLeft == t.timeLeft && r.isRunning
    ensures r.(workTime := t.workTime, timeLeft := t.timeLeft) == t
  {
    var w := t.(workTime := minutes * SecondsPerMinute);
    if !t.isRunning then Reset(w) else w
  }

  /** `update_short_break`: stores the length in seconds, nothing else changes. */
  function UpdateShortBreak(t: Timer, minutes: int): (r: Timer)
    ensures r.shortBreak == Some(minutes * SecondsPerMinute)
    ensures r.(shortBreak := t.shortBreak) == t
  {
    t.(shortBreak := Some(minutes * SecondsPerMinute))
  }

  /** `update_long_break`: stores the length in seconds, nothing else changes. */
  function UpdateLongBreak(t: Timer, minutes: int): (r: Timer)
    ensures r.longBreak == Some(minutes * SecondsPerMinute)
    ensures r.(longBreak := t.longBreak) == t
  {
    t.(longBreak := Some(minutes * SecondsPerMinute))
  }

  /** `update_cycles_before_long_break`: stores the count as given, nothing else changes. */
  function UpdateCyclesBeforeLongBreak(t: Timer, cycles: int): (r: Timer)
    ensures r.cyclesBeforeLongBreak == Some(cycles)
    ensures r.(cyclesBeforeLongBreak := t.cyclesBeforeLongBreak) == t
  {
    t.(cyclesBeforeLongBreak := Some(cycles))
  }

  /** `set_noise`: replaces the noise path and nothing else. */
  function SetNoise(t: Timer, path: Option<string>): (r: Timer)
    ensures r.selectedNoisePath == path
    ensures r.(selectedNoisePath := t.selectedNoisePath) == t
  {
    t.(selectedNoisePath := path)
  }

  /**
   * `start_background_noise`: raises the playback flag when the noise path is
   * truthy; otherwise does nothing.
   */
  function StartBackgroundNoise(t: Timer): (r: Timer)
    ensures r.playbackActive <==> t.playbackActive || HasNoise(t.selectedNoisePath)
    ensures !HasNoise(t.selectedNoisePath) ==> r == t
    ensures r.(playbackActive := t.playbackActive) == t
  {
    if HasNoise(t.selectedNoisePath) then t.(playbackActive := true) else t
  }

  /** `stop_background_noise`: always clears the playback flag, nothing else changes. */
  function StopBackgroundNoise(t: Timer): (r: Timer)
    ensures !r.playbackActive
    ensures r.(playbackActive := t.playbackActive) == t
  {
    t.(playbackActive := false)
  }

  /** Calling `reset` twice leaves the same state as calling it once. */
  lemma ResetIdempotent(t: Timer)
    ensures Reset(Reset(t)) == Reset(t)
  {
  }

  /** `stop` is idempotent. */
  lemma StopIdempotent(t: Timer)
    ensures Stop(Stop(t)) == Stop(t)
  {
  }

  /** The default states are exactly the states that `reset` leaves unchanged. */
  lemma DefaultIffResetFixes(t: Timer)
    ensures IsDefault(t) <==> Reset(t) == t
  {
    if Reset(t) == t {
      assert t.timeLeft == Reset(t).timeLeft == t.workTime;
    }
  }

  /**
   * Setting a work time and resetting leaves that many minutes in seconds,
   * whether or not the timer was running; for 25 minutes, 1500 seconds.
   */
  lemma UpdateWorkTimeThenReset(t: Timer, minutes: int)
    ensures Reset(UpdateWorkTime(t, minutes)).timeLeft == minutes * SecondsPerMinute
    ensures Reset(UpdateWorkTime(t, 25)).timeLeft == 1500
  {
  }
}
