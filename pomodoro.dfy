/**
 * The PomodoroTimer class of pomodoro.py: each method updates the fields in
 * place and is proved against the function of the same name in
 * `PomodoroSpec`.
 */
module Pomodoro {
  import opened Optional
  import opened PomodoroSpec

  /** The timer object: its fields are those of `Timer`, updated in place. */
  class PomodoroTimer {
    var workTime: int
    var timeLeft: int
    var isRunning: bool
    var shortBreak: Option<int>
    var longBreak: Option<int>
    var cyclesBeforeLongBreak: Option<int>
    var selectedNoisePath: Option<string>
    var playbackActive: bool

    /** The current field values as a `Timer`. */
    function State(): Timer
      reads this
    {
      Timer(workTime, timeLeft, isRunning, shortBreak, longBreak,
            cyclesBeforeLongBreak, selectedNoisePath, playbackActive)
    }

    constructor ()
      ensures State() == Initial()
    {
      workTime := DefaultWorkTime;
      isRunning := false;
      timeLeft := workTime;
      playbackActive := false;
      selectedNoisePath := None;
      shortBreak, longBreak, cyclesBeforeLongBreak := None, None, None;
    }

    method Start()
      modifies this
      ensures State() == PomodoroSpec.Start(old(State()))
    {
      if !isRunning {
        isRunning := true;
      }
    }

    method Stop()
      modifies this
      ensures State() == PomodoroSpec.Stop(old(State()))
    {
      isRunning := false;
    }

    method Reset()
      modifies this
      ensures State() == PomodoroSpec.Reset(old(State()))
    {
      Stop();
      timeLeft := workTime;
    }

    method UpdateWorkTime(minutes: int)
      modifies this
      ensures State() == PomodoroSpec.UpdateWorkTime(old(State()), minutes)
    {
      workTime := minutes * SecondsPerMinute;
      if !isRunning {
        Reset();
      }
    }

    method UpdateShortBreak(minutes: int)
      modifies this
      ensures State() == PomodoroSpec.UpdateShortBreak(old(State()), minutes)
    {
      shortBreak := Some(minutes * SecondsPerMinute);
    }

    method UpdateLongBreak(minutes: int)
      modifies this
      ensures State() == PomodoroSpec.UpdateLongBreak(old(State()), minutes)
    {
      longBreak := Some(minutes * SecondsPerMinute);
    }

    method UpdateCyclesBeforeLongBreak(cycles: int)
      modifies this
      ensures State() == PomodoroSpec.UpdateCyclesBeforeLongBreak(old(State()), cycles)
    {
      cyclesBeforeLongBreak := Some(cycles);
    }

    method SetNoise(path: Option<string>)
      modifies this
      ensures State() == PomodoroSpec.SetNoise(old(State()), path)
    {
      selectedNoisePath := path;
    }

    method StartBackgroundNoise()
      modifies this
      ensures State() == PomodoroSpec.StartBackgroundNoise(old(State()))
    {
      if selectedNoisePath.Some? && selectedNoisePath.value != "" {
        playbackActive := true;
      }
    }

    method StopBackgroundNoise()
      modifies this
      ensures State() == PomodoroSpec.StopBackgroundNoise(old(State()))
    {
      playbackActive := false;
    }
  }
}
