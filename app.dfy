/**
 * The controller of main.py as objects: `apply_settings` and the event
 * handlers call the timer's methods in the source's order and update the
 * `current_settings` dictionary. Each is proved against the function of the
 * same name in `AppSpec`.
 */
module App {
  import opened Optional
  import opened PomodoroSpec
  import opened Pomodoro
  import opened Settings
  import opened AppSpec
  import opened Display

  /** `apply_settings`, restricted to its effect on the timer. */
  method ApplySettings(timer: PomodoroTimer, settings: Settings)
    requires Applicable(settings)
    modifies timer
    ensures timer.State() == Applied(old(timer.State()), settings)
  {
    var selection := Get(settings, NoiseKey).text;
    if selection != "" {
      timer.selectedNoisePath := NoiseOptions[selection];
    }
    timer.UpdateWorkTime(Get(settings, WorkTimeKey).number);
    timer.UpdateShortBreak(Get(settings, ShortBreakKey).number);
    timer.UpdateLongBreak(Get(settings, LongBreakKey).number);
    timer.UpdateCyclesBeforeLongBreak(Get(settings, CyclesKey).number);
  }

  /** The module-level state of main.py: the timer and `current_settings`. */
  class Controller {
    const timer: PomodoroTimer
    var currentSettings: Settings

    function State(): AppState
      reads this, timer
    {
      AppState(timer.State(), currentSettings)
    }

    /** Start-up: a new timer, the loaded settings, and `apply_settings` on them. */
    constructor (stored: Option<Settings>)
      requires Applicable(Loaded(stored))
      ensures fresh(timer)
      ensures State() == Startup(stored)
    {
      var t := new PomodoroTimer();
      var settings := LoadSettings(stored);
      ApplySettings(t, settings);
      timer := t;
      currentSettings := settings;
    }

    method StartOrResumeTimer()
      modifies timer
      ensures State() == AppSpec.StartOrResumeTimer(old(State()))
    {
      if !timer.isRunning {
        timer.Start();
        if HasNoise(timer.selectedNoisePath) {
          timer.StartBackgroundNoise();
        }
      }
    }

    method StopTimer()
      modifies timer
      ensures State() == AppSpec.StopTimer(old(State()))
    {
      timer.Stop();
      timer.StopBackgroundNoise();
    }

    method ResetTimer()
      modifies timer
      ensures State() == AppSpec.ResetTimer(old(State()))
    {
      timer.Reset();
      timer.StopBackgroundNoise();
    }

    method ChangeNoiseSelection(noiseName: string)
      requires noiseName in NoiseOptions
      modifies this, timer
      ensures State() == AppSpec.ChangeNoiseSelection(old(State()), noiseName)
    {
      var selectedNoisePath := NoiseOptions[noiseName];
      currentSettings := currentSettings[NoiseKey := Text(noiseName)];
      timer.StopBackgroundNoise();
      if selectedNoisePath.None? {
        timer.SetNoise(Some("None"));
      } else {
        timer.SetNoise(selectedNoisePath);
      }
    }

    method UpdateWorkTime(minutes: int)
      modifies this, timer
      ensures State() == OnWorkTimeSlider(old(State()), minutes)
    {
      timer.UpdateWorkTime(minutes);
      currentSettings := currentSettings[WorkTimeKey := Number(minutes)];
    }

    method UpdateShortBreak(minutes: int)
      modifies this, timer
      ensures State() == OnShortBreakSlider(old(State()), minutes)
    {
      timer.UpdateShortBreak(minutes);
      currentSettings := currentSettings[ShortBreakKey := Number(minutes)];
    }

    method UpdateLongBreak(minutes: int)
      modifies this, timer
      ensures State() == OnLongBreakSlider(old(State()), minutes)
    {
      timer.UpdateLongBreak(minutes);
      currentSettings := currentSettings[LongBreakKey := Number(minutes)];
    }

    method UpdateCyclesBeforeLongBreak(cycles: int)
      modifies this, timer
      ensures State() == OnCyclesSlider(old(State()), cycles)
    {
      timer.UpdateCyclesBeforeLongBreak(cycles);
      currentSettings := currentSettings[CyclesKey := Number(cycles)];
    }

    /** The label text `update_timer_display` would set now. */
    method UpdateTimerDisplay() returns (text: string)
      ensures text == TimerText(timer.timeLeft)
    {
      text := TimerText(timer.timeLeft);
    }

    /** The buttons `update_timer_button_states` would set now. */
    method UpdateTimerButtonStates() returns (buttons: Buttons)
      ensures buttons == TimerButtonStates(timer.State())
    {
      if timer.isRunning {
        buttons := Buttons(Disabled, Normal, Normal);
      } else if timer.timeLeft == timer.workTime {
        buttons := Buttons(Normal, Disabled, Disabled);
      } else {
        buttons := Buttons(Normal, Disabled, Normal);
      }
    }
  }
}
