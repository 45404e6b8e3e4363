# Focus Mode Pomodoro timer: a Dafny model

This project models the timer core of the Focus Mode desktop Pomodoro app.

The first part is the `PomodoroTimer` object of `pomodoro.py`. It holds the work length, the time left, the running flag, the stored break lengths and cycle count, the selected background-noise path and the playback flag. Its operations are `start`, `stop`, `reset`, the four `update_*` setters, `set_noise`, starting and stopping background noise, and the `is_default` query.

The second part is the controller logic of `main.py` on top of the timer:

- completing the loaded settings with their defaults;
- the `MM:SS` label;
- the Start/Stop/Reset button table;
- applying the settings at start-up;
- the handlers behind the buttons, the noise menu and the sliders.

Modules:

- `Optional` (`optional.dfy`): `Option`, which stands for Python's `None` beside a value.
- `PomodoroSpec` (`pomodoro_spec.dfy`): the timer's fields as a `Timer` value. Each timer operation is a function on it, with a contract saying what changes and what does not.
- `Pomodoro` (`pomodoro.dfy`): the class `PomodoroTimer`. Its methods update the fields in place, and each is proved to produce `PomodoroSpec`'s function of the old state.
- `Display` (`display.dfy`): the label `f"{minutes:02d}:{seconds:02d}"` after `divmod(time_left, 60)`, plus a reader for it. The round trip proves that the label determines the time left. Python's floor `divmod` by 60 equals Dafny's Euclidean `/` and `%` for every integer. Negative minutes are rendered as Python renders them (`-1:30`).
- `Settings` (`settings.dfy`): the `setdefault` loop of `load_settings`, proved against `WithDefaults` for every key order. The parsed settings file is a parameter, and `None` means there is no file.
- `AppSpec` (`app_spec.dfy`): the app as a value (timer plus `current_settings`), with each handler as a function on it. It also holds the invariant `Coherent`, which start-up establishes and every handler keeps. `Coherent` says three things:
  - the settings contain every default key;
  - the settings describe the timer's durations, cycle count and noise path;
  - noise plays only while the timer runs.
- `App` (`app.dfy`): `apply_settings` and the class `Controller`. Its methods call the timer's methods in the source's order, and each is proved against `AppSpec`.

Points where this revision of the code behaves in a way worth noting:

- This revision has no phase or cycle logic. The short-break length, long-break length and cycle count are only stored. The timer never reads them, so the model has no transition rule. Only the slider set-up at start-up reads them (main.py:477-508).
- `reset` always refills the time left with the work time.
- `is_default` looks only at the time left and the running flag.
- The setters accept any integer without validation.
- The break lengths and the cycle count are not created by `__init__`. They are `None` until `apply_settings` calls their setters.
- The noise path is `Option<string>`, and Python truthiness is followed exactly. `None` and `""` are false. The string `"None"` is true.
  - At start-up, the menu entry "None" stores a real `None` path.
  - Choosing "None" in the menu later stores the string `"None"`, which is truthy. Starting the timer then raises the playback flag (`AppSpec.NoneEntryArmsPlayback`).

## Model

| member | source | states |
|---|---|---|
| PomodoroSpec.Initial | pomodoro.py:23-37 | a new timer has work time 1500 s, time left equal to it, is not running, has no noise path, no playback and no break or cycle fields, and is default |
| PomodoroSpec.IsDefault | pomodoro.py:39-42 | `is_default`: full work time left and not running (its meaning is stated by `DefaultIffResetFixes`) |
| PomodoroSpec.DefaultIffResetFixes | pomodoro.py:39-42 | `is_default` holds exactly for the states that `reset` leaves unchanged |
| PomodoroSpec.Start | pomodoro.py:44-49 | a running timer is left unchanged; otherwise the timer runs (so is not default) with the same time left, configuration and playback flag |
| PomodoroSpec.Stop | pomodoro.py:58-62 | afterwards not running, with time left, configuration and playback unchanged; a stopped timer is left unchanged |
| PomodoroSpec.StopIdempotent | pomodoro.py:58-62 | stopping twice equals stopping once |
| PomodoroSpec.Reset | pomodoro.py:64-67 | afterwards default with time left equal to the work time; configuration and playback unchanged |
| PomodoroSpec.ResetIdempotent | pomodoro.py:64-67 | resetting twice equals resetting once |
| PomodoroSpec.UpdateWorkTime | pomodoro.py:69-73 | work time becomes 60·minutes; a stopped timer becomes default with that time left; a running one keeps its time left and keeps running; nothing else changes |
| PomodoroSpec.UpdateWorkTimeThenReset | pomodoro.py:69-73 | on any timer, running or not, setting m minutes then resetting leaves 60·m seconds; 25 minutes give 1500 |
| PomodoroSpec.UpdateShortBreak | pomodoro.py:75-77 | stores 60·minutes as the short break and changes nothing else |
| PomodoroSpec.UpdateLongBreak | pomodoro.py:79-81 | stores 60·minutes as the long break and changes nothing else |
| PomodoroSpec.UpdateCyclesBeforeLongBreak | pomodoro.py:83-85 | stores the count unchanged and changes nothing else |
| PomodoroSpec.SetNoise | pomodoro.py:87-89 | replaces the noise path and nothing else |
| PomodoroSpec.StartBackgroundNoise | pomodoro.py:102-106 | playback is on afterwards iff it was on or the path is truthy; a falsy path leaves the timer unchanged; nothing but the flag changes |
| PomodoroSpec.StopBackgroundNoise | pomodoro.py:108-112 | playback is off afterwards and nothing else changes |
| Pomodoro.PomodoroTimer.constructor | pomodoro.py:23-37 | the fields equal `Initial()` |
| Pomodoro.PomodoroTimer.Start | pomodoro.py:44-49 | the new fields are `Start` of the old ones |
| Pomodoro.PomodoroTimer.Stop | pomodoro.py:58-62 | the new fields are `Stop` of the old ones |
| Pomodoro.PomodoroTimer.Reset | pomodoro.py:64-67 | stop, then refill the time left: the new fields are `Reset` of the old ones |
| Pomodoro.PomodoroTimer.UpdateWorkTime | pomodoro.py:69-73 | the new fields are `UpdateWorkTime` of the old ones |
| Pomodoro.PomodoroTimer.UpdateShortBreak | pomodoro.py:75-77 | the new fields are `UpdateShortBreak` of the old ones |
| Pomodoro.PomodoroTimer.UpdateLongBreak | pomodoro.py:79-81 | the new fields are `UpdateLongBreak` of the old ones |
| Pomodoro.PomodoroTimer.UpdateCyclesBeforeLongBreak | pomodoro.py:83-85 | the new fields are `UpdateCyclesBeforeLongBreak` of the old ones |
| Pomodoro.PomodoroTimer.SetNoise | pomodoro.py:87-89 | the new fields are `SetNoise` of the old ones |
| Pomodoro.PomodoroTimer.StartBackgroundNoise | pomodoro.py:102-106 | the new fields are `StartBackgroundNoise` of the old ones |
| Pomodoro.PomodoroTimer.StopBackgroundNoise | pomodoro.py:108-112 | the new fields are `StopBackgroundNoise` of the old ones |
| Display.Pad2 | main.py:253 | a `02d` field has at least two characters, exactly two for 0..99, a leading minus exactly for negatives, digits elsewhere, and no padding zero beyond width two (none after a minus, none before 10 or more) |
| Display.TimerText | main.py:252-253 | the label has a colon third from the end, followed by two digits |
| Display.TimerTextFields | main.py:252-253 | the label is the padded minutes, a colon and the padded seconds, where seconds are in 0..59 and 60·minutes + seconds is the time left |
| Display.ParseDigitsOfDigits | main.py:253 | reading back the decimal digits of n gives n |
| Display.TimerTextRoundTrip | main.py:252-253 | reading the label back gives the time left, so distinct times show distinct labels |
| Display.NegativeTimerText | main.py:252-253 | -30 seconds shows as "-1:30": floored minutes with their sign and no zero after it, as Python's `02d` gives |
| Display.FreshTimerText | main.py:511 | 1500 seconds, the fresh timer's time left, shows as "25:00", the label's initial text |
| Settings.WithDefaults | main.py:72-73 | the completed settings have the keys of both dictionaries, keep every value already present, and take a default only for a missing key |
| Settings.MergeDefaults | main.py:72-73 | the `setdefault` loop yields `WithDefaults` for any order of the default keys |
| Settings.LoadSettings | main.py:64-74 | with no file the defaults; otherwise every stored key keeps its value and every default key is present |
| Settings.WithDefaultsIdempotent | main.py:72-73 | completing again with the same defaults changes nothing |
| Settings.WithDefaultsComplete | main.py:72-73 | settings that already hold every default key are returned unchanged |
| AppSpec.SelectedPath | main.py:190-200 | the path handed to `set_noise` is the entry's file, or exactly the string "None" when the entry has none, and is truthy either way |
| AppSpec.NoiseMenuEntries | main.py:329-332 | `noise_options` has the entries "None" and "White Noise"; only "None" has no file, and every file path is truthy |
| AppSpec.TimerButtonStates | main.py:259-271 | running: Start disabled, Stop and Reset enabled; stopped: Start enabled, Stop disabled, Reset disabled exactly when default |
| AppSpec.ButtonEnabledIffEffective | main.py:259-271 | each of Start, Stop and Reset is enabled exactly when its timer operation would change the timer |
| AppSpec.Get | main.py:80-106 | a lookup falls back to the default only for a missing key |
| AppSpec.Applied | main.py:85-106 | after `apply_settings`: durations are 60·minutes, the cycle count is stored, a non-empty noise selection sets the path to the entry's file, a stopped timer is default, and running and playback are unchanged |
| AppSpec.DefaultSettingsApplicable | main.py:340-348 | `default_settings` can be applied, and its noise selection is the file-less menu entry "None" |
| AppSpec.Startup | main.py:370-371 | after loading and applying the settings the settings are the loaded ones, the timer is default and playback is off |
| AppSpec.StartupWithoutFile | main.py:340-348 | with no settings file the defaults apply: 1500/300/900 seconds, 4 cycles, no noise path |
| AppSpec.StartOrResumeTimer | main.py:274-284 | a running timer is left alone; otherwise it runs, with playback turned on iff it was on or the path is truthy; time left, configuration and settings are unchanged |
| AppSpec.StopTimer | main.py:287-294 | afterwards not running and playback off; time left, configuration and settings unchanged |
| AppSpec.ResetTimer | main.py:297-305 | afterwards default, time left equal to the work time, playback off; configuration and settings unchanged |
| AppSpec.ChangeNoiseSelection | main.py:188-202 | records the entry's name under "background_noise", turns playback off, sets the path to the entry's file or "None", and changes nothing else |
| AppSpec.OnWorkTimeSlider | main.py:206-214 | the timer gets `update_work_time` and the setting records the minutes |
| AppSpec.OnShortBreakSlider | main.py:217-225 | the timer gets `update_short_break` and the setting records the minutes |
| AppSpec.OnLongBreakSlider | main.py:228-236 | the timer gets `update_long_break` and the setting records the minutes |
| AppSpec.OnCyclesSlider | main.py:239-247 | the timer gets `update_cycles_before_long_break` and the setting records the count |
| AppSpec.ButtonsAfterHandlers | main.py:274-305 | after start only Stop and Reset are enabled; after stop, Stop is disabled; after reset only Start is enabled |
| AppSpec.NoneEntryArmsPlayback | main.py:196-197 | choosing "None" and then starting a stopped timer turns the playback flag on |
| AppSpec.StartupCoherent | main.py:370-371 | start-up establishes `Coherent` |
| AppSpec.StepKeepsCoherent | main.py:188-305 | every handler keeps `Coherent` |
| AppSpec.RunKeepsCoherent | main.py:188-305 | every run of user events keeps `Coherent` |
| AppSpec.NoiseOnlyWhileRunning | main.py:274-305 | from start-up, through any run of events, playback is on only while the timer runs, and every default key stays present |
| App.ApplySettings | main.py:77-106 | the timer's new fields are `Applied` of the old ones |
| App.Controller.constructor | main.py:370-371 | a new timer with the loaded and applied settings, equal to `Startup` |
| App.Controller.StartOrResumeTimer | main.py:274-284 | the new state is `AppSpec.StartOrResumeTimer` of the old one |
| App.Controller.StopTimer | main.py:287-294 | the new state is `AppSpec.StopTimer` of the old one |
| App.Controller.ResetTimer | main.py:297-305 | the new state is `AppSpec.ResetTimer` of the old one |
| App.Controller.ChangeNoiseSelection | main.py:188-202 | the new state is `AppSpec.ChangeNoiseSelection` of the old one |
| App.Controller.UpdateWorkTime | main.py:206-214 | the new state is `OnWorkTimeSlider` of the old one |
| App.Controller.UpdateShortBreak | main.py:217-225 | the new state is `OnShortBreakSlider` of the old one |
| App.Controller.UpdateLongBreak | main.py:228-236 | the new state is `OnLongBreakSlider` of the old one |
| App.Controller.UpdateCyclesBeforeLongBreak | main.py:239-247 | the new state is `OnCyclesSlider` of the old one |
| App.Controller.UpdateTimerDisplay | main.py:250-253 | the text is `TimerText` of the timer's time left |
| App.Controller.UpdateTimerButtonStates | main.py:259-271 | the buttons are `TimerButtonStates` of the timer |

## Left out

- The countdown thread `_run_timer` (pomodoro.py:51-56) is not modelled. It uses wall-clock time, float rounding and a concurrent thread. In the model, the time left changes only through `reset` and `update_work_time`.
- Thread creation and `join` in `start` and `stop` are not modelled: `stop` is an atomic flag clear.
- Audio playback through `simpleaudio` is not modelled: `play_sound_loop`, `play_sound`, `current_play_objects`, `currently_playing_wave_object` and the sound cues. Only the noise path and the playback flag remain. Stopping an in-flight sound in `stop_background_noise` is not represented.
- Reading and writing the settings file (`save_settings`, and the file part of `load_settings`) is I/O, and `restart_application` restarts the process. Neither is modelled. The file's parsed contents are a parameter.
- Settings values are strings or integers. Other JSON values (floats, booleans, null, lists) are not represented. `apply_settings` is modelled only for settings where it behaves well: the durations are integers, and the noise selection is empty or a menu entry.
- With no settings file, `load_settings` returns the `default_settings` dictionary itself, so later handler updates also change it. The model copies the value instead. The defaults are only consulted during start-up, so the result does not differ.
- `apply_settings`'s appearance and theme calls are not modelled, nor its slider and label updates. `on_closing`, all widget construction and layout, and the `window.after` polling are also out. All of these are presentation.
- `change_appearance_mode` and `change_color_theme` (main.py:146-185) are not modelled. They write `current_settings["appearance_mode"]` (lower-cased) and `current_settings["color_theme"]`, and the latter may restart the process. `Event` has no event for either. They only rewrite keys that stay present, and they touch neither the timer nor the keys `Coherent` reads.
- Start-up calls `change_appearance_mode` on the loaded appearance (main.py:413). This rewrites the stored value in lower case, so the default "Dark" becomes "dark". `Startup` and `Controller.constructor` stop after main.py:370-371, so their settings do not include that rewrite.
- Slider handlers take whole minutes. The float conversion `round(float(value))` is not modelled.
- The enabling and disabling of sliders and of the noise menu are not modelled. The event model lets every modelled handler fire in every state, including states where the window would have disabled its control.
