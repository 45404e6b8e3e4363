/**
 * The settings of main.py: a flat key/value dictionary read from the
 * settings file, completed with defaults by the `setdefault` loop of
 * `load_settings`. Reading and writing the file is not modelled: the
 * file's parsed contents are a parameter.
 */
module Settings {
  import opened Optional

  /** A settings value as JSON gives it: a string or an integer. */
  datatype Value = Text(text: string) | Number(number: int)

  type Settings = map<string, Value>

  /** `default_settings`. */
  const DefaultSettings: Settings := map[
    "appearance_mode" := Text("Dark"),
    "color_theme" := Text("blue"),
    "work_time" := Number(25),
    "short_break" := Number(5),
    "long_break" := Number(15),
    "cycles_before_long_break" := Number(4),
    "background_noise" := Text("None")
  ]

  /**
   * `settings` completed with `defaults`: every key of either, and the value
   * already in `settings` wherever there is one.
   */
  function WithDefaults(settings: Settings, defaults: Settings): (r: Settings)
    ensures r.Keys == settings.Keys + defaults.Keys
    ensures forall k :: k in settings ==> r[k] == settings[k]
    ensures forall k :: k in defaults && k !in settings ==> r[k] == defaults[k]
  {
    map k | k in settings.Keys + defaults.Keys :: if k in settings then settings[k] else defaults[k]
  }

  /**
   * The loop `for key, value in defaults.items(): settings.setdefault(key, value)`.
   * The keys are taken in an arbitrary order, so the result is shown not to
   * depend on the dictionary's iteration order.
   */
  method MergeDefaults(settings: Settings, defaults: Settings) returns (merged: Settings)
    ensures merged == WithDefaults(settings, defaults)
  {
    merged := settings;
    var todo := defaults.Keys;
    while todo != {}
      invariant todo <= defaults.Keys
      invariant merged.Keys == settings.Keys + (defaults.Keys - todo)
      invariant forall k :: k in merged ==> merged[k] == if k in settings then settings[k] else defaults[k]
      decreases todo
    {
      var key :| key in todo;
      if key !in merged {
        merged := merged[key := defaults[key]];
      }
      todo := todo - {key};
    }
  }

  /** What `load_settings` returns, given the parsed file or `None` when there is no file. */
  function Loaded(stored: Option<Settings>): Settings {
    if stored.None? then DefaultSettings else WithDefaults(stored.value, DefaultSettings)
  }

  /**
   * `load_settings`: the defaults when there is no settings file, otherwise
   * the file's settings completed with the defaults.
   */
  method LoadSettings(stored: Option<Settings>) returns (settings: Settings)
    ensures settings == Loaded(stored)
    ensures DefaultSettings.Keys <= settings.Keys
    ensures stored.Some? ==> forall k :: k in stored.value ==> k in settings && settings[k] == stored.value[k]
    ensures stored.None? ==> settings == DefaultSettings
  {
    if stored.None? {
      settings := DefaultSettings;
    } else {
      settings := MergeDefaults(stored.value, DefaultSettings);
    }
  }

  /** Completing twice with the same defaults changes nothing more. */
  lemma WithDefaultsIdempotent(settings: Settings, defaults: Settings)
    ensures WithDefaults(WithDefaults(settings, defaults), defaults) == WithDefaults(settings, defaults)
  {
  }

  /** Settings that already hold every default key are returned as they are. */
  lemma WithDefaultsComplete(settings: Settings, defaults: Settings)
    requires defaults.Keys <= settings.Keys
    ensures WithDefaults(settings, defaults) == settings
  {
  }
}
