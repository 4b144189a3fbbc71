/** plugins/weather.plugin.py: a one-line weather report, from OpenWeatherMap
    when an API key is configured and from an IP lookup plus wttr.in otherwise,
    and a shortened form of it.

    The `[weather]` section is an input map. Each HTTP round trip is an input
    `Result`: the fields the plugin picks out of the JSON answer, or the text of
    the exception it raised.
 */
module Weather {
  import opened Wrappers
  import opened PyStr
  import opened PyNum
  import opened ConfigParser

  // ---------------------------------------------------------------------------
  // Configuration
  // ---------------------------------------------------------------------------

  datatype WeatherConfig = WeatherConfig(city: string, apiKey: string, units: string, lang: string)

  /** `get_weather_config()` once the configuration file has been read. */
  function ReadConfig(section: Section): (cfg: WeatherConfig)
    ensures "city" in section ==> cfg.city == section["city"]
    ensures "api_key" in section ==> cfg.apiKey == section["api_key"]
    ensures "units" in section ==> cfg.units == section["units"]
    ensures "lang" in section ==> cfg.lang == section["lang"]
    ensures "city" !in section ==> cfg.city == "Moscow"
    ensures "api_key" !in section ==> cfg.apiKey == ""
    ensures "units" !in section ==> cfg.units == "metric"
    ensures "lang" !in section ==> cfg.lang == "en"
  {
    WeatherConfig(Get(section, "city", "Moscow"), Get(section, "api_key", ""),
      Get(section, "units", "metric"), Get(section, "lang", "en"))
  }

  /** Without a `[weather]` section: Moscow, no key, metric units, English. */
  lemma {:induction false} DefaultWeatherConfig()
    ensures ReadConfig(map[]) == WeatherConfig("Moscow", "", "metric", "en")
  {
  }

  // ---------------------------------------------------------------------------
  // get_weather_emoji
  // ---------------------------------------------------------------------------

  const Sunny: string := "\U{2600}\U{FE0F}"     // ☀️
  const Cloudy: string := "\U{2601}\U{FE0F}"    // ☁️
  const Rainy: string := "\U{1F327}\U{FE0F}"    // 🌧️
  const Stormy: string := "\U{26C8}\U{FE0F}"    // ⛈️
  const Snowy: string := "\U{2744}\U{FE0F}"     // ❄️
  const Foggy: string := "\U{1F32B}\U{FE0F}"    // 🌫️
  const Windy: string := "\U{1F4A8}"            // 💨
  const Other: string := "\U{1F308}"            // 🌈

  /** The mark every failure message starts with. */
  const Cross: char := '\U{274C}'               // ❌

  /** `get_weather_emoji(description)`: the first keyword test the lower-cased
      description passes decides. */
  function WeatherEmoji(description: string): (e: string)
    ensures |e| >= 1 && e[0] != Cross
  {
    var d := Lower(description);
    if Contains(d, "sun") || Contains(d, "clear") then Sunny
    else if Contains(d, "cloud") then Cloudy
    else if Contains(d, "rain") || Contains(d, "drizzle") then Rainy
    else if Contains(d, "thunder") || Contains(d, "storm") then Stormy
    else if Contains(d, "snow") then Snowy
    else if Contains(d, "fog") || Contains(d, "mist") then Foggy
    else if Contains(d, "wind") then Windy
    else Other
  }

  /** The keyword groups in the order they are checked, each with its emoji. */
  const Rules: seq<(seq<string>, string)> := [
    (["sun", "clear"], Sunny), (["cloud"], Cloudy), (["rain", "drizzle"], Rainy),
    (["thunder", "storm"], Stormy), (["snow"], Snowy), (["fog", "mist"], Foggy),
    (["wind"], Windy)]

  /** `d` mentions one of `words`. */
  predicate Mentions(d: string, words: seq<string>) {
    exists k :: 0 <= k < |words| && Contains(d, words[k])
  }

  /** The emoji of the first group from `i` on that `d` mentions, or the
      rainbow when none does. */
  function FirstMatch(d: string, i: nat): string
    requires i <= |Rules|
    decreases |Rules| - i
  {
    if i == |Rules| then Other
    else if Mentions(d, Rules[i].0) then Rules[i].1
    else FirstMatch(d, i + 1)
  }

  lemma {:induction false} MentionsOne(d: string, a: string)
    ensures Mentions(d, [a]) <==> Contains(d, a)
  {
    if Contains(d, a) {
      assert Contains(d, [a][0]);
    }
  }

  lemma {:induction false} MentionsTwo(d: string, a: string, b: string)
    ensures Mentions(d, [a, b]) <==> Contains(d, a) || Contains(d, b)
  {
    if Contains(d, a) {
      assert Contains(d, [a, b][0]);
    }
    if Contains(d, b) {
      assert Contains(d, [a, b][1]);
    }
  }

  /** The emoji is the one of the first keyword group the lower-cased
      description mentions. */
  lemma {:induction false} EmojiByRules(description: string)
    ensures WeatherEmoji(description) == FirstMatch(Lower(description), 0)
  {
    var d := Lower(description);
    MentionsTwo(d, "sun", "clear");
    MentionsOne(d, "cloud");
    MentionsTwo(d, "rain", "drizzle");
    MentionsTwo(d, "thunder", "storm");
    MentionsOne(d, "snow");
    MentionsTwo(d, "fog", "mist");
    MentionsOne(d, "wind");
    assert FirstMatch(d, 6) == (if Contains(d, "wind") then Windy else Other);
    assert FirstMatch(d, 4) == (if Contains(d, "snow") then Snowy
      else if Contains(d, "fog") || Contains(d, "mist") then Foggy else FirstMatch(d, 6));
    assert FirstMatch(d, 2) == (if Contains(d, "rain") || Contains(d, "drizzle") then Rainy
      else if Contains(d, "thunder") || Contains(d, "storm") then Stormy else FirstMatch(d, 4));
    assert FirstMatch(d, 0) == (if Contains(d, "sun") || Contains(d, "clear") then Sunny
      else if Contains(d, "cloud") then Cloudy else FirstMatch(d, 2));
  }

  /** Case does not matter: a description and its lower-cased form get the
      same emoji. */
  lemma {:induction false} EmojiIgnoresCase(description: string)
    ensures WeatherEmoji(description) == WeatherEmoji(Lower(description))
  {
    LowerOfLower(Lower(description));
  }

  /** Rain is checked before thunder: a rainy thunderstorm gets the rain emoji. */
  lemma {:induction false} ThunderstormWithRain()
    ensures WeatherEmoji("thunderstorm with rain") == Rainy
  {
    var d := "thunderstorm with rain";
    assert Lower(d) == d by {
      LowerOfLower(d);
    }
    NoSunInThunderstorm();
    NoCInThunderstorm();
    RainInThunderstorm();
  }

  lemma {:induction false} NoSunInThunderstorm()
    ensures !Contains("thunderstorm with rain", "sun")
  {
    var a, b := "th", "nderstorm with rain";
    assert "thunderstorm with rain" == a + ["sun"[1]] + b;
    assert (a + ["sun"[1]] + b)[1..4] == "hun";
    NotContainsAround(a, b, "sun", 1);
  }

  lemma {:induction false} NoCInThunderstorm()
    ensures !Contains("thunderstorm with rain", "clear") && !Contains("thunderstorm with rain", "cloud")
  {
    var d := "thunderstorm with rain";
    assert 'c' !in d;
    NotContainsChar(d, "clear", 'c');
    NotContainsChar(d, "cloud", 'c');
  }

  lemma {:induction false} RainInThunderstorm()
    ensures Contains("thunderstorm with rain", "rain")
  {
    assert "thunderstorm with rain" == "thunderstorm with " + "rain" + "";
    ContainsMiddle("thunderstorm with ", "rain", "");
  }

  // ---------------------------------------------------------------------------
  // Fetching
  // ---------------------------------------------------------------------------

  /** The fields `get_weather_by_ip` reads from wttr.in's `current_condition`,
      which that service sends as text. */
  datatype WttrReport = WttrReport(tempC: string, description: string, humidity: string, windSpeed: string)

  /** The fields `get_weather_openweather` reads. `windSpeed` is `str()` of a
      float, kept as text. */
  datatype OwmReport = OwmReport(temp: real, feelsLike: real, humidity: int, description: string, windSpeed: string)

  /** The report line of a successful answer starts with the emoji. */
  predicate Failed(line: string) {
    |line| > 0 && line[0] == Cross
  }

  /** `get_weather_by_ip()`: `fetched` is the outcome of the two HTTP calls. */
  function ByIp(fetched: Result<WttrReport, string>): (line: string)
    ensures Failed(line) <==> fetched.Err?
    ensures fetched.Ok? ==> StartsWith(line, WeatherEmoji(fetched.value.description) + " ")
  {
    match fetched
    case Ok(r) =>
      var e := WeatherEmoji(r.description) + " ";
      var rest := r.tempC + "°C, " + r.description + ", 💧 " + r.humidity + "%, 💨 " + r.windSpeed + "km/h";
      StartsWithAppend(e, rest);
      e + rest
    case Err(msg) => "❌ Weather: Failed to get data (" + msg + ")"
  }

  const KeyMissing: string := "❌ Weather: API key not configured"

  /** The line for an OpenWeatherMap answer. */
  function OwmLine(r: OwmReport): (line: string)
    ensures StartsWith(line, WeatherEmoji(r.description) + " ") && !Failed(line)
  {
    var e := WeatherEmoji(r.description) + " ";
    var rest := Fixed1(r.temp) + "°C (feels " + Fixed1(r.feelsLike) + "°C), " + r.description
      + ", 💧 " + IntToString(r.humidity) + "%, 💨 " + r.windSpeed + "m/s";
    StartsWithAppend(e, rest);
    e + rest
  }

  /** The line for a failed OpenWeatherMap call. */
  function OwmError(msg: string): (line: string)
    ensures Failed(line) && line != KeyMissing
  {
    var line := "❌ Weather: API error (" + msg + ")";
    assert line[15] != KeyMissing[15];
    line
  }

  /** `get_weather_openweather()`: refuses without a key, otherwise reports
      the answer `fetched` or the exception text. */
  function OpenWeather(cfg: WeatherConfig, fetched: Result<OwmReport, string>): (line: string)
    ensures cfg.apiKey == "" ==> line == KeyMissing
    ensures cfg.apiKey != "" ==> (Failed(line) <==> fetched.Err?)
    ensures cfg.apiKey != "" && fetched.Ok? ==> StartsWith(line, WeatherEmoji(fetched.value.description) + " ")
    ensures cfg.apiKey != "" ==> line != KeyMissing
  {
    if cfg.apiKey == "" then KeyMissing
    else
      match fetched
      case Ok(r) => OwmLine(r)
      case Err(msg) => OwmError(msg)
  }

  /** `get_weather()`: OpenWeatherMap exactly when a key is configured, the IP
      lookup otherwise. `owm` and `ip` are the outcomes each path would have. */
  function GetWeather(cfg: WeatherConfig, ip: Result<WttrReport, string>, owm: Result<OwmReport, string>)
    : (line: string)
    ensures cfg.apiKey != "" ==> line == OpenWeather(cfg, owm)
    ensures cfg.apiKey == "" ==> line == ByIp(ip)
  {
    if cfg.apiKey != "" then OpenWeather(cfg, owm) else ByIp(ip)
  }

  /** The report is marked as a failure exactly when the source it came from
      failed, and the missing-key message never reaches it: the OpenWeatherMap
      path is only taken with a key. */
  lemma {:induction false} WeatherFailureIff(cfg: WeatherConfig, ip: Result<WttrReport, string>, owm: Result<OwmReport, string>)
    ensures Failed(GetWeather(cfg, ip, owm)) <==> (if cfg.apiKey != "" then owm.Err? else ip.Err?)
    ensures GetWeather(cfg, ip, owm) != KeyMissing
  {
    if cfg.apiKey == "" && ip.Err? {
      assert ByIp(ip)[11] != KeyMissing[11];
    }
  }

  // ---------------------------------------------------------------------------
  // register
  // ---------------------------------------------------------------------------

  const ShortMark: string := "\U{1F324}\U{FE0F} "  // 🌤️ and a space

  /** `weather_short`: the first twenty characters and `...` for a longer
      report, the whole report otherwise, after the mark. */
  function ShortForm(line: string): (s: string)
    ensures |s| <= |ShortMark| + 23
    ensures StartsWith(s, ShortMark)
    ensures |line| <= 20 ==> s[|ShortMark|..] == line
    ensures |line| > 20 ==> s[|ShortMark|..] == line[..20] + "..."
  {
    var s := if |line| > 20 then ShortMark + line[..20] + "..." else ShortMark + line;
    assert s[..|ShortMark|] == ShortMark;
    s
  }

  /** The short form starts with the report's own beginning, as much of it as
      fits. */
  lemma {:induction false} ShortFormKeepsStart(line: string)
    ensures var n := if |line| > 20 then 20 else |line|;
      ShortForm(line)[|ShortMark|..|ShortMark| + n] == line[..n]
  {
    var s := ShortForm(line);
    if |line| > 20 {
      assert s[|ShortMark|..|ShortMark| + 20] == (line[..20] + "...")[..20];
    } else {
      assert s[|ShortMark|..|ShortMark| + |line|] == s[|ShortMark|..];
    }
  }

  /** The dict `register` returns: `weather` and `weather_short`. */
  datatype Placeholders = Placeholders(weather: string, weatherShort: string)

  /** `register()` */
  function Register(section: Section, ip: Result<WttrReport, string>, owm: Result<OwmReport, string>)
    : (m: Placeholders)
    ensures m.weather == GetWeather(ReadConfig(section), ip, owm)
    ensures m.weatherShort == ShortForm(m.weather)
  {
    var line := GetWeather(ReadConfig(section), ip, owm);
    Placeholders(line, ShortForm(line))
  }

  /** Without an `api_key` option the plugin goes by IP. */
  lemma {:induction false} NoKeyUsesIp(section: Section, ip: Result<WttrReport, string>, owm: Result<OwmReport, string>)
    requires Get(section, "api_key", "") == ""
    ensures Register(section, ip, owm).weather == ByIp(ip)
  {
  }
}
