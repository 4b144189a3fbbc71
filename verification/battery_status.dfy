/** plugins/battery-status.plugin.py: charge level, charging state, icon and
    remaining time of the first `BAT*` battery under `/sys/class/power_supply`.

    The battery's files and the `[battery]` section are inputs.
 */
module BatteryStatus {
  import opened Wrappers
  import opened PyStr
  import opened PyNum
  import Ansi

  // ---------------------------------------------------------------------------
  // get_battery_info
  // ---------------------------------------------------------------------------

  /** The contents of the battery's `capacity`, `status` and `time_to_empty`
      files; `None` for a file that does not exist. */
  datatype BatteryFiles = BatteryFiles(capacity: Option<string>, status: Option<string>, timeToEmpty: Option<string>)

  /** What `get_battery_info` returns. */
  datatype BatteryInfo = BatteryInfo(capacity: int, status: string, timeRemaining: Option<string>)

  /** `f"{m // 60}h{m % 60}m"` for a positive number of minutes; nothing otherwise. */
  function TimeRemaining(minutes: int): (t: Option<string>)
    ensures t.Some? <==> minutes > 0
    ensures t.Some? ==> |t.value| >= 4 && t.value[|t.value| - 1] == 'm'
  {
    if minutes > 0 then Some(IntToString(minutes / 60) + "h" + IntToString(minutes % 60) + "m") else None
  }

  /** Reads an `XhYm` duration back into minutes. */
  function ParseDuration(s: string): Option<int> {
    match IndexOf(s, 'h')
    case None => None
    case Some(k) => ParseHoursMinutes(s[..k], s[k + 1..])
  }

  /** The minutes of `X` hours and `Ym`, both written as plain digits. */
  function ParseHoursMinutes(hours: string, rest: string): Option<int> {
    if |rest| == 0 || rest[|rest| - 1] != 'm' then None
    else Combine(ParseDigits(hours), ParseDigits(rest[..|rest| - 1]))
  }

  function Combine(hours: Option<int>, minutes: Option<int>): Option<int> {
    if hours.Some? && minutes.Some? then Some(hours.value * 60 + minutes.value) else None
  }

  /** The remaining time loses nothing: reading it back gives the minutes, and
      the minutes part is below 60. */
  lemma {:induction false} TimeRemainingRoundTrip(minutes: int)
    requires minutes > 0
    ensures ParseDuration(TimeRemaining(minutes).value) == Some(minutes)
    ensures 0 <= minutes % 60 < 60
  {
    var h, m := minutes / 60, minutes % 60;
    assert TimeRemaining(minutes).value == IntToString(h) + "h" + IntToString(m) + "m";
    DurationOf(h, m);
    assert h * 60 + m == minutes;
  }

  /** `XhYm` reads back as `X * 60 + Y` minutes. */
  lemma {:induction false} DurationOf(h: nat, m: nat)
    ensures ParseDuration(IntToString(h) + "h" + IntToString(m) + "m") == Some(h * 60 + m)
  {
    var hs, ms := NatToString(h), NatToString(m);
    var t := hs + "h" + ms + "m";
    assert ParseDuration(t) == ParseHoursMinutes(hs, ms + "m") by {
      assert t == hs + "h" + (ms + "m");
      ParseDurationOf(hs, ms + "m");
    }
    assert ParseDigits(hs) == Some(h) by {
      DigitsValueOfNat(h);
    }
    assert ParseDigits(ms) == Some(m) by {
      DigitsValueOfNat(m);
    }
    HoursMinutesOf(hs, ms, h, m);
  }

  lemma {:induction false} ParseDurationOf(hs: string, rest: string)
    requires AllDigits(hs)
    ensures ParseDuration(hs + "h" + rest) == ParseHoursMinutes(hs, rest)
  {
    var s := hs + "h" + rest;
    assert s == hs + ("h" + rest);
    FirstH(hs, rest);
    assert s[..|hs|] == hs;
    assert s[|hs| + 1..] == rest;
  }

  lemma {:induction false} HoursMinutesOf(hs: string, ms: string, h: int, m: int)
    requires ParseDigits(hs) == Some(h) && ParseDigits(ms) == Some(m)
    ensures ParseHoursMinutes(hs, ms + "m") == Some(h * 60 + m)
  {
    var rest := ms + "m";
    assert rest[..|rest| - 1] == ms;
  }

  lemma {:induction false} FirstH(hs: string, rest: string)
    requires AllDigits(hs)
    ensures IndexOf(hs + ("h" + rest), 'h') == Some(|hs|)
  {
    var s := hs + ("h" + rest);
    assert s[..|hs|] == hs;
    assert 'h' !in hs by {
      forall k | 0 <= k < |hs|
        ensures hs[k] != 'h'
      {
        assert IsDigit(hs[k]);
      }
    }
    IndexOfFirst(s, 'h', |hs|);
  }

  /** `get_battery_info()` once a `BAT*` directory has been found (`None` when
      there is none). The capacity file is required; a missing status file reads
      as `Unknown`; a text `int()` rejects makes the whole reading `None`. */
  function BatteryInfoOf(files: Option<BatteryFiles>): (info: Option<BatteryInfo>)
    ensures info.Some? ==>
      && files.Some? && files.value.capacity.Some?
      && ParseInt(files.value.capacity.value).Some?
      && info.value.capacity == ParseInt(files.value.capacity.value).value
    ensures info.Some? && files.value.status.None? ==> info.value.status == "Unknown"
    ensures info.Some? && files.value.status.Some? ==> info.value.status == Strip(files.value.status.value)
    ensures info.Some? && files.value.timeToEmpty.None? ==> info.value.timeRemaining.None?
    ensures info.Some? && files.value.timeToEmpty.Some? ==>
      && ParseInt(files.value.timeToEmpty.value).Some?
      && info.value.timeRemaining == TimeRemaining(ParseInt(files.value.timeToEmpty.value).value)
    ensures info.Some? <==>
      && files.Some? && files.value.capacity.Some? && ParseInt(files.value.capacity.value).Some?
      && (files.value.timeToEmpty.None? || ParseInt(files.value.timeToEmpty.value).Some?)
  {
    match files
    case None => None
    case Some(f) =>
      match f.capacity
      case None => None
      case Some(capText) =>
        match ParseInt(capText)
        case None => None
        case Some(capacity) =>
          var status := if f.status.Some? then Strip(f.status.value) else "Unknown";
          match f.timeToEmpty
          case None => Some(BatteryInfo(capacity, status, None))
          case Some(timeText) =>
            match ParseInt(timeText)
            case None => None
            case Some(minutes) => Some(BatteryInfo(capacity, status, TimeRemaining(minutes)))
  }

  /** Files holding the numbers the kernel prints read back as those numbers:
      the capacity unchanged, and a positive `time_to_empty` as an `XhYm` text
      that reads back as the same minutes. */
  lemma {:induction false} BatteryFilesReadBack(capacity: int, status: Option<string>, minutes: int)
    requires minutes > 0
    ensures var info := BatteryInfoOf(Some(BatteryFiles(Some(IntToString(capacity)), status, Some(IntToString(minutes)))));
      && info.Some? && info.value.capacity == capacity
      && info.value.timeRemaining.Some?
      && ParseDuration(info.value.timeRemaining.value) == Some(minutes)
  {
    ParseIntOfString(capacity);
    ParseIntOfString(minutes);
    TimeRemainingRoundTrip(minutes);
  }

  // ---------------------------------------------------------------------------
  // colorize_battery_level
  // ---------------------------------------------------------------------------

  /** Red at or below 15%, yellow at or below 30%, green above. */
  function LevelColor(capacity: int): (color: string)
    ensures color == "red" <==> capacity <= 15
    ensures color == "yellow" <==> 15 < capacity <= 30
    ensures color == "green" <==> capacity > 30
  {
    if capacity <= 15 then "red" else if capacity <= 30 then "yellow" else "green"
  }

  /** The escape sequences of `colorize_battery_level`'s own table. */
  function LevelEscape(color: string): string {
    if color == "red" then [Ansi.Esc] + "[31m"
    else if color == "yellow" then [Ansi.Esc] + "[33m"
    else [Ansi.Esc] + "[32m"
  }

  /** `colorize_battery_level(text, capacity)`: `None` stands for a capacity
      that is not an `int`, which leaves the text as it is. */
  function ColorizeBatteryLevel(text: string, capacity: Option<int>): (r: string)
    ensures capacity.None? ==> r == text
  {
    match capacity
    case None => text
    case Some(c) => LevelEscape(LevelColor(c)) + text + [Ansi.Esc] + "[0m"
  }

  /** The battery plugin's private colour table agrees with the shared
      `colorize_text` on the three colours it uses. */
  lemma {:induction false} BatteryColorsAgree(text: string, capacity: int)
    ensures ColorizeBatteryLevel(text, Some(capacity)) == Ansi.Colorize(text, LevelColor(capacity))
    ensures Ansi.Decolorize(ColorizeBatteryLevel(text, Some(capacity))) ==
      Some((Ansi.ColorCode(LevelColor(capacity)), text))
  {
    var color := LevelColor(capacity);
    var prefix := [Ansi.Esc] + "[" + Ansi.ColorCode(color) + "m";
    assert LevelEscape(color) == prefix by {
      LevelCode(capacity);
    }
    assert Ansi.Colorize(text, color) == prefix + text + [Ansi.Esc] + "[0m";
    Ansi.DecolorizeColorize(text, color);
  }

  /** The table's escape for a level's colour is the shared table's. */
  lemma {:induction false} LevelCode(capacity: int)
    ensures LevelEscape(LevelColor(capacity)) == [Ansi.Esc] + "[" + Ansi.ColorCode(LevelColor(capacity)) + "m"
  {
    if capacity <= 15 {
      assert Ansi.ColorCode("red") == "31" by {
        LowerOfLower("red");
      }
    } else if capacity <= 30 {
      assert Ansi.ColorCode("yellow") == "33" by {
        LowerOfLower("yellow");
      }
    } else {
      assert Ansi.ColorCode("green") == "32" by {
        LowerOfLower("green");
      }
    }
  }

  // ---------------------------------------------------------------------------
  // register
  // ---------------------------------------------------------------------------

  /** The `[battery]` settings. */
  datatype BatteryConfig = BatteryConfig(
    showTime: bool,
    useColors: bool,
    iconCharging: string,
    iconDischarging: string,
    iconFull: string,
    iconUnknown: string)

  /** The dict `register` returns: `battery`, `battery_level`, `battery_status`,
      `battery_icon`, `battery_time`. */
  datatype Placeholders = Placeholders(
    battery: string,
    batteryLevel: string,
    batteryStatus: string,
    batteryIcon: string,
    batteryTime: string)

  const NoBattery: Placeholders := Placeholders("No battery", "N/A", "Not available", "🔌", "N/A")

  /** `icons.get(status, config['icon_unknown'])` */
  function Icon(status: string, cfg: BatteryConfig): (icon: string)
    ensures status == "Charging" ==> icon == cfg.iconCharging
    ensures status == "Discharging" ==> icon == cfg.iconDischarging
    ensures status == "Full" ==> icon == cfg.iconFull
    ensures status !in {"Charging", "Discharging", "Full"} ==> icon == cfg.iconUnknown
  {
    if status == "Charging" then cfg.iconCharging
    else if status == "Discharging" then cfg.iconDischarging
    else if status == "Full" then cfg.iconFull
    else cfg.iconUnknown
  }

  /** The ` (t)` suffix: only while discharging, with a known time and
      `show_time` on. */
  function TimeSuffix(info: BatteryInfo, cfg: BatteryConfig): (suffix: string)
    ensures suffix != "" <==> info.timeRemaining.Some? && cfg.showTime && info.status == "Discharging"
    ensures suffix != "" ==> suffix == " (" + info.timeRemaining.value + ")"
  {
    if info.timeRemaining.Some? && cfg.showTime && info.status == "Discharging" then
      " (" + info.timeRemaining.value + ")"
    else ""
  }

  /** `register()` once the battery has been read and the configuration parsed. */
  function PlaceholdersOf(info: Option<BatteryInfo>, cfg: BatteryConfig): (m: Placeholders)
    ensures info.None? ==> m == NoBattery
    ensures info.Some? ==>
      && m.batteryIcon == Icon(info.value.status, cfg)
      && m.battery == m.batteryIcon + " " + m.batteryLevel + TimeSuffix(info.value, cfg)
      && (m.batteryStatus == "Not charging" <==> info.value.status in {"Unknown", "Not charging"})
      && (info.value.status != "Unknown" ==> m.batteryStatus == info.value.status)
      && (info.value.timeRemaining.None? ==> m.batteryTime == "N/A")
      && (info.value.timeRemaining.Some? ==> m.batteryTime == info.value.timeRemaining.value)
      && (!cfg.useColors ==> m.batteryLevel == IntToString(info.value.capacity) + "%")
      && (cfg.useColors ==> m.batteryLevel == Ansi.Colorize(IntToString(info.value.capacity) + "%", LevelColor(info.value.capacity)))
  {
    match info
    case None => NoBattery
    case Some(b) =>
      var icon := Icon(b.status, cfg);
      var level := IntToString(b.capacity) + "%";
      var levelText := if cfg.useColors then ColorizeBatteryLevel(level, Some(b.capacity)) else level;
      BatteryColorsAgree(level, b.capacity);
      var status := if b.status != "Unknown" then b.status else "Not charging";
      var time := if b.timeRemaining.Some? then b.timeRemaining.value else "N/A";
      Placeholders(icon + " " + levelText + TimeSuffix(b, cfg), levelText, status, icon, time)
  }

  /** `register()`: `cfg` is `Err` when parsing the configuration raised, which
      `register` does not catch. */
  function Register(files: Option<BatteryFiles>, cfg: Result<BatteryConfig, string>): (r: Result<Placeholders, string>)
    ensures cfg.Err? <==> r.Err?
    ensures cfg.Ok? ==> r.value == PlaceholdersOf(BatteryInfoOf(files), cfg.value)
  {
    match cfg
    case Err(e) => Err(e)
    case Ok(c) => Ok(PlaceholdersOf(BatteryInfoOf(files), c))
  }
}
