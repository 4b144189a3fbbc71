/** plugins/termux-uptime.plugin.py: system uptime, shell session time and the
    battery line, for Termux on Android, where `/proc` may be closed.

    What the plugin reads (files, `getprop`, `dmesg`, `dumpsys battery`, the
    clock) is an input: the uptime sources arrive as elapsed seconds, the
    battery as the command's outcome and the sysfs files' contents.
 */
module TermuxUptime {
  import opened Wrappers
  import opened PyStr
  import opened PyNum

  // ---------------------------------------------------------------------------
  // format_uptime
  // ---------------------------------------------------------------------------

  /** `int(seconds // 86400)` */
  function Days(seconds: real): int {
    FloorDiv(seconds, 86400)
  }

  /** `int((seconds % 86400) // 3600)` */
  function Hours(seconds: real): int {
    FloorDiv(FloorMod(seconds, 86400), 3600)
  }

  /** `int((seconds % 3600) // 60)` */
  function Minutes(seconds: real): int {
    FloorDiv(FloorMod(seconds, 3600), 60)
  }

  /** `format_uptime(seconds)`: `Dd Hh Mm`, dropping the leading units that are zero
      (minutes always shown). */
  function FormatUptime(seconds: real): (text: string)
    ensures |text| >= 2 && (IsDigit(text[0]) || text[0] == '-')
  {
    UptimeText(Days(seconds), Hours(seconds), Minutes(seconds))
  }

  /** The text of a days, hours and minutes split: its components joined by spaces. */
  function UptimeText(d: int, h: int, m: int): (text: string)
    ensures |text| >= 2 && (IsDigit(text[0]) || text[0] == '-')
  {
    var parts := UptimeParts(d, h, m);
    JoinFirst(parts, " ");
    Join(parts, " ")
  }

  /** The components shown: days only when nonzero, hours only when days or hours
      are, minutes always. */
  function UptimeParts(d: int, h: int, m: int): (parts: seq<string>)
    ensures 1 <= |parts| <= 3 && |parts[0]| >= 2 && (IsDigit(parts[0][0]) || parts[0][0] == '-')
    ensures |parts| == if d > 0 then 3 else if h > 0 then 2 else 1
  {
    if d > 0 then [Unit(d, 'd'), Unit(h, 'h'), Unit(m, 'm')]
    else if h > 0 then [Unit(h, 'h'), Unit(m, 'm')]
    else [Unit(m, 'm')]
  }

  /** `f"{n}u"` */
  function Unit(n: int, unit: char): (part: string)
    ensures |part| >= 2 && (IsDigit(part[0]) || part[0] == '-')
  {
    IntToString(n) + [unit]
  }

  /** The three units split the time exactly, down to the truncated minute:
      hours below 24, minutes below 60, and the whole minutes counted are
      `seconds // 60`. Thanks to Python's floored `%` this holds for negative
      times too. */
  lemma {:induction false} UptimeUnits(seconds: real)
    ensures 0 <= Hours(seconds) < 24 && 0 <= Minutes(seconds) < 60
    ensures var total := Days(seconds) * 86400 + Hours(seconds) * 3600 + Minutes(seconds) * 60;
      total as real <= seconds < (total + 60) as real
    ensures Days(seconds) * 1440 + Hours(seconds) * 60 + Minutes(seconds) == FloorDiv(seconds, 60)
  {
    var d := Days(seconds);
    var r1 := seconds - d as real * 86400.0;
    assert FloorMod(seconds, 86400) == r1;
    assert 0.0 <= r1 < 86400.0;
    var h := Hours(seconds);
    assert h as real <= r1 / 3600.0 < h as real + 1.0;
    var r2 := r1 - h as real * 3600.0;
    assert 0.0 <= r2 < 3600.0;
    assert seconds / 3600.0 == (d * 24 + h) as real + r2 / 3600.0;
    assert FloorDiv(seconds, 3600) == d * 24 + h;
    assert FloorMod(seconds, 3600) == r2;
    var m := Minutes(seconds);
    assert m as real <= r2 / 60.0 < m as real + 1.0;
    var total := d * 1440 + h * 60 + m;
    assert seconds / 60.0 == total as real + (r2 - m as real * 60.0) / 60.0;
  }

  /** Minutes per unit of an uptime component; 0 for a letter that is no unit. */
  function UnitScale(unit: char): int {
    match unit
    case 'd' => 1440
    case 'h' => 60
    case 'm' => 1
    case _ => 0
  }

  /** One `Nu` component of an uptime text, in minutes; `None` for anything else. */
  function UnitMinutes(part: string): Option<int> {
    if |part| < 2 || UnitScale(part[|part| - 1]) == 0 || !AllDigits(part[..|part| - 1]) then None
    else Some(DigitsValue(part[..|part| - 1]) * UnitScale(part[|part| - 1]))
  }

  /** The sum of the components' minutes. */
  function SumUnits(parts: seq<string>): Option<int>
    decreases |parts|
  {
    if |parts| == 0 then Some(0)
    else match (UnitMinutes(parts[0]), SumUnits(parts[1..]))
      case (Some(a), Some(b)) => Some(a + b)
      case _ => None
  }

  /** Reads an uptime text back into whole minutes. */
  function ParseUptime(text: string): Option<int> {
    SumUnits(Split(text, ' '))
  }

  /** The uptime text of a non-negative time reads back as its whole minutes. */
  lemma {:induction false} UptimeReadsBack(seconds: real)
    requires seconds >= 0.0
    ensures ParseUptime(FormatUptime(seconds)) == Some(FloorDiv(seconds, 60))
  {
    var d, h, m := Days(seconds), Hours(seconds), Minutes(seconds);
    var minutes := FloorDiv(seconds, 60);
    assert d >= 0 && h >= 0 && m >= 0 && d * 1440 + h * 60 + m == minutes by {
      UptimeUnits(seconds);
      assert d as real * 86400.0 <= seconds < (d + 1) as real * 86400.0;
    }
    UptimeTextReadsBack(d, h, m, minutes);
  }

  /** A split into days, hours and minutes reads back as its total in minutes. */
  lemma {:induction false} UptimeTextReadsBack(d: nat, h: nat, m: nat, minutes: int)
    requires minutes == d * 1440 + h * 60 + m
    ensures ParseUptime(UptimeText(d, h, m)) == Some(minutes)
  {
    var parts := UptimeParts(d, h, m);
    assert UptimeText(d, h, m) == Join(parts, " ");
    assert forall i :: 0 <= i < |parts| ==> ' ' !in parts[i] by {
      PartsHaveNoSpace(d, h, m);
    }
    assert SumUnits(parts) == Some(minutes) by {
      SumParts(d, h, m);
    }
    ReadJoined(parts);
  }

  /** The uptime text has three, two or one space-separated components according
      as days, then hours, are nonzero. */
  lemma {:induction false} UptimeTextComponents(d: nat, h: nat, m: nat)
    ensures |Split(UptimeText(d, h, m), ' ')| == if d > 0 then 3 else if h > 0 then 2 else 1
  {
    var parts := UptimeParts(d, h, m);
    assert UptimeText(d, h, m) == Join(parts, " ");
    assert forall i :: 0 <= i < |parts| ==> ' ' !in parts[i] by {
      PartsHaveNoSpace(d, h, m);
    }
    ReadJoined(parts);
  }

  /** The uptime text's space-separated components are, in order, the days, the
      hours and the minutes, each read back as its value in minutes; the days
      appear only when nonzero and the hours only when days or hours are. */
  lemma {:induction false} UptimeTextUnits(d: nat, h: nat, m: nat)
    ensures var ps := Split(UptimeText(d, h, m), ' ');
      && (d > 0 ==>
            |ps| == 3 && UnitMinutes(ps[0]) == Some(d * 1440)
            && UnitMinutes(ps[1]) == Some(h * 60) && UnitMinutes(ps[2]) == Some(m))
      && (d == 0 && h > 0 ==>
            |ps| == 2 && UnitMinutes(ps[0]) == Some(h * 60) && UnitMinutes(ps[1]) == Some(m))
      && (d == 0 && h == 0 ==> |ps| == 1 && UnitMinutes(ps[0]) == Some(m))
    ensures var ps := Split(UptimeText(d, h, m), ' ');
      ps[|ps| - 1][|ps[|ps| - 1]| - 1] == 'm'
      && (d > 0 ==> ps[0][|ps[0]| - 1] == 'd' && ps[1][|ps[1]| - 1] == 'h')
      && (d == 0 && h > 0 ==> ps[0][|ps[0]| - 1] == 'h')
  {
    var parts := UptimeParts(d, h, m);
    assert UptimeText(d, h, m) == Join(parts, " ");
    PartsHaveNoSpace(d, h, m);
    SplitJoin(parts, ' ');
    assert Join(parts, " ") == Join(parts, [' ']);
    UnitsReadBack(d, h, m);
  }

  lemma {:induction false} PartsHaveNoSpace(d: nat, h: nat, m: nat)
    ensures forall i :: 0 <= i < |UptimeParts(d, h, m)| ==> ' ' !in UptimeParts(d, h, m)[i]
  {
    var a, b, c := Unit(d, 'd'), Unit(h, 'h'), Unit(m, 'm');
    UnitsReadBack(d, h, m);
    if d > 0 {
      assert UptimeParts(d, h, m) == [a, b, c];
    } else if h > 0 {
      assert UptimeParts(d, h, m) == [b, c];
    } else {
      assert UptimeParts(d, h, m) == [c];
    }
  }

  /** The three components each have no space and read back. */
  lemma {:induction false} UnitsReadBack(d: nat, h: nat, m: nat)
    ensures ' ' !in Unit(d, 'd') && UnitMinutes(Unit(d, 'd')) == Some(d * 1440)
    ensures ' ' !in Unit(h, 'h') && UnitMinutes(Unit(h, 'h')) == Some(h * 60)
    ensures ' ' !in Unit(m, 'm') && UnitMinutes(Unit(m, 'm')) == Some(m)
  {
    UnitReadsBack(d, 'd', 1440);
    UnitReadsBack(h, 'h', 60);
    UnitReadsBack(m, 'm', 1);
  }

  lemma {:induction false} SumParts(d: nat, h: nat, m: nat)
    ensures SumUnits(UptimeParts(d, h, m)) == Some(d * 1440 + h * 60 + m)
  {
    if d > 0 {
      SumThree(d, h, m);
    } else if h > 0 {
      SumTwo(h, m);
    } else {
      SumOne(m);
    }
  }

  lemma {:induction false} SumThree(d: nat, h: nat, m: nat)
    requires d > 0
    ensures SumUnits(UptimeParts(d, h, m)) == Some(d * 1440 + h * 60 + m)
  {
    var a, b, c := Unit(d, 'd'), Unit(h, 'h'), Unit(m, 'm');
    assert UptimeParts(d, h, m) == [a, b, c];
    assert UnitMinutes(a) == Some(d * 1440) && UnitMinutes(b) == Some(h * 60) && UnitMinutes(c) == Some(m) by {
      UnitsReadBack(d, h, m);
    }
    assert SumUnits([a, b, c]) == Some(d * 1440 + h * 60 + m) by {
      SumOfThree(a, b, c, d * 1440, h * 60, m);
    }
  }

  lemma {:induction false} SumTwo(h: nat, m: nat)
    requires h > 0
    ensures SumUnits(UptimeParts(0, h, m)) == Some(h * 60 + m)
  {
    var b, c := Unit(h, 'h'), Unit(m, 'm');
    assert UptimeParts(0, h, m) == [b, c];
    assert UnitMinutes(b) == Some(h * 60) by { UnitReadsBack(h, 'h', 60); }
    assert UnitMinutes(c) == Some(m) by { UnitReadsBack(m, 'm', 1); }
    SumOfTwo(b, c, h * 60, m);
  }

  lemma {:induction false} SumOne(m: nat)
    ensures SumUnits(UptimeParts(0, 0, m)) == Some(m)
  {
    var c := Unit(m, 'm');
    assert UptimeParts(0, 0, m) == [c];
    assert UnitMinutes(c) == Some(m) by { UnitReadsBack(m, 'm', 1); }
    SumOfOne(c);
  }

  /** Reading components joined by single spaces reads each of them. */
  lemma {:induction false} ReadJoined(parts: seq<string>)
    requires |parts| >= 1 && forall i :: 0 <= i < |parts| ==> ' ' !in parts[i]
    ensures ParseUptime(Join(parts, " ")) == SumUnits(parts)
    ensures |Split(Join(parts, " "), ' ')| == |parts|
  {
    SplitJoin(parts, ' ');
    assert Join(parts, " ") == Join(parts, [' ']);
  }

  lemma {:induction false} SumOfOne(a: string)
    requires UnitMinutes(a).Some?
    ensures SumUnits([a]) == UnitMinutes(a)
  {
    assert [a][1..] == [];
  }

  lemma {:induction false} SumOfTwo(a: string, b: string, x: int, y: int)
    requires UnitMinutes(a) == Some(x) && UnitMinutes(b) == Some(y)
    ensures SumUnits([a, b]) == Some(x + y)
  {
    assert [a, b][1..] == [b];
    SumOfOne(b);
  }

  lemma {:induction false} SumOfThree(a: string, b: string, c: string, x: int, y: int, z: int)
    requires UnitMinutes(a) == Some(x) && UnitMinutes(b) == Some(y) && UnitMinutes(c) == Some(z)
    ensures SumUnits([a, b, c]) == Some(x + y + z)
  {
    assert [a, b, c][1..] == [b, c];
    SumOfTwo(b, c, y, z);
  }

  /** A non-negative count with its unit has no space and reads back as that
      many units' worth of minutes. */
  lemma {:induction false} UnitReadsBack(n: nat, unit: char, scale: int)
    requires scale == UnitScale(unit) && scale != 0
    ensures ' ' !in Unit(n, unit)
    ensures UnitMinutes(Unit(n, unit)) == Some(n * scale)
  {
    var digits := NatToString(n);
    var part := Unit(n, unit);
    assert forall k :: 0 <= k < |digits| ==> IsDigit(digits[k]);
    assert part[..|part| - 1] == digits;
    DigitsValueOfNat(n);
  }

  // ---------------------------------------------------------------------------
  // get_termux_uptime / get_termux_session
  // ---------------------------------------------------------------------------

  /** The elapsed seconds each way of telling the uptime produced, `None` for one
      that failed: `/proc/uptime`, the `BOOT_COMPLETED` line of `dmesg`, the
      `btime` line of `/proc/stat`, and the age of the Termux home directory. */
  datatype UptimeSources = UptimeSources(
    procUptime: Option<real>,
    dmesgUptime: Option<real>,
    statUptime: Option<real>,
    termuxHomeAge: Option<real>)

  /** `~` marks a time that only approximates the one asked for. */
  function Approximate(seconds: real): (text: string)
    ensures |text| >= 3 && text[0] == '~' && text[1..] == FormatUptime(seconds)
  {
    "~" + FormatUptime(seconds)
  }

  /** `get_termux_uptime()`: the first way that works, the Termux directory's age
      marked as approximate, `unknown` when none works. */
  function TermuxUptime(src: UptimeSources): (text: string)
    ensures text == "unknown" <==>
      src.procUptime.None? && src.dmesgUptime.None? && src.statUptime.None? && src.termuxHomeAge.None?
    ensures |text| > 0 && text[0] == '~' <==>
      src.procUptime.None? && src.dmesgUptime.None? && src.statUptime.None? && src.termuxHomeAge.Some?
    ensures src.procUptime.Some? ==> text == FormatUptime(src.procUptime.value)
    ensures src.procUptime.None? && src.dmesgUptime.Some? ==> text == FormatUptime(src.dmesgUptime.value)
    ensures src.procUptime.None? && src.dmesgUptime.None? && src.statUptime.Some? ==>
      text == FormatUptime(src.statUptime.value)
    ensures src.procUptime.None? && src.dmesgUptime.None? && src.statUptime.None? && src.termuxHomeAge.Some? ==>
      text == Approximate(src.termuxHomeAge.value)
  {
    if src.procUptime.Some? then FormatUptime(src.procUptime.value)
    else if src.dmesgUptime.Some? then FormatUptime(src.dmesgUptime.value)
    else if src.statUptime.Some? then FormatUptime(src.statUptime.value)
    else if src.termuxHomeAge.Some? then Approximate(src.termuxHomeAge.value)
    else "unknown"
  }

  /** The session's age from its process start time, and the age of the home
      directory's last access, `None` for a way that failed. */
  datatype SessionSources = SessionSources(processAge: Option<real>, homeAccessAge: Option<real>)

  /** `get_termux_session()`: the parent process's age, or, approximately, the
      home directory's access age; `unknown` when both fail. */
  function TermuxSession(src: SessionSources): (text: string)
    ensures text == "unknown" <==> src.processAge.None? && src.homeAccessAge.None?
    ensures |text| > 0 && text[0] == '~' <==> src.processAge.None? && src.homeAccessAge.Some?
    ensures src.processAge.Some? ==> text == FormatUptime(src.processAge.value)
    ensures src.processAge.None? && src.homeAccessAge.Some? ==> text == Approximate(src.homeAccessAge.value)
  {
    if src.processAge.Some? then FormatUptime(src.processAge.value)
    else if src.homeAccessAge.Some? then Approximate(src.homeAccessAge.value)
    else "unknown"
  }

  // ---------------------------------------------------------------------------
  // get_battery_info
  // ---------------------------------------------------------------------------

  /** The `dumpsys battery` lines the plugin picks up, by the first keyword their
      lower-cased text contains: `level`, then `scale`, then `status` or
      `charging`. */
  datatype LineKind = LevelLine | ScaleLine | StatusLine | OtherLine

  function KindOf(line: string): (k: LineKind)
    ensures k == LevelLine <==> Contains(Lower(line), "level")
    ensures k == ScaleLine <==> !Contains(Lower(line), "level") && Contains(Lower(line), "scale")
    ensures k == StatusLine <==>
      && !Contains(Lower(line), "level") && !Contains(Lower(line), "scale")
      && (Contains(Lower(line), "status") || Contains(Lower(line), "charging"))
  {
    var lower := Lower(line);
    if Contains(lower, "level") then LevelLine
    else if Contains(lower, "scale") then ScaleLine
    else if Contains(lower, "status") || Contains(lower, "charging") then StatusLine
    else OtherLine
  }

  /** `line.split(':')[1].strip()`: the stripped text between the first and the
      second `:`; `None` for a line without `:`, where the index raises. */
  function FieldValue(line: string): (v: Option<string>)
    ensures v.None? <==> ':' !in line
    ensures v.Some? ==> ':' !in v.value
  {
    var parts := Split(line, ':');
    SplitPieces(line, ':');
    if |parts| < 2 then None
    else
      StripKeeps(parts[1], ':');
      Some(Strip(parts[1]))
  }

  lemma {:induction false} StripKeeps(s: string, c: char)
    requires c !in s
    ensures c !in Strip(s)
  {
    var t := TrimLeft(s);
    forall k | 0 <= k < |t|
      ensures t[k] != c
    {
      assert t[k] == s[|s| - |t| + k];
    }
    var u := TrimRight(t);
    forall k | 0 <= k < |u|
      ensures u[k] != c
    {
      assert u[k] == t[k];
    }
  }

  /** The `battery_info` dict: the last value read for each kind of line. */
  datatype BatteryFields = BatteryFields(level: Option<string>, scale: Option<string>, status: Option<string>)

  /** The entry a kind of line writes. */
  function Field(fields: BatteryFields, kind: LineKind): Option<string> {
    match kind
    case LevelLine => fields.level
    case ScaleLine => fields.scale
    case StatusLine => fields.status
    case OtherLine => None
  }

  /** A picked-up line without `:`: reading it raises. */
  predicate Broken(line: string) {
    KindOf(line) != OtherLine && ':' !in line
  }

  /** The dict after one more line, or `None` once reading has raised. */
  function ReadLine(fields: BatteryFields, line: string): Option<BatteryFields> {
    match KindOf(line)
    case OtherLine => Some(fields)
    case LevelLine => if ':' in line then Some(fields.(level := FieldValue(line))) else None
    case ScaleLine => if ':' in line then Some(fields.(scale := FieldValue(line))) else None
    case StatusLine => if ':' in line then Some(fields.(status := FieldValue(line))) else None
  }

  /** The dict after reading `lines` in order. */
  function ReadLines(lines: seq<string>): Option<BatteryFields>
    decreases |lines|
  {
    if |lines| == 0 then Some(BatteryFields(None, None, None))
    else
      match ReadLines(lines[..|lines| - 1])
      case None => None
      case Some(fields) => ReadLine(fields, lines[|lines| - 1])
  }

  /** Reading raises exactly when some picked-up line has no `:`. */
  lemma {:induction false} ReadLinesFails(lines: seq<string>)
    ensures ReadLines(lines).None? <==> exists i :: 0 <= i < |lines| && Broken(lines[i])
    decreases |lines|
  {
    if |lines| > 0 {
      var init := lines[..|lines| - 1];
      ReadLinesFails(init);
      if exists i :: 0 <= i < |init| && Broken(init[i]) {
        var i :| 0 <= i < |init| && Broken(init[i]);
        assert lines[i] == init[i];
      }
      if exists i :: 0 <= i < |lines| && Broken(lines[i]) {
        var i :| 0 <= i < |lines| && Broken(lines[i]);
        if i < |init| {
          assert init[i] == lines[i];
        }
      }
    }
  }

  /** Later lines overwrite earlier ones: each entry holds the value of the last
      line of its kind. */
  lemma {:induction false} LastLineWins(lines: seq<string>, kind: LineKind, i: nat)
    requires kind != OtherLine && ReadLines(lines).Some?
    requires i < |lines| && KindOf(lines[i]) == kind
    requires forall j :: i < j < |lines| ==> KindOf(lines[j]) != kind
    ensures Field(ReadLines(lines).value, kind) == FieldValue(lines[i])
    decreases |lines|
  {
    var init := lines[..|lines| - 1];
    assert ReadLines(init).Some?;
    if i < |lines| - 1 {
      assert init[i] == lines[i];
      assert forall j :: i < j < |init| ==> init[j] == lines[j];
      LastLineWins(init, kind, i);
    }
  }

  /** An entry stays empty when no line has its kind. */
  lemma {:induction false} UnseenKindEmpty(lines: seq<string>, kind: LineKind)
    requires kind != OtherLine && ReadLines(lines).Some?
    requires forall j :: 0 <= j < |lines| ==> KindOf(lines[j]) != kind
    ensures Field(ReadLines(lines).value, kind).None?
    decreases |lines|
  {
    if |lines| > 0 {
      var init := lines[..|lines| - 1];
      assert ReadLines(init).Some?;
      assert forall j :: 0 <= j < |init| ==> init[j] == lines[j];
      UnseenKindEmpty(init, kind);
    }
  }

  /** The battery icon, as written: plugged in when the lower-cased status
      contains `charging` (or, on the `dumpsys` path, `ac`), full when it
      contains `full`. A discharging battery's status contains `charging`. */
  function IconAsWritten(status: string, acCounts: bool): (icon: string)
    ensures icon in {"🔌", "✅", "🔋"}
    ensures icon == "🔌" <==> Contains(Lower(status), "charging") || (acCounts && Contains(Lower(status), "ac"))
    ensures icon == "✅" <==> icon != "🔌" && Contains(Lower(status), "full")
    ensures icon == "🔋" <==> icon != "🔌" && icon != "✅"
  {
    var lower := Lower(status);
    if Contains(lower, "charging") || (acCounts && Contains(lower, "ac")) then "🔌"
    else if Contains(lower, "full") then "✅"
    else "🔋"
  }

  /** The status shows a charger at work: it says `charging`, but neither
      `discharging` nor `not charging`. */
  predicate Charging(lower: string) {
    Contains(lower, "charging") && !Contains(lower, "discharging") && !Contains(lower, "not charging")
  }

  /** The battery icon with `discharging` and `not charging` no longer mistaken
      for `charging`. */
  function Icon(status: string, acCounts: bool): (icon: string)
    ensures icon == "🔌" <==> Charging(Lower(status)) || (acCounts && Contains(Lower(status), "ac"))
    ensures icon == "✅" <==> icon != "🔌" && Contains(Lower(status), "full")
    ensures icon == "🔋" <==> icon != "🔌" && icon != "✅"
  {
    var lower := Lower(status);
    if Charging(lower) || (acCounts && Contains(lower, "ac")) then "🔌"
    else if Contains(lower, "full") then "✅"
    else "🔋"
  }

  /** A battery whose status file says `Discharging` (lower-cased on the sysfs
      path) gets the charger icon as written, and the battery icon once
      corrected. */
  lemma {:induction false} DischargingShowsPlug()
    ensures IconAsWritten("discharging", false) == "🔌"
  {
    LowerOfLower("discharging");
    assert "discharging" == "dis" + "charging" + "";
    ContainsMiddle("dis", "charging", "");
  }

  /** The same holds for the standard sysfs status `Not charging`. */
  lemma {:induction false} NotChargingShowsPlug()
    ensures IconAsWritten("not charging", false) == "🔌"
    ensures Icon("not charging", false) == "🔋"
  {
    NotChargingLower();
    NotChargingWords();
  }

  lemma {:induction false} NotChargingLower()
    ensures Lower("not charging") == "not charging"
  {
    LowerOfLower("not charging");
  }

  /** `not charging` contains `charging` and itself, but not `full`. */
  lemma {:induction false} NotChargingWords()
    ensures Contains("not charging", "charging")
    ensures Contains("not charging", "not charging")
    ensures !Contains("not charging", "full")
  {
    assert "not charging" == "not " + "charging" + "";
    ContainsMiddle("not ", "charging", "");
    assert "not charging" == "" + "not charging" + "";
    ContainsMiddle("", "not charging", "");
    NotContainsChar("not charging", "full", 'f');
  }

  lemma {:induction false} DischargingCorrected()
    ensures Icon("discharging", false) == "🔋"
  {
    DischargingLowerNoop();
    DischargingWords();
  }

  lemma {:induction false} DischargingLowerNoop()
    ensures Lower("discharging") == "discharging"
  {
    LowerOfLower("discharging");
  }

  /** `discharging` contains itself but not `full`. */
  lemma {:induction false} DischargingWords()
    ensures Contains("discharging", "discharging")
    ensures !Contains("discharging", "full")
  {
    assert "discharging" == "" + "discharging" + "";
    ContainsMiddle("", "discharging", "");
    NotContainsChar("discharging", "full", 'f');
  }

  lemma {:induction false} ChargingCorrected()
    ensures Icon("charging", false) == "🔌"
  {
    ChargingLower();
    ChargingWords();
  }

  lemma {:induction false} ChargingLower()
    ensures Lower("charging") == "charging"
  {
    LowerOfLower("charging");
  }

  /** `charging` contains itself, but neither `discharging` nor `not charging`. */
  lemma {:induction false} ChargingWords()
    ensures Contains("charging", "charging")
    ensures !Contains("charging", "discharging")
    ensures !Contains("charging", "not charging")
  {
    assert Contains("charging", "charging") by {
      assert "charging" == "" + "charging" + "";
      ContainsMiddle("", "charging", "");
    }
    assert !Contains("charging", "discharging") by {
      NotContainsChar("charging", "discharging", 'd');
    }
    assert !Contains("charging", "not charging") by {
      NotContainsChar("charging", "not charging", 't');
    }
  }

  /** Which icon test a battery reading uses: the one the plugin has, or the
      corrected one. */
  datatype IconRule = AsWritten | Corrected

  function BatteryIcon(rule: IconRule, status: string, acCounts: bool): (icon: string)
    ensures rule == AsWritten ==> icon == IconAsWritten(status, acCounts)
    ensures rule == Corrected ==> icon == Icon(status, acCounts)
  {
    match rule
    case AsWritten => IconAsWritten(status, acCounts)
    case Corrected => Icon(status, acCounts)
  }

  /** Outcome of `dumpsys battery`: its return code and output, or `NotRun` when
      starting it raised (command missing, timeout). */
  datatype Dumpsys = Ran(returnCode: int, stdout: string) | NotRun

  /** The `capacity` and `status` files of `/sys/class/power_supply/battery/`
      (`None` for a missing file). */
  datatype SysfsBattery = SysfsBattery(capacity: Option<string>, status: Option<string>)

  /** The second way: the sysfs files, `🔋 N/A` when the directory or the
      capacity file is missing; the status is lower-cased, `unknown` when absent. */
  function SysfsBatteryText(sysfs: Option<SysfsBattery>, rule: IconRule): (text: string)
    ensures sysfs.None? || sysfs.value.capacity.None? <==> text == "🔋 N/A"
    ensures text != "🔋 N/A" ==> |text| > 0 && text[|text| - 1] == '%'
    ensures sysfs.Some? && sysfs.value.capacity.Some? ==>
      text == Reading(BatteryIcon(rule,
        if sysfs.value.status.Some? then Lower(Strip(sysfs.value.status.value)) else "unknown", false),
        Strip(sysfs.value.capacity.value))
  {
    match sysfs
    case None => "🔋 N/A"
    case Some(b) =>
      match b.capacity
      case None => "🔋 N/A"
      case Some(capacity) =>
        var status := if b.status.Some? then Lower(Strip(b.status.value)) else "unknown";
        Reading(BatteryIcon(rule, status, false), Strip(capacity))
  }

  /** `f"{icon} {level}%"`, which no fallback text looks like. */
  function Reading(icon: string, level: string): (text: string)
    ensures |text| > 0 && text[|text| - 1] == '%'
    ensures text != "🔋 N/A" && text != "🔋 error"
  {
    icon + " " + level + "%"
  }

  /** `get_battery_info()`: the `dumpsys` reading when it names a level,
      otherwise the sysfs files; `🔋 error` when running `dumpsys` or reading
      one of its lines raised. */
  function TermuxBattery(dumpsys: Dumpsys, sysfs: Option<SysfsBattery>, rule: IconRule): (text: string)
    ensures text == "🔋 error" <==>
      dumpsys.NotRun? || (dumpsys.returnCode == 0 && ReadLines(Split(dumpsys.stdout, '\n')).None?)
    ensures
      && dumpsys.Ran? && dumpsys.returnCode == 0 && ReadLines(Split(dumpsys.stdout, '\n')).Some?
      && ReadLines(Split(dumpsys.stdout, '\n')).value.level.Some?
      ==>
        var fields := ReadLines(Split(dumpsys.stdout, '\n')).value;
        text == Reading(BatteryIcon(rule, fields.status.GetOr(""), true), fields.level.value)
    ensures dumpsys.Ran? && dumpsys.returnCode != 0 ==> text == SysfsBatteryText(sysfs, rule)
    ensures
      && dumpsys.Ran? && dumpsys.returnCode == 0 && ReadLines(Split(dumpsys.stdout, '\n')).Some?
      && ReadLines(Split(dumpsys.stdout, '\n')).value.level.None?
      ==> text == SysfsBatteryText(sysfs, rule)
  {
    match dumpsys
    case NotRun => "🔋 error"
    case Ran(code, stdout) =>
      if code != 0 then SysfsBatteryText(sysfs, rule)
      else
        match ReadLines(Split(stdout, '\n'))
        case None => "🔋 error"
        case Some(fields) =>
          if fields.level.Some? then Reading(BatteryIcon(rule, fields.status.GetOr(""), true), fields.level.value)
          else SysfsBatteryText(sysfs, rule)
  }

  /** A sysfs battery reporting `Discharging` shows the charger as written and
      the battery once corrected; the two rules agree on `Charging`. */
  lemma {:induction false} SysfsDischarging(level: string)
    ensures SysfsBatteryText(Some(SysfsBattery(Some(level), Some("Discharging"))), AsWritten) == Reading("🔌", Strip(level))
    ensures SysfsBatteryText(Some(SysfsBattery(Some(level), Some("Discharging"))), Corrected) == Reading("🔋", Strip(level))
  {
    DischargingStatus();
    DischargingShowsPlug();
    DischargingCorrected();
  }

  /** The status file's `Discharging`, stripped and lower-cased. */
  lemma {:induction false} DischargingStatus()
    ensures Lower(Strip("Discharging")) == "discharging"
  {
    DischargingStripped();
    DischargingLower();
  }

  lemma {:induction false} DischargingStripped()
    ensures Strip("Discharging") == "Discharging"
  {
    StripNoop("Discharging");
  }

  lemma {:induction false} DischargingLower()
    ensures Lower("Discharging") == "discharging"
  {
    assert "Discharging" == ['D'] + "ischarging";
    LowerHead('D', "ischarging");
    assert ['d'] + "ischarging" == "discharging";
  }

  // ---------------------------------------------------------------------------
  // register
  // ---------------------------------------------------------------------------

  /** Neither time text starts like the `error: …` fallback. */
  lemma {:induction false} NotAnError(uptime: UptimeSources, session: SessionSources)
    ensures !StartsWith(TermuxUptime(uptime), "error") && !StartsWith(TermuxSession(session), "error")
  {
    var u, t := TermuxUptime(uptime), TermuxSession(session);
    assert u[0] != 'e' && t[0] != 'e';
    assert "error"[0] == 'e';
  }

  /** The dict `register` returns: `tuptime`, `tsession`, `tbattery`. Each
      helper catches its own errors, so the fallback dict is never used and no
      uptime reads `error: …`. */
  datatype Placeholders = Placeholders(tuptime: string, tsession: string, tbattery: string)

  function Register(uptime: UptimeSources, session: SessionSources, dumpsys: Dumpsys, sysfs: Option<SysfsBattery>): (m: Placeholders)
    ensures m.tuptime == TermuxUptime(uptime)
    ensures m.tsession == TermuxSession(session)
    ensures m.tbattery == TermuxBattery(dumpsys, sysfs, AsWritten)
    ensures !StartsWith(m.tuptime, "error") && !StartsWith(m.tsession, "error")
  {
    NotAnError(uptime, session);
    Placeholders(TermuxUptime(uptime), TermuxSession(session), TermuxBattery(dumpsys, sysfs, AsWritten))
  }
}
