/** plugins/disk-usage.plugin.py: the used share of one or more partitions as
    a short coloured percentage, plus a one-word summary over the configured
    paths.

    The `[disk-usage]` section is an input map; `shutil.disk_usage` is an input
    map from the paths it can read to their sizes, and the home directory is an
    input string.
 */
module DiskUsage {
  import opened Wrappers
  import opened PyStr
  import opened PyNum
  import opened ConfigParser
  import Ansi
  import Levels

  // ---------------------------------------------------------------------------
  // Configuration
  // ---------------------------------------------------------------------------

  /** The settings `get_disk_config` returns. */
  datatype UsageConfig = UsageConfig(
    warningThreshold: int,
    criticalThreshold: int,
    showEmoji: bool,
    paths: seq<string>)

  /** What a missing section gives. */
  const DefaultConfig: UsageConfig := UsageConfig(85, 95, true, ["/"])

  /** `get_disk_config()` once the configuration file has been read: `None` when
      a threshold is not a number or `show_emoji` is not a boolean word. */
  function DiskConfig(section: Section): (r: Option<UsageConfig>)
    ensures r.Some? ==> |r.value.paths| >= 1
    ensures r.Some? ==> GetInt(section, "warning_threshold", 85) == Some(r.value.warningThreshold)
    ensures r.Some? ==> GetInt(section, "critical_threshold", 95) == Some(r.value.criticalThreshold)
    ensures r.Some? ==> GetBoolean(section, "show_emoji", true) == Some(r.value.showEmoji)
    ensures r.Some? ==> r.value.paths == SplitStrip(Get(section, "paths", "/"), ',')
    ensures r.Some? <==>
      GetInt(section, "warning_threshold", 85).Some? && GetInt(section, "critical_threshold", 95).Some?
      && GetBoolean(section, "show_emoji", true).Some?
  {
    match Settings(section)
    case Some((w, c, e)) => Some(UsageConfig(w, c, e, SplitStrip(Get(section, "paths", "/"), ',')))
    case None => None
  }

  /** The two thresholds and the emoji switch, converted. */
  function Settings(section: Section): Option<(int, int, bool)> {
    match (GetInt(section, "warning_threshold", 85), GetInt(section, "critical_threshold", 95),
      GetBoolean(section, "show_emoji", true))
    case (Some(w), Some(c), Some(e)) => Some((w, c, e))
    case _ => None
  }

  /** An empty section gives the documented defaults: thresholds 85 and 95,
      the emoji on, and the root partition alone. */
  lemma {:induction false} DefaultDiskConfig()
    ensures DiskConfig(map[]) == Some(DefaultConfig)
  {
    assert Split("/", ',') == ["/"] by {
      SplitWhole("/", ',');
    }
    StripNoop("/");
    assert SplitStrip("/", ',') == ["/"];
  }

  /** Comma-separated paths come back one by one, with the blanks around each
      removed. */
  lemma {:induction false} PathsListed(section: Section, paths: seq<string>)
    requires |paths| >= 1
    requires forall k :: 0 <= k < |paths| ==> Field(paths[k], ',')
    requires DiskConfig(section).Some?
    ensures DiskConfig(section[ "paths" := Join(paths, ",")]).Some?
    ensures DiskConfig(section[ "paths" := Join(paths, ",")]).value.paths == paths
  {
    var s := section["paths" := Join(paths, ",")];
    SettingsIgnorePaths(section, Join(paths, ","));
    assert Get(s, "paths", "/") == Join(paths, ",");
    SplitStripJoin(paths, ',');
  }

  lemma {:induction false} SettingsIgnorePaths(section: Section, value: string)
    ensures Settings(section["paths" := value]) == Settings(section)
  {
    var s := section["paths" := value];
    assert GetInt(s, "warning_threshold", 85) == GetInt(section, "warning_threshold", 85);
    assert GetInt(s, "critical_threshold", 95) == GetInt(section, "critical_threshold", 95);
    assert GetBoolean(s, "show_emoji", true) == GetBoolean(section, "show_emoji", true);
  }

  // ---------------------------------------------------------------------------
  // One partition
  // ---------------------------------------------------------------------------

  /** The two fields of `shutil.disk_usage` the plugin reads, in bytes. */
  datatype Space = Space(total: nat, used: nat)

  /** The partitions `shutil.disk_usage` can read. */
  type Disks = map<string, Space>

  /** `(usage.used / usage.total) * 100` for `path`; `None` when the call raises
      or the total is zero (`ZeroDivisionError`). */
  function UsedPercent(disks: Disks, path: string): (p: Option<real>)
    ensures p.Some? ==> p.value >= 0.0
    ensures p.Some? <==> path in disks && disks[path].total > 0
  {
    if path in disks && disks[path].total > 0 then
      Some(disks[path].used as real / disks[path].total as real * 100.0)
    else None
  }

  /** `get_disk_color(usage_percent, warning, critical)` */
  function DiskColor(percent: real, warning: int, critical: int): (color: string)
    ensures color == "red" <==> percent >= critical as real
    ensures color == "yellow" <==> warning as real <= percent < critical as real
    ensures color == "green" <==> percent < warning as real && percent < critical as real
  {
    match Levels.Classify(percent, warning as real, critical as real)
    case High => "red"
    case Medium => "yellow"
    case Low => "green"
  }

  /** `"💾 "` when the emoji is on. */
  function Emoji(show: bool): string {
    if show then "💾 " else ""
  }

  /** The whole percentage `format_disk_usage` shows: `0` below one percent,
      otherwise `f"{used_percent:.0f}"`. */
  function ShownPercent(percent: real): int {
    if percent < 1.0 then 0 else RoundHalfEven(percent)
  }

  /** The shown figure is never more than half a point above the exact share
      and less than one point below it. */
  lemma {:induction false} ShownPercentClose(percent: real)
    requires percent >= 0.0
    ensures percent - 1.0 < ShownPercent(percent) as real <= percent + 0.5
  {
  }

  /** A fuller disk never shows a smaller figure. */
  lemma {:induction false} ShownPercentMonotone(p: real, q: real)
    requires p <= q
    ensures ShownPercent(p) <= ShownPercent(q)
  {
    if p >= 1.0 {
      RoundHalfEvenMonotone(p, q);
    } else if q >= 1.0 {
      RoundHalfEvenMonotone(1.0, q);
      RoundHalfEvenOfInt(1);
    }
  }

  /** The digits of the figure. */
  function PercentDigits(percent: real): (t: string)
    ensures |t| >= 1 && AllDigits(t) && DigitsValue(t) == ShownPercent(percent)
  {
    if percent < 1.0 then
      assert DigitsValue("0") == 0 by {
        assert "0"[..0] == "";
      }
      "0"
    else Fixed0(percent)
  }

  /** Reads a figure followed by `%` back. */
  function ReadPercent(t: string): Option<int> {
    if |t| > 0 && t[|t| - 1] == '%' then ParseDigits(t[..|t| - 1]) else None
  }

  /** `format_disk_usage(path, show_emoji, warning, critical)` on the reading for
      `path`: the text and its colour. A failed reading gives `💾 N/A` in red
      even with the emoji switched off. The two branches the source keeps for
      below and above ten percent format alike. */
  function FormatDiskUsage(percent: Option<real>, showEmoji: bool, warning: int, critical: int)
    : (r: (string, string))
    ensures percent.None? ==> r == ("💾 N/A", "red")
    ensures percent.Some? ==>
      && StartsWith(r.0, Emoji(showEmoji))
      && ReadPercent(r.0[|Emoji(showEmoji)|..]) == Some(ShownPercent(percent.value))
      && r.1 == DiskColor(percent.value, warning, critical)
  {
    match percent
    case None => ("💾 N/A", "red")
    case Some(p) =>
      var digits := PercentDigits(p);
      PercentReadsBack(Emoji(showEmoji), digits);
      (Emoji(showEmoji) + digits + "%", DiskColor(p, warning, critical))
  }

  /** The digits between a prefix and `%` read back. */
  lemma {:induction false} PercentReadsBack(prefix: string, digits: string)
    requires |digits| >= 1 && AllDigits(digits)
    ensures StartsWith(prefix + digits + "%", prefix)
    ensures ReadPercent((prefix + digits + "%")[|prefix|..]) == Some(DigitsValue(digits))
  {
    var text := prefix + digits + "%";
    assert text[..|prefix|] == prefix;
    assert text[|prefix|..] == digits + "%";
    ReadPercentOf(digits);
  }

  lemma {:induction false} ReadPercentOf(digits: string)
    requires |digits| >= 1 && AllDigits(digits)
    ensures ReadPercent(digits + "%") == Some(DigitsValue(digits))
  {
    assert (digits + "%")[..|digits|] == digits;
  }

  /** A failure never reads as a percentage, with or without the emoji. */
  lemma {:induction false} FailureIsNotAFigure(showEmoji: bool)
    ensures ReadPercent("💾 N/A"[|Emoji(showEmoji)|..]) == None
  {
  }

  // ---------------------------------------------------------------------------
  // The summary over all paths
  // ---------------------------------------------------------------------------

  /** The percentage of each configured path, in order. */
  function Percents(disks: Disks, paths: seq<string>): (ps: seq<Option<real>>)
    ensures |ps| == |paths|
    ensures forall k :: 0 <= k < |paths| ==> ps[k] == UsedPercent(disks, paths[k])
  {
    seq(|paths|, k requires 0 <= k < |paths| => UsedPercent(disks, paths[k]))
  }

  /** How many readable paths classify as `level`. */
  function CountLevel(ps: seq<Option<real>>, level: Levels.Level, warning: int, critical: int): nat
    decreases |ps|
  {
    if |ps| == 0 then 0
    else
      var last := ps[|ps| - 1];
      CountLevel(ps[..|ps| - 1], level, warning, critical)
        + (if last.Some? && Levels.Classify(last.value, warning as real, critical as real) == level then 1 else 0)
  }

  /** How many paths are readable. */
  function Readable(ps: seq<Option<real>>): nat
    decreases |ps|
  {
    if |ps| == 0 then 0 else Readable(ps[..|ps| - 1]) + (if ps[|ps| - 1].Some? then 1 else 0)
  }

  /** Each readable path is counted once: as critical, as warning, or as
      neither. */
  lemma {:induction false} CountsPartition(ps: seq<Option<real>>, warning: int, critical: int)
    ensures CountLevel(ps, Levels.High, warning, critical) + CountLevel(ps, Levels.Medium, warning, critical)
      + CountLevel(ps, Levels.Low, warning, critical) == Readable(ps)
    decreases |ps|
  {
    if |ps| > 0 {
      CountsPartition(ps[..|ps| - 1], warning, critical);
    }
  }

  /** A level has no count exactly when no readable path is at that level. */
  lemma {:induction false} CountLevelZero(ps: seq<Option<real>>, level: Levels.Level, warning: int, critical: int)
    ensures CountLevel(ps, level, warning, critical) == 0 <==>
      forall k :: 0 <= k < |ps| && ps[k].Some? ==> Levels.Classify(ps[k].value, warning as real, critical as real) != level
    decreases |ps|
  {
    if |ps| > 0 {
      var init := ps[..|ps| - 1];
      CountLevelZero(init, level, warning, critical);
      assert forall k :: 0 <= k < |init| ==> init[k] == ps[k];
    }
  }

  /** The three counts add up over concatenated lists. */
  lemma {:induction false} CountsAppend(a: seq<Option<real>>, b: seq<Option<real>>, warning: int, critical: int)
    ensures CountLevel(a + b, Levels.High, warning, critical)
      == CountLevel(a, Levels.High, warning, critical) + CountLevel(b, Levels.High, warning, critical)
    ensures CountLevel(a + b, Levels.Medium, warning, critical)
      == CountLevel(a, Levels.Medium, warning, critical) + CountLevel(b, Levels.Medium, warning, critical)
    decreases |b|
  {
    if |b| > 0 {
      var b' := b[..|b| - 1];
      assert (a + b)[..|a + b| - 1] == a + b';
      CountsAppend(a, b', warning, critical);
    } else {
      assert a + b == a;
    }
  }

  /** The text and colour for a critical count and a warning count. */
  function MultiSummary(ps: seq<Option<real>>, showEmoji: bool, warning: int, critical: int)
    : (r: (string, string))
    ensures r.1 == "red" <==> CountLevel(ps, Levels.High, warning, critical) > 0
    ensures r.1 == "yellow" <==>
      CountLevel(ps, Levels.High, warning, critical) == 0 && CountLevel(ps, Levels.Medium, warning, critical) > 0
    ensures r.1 == "green" ==> r.0 == Emoji(showEmoji) + "ok"
    ensures r.1 == "red" ==>
      r.0 == Emoji(showEmoji) + IntToString(CountLevel(ps, Levels.High, warning, critical)) + " crit"
    ensures r.1 == "yellow" ==>
      r.0 == Emoji(showEmoji) + IntToString(CountLevel(ps, Levels.Medium, warning, critical)) + " warn"
  {
    var crit := CountLevel(ps, Levels.High, warning, critical);
    var warn := CountLevel(ps, Levels.Medium, warning, critical);
    if crit > 0 then (Emoji(showEmoji) + IntToString(crit) + " crit", "red")
    else if warn > 0 then (Emoji(showEmoji) + IntToString(warn) + " warn", "yellow")
    else (Emoji(showEmoji) + "ok", "green")
  }

  /** The summary is `ok` exactly when every readable path is below both
      thresholds; unreadable paths do not count against it. */
  lemma {:induction false} AllClearIff(ps: seq<Option<real>>, showEmoji: bool, warning: int, critical: int)
    ensures MultiSummary(ps, showEmoji, warning, critical).1 == "green" <==>
      forall k :: 0 <= k < |ps| && ps[k].Some? ==>
        ps[k].value < warning as real && ps[k].value < critical as real
  {
    CountLevelZero(ps, Levels.High, warning, critical);
    CountLevelZero(ps, Levels.Medium, warning, critical);
  }

  /** An unreadable path changes nothing in the summary. */
  lemma {:induction false} UnreadableSkipped(a: seq<Option<real>>, b: seq<Option<real>>, showEmoji: bool, warning: int, critical: int)
    ensures MultiSummary(a + [None] + b, showEmoji, warning, critical) == MultiSummary(a + b, showEmoji, warning, critical)
  {
    var none: seq<Option<real>> := [None];
    CountsAppend(a, none, warning, critical);
    CountsAppend(a + none, b, warning, critical);
    CountsAppend(a, b, warning, critical);
    assert none[..0] == [];
  }

  /** The summary for a configuration: the single path's own figure, or the
      counts over several paths. */
  function SummaryOf(cfg: UsageConfig, disks: Disks): (string, string) {
    if |cfg.paths| == 1 then
      FormatDiskUsage(UsedPercent(disks, cfg.paths[0]), cfg.showEmoji, cfg.warningThreshold, cfg.criticalThreshold)
    else MultiSummary(Percents(disks, cfg.paths), cfg.showEmoji, cfg.warningThreshold, cfg.criticalThreshold)
  }

  /** `get_disk_summary()` with its configuration: the single path formatted
      on its own, or the loop counting critical and warning paths. */
  method DiskSummary(cfg: UsageConfig, disks: Disks) returns (r: (string, string))
    ensures |cfg.paths| == 1 ==>
      r == FormatDiskUsage(UsedPercent(disks, cfg.paths[0]), cfg.showEmoji, cfg.warningThreshold, cfg.criticalThreshold)
    ensures |cfg.paths| != 1 ==>
      r == MultiSummary(Percents(disks, cfg.paths), cfg.showEmoji, cfg.warningThreshold, cfg.criticalThreshold)
  {
    if |cfg.paths| == 1 {
      return FormatDiskUsage(UsedPercent(disks, cfg.paths[0]), cfg.showEmoji, cfg.warningThreshold, cfg.criticalThreshold);
    }
    var ps := Percents(disks, cfg.paths);
    var w, c := cfg.warningThreshold, cfg.criticalThreshold;
    var criticalCount, warningCount := 0, 0;
    var i := 0;
    while i < |ps|
      invariant 0 <= i <= |ps|
      invariant criticalCount == CountLevel(ps[..i], Levels.High, w, c)
      invariant warningCount == CountLevel(ps[..i], Levels.Medium, w, c)
    {
      assert ps[..i + 1][..i] == ps[..i];
      if ps[i].Some? {
        var p := ps[i].value;
        if p >= c as real {
          criticalCount := criticalCount + 1;
        } else if p >= w as real {
          warningCount := warningCount + 1;
        }
      }
      i := i + 1;
    }
    assert ps[..i] == ps;
    var emoji := Emoji(cfg.showEmoji);
    if criticalCount > 0 {
      r := (emoji + IntToString(criticalCount) + " crit", "red");
    } else if warningCount > 0 {
      r := (emoji + IntToString(warningCount) + " warn", "yellow");
    } else {
      r := (emoji + "ok", "green");
    }
  }

  // ---------------------------------------------------------------------------
  // register
  // ---------------------------------------------------------------------------

  /** The dict `register` returns: `disk`, `disk_root`, `disk_home`, `disk_all`. */
  datatype Placeholders = Placeholders(disk: string, diskRoot: string, diskHome: string, diskAll: string)

  /** What `register` returns when anything in it raises. */
  function ErrorPlaceholders(): (m: Placeholders)
    ensures Ansi.Decolorize(m.disk) == Some(("31", "💾 err"))
    ensures m.diskRoot == m.disk && m.diskHome == m.disk && m.diskAll == m.disk
  {
    var e := Ansi.Colorize("💾 err", "red");
    Ansi.DecolorizeColorize("💾 err", "red");
    assert Ansi.ColorCode("red") == "31" by {
      LowerOfLower("red");
    }
    Placeholders(e, e, e, e)
  }

  /** `colorize_text(text, color)` of a (text, colour) pair. */
  function Show(r: (string, string)): string {
    Ansi.Colorize(r.0, r.1)
  }

  /** `get_disk_config` as written: the module calls `configparser.ConfigParser()`
      without importing `configparser`, so every call raises `NameError`. */
  function DiskConfigAsWritten(section: Section): (r: Option<UsageConfig>)
    ensures r.None?
  {
    None
  }

  /** `register()` as written: the configuration never loads, so all four
      placeholders are a red `💾 err`, whatever the disks hold. */
  method RegisterAsWritten(section: Section, disks: Disks, home: string) returns (m: Placeholders)
    ensures m == ErrorPlaceholders()
  {
    match DiskConfigAsWritten(section)
    case None =>
      m := ErrorPlaceholders();
    case Some(cfg) =>
      m := RegisterWith(cfg, disks, home);
  }

  /** `register()` with `configparser` imported: the first configured path,
      `/`, the home directory and the summary, each in its colour; a
      configuration value that does not convert gives the error placeholders. */
  method Register(section: Section, disks: Disks, home: string) returns (m: Placeholders)
    ensures DiskConfig(section).None? ==> m == ErrorPlaceholders()
    ensures DiskConfig(section).Some? ==> var cfg := DiskConfig(section).value;
      && m.disk == Show(FormatDiskUsage(UsedPercent(disks, cfg.paths[0]), cfg.showEmoji, cfg.warningThreshold, cfg.criticalThreshold))
      && m.diskRoot == Show(FormatDiskUsage(UsedPercent(disks, "/"), cfg.showEmoji, cfg.warningThreshold, cfg.criticalThreshold))
      && m.diskHome == Show(FormatDiskUsage(UsedPercent(disks, home), cfg.showEmoji, cfg.warningThreshold, cfg.criticalThreshold))
      && m.diskAll == Show(SummaryOf(cfg, disks))
  {
    match DiskConfig(section)
    case None =>
      m := ErrorPlaceholders();
    case Some(cfg) =>
      m := RegisterWith(cfg, disks, home);
  }

  method RegisterWith(cfg: UsageConfig, disks: Disks, home: string) returns (m: Placeholders)
    requires |cfg.paths| >= 1
    ensures m.disk == Show(FormatDiskUsage(UsedPercent(disks, cfg.paths[0]), cfg.showEmoji, cfg.warningThreshold, cfg.criticalThreshold))
    ensures m.diskRoot == Show(FormatDiskUsage(UsedPercent(disks, "/"), cfg.showEmoji, cfg.warningThreshold, cfg.criticalThreshold))
    ensures m.diskHome == Show(FormatDiskUsage(UsedPercent(disks, home), cfg.showEmoji, cfg.warningThreshold, cfg.criticalThreshold))
    ensures m.diskAll == Show(SummaryOf(cfg, disks))
  {
    var w, c, e := cfg.warningThreshold, cfg.criticalThreshold, cfg.showEmoji;
    var main := FormatDiskUsage(UsedPercent(disks, cfg.paths[0]), e, w, c);
    var root := FormatDiskUsage(UsedPercent(disks, "/"), e, w, c);
    var homeUsage := FormatDiskUsage(UsedPercent(disks, home), e, w, c);
    var summary := DiskSummary(cfg, disks);
    m := Placeholders(Show(main), Show(root), Show(homeUsage), Show(summary));
  }

  /** With the import in place, a half-full root disk and no configuration
      show a green figure where the file as written shows the error. */
  lemma {:induction false} CorrectedShowsUsage()
    ensures FormatDiskUsage(UsedPercent(map["/" := Space(200, 100)], "/"), true, 85, 95).1 == "green"
    ensures Show(FormatDiskUsage(UsedPercent(map["/" := Space(200, 100)], "/"), true, 85, 95))
      != ErrorPlaceholders().disk
  {
    HalfFull();
    var r := FormatDiskUsage(Some(50.0), true, 85, 95);
    assert r.1 == "green";
    GreenIsNotError(r.0);
  }

  lemma {:induction false} HalfFull()
    ensures UsedPercent(map["/" := Space(200, 100)], "/") == Some(50.0)
  {
    assert 100 as real / 200 as real * 100.0 == 50.0;
  }

  lemma {:induction false} GreenIsNotError(text: string)
    ensures Ansi.Colorize(text, "green") != ErrorPlaceholders().disk
  {
    Ansi.DecolorizeColorize(text, "green");
    LowerOfLower("green");
    assert Ansi.ColorCode("green") == "32";
  }
}
