/** plugins/disk-bar.plugin.py: disk usage of `/`, the home directory and
    `/boot` drawn as coloured progress bars, plus a one-word summary.

    The `[disk-bar]` configuration section and `shutil.disk_usage` are inputs:
    a `BarConfig` record and one `DiskReading` per partition.
 */
module DiskBar {
  import opened Wrappers
  import opened PyStr
  import opened PyNum
  import Ansi
  import Rows
  import Levels
  import opened RealArith

  /** The `[disk-bar]` settings, already converted by `getint`/`getboolean`. */
  datatype BarConfig = BarConfig(
    barStyle: string,
    barLength: int,
    showPercentage: bool,
    showSize: bool,
    colorLow: string,
    colorMedium: string,
    colorHigh: string,
    thresholdMedium: int,
    thresholdHigh: int,
    filledChar: string,
    emptyChar: string,
    gradientChars: string)

  /** The fallbacks `get_disk_bar_config` uses for every missing key. */
  const DefaultConfig: BarConfig := BarConfig(
    "modern", 10, true, false, "green", "yellow", "red", 70, 90, "■", "□", "░▒▓█")

  const DefaultGradient: string := "░▒▓█"

  /** `get_disk_usage(path)`: used percentage, used GiB and total GiB, or `None`
      when the call raised. */
  datatype Usage = Usage(percent: real, usedGb: real, totalGb: real)
  type DiskReading = Option<Usage>

  /** `int(bar_length * percent / 100)`: the number of filled cells. */
  function FilledLength(percent: real, barLength: int): int {
    Trunc(barLength as real * percent / 100.0)
  }

  /** For a percentage in [0, 100] the filled length is the largest whole number
      of cells not exceeding the exact share of the bar. */
  lemma {:induction false} FilledLengthInRange(percent: real, barLength: int)
    requires 0.0 <= percent <= 100.0 && barLength >= 0
    ensures 0 <= FilledLength(percent, barLength) <= barLength
    ensures (FilledLength(percent, barLength) as real) * 100.0 <= barLength as real * percent
      < (FilledLength(percent, barLength) as real + 1.0) * 100.0
  {
    var w := barLength as real;
    assert 0.0 <= w * percent <= w * 100.0 by {
      assert w * (100.0 - percent) >= 0.0;
    }
    var x := w * percent / 100.0;
    assert 0.0 <= x <= w;
  }

  // ---------------------------------------------------------------------------
  // create_bar
  // ---------------------------------------------------------------------------

  /** The characters the gradient style draws with: the configured ones, unless
      fewer than four are configured. */
  function GradientChars(configured: string): (chars: string)
    ensures |chars| >= 4
    ensures |configured| >= 4 ==> chars == configured
  {
    if |configured| < 4 then DefaultGradient else configured
  }

  /** Whether gradient cell `i` of `barLength` is inside the used share:
      `(i + 1) / bar_length <= percent / 100`. */
  predicate InProgress(i: int, barLength: int, percent: real)
    requires barLength > 0
  {
    (i + 1) as real / barLength as real <= percent / 100.0
  }

  /** The character of gradient cell `i`: `chars[0]` outside the used share,
      otherwise `chars[min(int(progress * len(chars)), len(chars) - 1)]`. */
  function GradientCell(i: nat, barLength: int, percent: real, chars: string): (c: char)
    requires i < barLength && |chars| > 0
    ensures c in chars
    ensures !InProgress(i, barLength, percent) ==> c == chars[0]
  {
    if InProgress(i, barLength, percent) then
      var progress := (i + 1) as real / barLength as real;
      var t := Trunc(progress * |chars| as real);
      assert 0.0 < progress <= 1.0;
      assert 0.0 <= progress * |chars| as real <= |chars| as real by {
        assert (1.0 - progress) * |chars| as real >= 0.0;
      }
      var level := if t < |chars| - 1 then t else |chars| - 1;
      chars[level]
    else
      chars[0]
  }

  /** The gradient style: `bar_length` cells, cell `i` being `GradientCell(i, …)`. */
  function GradientRow(barLength: int, percent: real, configured: string): (row: string)
    ensures |row| == Rows.Clip(barLength)
  {
    var chars := GradientChars(configured);
    seq(Rows.Clip(barLength), i requires 0 <= i < Rows.Clip(barLength) => GradientCell(i, barLength, percent, chars))
  }

  /** The loop `create_bar` runs for the gradient style, appending one cell per
      position; it builds exactly the gradient row. */
  method GradientBar(barLength: int, percent: real, configured: string) returns (bar: string)
    ensures bar == GradientRow(barLength, percent, configured)
  {
    var chars := GradientChars(configured);
    bar := "";
    var i := 0;
    while i < barLength
      invariant 0 <= i <= Rows.Clip(barLength)
      invariant |bar| == i
      invariant forall k :: 0 <= k < i ==> bar[k] == GradientCell(k, barLength, percent, chars)
    {
      bar := bar + [GradientCell(i, barLength, percent, chars)];
      i := i + 1;
    }
  }

  /** The cells of the gradient bar that are inside the used share are exactly
      the first `FilledLength` ones, the cells every other style draws filled. */
  lemma {:induction false} InProgressIffFilled(i: nat, barLength: int, percent: real)
    requires 0 <= i < barLength && percent >= 0.0
    ensures InProgress(i, barLength, percent) <==> i < FilledLength(percent, barLength)
  {
    var w := barLength as real;
    var x := w * percent / 100.0;
    var n := FilledLength(percent, barLength);
    assert n == x.Floor;
    assert InProgress(i, barLength, percent) <==> (i + 1) as real <= x by {
      DivLeIff((i + 1) as real, w, percent / 100.0);
      assert w * (percent / 100.0) == x;
    }
  }

  /** At 100% (or more) the last cell uses the last gradient character. */
  lemma {:induction false} GradientFullEnd(barLength: int, percent: real, chars: string)
    requires barLength > 0 && percent >= 100.0 && |chars| > 0
    ensures GradientCell(barLength - 1, barLength, percent, chars) == chars[|chars| - 1]
  {
    assert barLength as real / barLength as real == 1.0;
  }

  /** `create_bar(percent, config)`: `"N/A"` without a reading, otherwise the bar
      in the configured style; an unknown style falls back to the modern
      characters. */
  function CreateBar(percent: Option<real>, cfg: BarConfig): (bar: string)
    ensures percent.None? ==> bar == "N/A"
    ensures percent.Some? && cfg.barStyle == "modern" ==>
      && |bar| >= 2 && bar[0] == '[' && bar[|bar| - 1] == ']'
      && bar[1..|bar| - 1] == Rows.Row(FilledLength(percent.value, cfg.barLength), cfg.barLength, cfg.filledChar, cfg.emptyChar)
    ensures percent.Some? && cfg.barStyle == "blocks" ==>
      && |bar| == Rows.Clip(FilledLength(percent.value, cfg.barLength)) + Rows.Clip(cfg.barLength - FilledLength(percent.value, cfg.barLength))
      && Rows.CellRow(bar, FilledLength(percent.value, cfg.barLength), '▰', '▱')
    ensures percent.Some? && cfg.barStyle == "gradient" ==>
      && |bar| == Rows.Clip(cfg.barLength)
      && forall i :: 0 <= i < |bar| ==> bar[i] == GradientCell(i, cfg.barLength, percent.value, GradientChars(cfg.gradientChars))
    ensures percent.Some? && cfg.barStyle !in {"modern", "blocks", "gradient"} ==>
      && |bar| >= 2 && bar[0] == '[' && bar[|bar| - 1] == ']'
      && Rows.CellRow(bar[1..|bar| - 1], FilledLength(percent.value, cfg.barLength),
           StyleCells(cfg.barStyle).0, StyleCells(cfg.barStyle).1)
      && |bar| == 2 + Rows.Clip(FilledLength(percent.value, cfg.barLength))
           + Rows.Clip(cfg.barLength - FilledLength(percent.value, cfg.barLength))
  {
    match percent
    case None => "N/A"
    case Some(p) =>
      var n := FilledLength(p, cfg.barLength);
      if cfg.barStyle == "modern" then
        var row := Rows.Row(n, cfg.barLength, cfg.filledChar, cfg.emptyChar);
        var bar := "[" + row + "]";
        assert bar[1..|bar| - 1] == row;
        bar
      else if cfg.barStyle == "blocks" then
        Rows.Row(n, cfg.barLength, "▰", "▱")
      else if cfg.barStyle == "gradient" then
        GradientRow(cfg.barLength, p, cfg.gradientChars)
      else
        var cells := StyleCells(cfg.barStyle);
        var row := Rows.Row(n, cfg.barLength, [cells.0], [cells.1]);
        var bar := "[" + row + "]";
        assert bar[1..|bar| - 1] == row;
        bar
  }

  /** The filled and empty characters of the bracketed one-character styles:
      `classic`, `simple`, and the modern fallback for unknown styles. */
  function StyleCells(style: string): (cells: (char, char))
    ensures cells.0 != cells.1
  {
    if style == "classic" then ('█', '░')
    else if style == "simple" then ('|', '.')
    else ('■', '□')
  }

  /** The filled and empty cells of a bracketed style: the configured
      characters for `modern`, otherwise the style's own pair. */
  function BracketCells(cfg: BarConfig): (cells: (char, char))
    requires cfg.barStyle == "modern" ==> |cfg.filledChar| == 1 && |cfg.emptyChar| == 1
    ensures cfg.barStyle != "modern" ==> cells.0 != cells.1
  {
    if cfg.barStyle == "modern" then (cfg.filledChar[0], cfg.emptyChar[0]) else StyleCells(cfg.barStyle)
  }

  /** For a percentage in [0, 100] every bracketed style (`modern` with
      one-character cells, `classic`, `simple` and the fallback) draws exactly
      `bar_length` cells between `[` and `]`: the first `filled_length` filled,
      the rest empty. */
  lemma {:induction false} BracketedBarShape(percent: real, cfg: BarConfig)
    requires 0.0 <= percent <= 100.0 && cfg.barLength >= 0
    requires cfg.barStyle != "blocks" && cfg.barStyle != "gradient"
    requires cfg.barStyle == "modern" ==> |cfg.filledChar| == 1 && |cfg.emptyChar| == 1
    ensures var bar := CreateBar(Some(percent), cfg);
      && |bar| == cfg.barLength + 2 && bar[0] == '[' && bar[|bar| - 1] == ']'
      && forall k :: 1 <= k <= cfg.barLength ==>
           bar[k] == (if k <= FilledLength(percent, cfg.barLength) then BracketCells(cfg).0 else BracketCells(cfg).1)
  {
    FilledLengthInRange(percent, cfg.barLength);
    var n := FilledLength(percent, cfg.barLength);
    var bar := CreateBar(Some(percent), cfg);
    var inner := bar[1..|bar| - 1];
    var cells := BracketCells(cfg);
    assert Rows.CellRow(inner, n, cells.0, cells.1);
    assert |inner| == cfg.barLength;
    forall k | 1 <= k <= cfg.barLength
      ensures bar[k] == (if k <= n then cells.0 else cells.1)
    {
      assert bar[k] == inner[k - 1];
    }
  }

  /** With the fallback settings a bar is ten `■`/`□` cells in brackets. */
  lemma {:induction false} DefaultBar(percent: real)
    requires 0.0 <= percent <= 100.0
    ensures var bar := CreateBar(Some(percent), DefaultConfig);
      && |bar| == 12
      && forall k :: 1 <= k <= 10 ==> bar[k] == (if k <= FilledLength(percent, 10) then '■' else '□')
  {
    BracketedBarShape(percent, DefaultConfig);
  }

  // ---------------------------------------------------------------------------
  // Colours, sizes and the per-disk bar
  // ---------------------------------------------------------------------------

  /** `get_usage_color(percent, config)` */
  function UsageColor(percent: real, cfg: BarConfig): (color: string)
    ensures percent >= cfg.thresholdHigh as real ==> color == cfg.colorHigh
    ensures cfg.thresholdMedium as real <= percent < cfg.thresholdHigh as real ==> color == cfg.colorMedium
    ensures percent < cfg.thresholdMedium as real && percent < cfg.thresholdHigh as real ==> color == cfg.colorLow
    ensures color == cfg.colorMedium && cfg.colorMedium != cfg.colorHigh && cfg.colorMedium != cfg.colorLow
      ==> cfg.thresholdMedium as real <= percent < cfg.thresholdHigh as real
  {
    match Levels.Classify(percent, cfg.thresholdMedium as real, cfg.thresholdHigh as real)
    case High => cfg.colorHigh
    case Medium => cfg.colorMedium
    case Low => cfg.colorLow
  }

  /** `format_size(gb)`: whole megabytes below 1 GiB, one decimal below 10 GiB,
      whole gigabytes above. */
  function FormatSize(gb: Option<real>): (r: string)
    ensures gb.None? <==> r == "N/A"
    ensures gb.Some? ==> (EndsWith(r, "MB") <==> gb.value < 1.0)
    ensures gb.Some? && 0.0 <= gb.value < 1.0 ==>
      r == Fixed0(gb.value * 1024.0) + "MB" && DigitsValue(Fixed0(gb.value * 1024.0)) == RoundHalfEven(gb.value * 1024.0)
    ensures gb.Some? && 1.0 <= gb.value < 10.0 ==>
      var t := Fixed1(gb.value);
      && r == t + "GB"
      && DigitsValue(t[..|t| - 2]) * 10 + DigitValue(t[|t| - 1]) == RoundHalfEven(gb.value * 10.0)
    ensures gb.Some? && gb.value >= 10.0 ==>
      r == Fixed0(gb.value) + "GB" && DigitsValue(Fixed0(gb.value)) == RoundHalfEven(gb.value)
  {
    if gb.None? then "N/A" else SizeText(gb.value)
  }

  /** The text for a known size of `g` GiB, chosen by magnitude. */
  function SizeText(g: real): (r: string)
    ensures |r| >= 3 && r[|r| - 1] == 'B'
    ensures EndsWith(r, "MB") <==> g < 1.0
    ensures 0.0 <= g < 1.0 ==>
      r == Fixed0(g * 1024.0) + "MB" && DigitsValue(Fixed0(g * 1024.0)) == RoundHalfEven(g * 1024.0)
    ensures 1.0 <= g < 10.0 ==>
      var t := Fixed1(g);
      && r == t + "GB"
      && DigitsValue(t[..|t| - 2]) * 10 + DigitValue(t[|t| - 1]) == RoundHalfEven(g * 10.0)
    ensures g >= 10.0 ==>
      r == Fixed0(g) + "GB" && DigitsValue(Fixed0(g)) == RoundHalfEven(g)
  {
    if g < 1.0 then Megabytes(g)
    else if g < 10.0 then TenthGigabytes(g)
    else WholeGigabytes(g)
  }

  /** `f"{gb * 1024:.0f}MB"` */
  function Megabytes(g: real): (r: string)
    ensures EndsWith(r, "MB") && r == Fixed0(g * 1024.0) + "MB"
    ensures 0.0 <= g ==> DigitsValue(Fixed0(g * 1024.0)) == RoundHalfEven(g * 1024.0)
  {
    UnitSuffix(Fixed0(g * 1024.0), "MB", "GB");
    assert 0.0 <= g ==> 0.0 <= g * 1024.0;
    Fixed0(g * 1024.0) + "MB"
  }

  /** `f"{gb:.1f}GB"` */
  function TenthGigabytes(g: real): (r: string)
    ensures !EndsWith(r, "MB") && r == Fixed1(g) + "GB"
  {
    UnitSuffix(Fixed1(g), "GB", "MB");
    Fixed1(g) + "GB"
  }

  /** `f"{gb:.0f}GB"` */
  function WholeGigabytes(g: real): (r: string)
    ensures !EndsWith(r, "MB") && r == Fixed0(g) + "GB"
  {
    UnitSuffix(Fixed0(g), "GB", "MB");
    Fixed0(g) + "GB"
  }

  /** A figure followed by a two-letter unit ends in that unit and not in a
      unit with a different first letter. */
  lemma {:induction false} UnitSuffix(t: string, unit: string, other: string)
    requires |unit| == 2 && |other| == 2 && unit[0] != other[0]
    ensures EndsWith(t + unit, unit) && !EndsWith(t + unit, other)
  {
    var s := t + unit;
    assert s[|s| - 2..] == unit;
  }

  /** The pieces `create_disk_bar` joins with spaces, in order: an optional
      `label:`, the bar, an optional `N%`, an optional `(used/total)`. */
  function DiskBarParts(caption: string, bar: string, u: Usage, cfg: BarConfig): (parts: seq<string>)
    ensures |parts| == 1 + (if caption != "" then 1 else 0) + (if cfg.showPercentage then 1 else 0)
      + (if cfg.showSize then 1 else 0)
    ensures caption != "" ==> parts[0] == caption + ":" && parts[1] == bar
    ensures caption == "" ==> parts[0] == bar
    ensures cfg.showPercentage ==> parts[if caption != "" then 2 else 1] == Fixed0(u.percent) + "%"
    ensures cfg.showSize ==> parts[|parts| - 1] == "(" + FormatSize(Some(u.usedGb)) + "/" + FormatSize(Some(u.totalGb)) + ")"
  {
    (if caption != "" then [caption + ":"] else [])
    + [bar]
    + (if cfg.showPercentage then [Fixed0(u.percent) + "%"] else [])
    + (if cfg.showSize then ["(" + FormatSize(Some(u.usedGb)) + "/" + FormatSize(Some(u.totalGb)) + ")"] else [])
  }

  /** `create_disk_bar(path, label)`: `"N/A"` (uncoloured) for an unreadable
      disk, otherwise the joined parts in the usage colour. An empty label is
      falsy in Python and is left out. */
  function CreateDiskBar(reading: DiskReading, caption: string, cfg: BarConfig): (r: string)
    ensures reading.None? ==> r == "N/A"
    ensures reading.Some? ==>
      Ansi.Decolorize(r) == Some((Ansi.ColorCode(UsageColor(reading.value.percent, cfg)),
        Join(DiskBarParts(caption, CreateBar(Some(reading.value.percent), cfg), reading.value, cfg), " ")))
  {
    match reading
    case None => "N/A"
    case Some(u) =>
      var bar := CreateBar(Some(u.percent), cfg);
      var color := UsageColor(u.percent, cfg);
      var text := Join(DiskBarParts(caption, bar, u, cfg), " ");
      Ansi.DecolorizeColorize(text, color);
      Ansi.Colorize(text, color)
  }

  // ---------------------------------------------------------------------------
  // create_summary_bar
  // ---------------------------------------------------------------------------

  /** How many readings are present. */
  function Readable(readings: seq<DiskReading>): nat {
    if |readings| == 0 then 0
    else Readable(readings[..|readings| - 1]) + (if readings[|readings| - 1].Some? then 1 else 0)
  }

  /** The sum of the present percentages. */
  function TotalPercent(readings: seq<DiskReading>): real {
    if |readings| == 0 then 0.0
    else
      var last := readings[|readings| - 1];
      TotalPercent(readings[..|readings| - 1]) + (if last.Some? then last.value.percent else 0.0)
  }

  /** How many present percentages are at or above `high`. */
  function Critical(readings: seq<DiskReading>, high: real): nat {
    if |readings| == 0 then 0
    else
      var last := readings[|readings| - 1];
      Critical(readings[..|readings| - 1], high) + (if last.Some? && last.value.percent >= high then 1 else 0)
  }

  /** The summary text and colour for given counts. */
  function SummaryOf(readings: seq<DiskReading>, cfg: BarConfig): (r: (string, string))
    ensures Readable(readings) == 0 ==> r == ("No disks", "red")
    ensures Readable(readings) > 0 && Critical(readings, cfg.thresholdHigh as real) > 0 ==>
      r == ("🚨 " + IntToString(Critical(readings, cfg.thresholdHigh as real)) + " crit", cfg.colorHigh)
    ensures Readable(readings) > 0 && Critical(readings, cfg.thresholdHigh as real) == 0 ==>
      (r == ("⚠️  high", cfg.colorMedium) <==>
        TotalPercent(readings) / Readable(readings) as real >= cfg.thresholdMedium as real)
    ensures (Readable(readings) > 0 && Critical(readings, cfg.thresholdHigh as real) == 0
      && TotalPercent(readings) / Readable(readings) as real < cfg.thresholdMedium as real) ==>
      r == ("✓ ok", cfg.colorLow)
  {
    var valid := Readable(readings);
    var crit := Critical(readings, cfg.thresholdHigh as real);
    if valid == 0 then ("No disks", "red")
    else if crit > 0 then ("🚨 " + IntToString(crit) + " crit", cfg.colorHigh)
    else if TotalPercent(readings) / valid as real >= cfg.thresholdMedium as real then ("⚠️  high", cfg.colorMedium)
    else ("✓ ok", cfg.colorLow)
  }

  /** `create_summary_bar()` over the readings of its partitions: counts the
      readable ones, their total and the critical ones in one pass. */
  method SummaryBar(readings: seq<DiskReading>, cfg: BarConfig) returns (r: string)
    ensures r == Ansi.Colorize(SummaryOf(readings, cfg).0, SummaryOf(readings, cfg).1)
  {
    var critical := 0;
    var total := 0.0;
    var valid := 0;
    var i := 0;
    while i < |readings|
      invariant 0 <= i <= |readings|
      invariant valid == Readable(readings[..i])
      invariant total == TotalPercent(readings[..i])
      invariant critical == Critical(readings[..i], cfg.thresholdHigh as real)
    {
      assert readings[..i + 1][..i] == readings[..i];
      if readings[i].Some? {
        var p := readings[i].value.percent;
        valid := valid + 1;
        total := total + p;
        if p >= cfg.thresholdHigh as real {
          critical := critical + 1;
        }
      }
      i := i + 1;
    }
    assert readings[..i] == readings;
    if valid == 0 {
      return Ansi.Colorize("No disks", "red");
    }
    var avg := total / valid as real;
    if critical > 0 {
      r := Ansi.Colorize("🚨 " + IntToString(critical) + " crit", cfg.colorHigh);
    } else if avg >= cfg.thresholdMedium as real {
      r := Ansi.Colorize("⚠️  high", cfg.colorMedium);
    } else {
      r := Ansi.Colorize("✓ ok", cfg.colorLow);
    }
  }

  /** The three counts add up over concatenated reading lists. */
  lemma {:induction false} CountsAppend(a: seq<DiskReading>, b: seq<DiskReading>, high: real)
    ensures Readable(a + b) == Readable(a) + Readable(b)
    ensures TotalPercent(a + b) == TotalPercent(a) + TotalPercent(b)
    ensures Critical(a + b, high) == Critical(a, high) + Critical(b, high)
    decreases |b|
  {
    if |b| > 0 {
      var b' := b[..|b| - 1];
      assert (a + b)[..|a + b| - 1] == a + b';
      CountsAppend(a, b', high);
    } else {
      assert a + b == a;
    }
  }

  /** An unreadable partition changes nothing: the average and the counts are
      taken over the readable partitions only. */
  lemma {:induction false} UnreadableIgnored(a: seq<DiskReading>, b: seq<DiskReading>, cfg: BarConfig)
    ensures SummaryOf(a + [None] + b, cfg) == SummaryOf(a + b, cfg)
  {
    var high := cfg.thresholdHigh as real;
    CountsAppend(a, [None], high);
    CountsAppend(a + [None], b, high);
    CountsAppend(a, b, high);
    var none: seq<DiskReading> := [None];
    assert Readable(none) == 0 && TotalPercent(none) == 0.0 && Critical(none, high) == 0 by {
      assert none[..0] == [];
    }
  }

  /** One critical partition decides the summary, however low the others are. */
  lemma {:induction false} CriticalWins(a: seq<DiskReading>, u: Usage, b: seq<DiskReading>, cfg: BarConfig)
    requires u.percent >= cfg.thresholdHigh as real
    ensures SummaryOf(a + [Some(u)] + b, cfg).1 == cfg.colorHigh
  {
    var high := cfg.thresholdHigh as real;
    CountsAppend(a, [Some(u)], high);
    CountsAppend(a + [Some(u)], b, high);
    var one: seq<DiskReading> := [Some(u)];
    assert Readable(one) == 1 && Critical(one, high) == 1 by {
      assert one[..0] == [];
    }
  }

  // ---------------------------------------------------------------------------
  // register
  // ---------------------------------------------------------------------------

  /** The dict `register` returns: `disk_bar`, `disk_bar_root`,
      `disk_bar_home`, `disk_bar_boot` and `disk_bar_all`. */
  datatype Placeholders = Placeholders(
    diskBar: string,
    diskBarRoot: string,
    diskBarHome: string,
    diskBarBoot: string,
    diskBarAll: string)

  /** `register()`. `cfg` is `None` when reading the configuration raised (a
      `getint`/`getboolean` value that does not parse); then every placeholder
      is a red `💾 error`. One reading per partition stands for the moment the
      plugin ran. */
  method Register(cfg: Option<BarConfig>, root: DiskReading, home: DiskReading, boot: DiskReading)
    returns (m: Placeholders)
    ensures cfg.None? ==> var e := Ansi.Colorize("💾 error", "red");
      m == Placeholders(e, e, e, e, e)
    ensures cfg.Some? ==>
      && m.diskBar == m.diskBarRoot == CreateDiskBar(root, "", cfg.value)
      && m.diskBarHome == CreateDiskBar(home, "", cfg.value)
      && m.diskBarBoot == CreateDiskBar(boot, "", cfg.value)
      && m.diskBarAll == Ansi.Colorize(SummaryOf([root, home, boot], cfg.value).0, SummaryOf([root, home, boot], cfg.value).1)
  {
    match cfg
    case None =>
      var e := Ansi.Colorize("💾 error", "red");
      m := Placeholders(e, e, e, e, e);
    case Some(c) =>
      var all := SummaryBar([root, home, boot], c);
      var rootBar := CreateDiskBar(root, "", c);
      var homeBar := CreateDiskBar(home, "", c);
      var bootBar := CreateDiskBar(boot, "", c);
      m := Placeholders(rootBar, rootBar, homeBar, bootBar, all);
  }
}
