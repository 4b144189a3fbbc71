/** The system-info plugin: CPU load and temperature, memory, disk, swap, load
    average, operating system and kernel, each read from a file under `/proc`,
    `/sys` or `/etc` or from the output of `df` and `uname`, and turned into
    one placeholder line apiece.

    What the files hold and what the commands print arrive as parameters: a
    file that cannot be opened is `None` (or `Unreadable`), a file whose
    existence is checked first can also be `Absent`. A file read line by line
    arrives as its lines, each with the newline `readlines` keeps.
 */
module SystemInfo {
  import opened Wrappers
  import opened PyStr
  import opened PyNum
  import opened PyDict

  /** A file whose existence the plugin tests before opening it. */
  datatype File<T> = Absent | Unreadable | Contents(data: T)

  // ---------------------------------------------------------------------------
  // CPU usage from /proc/stat
  // ---------------------------------------------------------------------------

  /** The index of the first line starting with `cpu `, the summary line. */
  function CpuLine(lines: seq<string>): (r: Option<nat>)
    ensures r.None? <==> forall i :: 0 <= i < |lines| ==> !StartsWith(lines[i], "cpu ")
    ensures r.Some? ==> r.value < |lines| && StartsWith(lines[r.value], "cpu ")
    ensures r.Some? ==> forall i :: 0 <= i < r.value ==> !StartsWith(lines[i], "cpu ")
    decreases |lines|
  {
    if |lines| == 0 then None
    else if StartsWith(lines[0], "cpu ") then Some(0)
    else match CpuLine(lines[1..])
      case None => None
      case Some(i) => Some(i + 1)
  }

  /** `int(x)` of every word, or `None` when one of them is not a number. */
  function ParseAll(words: seq<string>): (r: Option<seq<int>>)
    ensures r.Some? <==> forall k :: 0 <= k < |words| ==> ParseInt(words[k]).Some?
    ensures r.Some? ==> |r.value| == |words|
    ensures r.Some? ==> forall k :: 0 <= k < |words| ==> ParseInt(words[k]) == Some(r.value[k])
  {
    var parsed := seq(|words|, k requires 0 <= k < |words| => ParseInt(words[k]));
    assert forall k :: 0 <= k < |words| ==> parsed[k] == ParseInt(words[k]);
    AllSome(parsed)
  }

  function Sum(xs: seq<int>): int
    decreases |xs|
  {
    if |xs| == 0 then 0 else xs[0] + Sum(xs[1..])
  }

  /** With no negative counter, one counter is at most the total. */
  lemma {:induction false} SumBounds(xs: seq<int>, k: nat)
    requires k < |xs|
    requires forall i :: 0 <= i < |xs| ==> xs[i] >= 0
    ensures 0 <= xs[k] <= Sum(xs)
    decreases |xs|
  {
    SumNonNegative(xs[1..]);
    if k > 0 {
      SumBounds(xs[1..], k - 1);
    }
  }

  lemma {:induction false} SumNonNegative(xs: seq<int>)
    requires forall i :: 0 <= i < |xs| ==> xs[i] >= 0
    ensures Sum(xs) >= 0
    decreases |xs|
  {
    if |xs| > 0 {
      SumNonNegative(xs[1..]);
    }
  }

  /** `100 - (idle * 100 / total)`: the share of time since boot not spent idle,
      the fourth counter being idle time. */
  function CpuLoad(counters: seq<int>): (load: real)
    requires |counters| >= 4 && Sum(counters) != 0
    ensures (forall i :: 0 <= i < |counters| ==> counters[i] >= 0) ==> 0.0 <= load <= 100.0
  {
    LoadBounds(counters);
    100.0 - (counters[3] * 100) as real / Sum(counters) as real
  }

  lemma {:induction false} LoadBounds(counters: seq<int>)
    requires |counters| >= 4 && Sum(counters) != 0
    ensures (forall i :: 0 <= i < |counters| ==> counters[i] >= 0) ==>
      0.0 <= (counters[3] * 100) as real / Sum(counters) as real <= 100.0
  {
    if forall i :: 0 <= i < |counters| ==> counters[i] >= 0 {
      SumBounds(counters, 3);
      IdleShare(counters[3], Sum(counters));
    }
  }

  lemma {:induction false} IdleShare(idle: int, total: int)
    requires 0 <= idle <= total && total > 0
    ensures 0.0 <= (idle * 100) as real / total as real <= 100.0
  {
    assert (idle * 100) as real <= (total * 100) as real;
    assert (total * 100) as real / total as real == 100.0;
  }

  /** The figure for one summary line split into words: the counters after the
      label, every one of which must be a number, with at least four of them
      and a nonzero total; anything else is the `"unknown"` of the exception
      handler. */
  function CpuFigure(values: seq<string>): (r: string)
    ensures r == "unknown" || EndsWith(r, "%")
  {
    if |values| < 5 then "unknown"
    else match ParseAll(values[1..])
      case None => "unknown"
      case Some(counters) =>
        if Sum(counters) == 0 then "unknown" else Fixed1(CpuLoad(counters)) + "%"
  }

  /** `get_cpu_usage()`: `Some("unknown")` when `/proc/stat` cannot be read,
      `None` (Python's `None`, which the plugin prints as `None`) when no line
      starts with `cpu `. */
  function CpuUsage(stat: Option<seq<string>>): (r: Option<string>)
    ensures stat.None? ==> r == Some("unknown")
    ensures r.None? <==> stat.Some? && forall i :: 0 <= i < |stat.value| ==> !StartsWith(stat.value[i], "cpu ")
  {
    match stat
    case None => Some("unknown")
    case Some(lines) =>
      match CpuLine(lines)
      case None => None
      case Some(i) => Some(CpuFigure(SplitWs(lines[i])))
  }

  /** How an f-string shows the result. */
  function Shown(r: Option<string>): string {
    r.GetOr("None")
  }

  /** `str(n)` of every counter. */
  function Decimal(xs: seq<nat>): (r: seq<string>)
    ensures |r| == |xs|
    ensures forall k :: 0 <= k < |xs| ==> r[k] == NatToString(xs[k])
  {
    seq(|xs|, k requires 0 <= k < |xs| => NatToString(xs[k]))
  }

  /** A summary line as the kernel writes it. */
  function StatLine(counters: seq<nat>): string {
    Join(["cpu"] + Decimal(counters), " ") + "\n"
  }

  /** Counters the kernel wrote come back as the load they denote, which lies
      between 0 and 100; lines before the summary line that do not start with
      `cpu ` are skipped. */
  lemma {:induction false} CpuUsageOfCounters(before: seq<string>, counters: seq<nat>, after: seq<string>)
    requires forall i :: 0 <= i < |before| ==> !StartsWith(before[i], "cpu ")
    requires |counters| >= 4 && Sum(counters) > 0
    ensures CpuUsage(Some(before + [StatLine(counters)] + after))
         == Some(Fixed1(CpuLoad(counters)) + "%")
    ensures 0.0 <= CpuLoad(counters) <= 100.0
  {
    var line := StatLine(counters);
    var lines := before + [line] + after;
    StatLineStarts(counters);
    CpuLineAfter(before, line, after);
    StatLineWords(counters);
    ParseAllDecimal(counters);
    var values := SplitWs(line);
    assert values[1..] == Decimal(counters);
  }

  lemma {:induction false} StatLineStarts(counters: seq<nat>)
    requires |counters| >= 1
    ensures StartsWith(StatLine(counters), "cpu ")
  {
    var parts := ["cpu"] + Decimal(counters);
    assert parts[1..] == Decimal(counters);
    assert Join(parts, " ") == "cpu" + " " + Join(Decimal(counters), " ");
  }

  lemma {:induction false} StatLineWords(counters: seq<nat>)
    ensures SplitWs(StatLine(counters)) == ["cpu"] + Decimal(counters)
  {
    var parts := ["cpu"] + Decimal(counters);
    forall i | 0 <= i < |parts|
      ensures |parts[i]| > 0 && NoSpace(parts[i])
    {
      if i > 0 {
        DigitsNoSpace(parts[i]);
      }
    }
    SplitWsJoinThen(parts, "\n");
  }

  lemma {:induction false} DigitsNoSpace(s: string)
    requires AllDigits(s)
    ensures NoSpace(s)
  {
  }

  lemma {:induction false} ParseAllDecimal(xs: seq<nat>)
    ensures ParseAll(Decimal(xs)) == Some(xs)
  {
    var words := Decimal(xs);
    forall k | 0 <= k < |xs|
      ensures ParseInt(words[k]) == Some(xs[k] as int)
    {
      ParseIntOfString(xs[k]);
      assert words[k] == IntToString(xs[k]);
    }
    var r := ParseAll(words).value;
    assert forall k :: 0 <= k < |xs| ==> r[k] == xs[k];
    assert r == xs;
  }

  lemma {:induction false} CpuLineAfter(before: seq<string>, line: string, after: seq<string>)
    requires forall i :: 0 <= i < |before| ==> !StartsWith(before[i], "cpu ")
    requires StartsWith(line, "cpu ")
    ensures CpuLine(before + [line] + after) == Some(|before|)
  {
    var lines := before + [line] + after;
    assert lines[|before|] == line;
  }

  // ---------------------------------------------------------------------------
  // CPU temperature from /sys
  // ---------------------------------------------------------------------------

  /** The sensor files tried, in order. */
  const SensorPaths: seq<string> := [
    "/sys/class/thermal/thermal_zone0/temp",
    "/sys/class/hwmon/hwmon0/temp1_input",
    "/sys/class/hwmon/hwmon1/temp1_input"
  ]

  const Degrees: string := "\U{00B0}C"

  /** `get_cpu_temperature()`, given one file per entry of `SensorPaths`: the
      first sensor file that exists decides, holding millidegrees Celsius; a
      failure to read or parse it is `"unknown"` without trying the next. */
  function CpuTemperature(sensors: seq<File<string>>): (r: string)
    ensures r == "unknown" || EndsWith(r, Degrees)
    ensures (forall k :: 0 <= k < |sensors| ==> sensors[k].Absent?) ==> r == "unknown"
    decreases |sensors|
  {
    if |sensors| == 0 then "unknown"
    else match sensors[0]
      case Absent => CpuTemperature(sensors[1..])
      case Unreadable => "unknown"
      case Contents(text) => SensorText(text)
  }

  /** What one sensor file shows: its millidegrees as degrees to one decimal. */
  function SensorText(text: string): (r: string)
    ensures r == "unknown" || EndsWith(r, Degrees)
  {
    match ParseInt(Strip(text))
    case None => "unknown"
    case Some(milli) => Celsius(milli)
  }

  /** `f"{temp / 1000:.1f}°C"` */
  function Celsius(milli: int): (r: string)
    ensures EndsWith(r, Degrees)
  {
    Fixed1(milli as real / 1000.0) + Degrees
  }

  /** The first sensor file that exists decides. */
  lemma {:induction false} FirstSensorDecides(missing: seq<File<string>>, text: string, rest: seq<File<string>>)
    requires forall k :: 0 <= k < |missing| ==> missing[k].Absent?
    ensures CpuTemperature(missing + [Contents(text)] + rest) == SensorText(text)
    decreases |missing|
  {
    var sensors := missing + [Contents(text)] + rest;
    if |missing| == 0 {
      assert sensors[0] == Contents(text);
    } else {
      assert sensors[0] == missing[0];
      assert sensors[1..] == missing[1..] + [Contents(text)] + rest;
      FirstSensorDecides(missing[1..], text, rest);
    }
  }

  /** A sensor holding `str(n)` and a newline, after any number of missing
      ones, shows `n / 1000` degrees to one decimal. */
  lemma {:induction false} TemperatureOfSensor(missing: seq<File<string>>, n: int, rest: seq<File<string>>)
    requires forall k :: 0 <= k < |missing| ==> missing[k].Absent?
    ensures CpuTemperature(missing + [Contents(IntToString(n) + "\n")] + rest)
         == Fixed1(n as real / 1000.0) + Degrees
  {
    var text := IntToString(n) + "\n";
    FirstSensorDecides(missing, text, rest);
    ReadsNumber(n);
    SensorOfNumber(text, n);
  }

  lemma {:induction false} SensorOfNumber(text: string, n: int)
    requires ParseInt(Strip(text)) == Some(n)
    ensures SensorText(text) == Celsius(n)
  {
  }

  /** `int(f.read().strip())` of a file holding `str(n)` and a newline. */
  lemma {:induction false} ReadsNumber(n: int)
    ensures ParseInt(Strip(IntToString(n) + "\n")) == Some(n)
  {
    var d := IntToString(n);
    assert !IsSpace(d[0]) && !IsSpace(d[|d| - 1]) by {
      if n < 0 {
        assert d[|d| - 1] == d[1..][|d| - 2];
      }
    }
    StripPadded("", d, "\n");
    assert "" + d + "\n" == d + "\n";
    ParseIntOfString(n);
  }

  // ---------------------------------------------------------------------------
  // Memory and swap from /proc/meminfo
  // ---------------------------------------------------------------------------

  /** The first space-separated token of the stripped value: `value.strip().split(' ')[0]`. */
  function FirstToken(value: string): string {
    Split(Strip(value), ' ')[0]
  }

  /** One line `Key:   value kB`: the stripped key and the first token of the
      value; `None` for a line without a colon, whose unpacking raises. */
  function MemEntry(line: string): (r: Option<(string, string)>)
    ensures r.None? <==> ':' !in line
  {
    match SplitOnce(line, ':')
    case None => None
    case Some((key, value)) => Some((Strip(key), FirstToken(value)))
  }

  /** What each line yields. */
  function MemEntries(lines: seq<string>): (r: seq<Option<Pair>>)
    ensures |r| == |lines| && forall i :: 0 <= i < |lines| ==> r[i] == MemEntry(lines[i])
  {
    seq(|lines|, i requires 0 <= i < |lines| => MemEntry(lines[i]))
  }

  /** The dictionary the loop builds: a later line for the same key overwrites
      an earlier one; any line without a colon makes the whole reading fail. */
  function MemTable(lines: seq<string>): Option<map<string, string>> {
    match AllSome(MemEntries(lines))
    case None => None
    case Some(pairs) => Some(Dict(pairs))
  }

  /** Reading fails exactly when some line has no colon. */
  lemma {:induction false} MemTableFails(lines: seq<string>)
    ensures MemTable(lines).None? <==> exists i :: 0 <= i < |lines| && ':' !in lines[i]
  {
    var entries := MemEntries(lines);
    assert MemTable(lines).None? <==> AllSome(entries).None?;
    if exists i :: 0 <= i < |lines| && ':' !in lines[i] {
      var i :| 0 <= i < |lines| && ':' !in lines[i];
      assert entries[i].None?;
    }
    if AllSome(entries).None? {
      var i :| 0 <= i < |entries| && entries[i].None?;
      assert ':' !in lines[i];
    }
  }

  /** A meminfo line as the kernel writes it, with any padding after the colon. */
  function MemLine(key: string, pad: string, value: nat): string {
    key + ":" + pad + NatToString(value) + " kB\n"
  }

  /** A kernel-written line reads back as its key and its number. */
  lemma {:induction false} MemEntryOfLine(key: string, pad: string, value: nat)
    requires Field(key, ':')
    requires forall k :: 0 <= k < |pad| ==> IsSpace(pad[k])
    ensures MemEntry(MemLine(key, pad, value)) == Some((key, NatToString(value)))
  {
    var digits := NatToString(value);
    var rest := pad + digits + " kB\n";
    assert MemLine(key, pad, value) == key + [':'] + rest;
    SplitOnceJoin(key, rest, ':');
    StripNoop(key);
    FirstTokenOfValue(pad, digits);
  }

  lemma {:induction false} FirstTokenOfValue(pad: string, digits: string)
    requires forall k :: 0 <= k < |pad| ==> IsSpace(pad[k])
    requires |digits| > 0 && AllDigits(digits)
    ensures FirstToken(pad + digits + " kB\n") == digits
  {
    var text := digits + " kB";
    assert pad + digits + " kB\n" == pad + text + "\n";
    StripPaddedUnit(pad, digits);
    UnitSplit(digits);
  }

  lemma {:induction false} StripPaddedUnit(pad: string, digits: string)
    requires forall k :: 0 <= k < |pad| ==> IsSpace(pad[k])
    requires |digits| > 0 && AllDigits(digits)
    ensures Strip(pad + (digits + " kB") + "\n") == digits + " kB"
  {
    var text := digits + " kB";
    assert text[0] == digits[0];
    assert text[|text| - 1] == 'B';
    StripPadded(pad, text, "\n");
  }

  lemma {:induction false} UnitSplit(digits: string)
    requires AllDigits(digits)
    ensures Split(digits + " kB", ' ')[0] == digits
  {
    assert digits + " kB" == digits + [' '] + "kB";
    SplitAppend(digits, "kB", ' ');
    SplitWhole(digits, ' ');
  }

  /** A meminfo file listed as key/value pairs, one line each. */
  function MemLines(entries: seq<(string, nat)>): (r: seq<string>)
    ensures |r| == |entries|
  {
    seq(|entries|, i requires 0 <= i < |entries| => MemLine(entries[i].0, " ", entries[i].1))
  }

  /** The pairs a meminfo file lists, with their numbers as text. */
  function MemPairs(entries: seq<(string, nat)>): (r: seq<Pair>)
    ensures |r| == |entries|
    ensures forall i :: 0 <= i < |entries| ==> r[i] == (entries[i].0, NatToString(entries[i].1))
  {
    seq(|entries|, i requires 0 <= i < |entries| => (entries[i].0, NatToString(entries[i].1)))
  }

  /** Reading a kernel-written meminfo file gives back the dictionary of its
      pairs. */
  lemma {:induction false} MemTableOfLines(entries: seq<(string, nat)>)
    requires forall i :: 0 <= i < |entries| ==> Field(entries[i].0, ':')
    ensures MemTable(MemLines(entries)) == Some(Dict(MemPairs(entries)))
  {
    var lines := MemLines(entries);
    var pairs := MemPairs(entries);
    forall i | 0 <= i < |entries|
      ensures MemEntries(lines)[i] == Some(pairs[i])
    {
      MemEntryOfLine(entries[i].0, " ", entries[i].1);
    }
    AllSomePresent(MemEntries(lines), pairs);
  }

  /** A usage figure in whole MiB and percent. */
  datatype Usage = Usage(usedMb: int, totalMb: int, percent: real)

  /** What the exception handlers return. */
  const NoUsage: Usage := Usage(0, 0, 0.0)

  /** The usage of `total` KiB of which `free` are free: both sizes in whole
      MiB rounded down, and the used share in percent. */
  function UsageOf(total: int, free: int): (u: Usage)
    requires total != 0
    ensures u.totalMb * 1024 <= total < u.totalMb * 1024 + 1024
    ensures u.usedMb * 1024 <= total - free < u.usedMb * 1024 + 1024
    ensures u.percent * total as real == (total - free) as real * 100.0
  {
    var used := total - free;
    Usage(used / 1024, total / 1024, used as real / total as real * 100.0)
  }

  /** `meminfo.get('MemAvailable', meminfo.get('MemFree', '0'))` */
  function Available(table: map<string, string>): string {
    if "MemAvailable" in table then table["MemAvailable"]
    else if "MemFree" in table then table["MemFree"]
    else "0"
  }

  /** The memory figure of a parsed meminfo: `None` when `MemTotal` is missing,
      a value is not a number or the total is zero. */
  function MemoryOfTable(table: map<string, string>): (r: Option<Usage>)
    ensures "MemTotal" !in table ==> r.None?
  {
    if "MemTotal" !in table then None
    else match (ParseInt(table["MemTotal"]), ParseInt(Available(table)))
      case (Some(total), Some(available)) =>
        if total == 0 then None else Some(UsageOf(total, available))
      case _ => None
  }

  /** `get_memory_usage()` */
  function MemoryUsage(meminfo: Option<seq<string>>): Usage {
    match meminfo
    case None => NoUsage
    case Some(lines) =>
      match MemTable(lines)
      case None => NoUsage
      case Some(table) => MemoryOfTable(table).GetOr(NoUsage)
  }

  /** A kernel-written meminfo reports the usage of its total and available
      figures. */
  lemma {:induction false} MemoryOfFile(entries: seq<(string, nat)>, total: nat, available: nat)
    requires forall i :: 0 <= i < |entries| ==> Field(entries[i].0, ':')
    requires total > 0
    requires var table := Dict(MemPairs(entries));
      "MemTotal" in table && table["MemTotal"] == NatToString(total) && Available(table) == NatToString(available)
    ensures MemoryUsage(Some(MemLines(entries))) == UsageOf(total, available)
  {
    var table := Dict(MemPairs(entries));
    MemTableOfLines(entries);
    MemoryOfLookups(table, total, available);
    MemoryFromTable(MemLines(entries), table);
  }

  lemma {:induction false} MemoryFromTable(lines: seq<string>, table: map<string, string>)
    requires MemTable(lines) == Some(table)
    ensures MemoryUsage(Some(lines)) == MemoryOfTable(table).GetOr(NoUsage)
  {
  }

  /** `MemAvailable` is preferred to `MemFree`, whatever their order. */
  lemma {:induction false} AvailablePreferred(total: nat, free: nat, available: nat)
    requires total > 0
    ensures MemoryOfTable(Dict([("MemTotal", NatToString(total)), ("MemFree", NatToString(free)), ("MemAvailable", NatToString(available))]))
         == Some(UsageOf(total, available))
  {
    var a, b, c := ("MemTotal", NatToString(total)), ("MemFree", NatToString(free)), ("MemAvailable", NatToString(available));
    KeysDiffer();
    DictThree(a, b, c);
    MemoryOfLookups(Dict([a, b, c]), total, available);
  }

  /** An older kernel without `MemAvailable` is measured by its free figure. */
  lemma {:induction false} FreeWithoutAvailable(total: nat, free: nat)
    requires total > 0
    ensures MemoryOfTable(Dict([("MemTotal", NatToString(total)), ("MemFree", NatToString(free))]))
         == Some(UsageOf(total, free))
  {
    var a, b := ("MemTotal", NatToString(total)), ("MemFree", NatToString(free));
    KeysDiffer();
    DictTwo(a, b);
    MemoryOfLookups(Dict([a, b]), total, free);
  }


  /** A table whose total and available figures are numbers yields their usage. */
  lemma {:induction false} MemoryOfLookups(table: map<string, string>, total: nat, available: nat)
    requires total > 0
    requires "MemTotal" in table && table["MemTotal"] == NatToString(total)
    requires Available(table) == NatToString(available)
    ensures MemoryOfTable(table) == Some(UsageOf(total, available))
  {
    ParseIntOfString(total);
    ParseIntOfString(available);
  }


  lemma {:induction false} KeysDiffer()
    ensures "MemTotal" != "MemFree" && "MemTotal" != "MemAvailable" && "MemFree" != "MemAvailable"
    ensures "SwapTotal" != "SwapFree"
  {
    assert "MemTotal"[3] == 'T' && "MemFree"[3] == 'F' && "MemAvailable"[3] == 'A';
    assert "SwapTotal"[4] == 'T' && "SwapFree"[4] == 'F';
  }


  /** `int(meminfo.get(key, fallback))` */
  function IntEntry(table: map<string, string>, key: string, fallback: int): Option<int> {
    if key in table then ParseInt(table[key]) else Some(fallback)
  }

  /** The swap figure of a parsed meminfo: missing sizes count as zero, and
      without a positive total there is no swap. */
  function SwapOfTable(table: map<string, string>): (u: Usage)
    ensures "SwapTotal" !in table ==> u == NoUsage
  {
    match (IntEntry(table, "SwapTotal", 0), IntEntry(table, "SwapFree", 0))
    case (Some(total), Some(free)) => if total > 0 then UsageOf(total, free) else NoUsage
    case _ => NoUsage
  }

  /** `get_swap_usage()` */
  function SwapUsage(meminfo: Option<seq<string>>): Usage {
    match meminfo
    case None => NoUsage
    case Some(lines) =>
      match MemTable(lines)
      case None => NoUsage
      case Some(table) => SwapOfTable(table)
  }

  /** A kernel-written meminfo reports the usage of its swap figures. */
  lemma {:induction false} SwapOfFile(entries: seq<(string, nat)>, total: nat, free: nat)
    requires forall i :: 0 <= i < |entries| ==> Field(entries[i].0, ':')
    requires total > 0
    requires var table := Dict(MemPairs(entries));
      && "SwapTotal" in table && table["SwapTotal"] == NatToString(total)
      && "SwapFree" in table && table["SwapFree"] == NatToString(free)
    ensures SwapUsage(Some(MemLines(entries))) == UsageOf(total, free)
  {
    var table := Dict(MemPairs(entries));
    MemTableOfLines(entries);
    SwapOfLookups(table, total, free);
    SwapFromTable(MemLines(entries), table);
  }

  lemma {:induction false} SwapFromTable(lines: seq<string>, table: map<string, string>)
    requires MemTable(lines) == Some(table)
    ensures SwapUsage(Some(lines)) == SwapOfTable(table)
  {
  }

  /** Both swap figures listed give their usage. */
  lemma {:induction false} SwapListed(total: nat, free: nat)
    requires total > 0
    ensures SwapOfTable(Dict([("SwapTotal", NatToString(total)), ("SwapFree", NatToString(free))])) == UsageOf(total, free)
  {
    var a, b := ("SwapTotal", NatToString(total)), ("SwapFree", NatToString(free));
    KeysDiffer();
    DictTwo(a, b);
    SwapOfLookups(Dict([a, b]), total, free);
  }



  /** A table whose swap figures are numbers yields their usage. */
  lemma {:induction false} SwapOfLookups(table: map<string, string>, total: nat, free: nat)
    requires total > 0
    requires "SwapTotal" in table && table["SwapTotal"] == NatToString(total)
    requires "SwapFree" in table && table["SwapFree"] == NatToString(free)
    ensures SwapOfTable(table) == UsageOf(total, free)
  {
    ParseIntOfString(total);
    ParseIntOfString(free);
  }

  // ---------------------------------------------------------------------------
  // Disk usage from `df / -h`
  // ---------------------------------------------------------------------------

  /** The size, used and percent columns of the root filesystem. */
  datatype DiskRow = DiskRow(used: string, total: string, percent: string)

  const NoDiskRow: DiskRow := DiskRow("0", "0", "0%")

  /** `get_disk_usage()`: the second line of the output split into words,
      `NoDiskRow` when `df` cannot be run, prints a single line or prints a
      second line with fewer than five columns. */
  function DfRow(stdout: Option<string>): DiskRow {
    match stdout
    case None => NoDiskRow
    case Some(out) =>
      var lines := Split(out, '\n');
      if |lines| > 1 then
        var values := SplitWs(lines[1]);
        if |values| >= 5 then DiskRow(values[2], values[1], values[4]) else NoDiskRow
      else NoDiskRow
  }

  /** Whatever the header, the row under it gives the used, size and use%
      columns (the third, second and fifth). */
  lemma {:induction false} DfRowOfOutput(header: string, columns: seq<string>, rest: string)
    requires '\n' !in header
    requires |columns| >= 5
    requires forall i :: 0 <= i < |columns| ==> |columns[i]| > 0 && NoSpace(columns[i])
    ensures DfRow(Some(header + "\n" + Join(columns, " ") + "\n" + rest))
         == DiskRow(columns[2], columns[1], columns[4])
  {
    var row := Join(columns, " ");
    RowHasNoNewline(columns);
    SecondLine(header, row, rest);
    SplitWsJoin(columns);
  }

  lemma {:induction false} RowHasNoNewline(columns: seq<string>)
    requires forall i :: 0 <= i < |columns| ==> NoSpace(columns[i])
    ensures '\n' !in Join(columns, " ")
  {
    forall i | 0 <= i < |columns|
      ensures '\n' !in columns[i]
    {
      assert IsSpace('\n');
    }
    JoinAvoids(columns, " ", '\n');
  }

  /** The second line of a text is what follows the first newline. */
  lemma {:induction false} SecondLine(header: string, row: string, rest: string)
    requires '\n' !in header && '\n' !in row
    ensures var lines := Split(header + "\n" + row + "\n" + rest, '\n');
      |lines| > 1 && lines[1] == row
  {
    var out := header + "\n" + row + "\n" + rest;
    assert out == header + ['\n'] + (row + ['\n'] + rest);
    SplitAppend(header, row + ['\n'] + rest, '\n');
    SplitAppend(row, rest, '\n');
    SplitWhole(header, '\n');
    SplitWhole(row, '\n');
  }

  /** Output of a single line has no row to read. */
  lemma {:induction false} DfRowOneLine(out: string)
    requires '\n' !in out
    ensures DfRow(Some(out)) == NoDiskRow
  {
    SplitWhole(out, '\n');
  }

  // ---------------------------------------------------------------------------
  // Load average, operating system, kernel
  // ---------------------------------------------------------------------------

  /** `get_load_average()`: the first three words of `/proc/loadavg`, joined
      with commas; `"unknown"` when the file cannot be read or has fewer. */
  function LoadAverage(loadavg: Option<string>): string {
    match loadavg
    case None => "unknown"
    case Some(text) =>
      var words := SplitWs(Strip(text));
      if |words| >= 3 then words[0] + ", " + words[1] + ", " + words[2] else "unknown"
  }

  /** The file the kernel writes gives back its first three fields. */
  lemma {:induction false} LoadAverageOfFile(fields: seq<string>)
    requires |fields| >= 3
    requires forall i :: 0 <= i < |fields| ==> |fields[i]| > 0 && NoSpace(fields[i])
    ensures LoadAverage(Some(Join(fields, " ") + "\n")) == Join(fields[..3], ", ")
  {
    StripJoinLine(fields);
    SplitWsJoin(fields);
    JoinThree(fields[..3], ", ");
  }

  /** A line of nonempty fields loses only its newline to stripping. */
  lemma {:induction false} StripJoinLine(fields: seq<string>)
    requires |fields| >= 1
    requires forall i :: 0 <= i < |fields| ==> |fields[i]| > 0 && NoSpace(fields[i])
    ensures Strip(Join(fields, " ") + "\n") == Join(fields, " ")
  {
    var line := Join(fields, " ");
    JoinFirst(fields, " ");
    JoinLast(fields, " ");
    StripPadded("", line, "\n");
    assert "" + line + "\n" == line + "\n";
  }

  lemma {:induction false} JoinThree(parts: seq<string>, sep: string)
    requires |parts| == 3
    ensures Join(parts, sep) == parts[0] + sep + parts[1] + sep + parts[2]
  {
    var tail := parts[1..];
    assert tail[1..] == [parts[2]];
    assert Join(tail, sep) == parts[1] + sep + parts[2];
  }

  /** A file with fewer than three fields shows `"unknown"`. */
  lemma {:induction false} LoadAverageShort(fields: seq<string>)
    requires |fields| < 3
    requires forall i :: 0 <= i < |fields| ==> |fields[i]| > 0 && NoSpace(fields[i])
    ensures LoadAverage(Some(Join(fields, " ") + "\n")) == "unknown"
  {
    SplitWsJoinThen(fields, "\n");
    var text := Join(fields, " ") + "\n";
    var words := SplitWs(Strip(text));
    assert |words| < 3 by {
      StripWordCount(text);
    }
  }

  /** Stripping does not add words. */
  lemma {:induction false} StripWordCount(text: string)
    ensures |SplitWs(Strip(text))| == |SplitWs(text)|
  {
    TrimLeftWords(text);
    TrimRightWords(TrimLeft(text));
  }

  lemma {:induction false} TrimLeftWords(s: string)
    ensures SplitWs(TrimLeft(s)) == SplitWs(s)
    decreases |s|
  {
    if |s| > 0 && IsSpace(s[0]) {
      TrimLeftWords(s[1..]);
    }
  }

  lemma {:induction false} TrimRightWords(s: string)
    ensures SplitWs(TrimRight(s)) == SplitWs(s)
    decreases |s|
  {
    if |s| > 0 && IsSpace(s[|s| - 1]) {
      var s' := s[..|s| - 1];
      TrimRightWords(s');
      assert s == s' + [s[|s| - 1]];
      SplitWsSpaceEnd(s', s[|s| - 1]);
    }
  }

  /** A trailing whitespace character adds no word. */
  lemma {:induction false} SplitWsSpaceEnd(s: string, c: char)
    requires IsSpace(c)
    ensures SplitWs(s + [c]) == SplitWs(s)
    decreases |s|
  {
    var t := s + [c];
    if |s| == 0 {
      assert t[1..] == [];
    } else if IsSpace(s[0]) {
      assert t[1..] == s[1..] + [c];
      SplitWsSpaceEnd(s[1..], c);
    } else {
      var w := Word(s);
      WordSpaceEnd(s, c);
      assert t[|w|..] == s[|w|..] + [c];
      SplitWsSpaceEnd(s[|w|..], c);
    }
  }

  lemma {:induction false} WordSpaceEnd(s: string, c: char)
    requires IsSpace(c)
    ensures Word(s + [c]) == Word(s)
    decreases |s|
  {
    if |s| > 0 && !IsSpace(s[0]) {
      assert (s + [c])[1..] == s[1..] + [c];
      WordSpaceEnd(s[1..], c);
    }
  }

  /** One `KEY=value` line of `/etc/os-release`: split at the first `=` of the
      stripped line, with the value's surrounding double quotes removed;
      `None` for a line the loop skips. */
  function OsEntry(line: string): (r: Option<(string, string)>)
    ensures r.None? <==> '=' !in line
    ensures r.Some? ==> '=' !in r.value.0
  {
    if '=' in line then
      InStrip(line, '=');
      var (key, value) := SplitOnce(Strip(line), '=').value;
      Some((key, StripChar(value, '"')))
    else None
  }

  /** What each line yields. */
  function OsEntries(lines: seq<string>): (r: seq<Option<Pair>>)
    ensures |r| == |lines| && forall i :: 0 <= i < |lines| ==> r[i] == OsEntry(lines[i])
  {
    seq(|lines|, i requires 0 <= i < |lines| => OsEntry(lines[i]))
  }

  /** The dictionary the loop builds from the lines holding `=`, a later line
      for a key winning. */
  function OsTable(lines: seq<string>): map<string, string> {
    Dict(Present(OsEntries(lines)))
  }

  /** `get_os_info()`: the `PRETTY_NAME` of `/etc/os-release` when that file
      exists, otherwise `/etc/issue` stripped and with its `\n` and `\l`
      escapes removed, otherwise `"Unknown"`; a file that exists but cannot be
      read is `"Unknown"` too. */
  function OsName(osRelease: File<seq<string>>, issue: File<string>): (r: string)
    ensures osRelease.Contents? && "PRETTY_NAME" !in OsTable(osRelease.data) ==> r == "Unknown"
  {
    match osRelease
    case Contents(lines) =>
      var t := OsTable(lines);
      if "PRETTY_NAME" in t then t["PRETTY_NAME"] else "Unknown"
    case Unreadable => "Unknown"
    case Absent =>
      match issue
      case Contents(text) => RemoveAll(RemoveAll(Strip(text), "\\n"), "\\l")
      case _ => "Unknown"
  }

  /** The quoted `PRETTY_NAME` line os-release files carry. */
  function PrettyLine(name: string): string {
    "PRETTY_NAME=\"" + name + "\"\n"
  }

  lemma {:induction false} PrettyLineEntry(name: string)
    requires |name| > 0 ==> name[0] != '"' && name[|name| - 1] != '"'
    ensures OsEntry(PrettyLine(name)) == Some(("PRETTY_NAME", name))
  {
    var quoted := ['"'] + name + ['"'];
    var body := "PRETTY_NAME" + ['='] + quoted;
    PrettyLineStrip(name);
    PrettyLineSplit(quoted);
    StripCharQuoted(name, '"');
  }

  lemma {:induction false} PrettyLineStrip(name: string)
    ensures Strip(PrettyLine(name)) == "PRETTY_NAME" + ['='] + (['"'] + name + ['"'])
  {
    var body := "PRETTY_NAME" + ['='] + (['"'] + name + ['"']);
    assert PrettyLine(name) == "" + body + "\n";
    assert body[0] == 'P' && body[|body| - 1] == '"';
    StripPadded("", body, "\n");
  }

  lemma {:induction false} PrettyLineSplit(quoted: string)
    ensures SplitOnce("PRETTY_NAME" + ['='] + quoted, '=') == Some(("PRETTY_NAME", quoted))
  {
    assert '=' !in "PRETTY_NAME";
    SplitOnceJoin("PRETTY_NAME", quoted, '=');
  }

  /** The last `PRETTY_NAME` line names the system, with its quotes removed. */
  lemma {:induction false} LastPrettyNameWins(lines: seq<string>, name: string, issue: File<string>)
    requires |name| > 0 ==> name[0] != '"' && name[|name| - 1] != '"'
    ensures OsName(Contents(lines + [PrettyLine(name)]), issue) == name
  {
    var pair := ("PRETTY_NAME", name);
    var line := PrettyLine(name);
    PrettyLineEntry(name);
    OsEntriesAppend(lines, line);
    PresentAppend(OsEntries(lines), pair);
    var pairs := Present(OsEntries(lines));
    assert (pairs + [pair])[..|pairs|] == pairs;
  }

  lemma {:induction false} OsEntriesAppend(lines: seq<string>, line: string)
    ensures OsEntries(lines + [line]) == OsEntries(lines) + [OsEntry(line)]
  {
    var all := lines + [line];
    assert forall i :: 0 <= i < |lines| ==> all[i] == lines[i];
    assert all[|lines|] == line;
  }

  /** Without a `PRETTY_NAME` line the system is `"Unknown"`. */
  lemma {:induction false} NoPrettyNameUnknown(lines: seq<string>, issue: File<string>)
    requires forall i :: 0 <= i < |lines| ==> OsEntry(lines[i]).None? || OsEntry(lines[i]).value.0 != "PRETTY_NAME"
    ensures OsName(Contents(lines), issue) == "Unknown"
  {
    var entries := OsEntries(lines);
    var pairs := Present(entries);
    forall i | 0 <= i < |pairs|
      ensures pairs[i].0 != "PRETTY_NAME"
    {
      PresentFrom(entries, pairs[i]);
      var j :| 0 <= j < |entries| && entries[j] == Some(pairs[i]);
    }
    DictKeys(pairs, "PRETTY_NAME");
  }

  /** The `/etc/issue` banner `name \n \l` loses its escapes but keeps the
      spaces before them, since it was stripped first. */
  lemma {:induction false} IssueBanner(name: string)
    requires |name| > 0 && !IsSpace(name[0]) && '\\' !in name
    ensures OsName(Absent, Contents(name + " \\n \\l\n")) == name + "  "
  {
    IssueStrip(name);
    IssueEscapes(name);
  }

  lemma {:induction false} IssueStrip(name: string)
    requires |name| > 0 && !IsSpace(name[0])
    ensures Strip(name + " \\n \\l\n") == name + " \\n \\l"
  {
    var banner := name + " \\n \\l";
    assert name + " \\n \\l\n" == "" + banner + "\n";
    assert banner[|banner| - 1] == 'l';
    StripPadded("", banner, "\n");
  }

  lemma {:induction false} IssueEscapes(name: string)
    requires '\\' !in name
    ensures RemoveAll(RemoveAll(name + " \\n \\l", "\\n"), "\\l") == name + "  "
  {
    IssueNewlineEscape(name);
    IssueLineEscape(name);
  }

  lemma {:induction false} IssueNewlineEscape(name: string)
    requires '\\' !in name
    ensures RemoveAll(name + " \\n \\l", "\\n") == name + "  \\l"
  {
    assert name + " \\n \\l" == (name + " ") + "\\n" + " \\l";
    RemoveAllAround(name + " ", "\\n", " \\l");
    NoNewlineEscape();
    assert (name + " ") + " \\l" == name + "  \\l";
  }

  lemma {:induction false} IssueLineEscape(name: string)
    requires '\\' !in name
    ensures RemoveAll(name + "  \\l", "\\l") == name + "  "
  {
    assert name + "  \\l" == (name + "  ") + "\\l" + "";
    RemoveAllAround(name + "  ", "\\l", "");
  }

  lemma {:induction false} NoNewlineEscape()
    ensures RemoveAll(" \\l", "\\n") == " \\l"
  {
    assert RemoveAll("\\l", "\\n") == [' '][1..] + "\\l" by {
      assert RemoveAll("", "\\n") == "";
      assert RemoveAll("l", "\\n") == "l";
    }
  }

  /** `get_kernel_version()`: the stripped output of `uname -r`. */
  function Kernel(uname: Option<string>): string {
    match uname
    case None => "unknown"
    case Some(out) => Strip(out)
  }

  /** The release `uname` prints comes back without its newline. */
  lemma {:induction false} KernelOfRelease(release: string)
    requires |release| > 0 && !IsSpace(release[0]) && !IsSpace(release[|release| - 1])
    ensures Kernel(Some(release + "\n")) == release
  {
    StripPadded("", release, "\n");
    assert "" + release + "\n" == release + "\n";
  }

  // ---------------------------------------------------------------------------
  // Placeholders
  // ---------------------------------------------------------------------------

  /** Everything the plugin reads. `/proc/stat` and `/proc/meminfo` are each
      read twice by the plugin; the model reads each once. */
  datatype Readings = Readings(
    stat: Option<seq<string>>,
    sensors: seq<File<string>>,
    meminfo: Option<seq<string>>,
    df: Option<string>,
    loadavg: Option<string>,
    osRelease: File<seq<string>>,
    issue: File<string>,
    uname: Option<string>)

  datatype Placeholders = Placeholders(
    cpuUsage: string, cpuTemp: string, cpuLoad: string, memory: string,
    disk: string, swap: string, os: string, kernel: string, systemInfo: string)

  const Desktop: string := "\U{1F5A5}\U{FE0F}"
  const Brain: string := "\U{1F9E0}"
  const Floppy: string := "\U{1F4BE}"
  const SwapLabel: string := "\U{1F4BF} Swap: "

  /** `{used_mb}/{total_mb}MB ({percent:.1f}%)` */
  function UsageText(u: Usage): (r: string)
    ensures |r| > 0 && (IsDigit(r[0]) || r[0] == '-')
    ensures StartsWith(r, IntToString(u.usedMb) + "/")
    ensures EndsWith(r, "%)")
  {
    var r := IntToString(u.usedMb) + "/" + IntToString(u.totalMb) + "MB (" + Fixed1(u.percent) + "%)";
    assert r[..|IntToString(u.usedMb) + "/"|] == IntToString(u.usedMb) + "/";
    assert r[|r| - 2..] == "%)";
    r
  }

  /** The text splits at its first `/` into the used figure, which reads back
      as the used megabytes, and the rest, which starts with the total. */
  lemma {:induction false} UsageTextReadsBack(u: Usage)
    requires u.usedMb >= 0
    ensures var r := UsageText(u);
      && SplitOnce(r, '/').Some?
      && ParseInt(SplitOnce(r, '/').value.0) == Some(u.usedMb)
      && StartsWith(SplitOnce(r, '/').value.1, IntToString(u.totalMb) + "MB (")
  {
    var used := IntToString(u.usedMb);
    var head := IntToString(u.totalMb) + "MB (";
    var tail := Fixed1(u.percent) + "%)";
    UsageTextParts(u);
    DigitsHaveNoSlash(used);
    SplitOnceJoin(used, head + tail, '/');
    ParseIntOfString(u.usedMb);
    StartsWithAppend(head, tail);
  }

  /** The pieces of the usage text. */
  lemma {:induction false} UsageTextParts(u: Usage)
    ensures UsageText(u) == IntToString(u.usedMb) + ['/'] + ((IntToString(u.totalMb) + "MB (") + (Fixed1(u.percent) + "%)"))
  {
  }

  lemma {:induction false} DigitsHaveNoSlash(d: string)
    requires AllDigits(d)
    ensures '/' !in d
  {
    assert forall k :: 0 <= k < |d| ==> IsDigit(d[k]);
  }

  /** The swap line: its usage, or `disabled` when the total is under one MiB. */
  function SwapText(u: Usage): string {
    if u.totalMb > 0 then SwapLabel + UsageText(u) else SwapLabel + "disabled"
  }

  /** The swap line says `disabled` exactly when the total is under one MiB,
      even though a swap of a few KiB exists. */
  lemma {:induction false} SwapDisabledIff(u: Usage)
    ensures SwapText(u) == SwapLabel + "disabled" <==> u.totalMb <= 0
  {
    if u.totalMb > 0 {
      var shown := UsageText(u);
      assert (SwapLabel + shown)[|SwapLabel|] == shown[0];
      assert (SwapLabel + "disabled")[|SwapLabel|] == 'd';
    }
  }

  /** A swap smaller than one MiB is shown as disabled. */
  lemma {:induction false} TinySwapDisabled(table: map<string, string>, total: int)
    requires IntEntry(table, "SwapTotal", 0) == Some(total) && 0 < total < 1024
    requires IntEntry(table, "SwapFree", 0).Some?
    ensures SwapText(SwapOfTable(table)) == SwapLabel + "disabled"
  {
    SwapDisabledIff(SwapOfTable(table));
  }

  /** `{used}/{total} ({percent})` */
  function DiskText(d: DiskRow): string {
    d.used + "/" + d.total + " (" + d.percent + ")"
  }

  /** The one-line summary: CPU figure, used memory, used and total disk. */
  function Summary(cpu: string, memory: Usage, disk: DiskRow): string {
    Desktop + " " + cpu + " | " + Brain + " " + IntToString(memory.usedMb) + "MB | "
      + Floppy + " " + disk.used + "/" + disk.total
  }

  /** `register()` */
  function Register(r: Readings): (p: Placeholders)
    ensures p.cpuUsage == Desktop + " CPU: " + Shown(CpuUsage(r.stat))
    ensures p.cpuTemp == "\U{1F321}\U{FE0F} Temp: " + CpuTemperature(r.sensors)
    ensures p.cpuLoad == "\U{1F4CA} Load: " + LoadAverage(r.loadavg)
    ensures p.memory == Brain + " RAM: " + UsageText(MemoryUsage(r.meminfo))
    ensures p.disk == Floppy + " Disk: " + DiskText(DfRow(r.df))
    ensures p.swap == SwapText(SwapUsage(r.meminfo))
    ensures p.swap == SwapLabel + "disabled" <==> SwapUsage(r.meminfo).totalMb <= 0
    ensures p.os == "\U{1F427} OS: " + OsName(r.osRelease, r.issue)
    ensures p.kernel == "\U{1F527} Kernel: " + Kernel(r.uname)
    ensures p.systemInfo == Summary(Shown(CpuUsage(r.stat)), MemoryUsage(r.meminfo), DfRow(r.df))
  {
    var memory := MemoryUsage(r.meminfo);
    var disk := DfRow(r.df);
    var swap := SwapUsage(r.meminfo);
    var cpu := Shown(CpuUsage(r.stat));
    SwapDisabledIff(swap);
    Placeholders(
      cpuUsage := Desktop + " CPU: " + cpu,
      cpuTemp := "\U{1F321}\U{FE0F} Temp: " + CpuTemperature(r.sensors),
      cpuLoad := "\U{1F4CA} Load: " + LoadAverage(r.loadavg),
      memory := Brain + " RAM: " + UsageText(memory),
      disk := Floppy + " Disk: " + DiskText(disk),
      swap := SwapText(swap),
      os := "\U{1F427} OS: " + OsName(r.osRelease, r.issue),
      kernel := "\U{1F527} Kernel: " + Kernel(r.uname),
      systemInfo := Summary(cpu, memory, disk))
  }

  /** Nothing readable: every figure falls back. */
  const NothingRead: Readings := Readings(None, [], None, None, None, Absent, Absent, None)

  /** With nothing readable every placeholder falls back: unknown CPU figures,
      zero memory and disk, swap disabled, unknown system. */
  lemma {:induction false} RegisterWithoutFiles()
    ensures var p := Register(NothingRead);
      && p.cpuUsage == Desktop + " CPU: unknown"
      && p.cpuTemp == "\U{1F321}\U{FE0F} Temp: unknown"
      && p.cpuLoad == "\U{1F4CA} Load: unknown"
      && p.memory == Brain + " RAM: " + "0/0MB (0.0%)"
      && p.disk == Floppy + " Disk: " + "0/0 (0%)"
      && p.swap == SwapLabel + "disabled"
      && p.os == "\U{1F427} OS: Unknown"
      && p.kernel == "\U{1F527} Kernel: unknown"
      && p.systemInfo == Desktop + " unknown | " + Brain + " 0MB | " + Floppy + " 0/0"
  {
    NothingReadValues();
    NoUsageText();
    NoDiskText();
    NoSummary();
  }

  /** Each reading's fallback when nothing could be read. */
  lemma {:induction false} NothingReadValues()
    ensures var r := NothingRead;
      && CpuUsage(r.stat) == Some("unknown")
      && CpuTemperature(r.sensors) == "unknown"
      && LoadAverage(r.loadavg) == "unknown"
      && MemoryUsage(r.meminfo) == NoUsage
      && DfRow(r.df) == NoDiskRow
      && SwapUsage(r.meminfo) == NoUsage
      && OsName(r.osRelease, r.issue) == "Unknown"
      && Kernel(r.uname) == "unknown"
  {
  }

  lemma {:induction false} NoUsageText()
    ensures UsageText(NoUsage) == "0/0MB (0.0%)"
  {
    assert Fixed1(0.0) == "0.0";
    assert IntToString(0) == "0";
  }

  lemma {:induction false} NoDiskText()
    ensures DiskText(NoDiskRow) == "0/0 (0%)"
  {
  }

  /** The fallback summary. */
  lemma {:induction false} NoSummary()
    ensures Summary("unknown", NoUsage, NoDiskRow) == Desktop + " unknown | " + Brain + " 0MB | " + Floppy + " 0/0"
  {
    assert IntToString(0) == "0";
  }

  /** A `/proc/stat` without a summary line shows Python's `None`. */
  lemma {:induction false} NoCpuLineShowsNone(lines: seq<string>)
    requires forall i :: 0 <= i < |lines| ==> !StartsWith(lines[i], "cpu ")
    ensures Shown(CpuUsage(Some(lines))) == "None"
  {
  }
}
