/** plugins/multi-ping.plugin.py: pings up to eight configured servers and
    reports each one's round-trip time, a success count, the average and a row
    of status icons.

    The `[multi-ping]` section is an input map; `ping_server`'s result for each
    server (its mean round-trip time, or `None`) is an input sequence.
 */
module MultiPing {
  import opened Wrappers
  import opened PyStr
  import opened PyNum
  import Ansi
  import opened RealArith
  import opened ConfigParser

  // ---------------------------------------------------------------------------
  // Configuration
  // ---------------------------------------------------------------------------

  function ServerKey(i: nat): string {
    "server-" + IntToString(i)
  }

  function NameKey(i: nat): string {
    "name-" + IntToString(i)
  }

  const MaxServers: nat := 8
  const DefaultColors: string := "green,yellow,blue,magenta,cyan,white"

  /** The non-empty `server-1` … `server-n` values, in index order. */
  function ServersUpTo(section: Section, n: nat): (servers: seq<string>)
    ensures |servers| <= n
    ensures forall k :: 0 <= k < |servers| ==> servers[k] != ""
  {
    if n == 0 then []
    else
      var s := Get(section, ServerKey(n), "");
      ServersUpTo(section, n - 1) + (if s != "" then [s] else [])
  }

  /** The display names recorded for `server-1` … `server-n`: `name-i`, when
      non-empty, is recorded under the host of `server-i`; a later index
      overrides an earlier one for the same host. */
  function NamesUpTo(section: Section, n: nat): (names: map<string, string>)
    ensures forall h :: h in names ==> h in ServersUpTo(section, n) && names[h] != ""
  {
    if n == 0 then map[]
    else
      var names := NamesUpTo(section, n - 1);
      var s := Get(section, ServerKey(n), "");
      var name := Get(section, NameKey(n), "");
      if s != "" && name != "" then names[s := name] else names
  }

  /** The servers loop of `get_multi_ping_config`, for `i` in 1..8. */
  method CollectServers(section: Section) returns (servers: seq<string>, names: map<string, string>)
    ensures servers == ServersUpTo(section, MaxServers)
    ensures names == NamesUpTo(section, MaxServers)
  {
    servers := [];
    names := map[];
    var i := 1;
    while i <= MaxServers
      invariant 1 <= i <= MaxServers + 1
      invariant servers == ServersUpTo(section, i - 1)
      invariant names == NamesUpTo(section, i - 1)
    {
      CollectStep(section, i);
      var server := Get(section, ServerKey(i), "");
      if server != "" {
        servers := servers + [server];
        var name := Get(section, NameKey(i), "");
        if name != "" {
          names := names[server := name];
        }
      }
      i := i + 1;
    }
  }

  /** What index `n` adds to the servers and names of the indices before it. */
  lemma {:induction false} CollectStep(section: Section, n: nat)
    requires n >= 1
    ensures var s, name := Get(section, ServerKey(n), ""), Get(section, NameKey(n), "");
      && ServersUpTo(section, n) == ServersUpTo(section, n - 1) + (if s != "" then [s] else [])
      && NamesUpTo(section, n) == if s != "" && name != "" then NamesUpTo(section, n - 1)[s := name] else NamesUpTo(section, n - 1)
  {
  }

  /** Every non-empty `server-i` is kept. */
  lemma {:induction false} ServerKept(section: Section, n: nat, i: nat)
    requires 1 <= i <= n && Get(section, ServerKey(i), "") != ""
    ensures Get(section, ServerKey(i), "") in ServersUpTo(section, n)
  {
    if i < n {
      ServerKept(section, n - 1, i);
    }
  }

  /** The last index whose host is `h` and whose name is set decides `h`'s name. */
  lemma {:induction false} LastNameWins(section: Section, n: nat)
    requires n >= 1
    requires Get(section, ServerKey(n), "") != "" && Get(section, NameKey(n), "") != ""
    ensures NamesUpTo(section, n)[Get(section, ServerKey(n), "")] == Get(section, NameKey(n), "")
  {
  }

  /** `[color.strip() for color in colors_str.split(',')]`: never empty, one
      colour per comma-separated piece. */
  function ParseColors(colorsStr: string): (colors: seq<string>)
    ensures |colors| == |Split(colorsStr, ',')| == CountChar(colorsStr, ',') + 1
    ensures forall k :: 0 <= k < |colors| ==> colors[k] == Strip(Split(colorsStr, ',')[k])
  {
    SplitCount(colorsStr, ',');
    SplitStrip(colorsStr, ',')
  }

  /** The settings `get_multi_ping_results` uses. The `attempts` and `timeout`
      options only matter to `ping_server`, which is an input here. */
  datatype PingConfig = PingConfig(
    colors: seq<string>,
    servers: seq<string>,
    displayNames: map<string, string>,
    format: string,
    showOffline: bool)

  /** `get_multi_ping_config()`. `showOffline` is the converted `show_offline`
      option. */
  method ReadConfig(section: Section, showOffline: bool) returns (cfg: PingConfig)
    ensures cfg.colors == ParseColors(Get(section, "colors", DefaultColors))
    ensures cfg.servers == ServersUpTo(section, MaxServers)
    ensures cfg.displayNames == NamesUpTo(section, MaxServers)
    ensures cfg.format == Get(section, "format", "compact")
    ensures cfg.showOffline == showOffline
  {
    var servers, names := CollectServers(section);
    cfg := PingConfig(ParseColors(Get(section, "colors", DefaultColors)), servers, names,
      Get(section, "format", "compact"), showOffline);
  }

  // ---------------------------------------------------------------------------
  // The ping time
  // ---------------------------------------------------------------------------

  /** The first line containing `pat`, if any. */
  function FirstLineWith(lines: seq<string>, pat: string): (r: Option<string>)
    ensures r.None? <==> forall i :: 0 <= i < |lines| ==> !Contains(lines[i], pat)
    ensures r.Some? ==> Contains(r.value, pat) && r.value in lines
  {
    if |lines| == 0 then None
    else if Contains(lines[0], pat) then Some(lines[0])
    else
      var r := FirstLineWith(lines[1..], pat);
      assert forall i :: 1 <= i < |lines| ==> lines[i] == lines[1..][i - 1];
      r
  }

  lemma {:induction false} FirstLineWithAfter(before: seq<string>, line: string, after: seq<string>, pat: string)
    requires forall i :: 0 <= i < |before| ==> !Contains(before[i], pat)
    requires Contains(line, pat)
    ensures FirstLineWith(before + [line] + after, pat) == Some(line)
  {
    if |before| > 0 {
      assert (before + [line] + after)[1..] == before[1..] + [line] + after;
      FirstLineWithAfter(before[1..], line, after, pat);
    }
  }

  /** `line.split('time=')[1].split(' ')[0]`, then ` ms` and `ms` removed. */
  function PingTimeOfLine(line: string): string {
    var field := Before(Before(After(line, "time="), "time="), " ");
    RemoveAll(RemoveAll(field, " ms"), "ms")
  }

  /** The text `ping_server` hands to `float()`: taken from the first line of
      the output that contains `time=`; `None` when no line does. */
  function PingTimeText(stdout: string): Option<string> {
    match FirstLineWith(Split(stdout, '\n'), "time=")
    case None => None
    case Some(line) => Some(PingTimeOfLine(line))
  }

  /** On a reply line of the usual shape `… time=<t> ms`, the number `<t>` is
      what is read. */
  lemma {:induction false} PingTimeOfReplyLine(pre: string, t: string, rest: string)
    requires !Contains(pre, "time=")
    requires ' ' !in t && !Contains(t, "ms")
    requires !Contains(t + " " + rest, "time=")
    ensures PingTimeOfLine(pre + "time=" + t + " " + rest) == t
  {
    ReplyAfter(pre, t, rest);
    ReplyField(t, rest);
    NotContainsChar(t, " ms", ' ');
    PingTimeOfFields(pre + "time=" + t + " " + rest, t + " " + rest, t);
  }

  lemma {:induction false} ReplyAfter(pre: string, t: string, rest: string)
    requires !Contains(pre, "time=")
    ensures After(pre + "time=" + t + " " + rest, "time=") == t + " " + rest
  {
    AfterPrefix(pre, "time=", t + " " + rest);
    assert pre + "time=" + t + " " + rest == pre + "time=" + (t + " " + rest);
  }

  lemma {:induction false} ReplyField(t: string, rest: string)
    requires ' ' !in t
    ensures Before(t + " " + rest, " ") == t
  {
    NotContainsChar(t, " ", ' ');
    BeforePrefix(t, " ", rest);
  }

  /** The time read from a line, given the text after its `time=` and the
      field before the next space. */
  lemma {:induction false} PingTimeOfFields(line: string, tail: string, field: string)
    requires After(line, "time=") == tail && !Contains(tail, "time=") && Before(tail, " ") == field
    requires !Contains(field, " ms") && !Contains(field, "ms")
    ensures PingTimeOfLine(line) == field
  {
  }

  /** The first reply line decides the time, whatever the lines after it say. */
  lemma {:induction false} PingTimeOfOutput(before: seq<string>, pre: string, t: string, rest: string, after: seq<string>)
    requires forall i :: 0 <= i < |before| ==> '\n' !in before[i] && !Contains(before[i], "time=")
    requires forall i :: 0 <= i < |after| ==> '\n' !in after[i]
    requires '\n' !in pre + "time=" + t + " " + rest
    requires !Contains(pre, "time=")
    requires ' ' !in t && !Contains(t, "ms")
    requires !Contains(t + " " + rest, "time=")
    ensures PingTimeText(Join(before + [pre + "time=" + t + " " + rest] + after, "\n")) == Some(t)
  {
    var line := pre + "time=" + t + " " + rest;
    var lines := before + [line] + after;
    NoNewlines(before, line, after);
    SplitJoin(lines, '\n');
    ReplyLineContains(pre, t, rest);
    FirstLineWithAfter(before, line, after, "time=");
    PingTimeOfReplyLine(pre, t, rest);
  }

  lemma {:induction false} NoNewlines(before: seq<string>, line: string, after: seq<string>)
    requires forall i :: 0 <= i < |before| ==> '\n' !in before[i]
    requires forall i :: 0 <= i < |after| ==> '\n' !in after[i]
    requires '\n' !in line
    ensures forall i :: 0 <= i < |before + [line] + after| ==> '\n' !in (before + [line] + after)[i]
  {
    var lines := before + [line] + after;
    forall i | 0 <= i < |lines|
      ensures '\n' !in lines[i]
    {
      if i > |before| {
        assert lines[i] == after[i - |before| - 1];
      }
    }
  }

  lemma {:induction false} ReplyLineContains(pre: string, t: string, rest: string)
    ensures Contains(pre + "time=" + t + " " + rest, "time=")
  {
    assert pre + "time=" + t + " " + rest == pre + "time=" + (t + " " + rest);
    ContainsMiddle(pre, "time=", t + " " + rest);
  }

  // ---------------------------------------------------------------------------
  // get_multi_ping_results
  // ---------------------------------------------------------------------------

  /** The four results: `detailed`, `short`, `average`, `status`. */
  datatype PingResults = PingResults(detailed: string, short: string, average: string, status: string)

  const NoServers: PingResults := PingResults(
    Ansi.Colorize("No servers configured", "red"), Ansi.Colorize("No servers", "red"),
    Ansi.Colorize("N/A", "red"), Ansi.Colorize("No config", "red"))

  const AllOffline: PingResults := PingResults(
    Ansi.Colorize("All servers offline", "red"), Ansi.Colorize("All servers offline", "red"),
    Ansi.Colorize("All servers offline", "red"), "❌❌❌")

  /** `colors[i % len(colors)]`: colours are reused cyclically. */
  function ColorFor(colors: seq<string>, i: nat): (c: string)
    requires |colors| > 0
    ensures c in colors
    ensures i < |colors| ==> c == colors[i]
  {
    colors[i % |colors|]
  }

  /** Server `i` and server `i + len(colors)` get the same colour. */
  lemma {:induction false} ColorCycles(colors: seq<string>, i: nat)
    requires |colors| > 0
    ensures ColorFor(colors, i + |colors|) == ColorFor(colors, i)
  {
    var n := |colors|;
    var q, r := i / n, i % n;
    assert i + n == (q + 1) * n + r;
    ModOfMultiple(i + n, n, q + 1, r);
  }

  /** `x % n` is the remainder of any `x == q * n + r` with `0 <= r < n`. */
  lemma {:induction false} ModOfMultiple(x: int, n: int, q: int, r: int)
    requires n > 0 && 0 <= r < n && x == q * n + r
    ensures x % n == r
  {
    var q', r' := x / n, x % n;
    assert q * n + r == q' * n + r';
    MulDiff(q, q', n);
    var d := q - q';
    assert d * n == r' - r;
    if d >= 1 {
      MulAtLeast(d, n);
    } else if d <= -1 {
      MulAtLeast(-d, n);
    }
  }

  lemma {:induction false} MulDiff(a: int, b: int, n: int)
    ensures a * n - b * n == (a - b) * n
  {
  }

  lemma {:induction false} MulAtLeast(d: int, n: int)
    requires d >= 1 && n > 0
    ensures d * n >= n
  {
    assert d * n - n == (d - 1) * n;
  }

  /** `display_names.get(server, server)`: the configured name, or the host
      itself when it has none. */
  function DisplayName(names: map<string, string>, host: string): (name: string)
    ensures host in names ==> name == names[host]
    ensures host !in names ==> name == host
  {
    if host in names then names[host] else host
  }

  /** ✅ for a server that answered, ❌ otherwise. */
  function Icon(ping: Option<real>): string {
    if ping.Some? then "✅" else "❌"
  }

  /** The status icons of the first servers, one per server. */
  function Icons(pings: seq<Option<real>>): (icons: seq<string>)
    ensures |icons| == |pings|
    ensures forall i :: 0 <= i < |pings| ==> icons[i] == Icon(pings[i])
  {
    if |pings| == 0 then [] else Icons(pings[..|pings| - 1]) + [Icon(pings[|pings| - 1])]
  }

  /** The round-trip times of the servers that answered, in server order. */
  function Successes(pings: seq<Option<real>>): (times: seq<real>)
    ensures |times| <= |pings|
  {
    if |pings| == 0 then []
    else
      var last := pings[|pings| - 1];
      Successes(pings[..|pings| - 1]) + (if last.Some? then [last.value] else [])
  }

  function Sum(xs: seq<real>): real {
    if |xs| == 0 then 0.0 else Sum(xs[..|xs| - 1]) + xs[|xs| - 1]
  }

  /** `statistics.mean`, on exact values. */
  function Mean(xs: seq<real>): real
    requires |xs| > 0
  {
    Sum(xs) / |xs| as real
  }

  /** The mean of times within `[lo, hi]` is within `[lo, hi]`. */
  lemma {:induction false} SumBounds(xs: seq<real>, lo: real, hi: real)
    requires forall i :: 0 <= i < |xs| ==> lo <= xs[i] <= hi
    ensures |xs| as real * lo <= Sum(xs) <= |xs| as real * hi
  {
    if |xs| > 0 {
      SumBounds(xs[..|xs| - 1], lo, hi);
    }
  }

  lemma {:induction false} MeanBounds(xs: seq<real>, lo: real, hi: real)
    requires |xs| > 0
    requires forall i :: 0 <= i < |xs| ==> lo <= xs[i] <= hi
    ensures lo <= Mean(xs) <= hi
  {
    SumBounds(xs, lo, hi);
    DivBounds(Sum(xs), |xs| as real, lo, hi);
  }

  /** The entry server `i` adds to `results`, if any: its time in its colour
      (with its name in the detailed format), or, when offline servers are
      shown, a red timeout mark. */
  function Entry(cfg: PingConfig, i: nat, ping: Option<real>): (e: Option<string>)
    requires |cfg.colors| > 0 && i < |cfg.servers|
    ensures e.None? <==> ping.None? && !cfg.showOffline
    ensures ping.Some? ==> e.Some? && Ansi.Decolorize(e.value) == Some((
      Ansi.ColorCode(ColorFor(cfg.colors, i)),
      if cfg.format == "detailed" then DisplayName(cfg.displayNames, cfg.servers[i]) + ": " + Fixed1(ping.value) + "ms"
      else Fixed0(ping.value) + "ms"))
    ensures ping.None? && cfg.showOffline ==> e.Some? && Ansi.Decolorize(e.value) == Some((
      "31", if cfg.format == "detailed" then DisplayName(cfg.displayNames, cfg.servers[i]) + ": timeout" else "✗"))
  {
    var name := DisplayName(cfg.displayNames, cfg.servers[i]);
    match ping
    case Some(ms) =>
      var color := ColorFor(cfg.colors, i);
      var text := if cfg.format == "detailed" then name + ": " + Fixed1(ms) + "ms" else Fixed0(ms) + "ms";
      Ansi.DecolorizeColorize(text, color);
      Some(Ansi.Colorize(text, color))
    case None =>
      if !cfg.showOffline then None
      else
        var text := if cfg.format == "detailed" then name + ": timeout" else "✗";
        Ansi.DecolorizeColorize(text, "red");
        assert Ansi.ColorCode("red") == "31" by {
          LowerOfLower("red");
        }
        Some(Ansi.Colorize(text, "red"))
  }

  /** The `results` list after the first `n` servers. */
  function Entries(cfg: PingConfig, pings: seq<Option<real>>, n: nat): (results: seq<string>)
    requires |cfg.colors| > 0 && n <= |pings| == |cfg.servers|
  {
    if n == 0 then []
    else
      var e := Entry(cfg, n - 1, pings[n - 1]);
      Entries(cfg, pings, n - 1) + (if e.Some? then [e.value] else [])
  }

  /** One entry per answering server, plus one per silent server when offline
      servers are shown. */
  lemma {:induction false} EntriesCount(cfg: PingConfig, pings: seq<Option<real>>, n: nat)
    requires |cfg.colors| > 0 && n <= |pings| == |cfg.servers|
    ensures |Entries(cfg, pings, n)| ==
      |Successes(pings[..n])| + (if cfg.showOffline then n - |Successes(pings[..n])| else 0)
  {
    if n > 0 {
      EntriesCount(cfg, pings, n - 1);
      EntriesStep(cfg, pings, n);
      assert pings[..n][..n - 1] == pings[..n - 1];
      SuccessesAtMost(pings[..n - 1]);
    }
  }

  /** Server `n - 1` adds one entry exactly when it answered or offline servers
      are shown. */
  lemma {:induction false} EntriesStep(cfg: PingConfig, pings: seq<Option<real>>, n: nat)
    requires |cfg.colors| > 0 && 0 < n <= |pings| == |cfg.servers|
    ensures |Entries(cfg, pings, n)| == |Entries(cfg, pings, n - 1)| + (if pings[n - 1].Some? || cfg.showOffline then 1 else 0)
  {
    var e := Entry(cfg, n - 1, pings[n - 1]);
    assert e.None? <==> pings[n - 1].None? && !cfg.showOffline;
  }

  lemma {:induction false} SuccessesAtMost(pings: seq<Option<real>>)
    ensures |Successes(pings)| <= |pings|
  {
  }

  /** What the answering servers' results turn into. */
  function Summary(cfg: PingConfig, pings: seq<Option<real>>, results: seq<string>, times: seq<real>): (r: PingResults)
    requires |times| > 0
    ensures r.short == IntToString(|times|) + "/" + IntToString(|cfg.servers|) + " ok: " + Fixed1(Mean(times)) + "ms"
    ensures r.average == Fixed1(Mean(times)) + "ms"
    ensures r.status == Join(Icons(pings), " ")
    ensures cfg.format == "detailed" ==>
      r.detailed == Join(results, " | ") + " | " + Ansi.Colorize("Avg: " + Fixed1(Mean(times)) + "ms", "white")
    ensures cfg.format == "status" ==> r.detailed == r.status
    ensures cfg.format != "detailed" && cfg.format != "status" ==> r.detailed == Join(results, " ")
  {
    var avg := Fixed1(Mean(times)) + "ms";
    var status := Join(Icons(pings), " ");
    PingResults(Detailed(cfg.format, results, status, avg),
      IntToString(|times|) + "/" + IntToString(|cfg.servers|) + " ok: " + avg, avg, status)
  }

  /** The `mping` text for each display format, given the entries, the status
      row and the average. */
  function Detailed(format: string, results: seq<string>, status: string, avg: string): (d: string)
    ensures format == "detailed" ==> d == Join(results, " | ") + " | " + Ansi.Colorize("Avg: " + avg, "white")
    ensures format == "status" ==> d == status
    ensures format != "detailed" && format != "status" ==> d == Join(results, " ")
  {
    if format == "detailed" then Join(results, " | ") + " | " + Ansi.Colorize("Avg: " + avg, "white")
    else if format == "status" then status
    else Join(results, " ")
  }

  /** `get_multi_ping_results()`: one pass over the servers collecting the
      entries, the icons and the answering servers' times. */
  method MultiPingResults(cfg: PingConfig, pings: seq<Option<real>>) returns (r: PingResults)
    requires |cfg.colors| > 0 && |pings| == |cfg.servers|
    ensures |cfg.servers| == 0 ==> r == NoServers
    ensures |cfg.servers| > 0 && |Successes(pings)| == 0 ==> r == AllOffline
    ensures |Successes(pings)| > 0 ==> r == Summary(cfg, pings, Entries(cfg, pings, |pings|), Successes(pings))
  {
    if |cfg.servers| == 0 {
      return NoServers;
    }
    var results: seq<string> := [];
    var icons: seq<string> := [];
    var times: seq<real> := [];
    var i := 0;
    while i < |cfg.servers|
      invariant 0 <= i <= |pings|
      invariant results == Entries(cfg, pings, i)
      invariant icons == Icons(pings[..i])
      invariant times == Successes(pings[..i])
    {
      PrefixStep(pings, i);
      var entry := Entry(cfg, i, pings[i]);
      if entry.Some? {
        results := results + [entry.value];
      }
      icons := icons + [Icon(pings[i])];
      if pings[i].Some? {
        times := times + [pings[i].value];
      }
      i := i + 1;
    }
    assert pings[..i] == pings;
    if |times| > 0 {
      r := Summary(cfg, pings, results, times);
    } else {
      r := AllOffline;
    }
  }

  /** The icons and times of one more server. */
  lemma {:induction false} PrefixStep(pings: seq<Option<real>>, i: nat)
    requires i < |pings|
    ensures Icons(pings[..i + 1]) == Icons(pings[..i]) + [Icon(pings[i])]
    ensures Successes(pings[..i + 1]) == Successes(pings[..i]) + (if pings[i].Some? then [pings[i].value] else [])
  {
    assert pings[..i + 1][..i] == pings[..i];
  }

  /** When every server is silent there are no successful times, so
      `MultiPingResults` takes its all-offline branch. */
  lemma {:induction false} NoAnswers(pings: seq<Option<real>>)
    requires forall i :: 0 <= i < |pings| ==> pings[i].None?
    ensures Successes(pings) == []
  {
    if |pings| > 0 {
      NoAnswers(pings[..|pings| - 1]);
    }
  }

  /** The status row (`PingResults.status`) reads back, split at its spaces, as
      one icon per server. */
  lemma {:induction false} StatusRow(pings: seq<Option<real>>)
    requires |pings| > 0
    ensures Split(Join(Icons(pings), " "), ' ') == Icons(pings)
  {
    var icons := Icons(pings);
    assert forall k :: 0 <= k < |icons| ==> ' ' !in icons[k] by {
      forall k | 0 <= k < |icons|
        ensures ' ' !in icons[k]
      {
        assert icons[k] == Icon(pings[k]);
      }
    }
    SplitJoin(icons, ' ');
  }

  // ---------------------------------------------------------------------------
  // register
  // ---------------------------------------------------------------------------

  /** The dict `register` returns: `mping`, `mping_short`, `mping_avg`,
      `mping_status`. */
  datatype Placeholders = Placeholders(mping: string, mpingShort: string, mpingAvg: string, mpingStatus: string)

  /** `register()`: the results under their placeholder names, or, when
      `get_multi_ping_results` raised (a bad `attempts`, `timeout` or
      `show_offline` value), the error message. */
  function Register(results: Result<PingResults, string>): (m: Placeholders)
    ensures results.Ok? ==>
      && m.mping == results.value.detailed && m.mpingShort == results.value.short
      && m.mpingAvg == results.value.average && m.mpingStatus == results.value.status
    ensures results.Err? ==>
      && m.mping == m.mpingShort == "Multi-ping error: " + results.error
      && m.mpingAvg == "error" && m.mpingStatus == "⚠️"
  {
    match results
    case Ok(r) => Placeholders(r.detailed, r.short, r.average, r.status)
    case Err(msg) =>
      var e := "Multi-ping error: " + msg;
      Placeholders(e, e, "error", "⚠️")
  }
}
