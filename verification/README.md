# ping-status plugins in Dafny

ping-status renders a status line from "placeholders". Small plugins produce them: each plugin's `register()` reads a system or network fact and returns a dictionary of named strings. This project models the deterministic core of ten of those plugins. The I/O is taken out and supplied as parameters, so what remains is pure string, sequence and number logic.

What the model covers:

- the progress bars of `disk-bar`, `cpu-bar` and `memory-bar`;
- the threshold colour classifiers;
- `colorize_text`;
- the uptime, battery-time and weather-summary formatters;
- the keyword classifiers for the weather emoji and the Termux battery icon;
- the parsers for git porcelain status, git remote URLs, `/proc/meminfo`, `/etc/os-release`, `/proc/loadavg`, the `df` row, `dumpsys battery` and the `ping` `time=` field;
- multi-ping's aggregation;
- git-status's status line;
- each plugin's `register()`.

`register()` results are records with one field per dictionary key.

Library modules the plugins share:

- `Wrappers`: `Option` and `Result`.
- `PyStr`: the Python string operations the plugins use, with the edge cases they meet:
  - `split` always yields at least one piece;
  - `lower` of A–Z and of the Kelvin sign (U+212A), which Python lower-cases to `k`;
  - `strip`, `startswith` and `in`;
  - `replace` with the empty result;
  - `str * n` is `""` for negative `n`.
- `PyNum`: integer text conversion (`int()` of decimal text, `str()` of an integer), `int()` truncation of a real, floor `//` and `%`, and `round` half-to-even. `:.0f` and `:.1f` are read as round-half-even on the exact value.
- `RealArith`: small facts about division of reals.
- `ConfigParser`: `get`, `getint` and `getboolean` on one section.
- `PyDict`: the "loop over lines into a dict" idiom. A later key overwrites an earlier one, and a line whose unpacking raises abandons the loop.

Numbers are mathematical integers. Percentages are exact rationals (`real`).

A `File<T>` is `Absent`, `Unreadable` or `Contents(data)`. It stands for a path that does not exist, a read that raises, or the text read.

Every command run (`git`, `df`, `ping`, `dumpsys`, `uname`) and every HTTP response is an input value, and so are `shutil.disk_usage` and `psutil`.

Most plugins catch their own exceptions and return fallback text, so the line still renders. Three places differ:

- `battery-status`'s `register` does not catch a configuration value that fails to convert (`BatteryStatus.Register` returns `Err`).
- `weather`'s `register` has no `try` at all (see Left out).
- `disk-usage` does catch its exception, but it never manages to read its configuration, so it always shows its error text (see Findings).

## Model

| member | source | states |
|---|---|---|
| Ansi.ColorCode | plugins/disk-bar.plugin.py:252-262 | the code is always one of 30–37; a name whose lower-cased form (A–Z and the Kelvin sign lower-cased) is one of the eight colours gets that colour's code, and any other name gets 37 |
| Ansi.DecolorizeColorize | plugins/disk-bar.plugin.py:250-263 | the coloured text can be taken apart again: the escape yields the colour's code and exactly the original text |
| Ansi.ColorizeInjective | plugins/disk-bar.plugin.py:263 | two equal coloured strings have the same text and the same code |
| Ansi.KnownColorsDistinct | plugins/disk-bar.plugin.py:252-262 | two different known colour names never share a code |
| Ansi.KelvinNamesBlack | plugins/disk-bar.plugin.py:252-262 | `BLAC` followed by the Kelvin sign lower-cases to `black` and gets 30 |
| Levels.Classify | plugins/disk-bar.plugin.py:101-108 | high exactly at or above the high threshold; medium exactly from the medium threshold up to the high one; low otherwise |
| Levels.ClassifyMonotone | plugins/disk-bar.plugin.py:101-108 | a larger value never gets a lower level |
| Levels.HighShadowsMedium | plugins/disk-bar.plugin.py:101-108 | when the high threshold is not above the medium one, the medium level is unreachable because the high test comes first |
| Rows.Row | plugins/cpu-bar.plugin.py:18-19 | `full*n + empty*(width-n)` has length `max(n,0)·len(full) + max(width-n,0)·len(empty)`; with one-character cells it is all filled cells followed by all empty cells |
| Rows.RowInRange | plugins/disk-bar.plugin.py:137-142 | for `0 ≤ n ≤ width` the row is exactly `width` cells, no empty cell precedes a filled one, and exactly the first `n` cells are filled |
| UsageBar.CreateBar | plugins/cpu-bar.plugin.py:17-20 | the bar is the filled cells `█` and then the empty cells `░`, with `str * negative` treated as empty |
| UsageBar.FilledCellsInRange | plugins/cpu-bar.plugin.py:18 | for a percentage in [0, 100] the filled count lies in [0, width] and is within one half of the exact share |
| UsageBar.BarShape | plugins/cpu-bar.plugin.py:18-19 | for a percentage in [0, 100] the bar is exactly `width` long, with every `█` before every `░` |
| UsageBar.BarEnds | plugins/cpu-bar.plugin.py:18-19 | 0 % is all `░` and 100 % is all `█` |
| UsageBar.FilledCellsMonotone | plugins/cpu-bar.plugin.py:18 | a higher percentage never fills fewer cells |
| CpuBar.Register | plugins/cpu-bar.plugin.py:17-26 | exactly one key, `cpu_bar`: the bar of the CPU percentage, filled cells first, and 20 cells for a percentage in [0, 100] |
| MemoryBar.Register | plugins/memory-bar.plugin.py:16-25 | exactly one key, `memory_bar`: the bar of the memory reading's `percent`, filled cells first, and 20 cells for a percentage in [0, 100] |
| DiskBar.FilledLengthInRange | plugins/disk-bar.plugin.py:130-131 | `int(bar_length*percent/100)` lies in [0, bar_length] for a percentage in [0, 100] and never exceeds the exact share |
| DiskBar.GradientChars | plugins/disk-bar.plugin.py:153-155 | at least four characters; the configured ones are kept when there are at least four |
| DiskBar.GradientCell | plugins/disk-bar.plugin.py:158-165 | every cell is one of the gradient characters, and a cell beyond the percentage is the first character |
| DiskBar.GradientRow | plugins/disk-bar.plugin.py:157-166 | the gradient has one cell per position of `range(bar_length)` |
| DiskBar.GradientBar | plugins/disk-bar.plugin.py:157-166 | the character-appending loop builds exactly the cell-by-cell gradient row |
| DiskBar.InProgressIffFilled | plugins/disk-bar.plugin.py:130-160 | the gradient's per-cell test `(i+1)/bar_length <= percent/100` holds exactly for the cells the other styles fill |
| DiskBar.GradientFullEnd | plugins/disk-bar.plugin.py:162 | at 100 % or more the last cell is the last gradient character |
| DiskBar.CreateBar | plugins/disk-bar.plugin.py:122-176 | `N/A` without a reading; a modern bar is `[`, the row of the configured filled and empty characters, `]`; blocks has no brackets; gradient is `bar_length` cells; classic, simple and unknown styles are bracketed rows of their own two characters |
| DiskBar.StyleCells | plugins/disk-bar.plugin.py:140-176 | each bracketed style's filled and empty characters differ |
| DiskBar.BracketedBarShape | plugins/disk-bar.plugin.py:130-176 | for a percentage in [0, 100], the bar `create_bar` draws in the modern style (with one-character cells), classic, simple or an unknown style is exactly `bar_length` cells between `[` and `]`, and a cell is that style's filled character exactly when it is among the first `filled_length` |
| DiskBar.DefaultBar | plugins/disk-bar.plugin.py:75-139 | with the fallback settings a bar is 12 characters: ten cells of `■` up to `filled_length` and `□` after it, in brackets |
| DiskBar.UsageColor | plugins/disk-bar.plugin.py:101-108 | the high colour at or above the high threshold, the medium colour from the medium threshold up to the high one, and the low colour below both |
| DiskBar.FormatSize | plugins/disk-bar.plugin.py:110-120 | `N/A` exactly for no size; below 1 GiB the megabytes rounded half to even with `MB`; from 1 to 10 GiB one decimal with `GB`; from 10 GiB up whole gigabytes; each figure reads back as its digits |
| DiskBar.DiskBarParts | plugins/disk-bar.plugin.py:193-204 | the optional `label:`, the bar, the optional `N%` and the optional `(used/total)`, in that order and present exactly when enabled |
| DiskBar.CreateDiskBar | plugins/disk-bar.plugin.py:178-207 | `N/A` without a reading; otherwise the space-joined parts wrapped in the code of the usage colour |
| DiskBar.SummaryOf | plugins/disk-bar.plugin.py:220-248 | `No disks` in red when nothing is readable; any critical partition gives `🚨 N crit` ahead of the average; otherwise `⚠️  high` in the medium colour exactly when the mean over readable partitions reaches the medium threshold, and `✓ ok` in the low colour below it |
| DiskBar.SummaryBar | plugins/disk-bar.plugin.py:220-248 | the counting loop computes the summary above |
| DiskBar.CountsAppend | plugins/disk-bar.plugin.py:224-230 | readable count, percentage total and critical count are additive over partitions |
| DiskBar.UnreadableIgnored | plugins/disk-bar.plugin.py:224-235 | an unreadable partition changes nothing in the summary |
| DiskBar.CriticalWins | plugins/disk-bar.plugin.py:238-240 | one partition at or above the high threshold makes the summary the high colour, whatever the others are |
| DiskBar.Register | plugins/disk-bar.plugin.py:265-283 | `disk_bar` and `disk_bar_root` are the `/` bar, then the home and `/boot` bars and the summary; a configuration that fails to convert gives a red `💾 error` in all five keys |
| GitStatus.FindGitRepo | plugins/git-status.plugins.py:77-92 | a repository is found exactly when some ancestor within `max_depth` levels contains `.git`; it is the first one in the order depth 0, 1, …, that is the nearest |
| GitStatus.NearestRepo | plugins/git-status.plugins.py:83-90 | the first level that has `.git` is the deepest such directory, so every other candidate is an ancestor of it |
| GitStatus.Output | plugins/git-status.plugins.py:94-108 | output exactly for a run that exited 0, and that output has no surrounding blanks |
| GitStatus.GitBranch | plugins/git-status.plugins.py:110-117 | never empty: the `--show-current` output, else the `symbolic-ref` output, else `detached` |
| GitStatus.CountOf | plugins/git-status.plugins.py:135-136 | an empty or failed count is 0; otherwise the count succeeds exactly when `int()` accepts the text |
| GitStatus.UnpushedCommitsAsWritten | plugins/git-status.plugins.py:124-137 | a detached head yields the bare integer 0, and any other branch yields the two counts |
| GitStatus.UnpushedCountsOfNumbers | plugins/git-status.plugins.py:130-137 | printed counts read back as the same push and pull numbers |
| GitStatus.UnpushedCommitsCorrected | plugins/git-status.plugins.py:124-137 | always the two counts; a detached head has zero of each |
| GitStatus.RemoteName | plugins/git-status.plugins.py:139-149 | a name exactly when the remote is non-empty and contains `/`; the name itself has no `/` |
| GitStatus.RemoteNameOfGitUrl | plugins/git-status.plugins.py:145-147 | `…/name.git` gives `name` |
| GitStatus.RemoteNameOfPlainUrl | plugins/git-status.plugins.py:145-148 | `…/name` without `.git` gives `name` unchanged |
| GitStatus.RepoName | plugins/git-status.plugins.py:183 | the remote's name when there is one, else the directory's name |
| GitStatus.ChangeCountLines | plugins/git-status.plugins.py:208 | `len(status.split('\n'))` is one more than the number of newlines |
| GitStatus.CommitParts | plugins/git-status.plugins.py:211-222 | the push piece `🚀+N` (or `↑N` without icons) first and the pull piece `📥+M` (or `↓M`) last, each present exactly when its count is positive |
| GitStatus.StatusParts | plugins/git-status.plugins.py:202-222 | 🌿 when icons are on, then the branch, then `±N` with N the status line count exactly when the status is non-empty, and then exactly the push and pull pieces |
| GitStatus.StatusColor | plugins/git-status.plugins.py:190-196 | unpushed wins over dirty, and dirty wins over clean |
| GitStatus.StatusCodeOfLine | plugins/git-status.plugins.py:236-238 | a line starting with a non-blank character is counted under that character |
| GitStatus.CountCodes | plugins/git-status.plugins.py:233-240 | the counting loop computes the per-code tallies |
| GitStatus.FileStats | plugins/git-status.plugins.py:233-240 | the tallies of the status lines' codes |
| GitStatus.ChangeParts | plugins/git-status.plugins.py:242-252 | at most four `X:n` parts with X among M, A, D and ?; none exactly when all four counts are zero |
| GitStatus.CodePiece | plugins/git-status.plugins.py:246-252 | `X:n` is the code, a colon and the digits of n, with no space |
| GitStatus.ShownCodes | plugins/git-status.plugins.py:242-252 | the shown codes are those of M, A, D and ? with a positive count, all of them, strictly in that order |
| GitStatus.ChangePartsContents | plugins/git-status.plugins.py:242-252 | each part is `X:n` with n the positive count of code X, the codes run in the order M, A, D, ?, and every such code has its part |
| GitStatus.Changes | plugins/git-status.plugins.py:229-258 | `clean` for no changes; the non-detailed form is `±N` with N the number of status lines |
| GitStatus.ChangesReadBack | plugins/git-status.plugins.py:239-258 | a detailed `git_changes` splits on spaces into exactly its parts, and each `X:n` reads back as the number of status lines with code X |
| GitStatus.CleanIffEmpty | plugins/git-status.plugins.py:229-258 | `clean` appears exactly when the status output is empty or missing |
| GitStatus.RenamesOnlyShowEmpty | plugins/git-status.plugins.py:239-252 | a status of renames only shows an empty detail, because R is counted but never printed |
| GitStatus.Commits | plugins/git-status.plugins.py:261-266 | `synced` exactly when neither count is positive; otherwise `push+N pull+M`, `push+N` alone or `pull+M` alone, as the counts are positive |
| GitStatus.CommitsReadBack | plugins/git-status.plugins.py:261-266 | with commits both ways the text splits into a `push+` and a `pull+` word whose numbers read back as the two counts |
| GitStatus.NoRepo | plugins/git-status.plugins.py:168-178 | outside a repository only `git_status` is non-empty, and it is `No Git repo` (with ❌ when icons are on) in the no-repo colour |
| GitStatus.RepoPlaceholders | plugins/git-status.plugins.py:180-274 | each key is its part: the branch, the commit summary, the changes, the repository name, and the status line in the status colour |
| GitStatus.FormatGitOutputAsWritten | plugins/git-status.plugins.py:166-274 | no repository gives the no-repo dict; a detached head raises, because it subscripts the integer 0; otherwise the repository dict of the two counts, or the error of the first count `int()` rejects |
| GitStatus.FormatGitOutput | plugins/git-status.plugins.py:166-274 | the same, except that a detached head succeeds with zero pushes and pulls; it can fail only on a count `int()` rejects |
| GitStatus.AsWrittenOffDetached | plugins/git-status.plugins.py:166-187 | outside a repository or off a detached head the as-written and corrected formatting agree |
| GitStatus.NoRepoByDefault | plugins/git-status.plugins.py:168-178 | with the fallback settings the no-repo text is `❌ No Git repo` in white (code 37) |
| GitStatus.ErrorPlaceholders | plugins/git-status.plugins.py:282-288 | `Git error: …` and `error` in the four other keys |
| GitStatus.Outcome | plugins/git-status.plugins.py:276-288 | any exception, in the configuration or in the formatting, becomes the error placeholders |
| GitStatus.RegisterAsWritten | plugins/git-status.plugins.py:276-288 | a configuration error gives the error dict; outside a repository `No Git repo`; inside one on a detached head the whole error dict for the failed subscript (`Git error:` and `error` in the other four keys); on a branch, the dict of the first repository found, or the error dict of a count `int()` rejects |
| GitStatus.Register | plugins/git-status.plugins.py:276-288 | the same, except that a detached head shows the branch `detached` and `synced` |
| MultiPing.ServersUpTo | plugins/multi-ping.plugin.py:87-90 | at most one server per index, and no empty server name |
| MultiPing.NamesUpTo | plugins/multi-ping.plugin.py:87-94 | display names only for collected servers, and never empty |
| MultiPing.CollectServers | plugins/multi-ping.plugin.py:84-94 | the loop over `server-1`…`server-8` collects the servers in index order, each with its display name |
| MultiPing.ServerKept | plugins/multi-ping.plugin.py:88-90 | every non-empty `server-i` within range is collected |
| MultiPing.LastNameWins | plugins/multi-ping.plugin.py:92-94 | a server listed twice keeps the later display name |
| MultiPing.ParseColors | plugins/multi-ping.plugin.py:80-81 | one colour per comma-separated piece (one more than the commas), each stripped |
| MultiPing.ReadConfig | plugins/multi-ping.plugin.py:69-112 | the colours, the servers and their names, the display format with default `compact`, and the converted `show_offline` flag |
| MultiPing.FirstLineWith | plugins/multi-ping.plugin.py:143-144 | nothing exactly when no line contains `time=`; otherwise a line of the output that contains it |
| MultiPing.FirstLineWithAfter | plugins/multi-ping.plugin.py:143-145 | the first matching line is chosen even when later lines match too |
| MultiPing.PingTimeOfReplyLine | plugins/multi-ping.plugin.py:145-148 | on a reply line `… time=<t> ms` the text passed to `float()` is exactly `<t>` |
| MultiPing.PingTimeOfOutput | plugins/multi-ping.plugin.py:143-148 | the same holds for a whole `ping` output whose earlier lines have no `time=` |
| MultiPing.ColorFor | plugins/multi-ping.plugin.py:213 | the colour is one of the configured colours, and the i-th while there are enough of them |
| MultiPing.ColorCycles | plugins/multi-ping.plugin.py:213 | the colours repeat with the period of their count: server `i + len(colors)` gets the colour of server `i` |
| MultiPing.DisplayName | plugins/multi-ping.plugin.py:214 | the configured display name of a host, or the host itself when it has none |
| MultiPing.Icons | plugins/multi-ping.plugin.py:212-237 | one icon per server, in server order, ✅ exactly for an answer |
| MultiPing.MeanBounds | plugins/multi-ping.plugin.py:240-241 | the mean of the successful times lies between their lower and upper bounds |
| MultiPing.Entry | plugins/multi-ping.plugin.py:218-237 | an answer gives `name: t.tms` (detailed) or `tms` in the server's colour; a failure gives `name: timeout` or `✗` in red when offline servers are shown, and no entry otherwise |
| MultiPing.EntriesCount | plugins/multi-ping.plugin.py:208-237 | the number of result entries is the number of answers, plus the failures when offline servers are shown |
| MultiPing.Summary | plugins/multi-ping.plugin.py:240-262 | `short` is `k/n ok: avg ms` with k the answers and n the servers; `status` is the icons joined by spaces; `detailed` is the entries and a white `Avg:` (detailed), the icons (status), or the entries joined by spaces |
| MultiPing.MultiPingResults | plugins/multi-ping.plugin.py:189-270 | the fixed red no-servers result, the fixed all-offline result, or the summary of the entries and successful times |
| MultiPing.NoAnswers | plugins/multi-ping.plugin.py:240-270 | when no server answers there are no successful times, so the all-offline branch is taken |
| MultiPing.StatusRow | plugins/multi-ping.plugin.py:255 | the status row splits back on spaces into exactly one icon per server |
| MultiPing.Register | plugins/multi-ping.plugin.py:272-289 | the four results under `mping`, `mping_short`, `mping_avg` and `mping_status`; on an exception, the message twice, `error` and ⚠️ |
| BatteryStatus.TimeRemaining | plugins/battery-status.plugin.py:87-90 | a time exactly for a positive minute count, of the form `…h…m` |
| BatteryStatus.TimeRemainingRoundTrip | plugins/battery-status.plugin.py:88-90 | reading `XhYm` back as `60·X + Y` gives the original minute count |
| BatteryStatus.DurationOf | plugins/battery-status.plugin.py:90 | `XhYm` reads back as `60·X + Y` for any hours and minutes |
| BatteryStatus.BatteryInfoOf | plugins/battery-status.plugin.py:49-99 | a reading exactly when the capacity file is there and parses and `time_to_empty`, when present, parses; the status is the stripped file, `Unknown` when missing; without `time_to_empty` no time, and with it the time of its minute count |
| BatteryStatus.BatteryFilesReadBack | plugins/battery-status.plugin.py:49-99 | files holding a capacity, a status and a positive minute count give that capacity, the stripped status and the `XhYm` of those minutes |
| BatteryStatus.LevelColor | plugins/battery-status.plugin.py:126-131 | red exactly at 15 % or less, yellow exactly from 16 % to 30 %, green exactly above 30 % |
| BatteryStatus.ColorizeBatteryLevel | plugins/battery-status.plugin.py:121-124 | a non-integer capacity leaves the text unchanged |
| BatteryStatus.BatteryColorsAgree | plugins/battery-status.plugin.py:133-141 | the plugin's own escape table gives exactly what `colorize_text` would give for the same colour |
| BatteryStatus.LevelCode | plugins/battery-status.plugin.py:134-137 | each of its escapes carries the standard code of its colour |
| BatteryStatus.Icon | plugins/battery-status.plugin.py:162-169 | `Charging`, `Discharging` and `Full` get their configured icons, and any other status the unknown icon |
| BatteryStatus.TimeSuffix | plugins/battery-status.plugin.py:176-179 | ` (t)` exactly when there is a time, `show_time` is on and the status is exactly `Discharging` |
| BatteryStatus.PlaceholdersOf | plugins/battery-status.plugin.py:148-193 | `No battery` without a reading; otherwise icon, level, suffix, `Not charging` for `Unknown`, and the time or `N/A` independent of the status |
| BatteryStatus.Register | plugins/battery-status.plugin.py:143-146 | fails exactly when the configuration fails to convert, which `register` does not catch |
| TermuxUptime.FormatUptime | plugins/termux-uptime.plugin.py:188-199 | the text starts with a number and is at least two characters; its pieces are pinned by UptimeTextUnits |
| TermuxUptime.UptimeTextUnits | plugins/termux-uptime.plugin.py:194-199 | the pieces are, in order, `Nd`, `Nh` and `Nm`, each reading back as days·1440, hours·60 and minutes; days only when nonzero, hours only when days or hours are |
| TermuxUptime.UptimeParts | plugins/termux-uptime.plugin.py:194-199 | three parts when days are positive, else two when hours are positive, else one |
| TermuxUptime.UptimeUnits | plugins/termux-uptime.plugin.py:190-192 | hours below 24, minutes below 60, and the three together are the whole minutes of the uptime |
| TermuxUptime.UptimeReadsBack | plugins/termux-uptime.plugin.py:188-199 | reading the text back as `d·1440 + h·60 + m` gives the uptime's whole minutes |
| TermuxUptime.UptimeTextReadsBack | plugins/termux-uptime.plugin.py:194-199 | any days, hours and minutes read back to their total |
| TermuxUptime.UptimeTextComponents | plugins/termux-uptime.plugin.py:194-199 | the text has exactly three, two or one space-separated pieces |
| TermuxUptime.Approximate | plugins/termux-uptime.plugin.py:83-122 | an approximate uptime is `~` followed by the formatted uptime |
| TermuxUptime.TermuxUptime | plugins/termux-uptime.plugin.py:31-90 | `unknown` exactly when no source is available; a `~` prefix exactly when only the Termux directory's age is known; otherwise the first available of `/proc/uptime`, `dmesg` and `/proc/stat`, formatted, or the approximate directory age |
| TermuxUptime.TermuxSession | plugins/termux-uptime.plugin.py:92-125 | `unknown` exactly when neither the process start nor the home directory's access time is known; `~` exactly for the home-directory fallback; the formatted process age when it is known, else the approximate access age |
| TermuxUptime.KindOf | plugins/termux-uptime.plugin.py:135-140 | level, then scale, then status-or-charging, checked case-insensitively in that order |
| TermuxUptime.FieldValue | plugins/termux-uptime.plugin.py:136 | a value exactly when the line has a `:`; the value is the text up to the next `:` |
| TermuxUptime.ReadLinesFails | plugins/termux-uptime.plugin.py:133-140 | the parse fails exactly when some classified line has no `:` |
| TermuxUptime.LastLineWins | plugins/termux-uptime.plugin.py:133-140 | each field holds the value of the last line of its kind |
| TermuxUptime.UnseenKindEmpty | plugins/termux-uptime.plugin.py:133-142 | a field no line mentions stays unset |
| TermuxUptime.IconAsWritten | plugins/termux-uptime.plugin.py:147-177 | 🔌 exactly when the lower-cased status contains `charging` (or `ac` on the dumpsys path), else ✅ exactly when it contains `full`, else 🔋 |
| TermuxUptime.DischargingShowsPlug | plugins/termux-uptime.plugin.py:172-173 | `discharging` gets the charging plug |
| TermuxUptime.NotChargingShowsPlug | plugins/termux-uptime.plugin.py:172-177 | `not charging` also gets the plug as written, and the battery with the corrected test |
| TermuxUptime.Icon | plugins/termux-uptime.plugin.py:147-177 | 🔌 exactly for a status that says `charging` but neither `discharging` nor `not charging` (or `ac` on the dumpsys path), else ✅ exactly for `full`, else 🔋 |
| TermuxUptime.DischargingCorrected | plugins/termux-uptime.plugin.py:172-177 | with the intended test, `discharging` gets the battery |
| TermuxUptime.ChargingCorrected | plugins/termux-uptime.plugin.py:172-173 | and `charging` still gets the plug |
| TermuxUptime.BatteryIcon | plugins/termux-uptime.plugin.py:147-177 | the as-written rule gives the plugin's icon and the corrected rule the corrected one |
| TermuxUptime.SysfsBatteryText | plugins/termux-uptime.plugin.py:156-183 | `🔋 N/A` exactly without a capacity file; otherwise the icon of the stripped, lower-cased status (`unknown` when missing) and the stripped capacity, as `icon level%` |
| TermuxUptime.Reading | plugins/termux-uptime.plugin.py:154-179 | `{icon} {level}%` ends in `%` and is neither of the failure texts |
| TermuxUptime.TermuxBattery | plugins/termux-uptime.plugin.py:127-186 | `🔋 error` exactly when the dumpsys parse raised; a dumpsys level gives its reading with the dumpsys icon rule; a failed dumpsys or one without a level falls back to the sysfs files |
| TermuxUptime.SysfsDischarging | plugins/termux-uptime.plugin.py:159-183 | a sysfs battery whose status file says `Discharging` reads `🔌 level%` as written and `🔋 level%` when corrected |
| TermuxUptime.NotAnError | plugins/termux-uptime.plugin.py:31-125 | the uptime and session texts never start with `error` |
| TermuxUptime.Register | plugins/termux-uptime.plugin.py:201-208 | the three readings under `tuptime`, `tsession` and `tbattery`, the battery with the icon test as written, so the `error:` fallback is never reached |
| DiskUsage.DiskConfig | plugins/disk-usage.plugin.py:48-63 | a configuration exactly when both thresholds and `show_emoji` convert, and then it holds the converted values and the stripped comma-separated paths, at least one |
| DiskUsage.DefaultDiskConfig | plugins/disk-usage.plugin.py:59-62 | an empty section gives 85, 95, the emoji on, and `/` alone |
| DiskUsage.PathsListed | plugins/disk-usage.plugin.py:62 | comma-joined paths come back one by one |
| DiskUsage.SettingsIgnorePaths | plugins/disk-usage.plugin.py:59-62 | the `paths` option does not affect the thresholds or the emoji switch |
| DiskUsage.UsedPercent | plugins/disk-usage.plugin.py:77-78 | a non-negative percentage exactly for a readable path of non-zero size |
| DiskUsage.DiskColor | plugins/disk-usage.plugin.py:65-72 | red exactly at or above critical, yellow exactly between warning and critical, green otherwise |
| DiskUsage.ShownPercentClose | plugins/disk-usage.plugin.py:86-91 | the shown figure is within one below and one half above the exact percentage |
| DiskUsage.ShownPercentMonotone | plugins/disk-usage.plugin.py:86-91 | a fuller disk never shows a smaller figure |
| DiskUsage.PercentDigits | plugins/disk-usage.plugin.py:86-91 | the figure is plain digits spelling the shown number |
| DiskUsage.FormatDiskUsage | plugins/disk-usage.plugin.py:74-94 | `💾 N/A` in red on failure; otherwise the optional emoji, the figure and `%`, in the threshold colour |
| DiskUsage.PercentReadsBack | plugins/disk-usage.plugin.py:86-91 | the figure after the emoji reads back as the shown number |
| DiskUsage.FailureIsNotAFigure | plugins/disk-usage.plugin.py:93-94 | the failure text never reads as a figure |
| DiskUsage.Percents | plugins/disk-usage.plugin.py:115-118 | one percentage per configured path, in order |
| DiskUsage.CountsPartition | plugins/disk-usage.plugin.py:120-123 | a path counts as critical or as warning, never both |
| DiskUsage.CountLevelZero | plugins/disk-usage.plugin.py:115-125 | a count is zero exactly when no readable path is at that level |
| DiskUsage.CountsAppend | plugins/disk-usage.plugin.py:115-125 | the counts are additive over paths |
| DiskUsage.MultiSummary | plugins/disk-usage.plugin.py:127-134 | red with `N crit` exactly with a critical path; yellow with `N warn` exactly with a warning path and no critical one, N being the count; otherwise `ok` |
| DiskUsage.AllClearIff | plugins/disk-usage.plugin.py:115-134 | `ok` exactly when every readable path is below both thresholds |
| DiskUsage.UnreadableSkipped | plugins/disk-usage.plugin.py:124-125 | an unreadable path changes nothing in the summary |
| DiskUsage.DiskSummary | plugins/disk-usage.plugin.py:96-134 | a single path is formatted on its own; several paths go through the counting loop, which computes the summary above |
| DiskUsage.ErrorPlaceholders | plugins/disk-usage.plugin.py:190-197 | all four keys hold the same text, `💾 err` under code 31 |
| DiskUsage.DiskConfigAsWritten | plugins/disk-usage.plugin.py:9-55 | the configuration never loads |
| DiskUsage.RegisterAsWritten | plugins/disk-usage.plugin.py:151-197 | all four keys are the red error, whatever the disks hold |
| DiskUsage.Register | plugins/disk-usage.plugin.py:151-188 | with the import in place: the first path, `/`, home and the summary, each in its colour; a value that fails to convert gives the error |
| DiskUsage.CorrectedShowsUsage | plugins/disk-usage.plugin.py:151-188 | a half-full root disk shows a green figure, not the error |
| Weather.ReadConfig | plugins/weather.plugin.py:42-63 | the configured city, API key, units and language when set, and otherwise Moscow, no key, metric and en |
| Weather.DefaultWeatherConfig | plugins/weather.plugin.py:53-56 | an empty section gives Moscow, no key, metric and en |
| Weather.WeatherEmoji | plugins/weather.plugin.py:119-138 | an emoji is always chosen, never the failure mark |
| Weather.EmojiByRules | plugins/weather.plugin.py:121-138 | the emoji is the first rule, in order, that the lower-cased description mentions |
| Weather.EmojiIgnoresCase | plugins/weather.plugin.py:121 | the description's letter case does not matter |
| Weather.ThunderstormWithRain | plugins/weather.plugin.py:123-130 | `thunderstorm with rain` gets the rain emoji, because rain is checked before thunder |
| Weather.ByIp | plugins/weather.plugin.py:65-91 | a failure line exactly when the lookup failed; otherwise the line starts with the description's emoji |
| Weather.OpenWeather | plugins/weather.plugin.py:93-117 | the key-missing text exactly for an empty key; otherwise a failure line exactly when the request failed |
| Weather.GetWeather | plugins/weather.plugin.py:140-149 | OpenWeatherMap exactly when a key is set, the IP lookup otherwise |
| Weather.WeatherFailureIff | plugins/weather.plugin.py:140-149 | the result is a failure exactly when the chosen source failed, and never the key-missing text |
| Weather.ShortForm | plugins/weather.plugin.py:156 | the mark, then the whole line up to 20 characters, or its first 20 and `...` |
| Weather.ShortFormKeepsStart | plugins/weather.plugin.py:156 | the short form keeps the line's first characters |
| Weather.Register | plugins/weather.plugin.py:151-157 | `weather` is the weather line and `weather_short` its short form |
| Weather.NoKeyUsesIp | plugins/weather.plugin.py:145-149 | without an API key, `weather` is the IP-based line |
| SystemInfo.CpuLine | plugins/system-info.plugin.py:12-13 | the first line starting with `cpu `, or none exactly when there is none |
| SystemInfo.ParseAll | plugins/system-info.plugin.py:15 | every field converts, or the whole conversion fails |
| SystemInfo.CpuLoad | plugins/system-info.plugin.py:15-17 | with non-negative counters the load lies in [0, 100] |
| SystemInfo.CpuFigure | plugins/system-info.plugin.py:14-18 | `unknown` or a percentage |
| SystemInfo.CpuUsage | plugins/system-info.plugin.py:7-20 | `unknown` without the file; nothing (shown as `None`) exactly when no line starts with `cpu ` |
| SystemInfo.CpuUsageOfCounters | plugins/system-info.plugin.py:12-18 | a `cpu` line of counters gives its load, which lies in [0, 100] |
| SystemInfo.ParseAllDecimal | plugins/system-info.plugin.py:15 | printed counters read back unchanged |
| SystemInfo.CpuTemperature | plugins/system-info.plugin.py:22-39 | `unknown` or degrees; `unknown` when no sensor file exists |
| SystemInfo.FirstSensorDecides | plugins/system-info.plugin.py:32-36 | the first existing sensor file decides, whatever follows |
| SystemInfo.TemperatureOfSensor | plugins/system-info.plugin.py:32-36 | a sensor holding a millidegree count shows that count in degrees |
| SystemInfo.MemEntry | plugins/system-info.plugin.py:48-49 | the unpacking fails exactly for a line without `:` |
| SystemInfo.MemTableFails | plugins/system-info.plugin.py:47-61 | the table fails exactly when some line lacks `:` |
| SystemInfo.MemEntryOfLine | plugins/system-info.plugin.py:48-49 | `Key:   N kB` gives the key and `N` |
| SystemInfo.MemTableOfLines | plugins/system-info.plugin.py:44-49 | well-formed lines give the dictionary of their keys and numbers |
| SystemInfo.UsageOf | plugins/system-info.plugin.py:53-59 | `total // 1024`, `used // 1024` and the exact used share |
| SystemInfo.MemoryOfTable | plugins/system-info.plugin.py:51-61 | no `MemTotal` is a failure |
| SystemInfo.MemoryOfFile | plugins/system-info.plugin.py:41-61 | a meminfo file gives the usage of its total and available figures |
| SystemInfo.AvailablePreferred | plugins/system-info.plugin.py:52 | `MemAvailable` is used when present |
| SystemInfo.FreeWithoutAvailable | plugins/system-info.plugin.py:52 | otherwise `MemFree` is used |
| SystemInfo.SwapOfTable | plugins/system-info.plugin.py:89-100 | no `SwapTotal` gives zeros |
| SystemInfo.SwapOfFile | plugins/system-info.plugin.py:79-102 | a meminfo file with swap gives the usage of its swap figures |
| SystemInfo.SwapListed | plugins/system-info.plugin.py:89-99 | listed swap is computed from `SwapTotal` and `SwapFree` |
| SystemInfo.DfRowOfOutput | plugins/system-info.plugin.py:66-74 | the second line's columns 2, 1 and 4 are used, total and percent |
| SystemInfo.DfRowOneLine | plugins/system-info.plugin.py:68-75 | output of one line gives the `0`/`0`/`0%` default |
| SystemInfo.LoadAverageOfFile | plugins/system-info.plugin.py:104-109 | the first three fields joined by `, ` |
| SystemInfo.LoadAverageShort | plugins/system-info.plugin.py:108-111 | fewer than three fields give `unknown` |
| SystemInfo.OsEntry | plugins/system-info.plugin.py:121-123 | a pair exactly for a line with `=`; the key has no `=` |
| SystemInfo.LastPrettyNameWins | plugins/system-info.plugin.py:119-124 | the last `PRETTY_NAME="…"` line gives the name, unquoted |
| SystemInfo.NoPrettyNameUnknown | plugins/system-info.plugin.py:124 | without `PRETTY_NAME` the name is `Unknown` |
| SystemInfo.OsName | plugins/system-info.plugin.py:113-131 | an os-release file without `PRETTY_NAME` gives `Unknown` |
| SystemInfo.IssueBanner | plugins/system-info.plugin.py:125-127 | without os-release, `/etc/issue`'s banner is shown with its `\n` and `\l` escapes removed |
| SystemInfo.KernelOfRelease | plugins/system-info.plugin.py:133-137 | `uname -r`'s output line gives the release |
| SystemInfo.UsageText | plugins/system-info.plugin.py:151 | the RAM text starts with the used figure and `/` and ends in `%)` |
| SystemInfo.UsageTextReadsBack | plugins/system-info.plugin.py:151 | the text before the first `/` reads back as the used megabytes, and the rest starts with the total and `MB (` |
| SystemInfo.SwapDisabledIff | plugins/system-info.plugin.py:153 | `disabled` exactly when the swap total in megabytes is not positive |
| SystemInfo.TinySwapDisabled | plugins/system-info.plugin.py:92-153 | swap under 1024 kB is positive yet shows as `disabled` |
| SystemInfo.Register | plugins/system-info.plugin.py:141-157 | each of the nine keys is its label and its reading: CPU usage (`None` shown as such), temperature, load, RAM text, disk text, swap (`disabled` exactly when the swap usage has no whole megabyte), OS, kernel and the summary |
| SystemInfo.RegisterWithoutFiles | plugins/system-info.plugin.py:141-157 | with nothing readable every key falls back to its default text |
| SystemInfo.NoCpuLineShowsNone | plugins/system-info.plugin.py:12-20 | a stat file without a `cpu ` line shows `None` |

## Left out

- The host engine: the plugin loader, version gate, auto-updater, timeout sandbox, result cache and template renderer are not part of this model.
- I/O is not modelled: files under `/proc`, `/sys` and `/etc`, the configuration file, `subprocess`, `urllib`, `psutil`, `shutil.disk_usage`, clocks and process ids. Their results are parameters, with `Option`, `Result` or `File` standing for absence and exceptions.
- Floating point: percentages, sizes, times and temperatures are exact rationals. Binary rounding error and `float()` parsing are not modelled; `:.0f`/`:.1f` is round-half-even on the exact value.
- `get_git_config`, `get_battery_config`, `get_disk_bar_config` and multi-ping's `getint`/`getboolean` options are inputs, already converted or failed: `attempts` and `timeout` only affect pinging, which is an input.
- GitStatus.GitConfig: the `auto_find` option is read but never consulted, so it is carried and unused.
- `ping_server` is an input per server: the `ping` subprocess, `statistics.mean` over attempts and the 5-second cache are left out. The cache can never work, because `json` is never imported and both its read and its write fall into `except: pass`.
- MultiPing.PingTimeOfReplyLine: `float()` of the extracted text is not modelled; the lemma stops at the text.
- The `dmesg` regular expression, the `btime` line and `time.time()` in `termux-uptime` are left out: each uptime source is an input number of seconds, or absent.
- `/proc/stat` and `/proc/meminfo` are read twice by system-info's `register`; the model reads each once, since nothing changes them between the two reads.
- `disk-bar` reads its configuration on every call; the model takes one configuration record for the whole `register`.
- Python `int()` accepts underscores and surrounding blanks; the model's integer reading accepts an optional sign and digits, after `strip()` where the source strips.
- `readlines` keeps each line's newline; the model's lines are given as a sequence, and the parsers strip where the source strips.
- Weather's HTTP responses are records of the fields the plugin reads; `str()` of the wind speed and the second configuration read inside `get_weather_openweather` are not modelled (both reads see the same file).
- `network-speed`, `crypto-prices` and `system-load` are outside the modelled core: a background thread, network prices and psutil readings with float arithmetic.
- `get_help` texts and plugin metadata constants are not modelled.
- GitStatus.Message: the text of an `int()` failure quotes the offending output in single quotes. Python's `repr` switches to double quotes for text that contains `'` and escapes control characters; that is not modelled.
- PyStr.Lower: lower-cases A–Z and the Kelvin sign only; Python's full Unicode lower-casing (Greek, Cyrillic, `İ` becoming two characters) is not modelled. No colour name, keyword or configuration word the plugins compare against lower-cased text can arise from any other non-ASCII character, so no result changes.
- ConfigParser.Get: `%` interpolation is not modelled. In the source a value with a lone `%` raises `InterpolationSyntaxError` when read, and `%%` reads as `%`; the model returns the raw value.
- Weather.Register: `register` and `get_weather` have no `try`, so a configuration file that fails to parse or an interpolation error escapes from `register`; the model's section is always readable and cannot express that escape.
- `Path.home()` raising (no home directory) in `disk-bar`, `disk-usage` and `weather` is not modelled; the home path is an input.
- `disk-usage` reads its configuration twice, once in `register` and again in `get_disk_summary`; the model reads it once, since nothing changes the file between the two reads.
- `disk-bar` and `disk-usage` query the same path more than once per `register` (`/` twice, then again in the summary pass); the model takes one reading per path, so readings that change between calls are not modelled.

## Findings

| source | as written | input that shows it | evidently intended | confidence | as-written member | corrected member |
|---|---|---|---|---|---|---|
| plugins/git-status.plugins.py:124-188 | `get_unpushed_commits` returns the integer 0 for a detached head, and `format_git_output` then subscripts it | a repository whose branch commands both fail, so the branch is `detached` | zero pushes and zero pulls, shown as `synced` | not executed | GitStatus.RegisterAsWritten | GitStatus.Register |
| plugins/disk-usage.plugin.py:9-55 | `configparser.ConfigParser()` is called, but only `shutil` and `Path` are imported | any call of `register`, for example with a half-full root disk | the configured figures in their colours | not executed | DiskUsage.RegisterAsWritten | DiskUsage.CorrectedShowsUsage |
| plugins/termux-uptime.plugin.py:147-177 | `'charging' in status` also holds for `discharging` and for `not charging` | a sysfs status file holding `Discharging` with capacity `50`, shown as `🔌 50%` | the battery icon 🔋 | not executed | TermuxUptime.SysfsDischarging | TermuxUptime.DischargingCorrected |

`TermuxUptime.Register` keeps the plugin's icon test as written; `TermuxUptime.TermuxBattery` and `TermuxUptime.SysfsBatteryText` take an `IconRule`, and with `Corrected` they use the corrected `Icon`, under which `Discharging` and `Not charging` show 🔋.
