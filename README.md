# check_fr24feed, modelled in Dafny

`check_fr24feed.py` is a monitoring plugin for a Flightradar24 feeder. It fetches the feeder's
`monitor.json` and reads three things from the decoded document:

- how many seconds ago the feeder last sent aircraft data (`feed_last_ac_sent_time`)
- three tracked-aircraft counters
- the feed status and the time of its last connection

It compares the elapsed seconds with the warning and critical thresholds (600 s and 3600 s by
default). It prints the stripped message and, after `|`, the stripped performance data. The OK
message spans two lines, its second being the feed status. A step that fails prints only its own
message, unstripped and without performance data. The check exits with 0 (OK), 1 (WARN),
2 (CRIT) or 3 (UNKNOWN).

The model is split into six modules:

- `Wrappers`: `Option`.
- `PyText`: Python's `str.strip()`, `str(n)` and `int(s)` on strings.
  - `strip()` removes exactly the characters `str.isspace()` accepts.
  - `int(s)` skips a smaller set: ` \t\n\v\f\r` and the non-ASCII whitespace. The ASCII
    separators U+001C..U+001F make it fail.
- `Json`: the decoded document and its values, `data[key]`, `str(v)` and `int(v)`. `int(v)`
  turns bools into 0 and 1, truncates floats, and rejects `None`, NaN, infinities, lists and
  dicts.
- `Clock`: the `datetime` arithmetic of the freshness computation.
  - Instants are microseconds since the epoch.
  - `utcfromtimestamp` fails outside the years 1 to 9999.
  - A `timedelta` is normalised as Python does it.
  - `abs(d).days * 86400 + abs(d).seconds` is proved to be the whole seconds of `|now - t|`.
- `Plugin`: the library helpers `get_perfdata`, `oao` and `coe`.
  - `coe` and `oao` return the printed line and the exit code as an `Output` value instead of
    printing and exiting.
  - `coe` returns a `Run`, which either continues with the payload or exits. This lets `main`
    be written with Dafny's `:-`.
- `Fr24Feed`: `get_sec_last_status`, `get_metrics`, `get_status`, the threshold block and `main`.
  - `Main` is the whole run as a function.
  - `RunCheck` is the same run written step by step, updating `msg`, `state` and `perfdata` in
    place as the Python check does. It is proved equal to `Main`.

Inputs from outside the program are parameters:

- the result of the HTTP fetch (`Attempt<Document>`)
- the parsed command line (`Args`)
- the wall clock (`now`, in microseconds)
- `strftime("%Y-%m-%d %H:%M:%S")` (`formatUtc`)

Where the model fixes behaviour that the code leaves implicit, it follows the code:

- **Elapsed time.** `datetime.utcnow()` carries microseconds. The elapsed time is therefore the
  floor of `|now - t|` in seconds, taken after the absolute value. When the clock is a fraction of
  a second past a whole second, a timestamp `d` seconds in the past counts as `d` seconds old.
  One `d` seconds in the future counts as `d - 1` (`Clock.ElapsedDropsMicroseconds`).
- **Non-string `feed_status`.** In the OK branch, `status['feed_status'] + ' since '` raises
  TypeError when `feed_status` is not a string (a number, a bool, null, a list or a dict). The
  `except` clause then replaces the message with the exception template and the state with 3.
  This is the only exception the threshold block can meet: the thresholds are `int` after
  argument parsing, and `diffSecs` is always an `int`.

## Model

| member | source | states |
|---|---|---|
| PyText.Strip | check_fr24feed.py:98-100 | the result of `strip()` has no whitespace at either end |
| PyText.LStripRemovesSpace | check_fr24feed.py:98-100 | what `lstrip()` removes is whitespace only |
| PyText.RStripRemovesSpace | check_fr24feed.py:98-100 | what `rstrip()` removes is whitespace only |
| PyText.StripIsSlice | check_fr24feed.py:98-100 | `strip()` returns a slice of its input between a whitespace-only prefix and a whitespace-only suffix |
| PyText.StripKeepsAbsent | check_fr24feed.py:98-100 | a character absent from the input is absent from the stripped text |
| PyText.StripIdempotent | check_fr24feed.py:98-100 | stripping twice is stripping once |
| PyText.StripDropsTrailing | check_fr24feed.py:98 | text that begins and ends with a non-space loses exactly its trailing whitespace |
| PyText.StripKeepsPrefix | check_fr24feed.py:98-100 | a prefix that begins and ends with a non-space survives stripping at the head of the line |
| PyText.IntToStr | check_fr24feed.py:314 | `str(n)` is non-empty, has no surrounding whitespace, and is all digits exactly when `n >= 0`; a negative number is `-` followed by digits; neither form has a leading zero unless it is `0` itself |
| PyText.IntStrRoundTrip | check_fr24feed.py:244 | `int(str(n)) == n` for every integer: links the `int()` of line 244 to the `str()` of line 314 |
| PyText.IntToStrInjective | check_fr24feed.py:314 | distinct integers render differently |
| PyText.ParseInt | check_fr24feed.py:244 | `int(s)` succeeds exactly when the text, stripped of `int()`'s whitespace, is digits or a sign followed by digits; the value is the decimal value of the digits, negated after `-` |
| PyText.ParseIntIgnoresPadding | check_fr24feed.py:244 | `int()` ignores its own whitespace around the number |
| PyText.ParseIntRejectsSeparator | check_fr24feed.py:244 | `strip()` removes a leading U+001F but `int()` rejects it, while `int(" 5\n")` is 5 |
| Json.Lookup | check_fr24feed.py:258-260 | `data[key]` succeeds exactly when the document is an object that holds `key`, and yields its value |
| Json.ToStr | check_fr24feed.py:71-85 | `str(v)` of a string is the string itself; of an integer, `str(n)` as `PyText.IntToStr` states it (no leading zeros); of None, `None`; of a bool, `True` or `False` as it is |
| Json.ToInt | check_fr24feed.py:244 | `int(v)` keeps ints, turns bools into 0 and 1, truncates floats, parses strings, and fails on None, NaN, infinities, lists and dicts |
| Json.Truncate | check_fr24feed.py:244 | `int(x)` of a float truncates toward zero |
| Json.IntRenderRoundTrip | check_fr24feed.py:244 | an integer rendered by `str()` converts back with `int()` |
| Clock.FromMicros | check_fr24feed.py:248 | subtraction gives a normalised `timedelta` of the same length, negative in days exactly when negative |
| Clock.Abs | check_fr24feed.py:248 | `abs()` of a `timedelta` is normalised (seconds below a day, microseconds below a second), has non-negative days and the absolute length |
| Clock.TimestampRange | check_fr24feed.py:246 | the timestamp bounds are the first second of 0001-01-01 and the last second of 9999-12-31, by a calendar computation |
| Clock.UtcFromTimestamp | check_fr24feed.py:246 | `utcfromtimestamp(t)` succeeds exactly inside `datetime`'s range |
| Clock.ElapsedSeconds | check_fr24feed.py:248 | `days*24*60*60 + seconds` of the absolute difference is the floor of its length in seconds |
| Clock.ElapsedWholeSecond | check_fr24feed.py:248 | on a whole-second clock the elapsed time is the absolute difference `abs(now - t)` and symmetric in the two instants |
| Clock.ElapsedDropsMicroseconds | check_fr24feed.py:239-248 | with the clock strictly between whole seconds, a timestamp `d` seconds in the past is `d` seconds old and one `d` seconds in the future only `d - 1` |
| Plugin.Coe | check_fr24feed.py:147-151 | `coe` continues with the payload exactly on success; on failure it prints the message unstripped and exits with the given state |
| Plugin.Oao | check_fr24feed.py:90-103 | the exit code is `state`, or 0 under `always_ok`; without perfdata the line is the stripped message; with perfdata the line is the stripped message, a bar, and the stripped perfdata |
| Plugin.OaoSeparates | check_fr24feed.py:97-98 | when the message has no bar character, the first bar of the line separates the stripped message from the stripped perfdata |
| Plugin.OaoAlwaysOkKeepsLine | check_fr24feed.py:97-103 | `always_ok` changes the exit code to 0 and never the printed line |
| Plugin.PerfdataField | check_fr24feed.py:68-87 | a field starts with `'` and ends with a space; with no max, the last slot is empty |
| Plugin.GetPerfdata | check_fr24feed.py:68-87 | the step-by-step appends build exactly `'label'=value[uom];[warn];[crit];[min];[max] ` |
| Plugin.PerfdataSlots | check_fr24feed.py:68-87 | splitting a field at `;` gives back its five slots, each absent component as an empty slot |
| Plugin.CounterFieldExample | check_fr24feed.py:306 | a counter of 5 with floor 0 renders as `'adsb_tracked'=5;;;0; ` |
| Fr24Feed.GetSecLastStatus | check_fr24feed.py:235-252 | succeeds exactly when the sent time is present, converts with `int()` and lies in range; gives the whole seconds since it; otherwise the fixed last-status message |
| Fr24Feed.GetMetrics | check_fr24feed.py:254-265 | succeeds exactly when all three counters are present, copying them unconverted; otherwise the fixed metrics message |
| Fr24Feed.GetStatus | check_fr24feed.py:267-278 | succeeds exactly when both statuses are present and the connection time converts and lies in range; otherwise the fixed status message |
| Fr24Feed.TypeErrorMessage | check_fr24feed.py:327-329 | the exception text the `except` clause builds has no surrounding whitespace |
| Fr24Feed.Evaluate | check_fr24feed.py:312-330 | CRIT exactly above the critical threshold, WARN exactly above the warning but not the critical, OK otherwise when `feed_status` is a string, UNKNOWN otherwise |
| Fr24Feed.VerdictMessages | check_fr24feed.py:312-323 | the CRIT, WARN and OK messages show the elapsed seconds; CRIT and WARN are one line; OK ends with the status line |
| Fr24Feed.NoWarnAboveCrit | check_fr24feed.py:313-319 | with the warning threshold at or above the critical one, WARN never occurs |
| Fr24Feed.ThresholdBlock | check_fr24feed.py:311-330 | the in-place updates of `msg` and `state` produce the verdict `Evaluate` defines |
| Fr24Feed.CountersPerfdata | check_fr24feed.py:305-308 | the counters' performance data begins with `'` and ends with a space |
| Fr24Feed.CountersPerfdataStripped | check_fr24feed.py:305-308 | stripping the performance data removes only the final space of the last field |
| Fr24Feed.Main | check_fr24feed.py:293-332 | the first failing step decides the output (its message, code 3); when all succeed, the code is the verdict's state and the line is the stripped message, a bar, and the stripped counters |
| Fr24Feed.RunCheck | check_fr24feed.py:293-332 | the step-by-step run prints the same line and exits with the same code as `Main` |
| Fr24Feed.MainVerdict | check_fr24feed.py:300-332 | once every step succeeds: exit 2 exactly above critical, 1 exactly above warning, 0 exactly when within both and `feed_status` is a string; the line shows the elapsed seconds |
| Fr24Feed.AlwaysOkIgnored | check_fr24feed.py:332 | as written, flipping `--always-ok` changes neither the line nor the exit code |
| Fr24Feed.MainCorrected | check_fr24feed.py:167-173 | with the flag passed to `oao`: same line; exit 0 under `--always-ok` when all steps succeed; still 3 when a step fails |
| Fr24Feed.HealthyExample | check_fr24feed.py:300-332 | last upload 100 s ago with default thresholds: exit 0, line starts `Feeder: OK - 100s since last upload` and holds `'adsb_tracked'=5;;;0; ` |
| Fr24Feed.CriticalExample | check_fr24feed.py:313-315 | last upload 4000 s ago with default thresholds: exit 2 and the line shows 4000 |
| Fr24Feed.AlwaysOkCounterexample | check_fr24feed.py:332 | with `--always-ok` and a stale feeder, the code as written exits 2 while the corrected `main` exits 0 |

## Left out

- The HTTP fetch (`run_monitor_check`, `requests.get`, `.json()`) is an input: the model starts from its success or failure. The URL built from host and port is not modelled.
- Argument parsing (`parse_args`, argparse's own exit on bad input) is not modelled. `Args` carries the parsed thresholds and flag.
- `datetime.utcnow()` is the parameter `now`. `strftime("%Y-%m-%d %H:%M:%S")` is the parameter `formatUtc`, whose text is not computed.
- The `__main__` handler, which prints a traceback for any uncaught exception, is not modelled: within the modelled core every failure is caught by `coe` or by the threshold block's `except`.
- Failures of `print()` itself are not modelled. In particular, Dafny strings cannot hold a lone surrogate, which `json` decodes from an escape such as `"\ud800"` in `feed_status` or a counter value; printing such text raises UnicodeEncodeError and the `__main__` handler exits with 3. The model assumes every decoded string is printable.
- Fr24Feed.TypeErrorMessage: computes the text only for the one exception the threshold block can raise (TypeError from `feed_status + ' since '`), not the general template.
- PyText.ParseInt: does not accept `_` digit separators or non-ASCII digits, both of which Python's `int()` accepts. It also does not model the 4300-digit limit that Python 3.11 and later (and 3.10.7, 3.9.14, 3.8.14, 3.7.14) impose, because the limit depends on the interpreter version.
- Json.ToStr: `str()` of floats, lists and dicts is carried as text with the value instead of being computed.
- Clock.UtcFromTimestamp: takes `datetime`'s year range as the only limit, as on platforms whose `gmtime` covers it.
- The printing itself and `sys.exit` are modelled as the returned `Output` (line and code), not as effects.

## Findings

| source | as written | input that shows it | evidently intended | confidence | as-written member | corrected member |
|---|---|---|---|---|---|---|
| check_fr24feed.py:332 | `oao(msg, state, perfdata)` leaves `always_ok` at its default `False`, so the parsed `--always-ok` (lines 167-173) has no effect | `--always-ok` with a last upload 4000 s ago and default thresholds: exit code 2 | `oao(msg, state, perfdata, args.ALWAYS_OK)`, so the exit code is 0 under `--always-ok` ("Always returns OK.") | high, not executed | Fr24Feed.AlwaysOkCounterexample | Fr24Feed.MainCorrected |
