/**
 * The fr24feed check itself: the three extraction steps over the decoded
 * `monitor.json`, the threshold verdict, and `main` from the fetch result to the
 * printed line and exit code. The HTTP fetch, argument parsing, the wall clock and
 * `strftime` are inputs: the fetch outcome, `Args`, `now` and `formatUtc`.
 */
module Fr24Feed {
  import opened Wrappers
  import opened PyText
  import opened Json
  import opened Clock
  import opened Plugin

  const DEFAULT_WARN: int := 600
  const DEFAULT_CRIT: int := 3600

  const LAST_STATUS_ERROR: string := "ValueError: Last Status could not be parsed"
  const METRICS_ERROR: string := "ValueError: Metrics could not be parsed"
  const STATUS_ERROR: string := "ValueError: Status could not be parsed"

  const SENT_TIME_KEY: string := "feed_last_ac_sent_time"
  const ADSB_KEY: string := "feed_num_ac_adsb_tracked"
  const NON_ADSB_KEY: string := "feed_num_ac_non_adsb_tracked"
  const SUM_KEY: string := "feed_num_ac_tracked"
  const FEED_STATUS_KEY: string := "feed_status"
  const RX_STATUS_KEY: string := "last_rx_connect_status"
  const CONNECTED_TIME_KEY: string := "feed_last_connected_time"

  /** The parsed command line that `main` reads: thresholds in seconds and `--always-ok`. */
  datatype Args = Args(warn: int, crit: int, alwaysOk: bool)

  /** The dictionary `get_metrics` builds; the values are copied from the document unconverted. */
  datatype Metrics = Metrics(adsbTracked: Value, nonAdsbTracked: Value, sumTracked: Value)

  /** The dictionary `get_status` builds; the connection time is already formatted. */
  datatype Status = Status(feedStatus: Value, lastRxConnectStatus: Value, feedLastConnectedTime: string)

  /** The message and state the threshold block leaves for `oao`. */
  datatype Verdict = Verdict(msg: string, state: int)

  /**
   * `get_sec_last_status(data)` with the clock reading `now` (microseconds since the
   * epoch): succeeds exactly when the sent time is present, converts with `int()` and
   * lies in `datetime`'s range, and then gives the whole seconds between it and `now`.
   */
  function GetSecLastStatus(data: Document, now: int): (r: Attempt<nat>)
    ensures var v := Lookup(data, SENT_TIME_KEY);
      var t := if v.Some? then ToInt(v.value) else None;
      && (r.Success? <==> t.Some? && MIN_TIMESTAMP <= t.value <= MAX_TIMESTAMP)
      && (r.Success? ==> r.value == AbsInt(now - t.value * MICROS_PER_SECOND) / MICROS_PER_SECOND)
      && (r.Failure? ==> r.message == LAST_STATUS_ERROR)
  {
    match Lookup(data, SENT_TIME_KEY)
    case None => Failure(LAST_STATUS_ERROR)
    case Some(v) =>
      match ToInt(v)
      case None => Failure(LAST_STATUS_ERROR)
      case Some(t) =>
        match UtcFromTimestamp(t)
        case None => Failure(LAST_STATUS_ERROR)
        case Some(lastSent) => Success(ElapsedSeconds(now, lastSent))
  }

  /**
   * `get_metrics(data)`: succeeds exactly when all three counters are present, whatever
   * their values, and fails with the fixed metrics message otherwise.
   */
  function GetMetrics(data: Document): (r: Attempt<Metrics>)
    ensures r.Success? <==> data.Fields? && ADSB_KEY in data.fields && NON_ADSB_KEY in data.fields && SUM_KEY in data.fields
    ensures r.Success? ==> r.value == Metrics(data.fields[ADSB_KEY], data.fields[NON_ADSB_KEY], data.fields[SUM_KEY])
    ensures r.Failure? ==> r.message == METRICS_ERROR
  {
    match (Lookup(data, ADSB_KEY), Lookup(data, NON_ADSB_KEY), Lookup(data, SUM_KEY))
    case (Some(adsb), Some(nonAdsb), Some(sum)) => Success(Metrics(adsb, nonAdsb, sum))
    case _ => Failure(METRICS_ERROR)
  }

  /**
   * `get_status(data)`: succeeds exactly when both status fields are present and the
   * connection time converts with `int()` and lies in `datetime`'s range; the time is
   * then rendered by `formatUtc` (`strftime("%Y-%m-%d %H:%M:%S")`).
   */
  function GetStatus(data: Document, formatUtc: int -> string): (r: Attempt<Status>)
    ensures var c := Lookup(data, CONNECTED_TIME_KEY);
      var t := if c.Some? then ToInt(c.value) else None;
      && (r.Success? <==> && Lookup(data, FEED_STATUS_KEY).Some? && Lookup(data, RX_STATUS_KEY).Some?
                          && t.Some? && MIN_TIMESTAMP <= t.value <= MAX_TIMESTAMP)
      && (r.Success? ==> r.value == Status(data.fields[FEED_STATUS_KEY], data.fields[RX_STATUS_KEY], formatUtc(t.value)))
      && (r.Failure? ==> r.message == STATUS_ERROR)
  {
    match (Lookup(data, FEED_STATUS_KEY), Lookup(data, RX_STATUS_KEY), Lookup(data, CONNECTED_TIME_KEY))
    case (Some(feed), Some(rx), Some(c)) =>
      (match ToInt(c)
       case Some(t) =>
         if UtcFromTimestamp(t).Some? then Success(Status(feed, rx, formatUtc(t))) else Failure(STATUS_ERROR)
       case None => Failure(STATUS_ERROR))
    case _ => Failure(STATUS_ERROR)
  }

  /**
   * The `(msg, state)` the `except` clause of the threshold block produces for the one
   * exception it can meet: `feed_status + ' since '` raising TypeError when
   * `feed_status` is not a string. The argument is Python's wording of that error.
   */
  function TypeErrorMessage(feedStatus: Value): (msg: string)
    ensures |msg| > 0 && !IsSpace(msg[0]) && !IsSpace(msg[|msg| - 1])
  {
    var quoted := if feedStatus.Array? then "'can only concatenate list (not \"str\") to list'"
                  else "\"unsupported operand type(s) for +: '" + TypeName(feedStatus) + "' and 'str'\"";
    var msg := "An exception of type " + "TypeError" + " occurred. Arguments:\n" + "(" + quoted + ",)";
    assert msg[0] == 'A' && msg[|msg| - 1] == ')';
    msg
  }

  /**
   * The threshold block of `main`. Critical is tested first, so the three outcomes
   * exclude each other for any thresholds, even a warning threshold above the critical one.
   * Every threshold message shows the elapsed seconds; only the OK message adds the
   * status line, and only it can raise (state 3).
   */
  function Evaluate(diff: nat, args: Args, status: Status): (v: Verdict)
    ensures v.state == STATE_CRIT <==> diff > args.crit
    ensures v.state == STATE_WARN <==> !(diff > args.crit) && diff > args.warn
    ensures v.state == STATE_OK <==> diff <= args.crit && diff <= args.warn && status.feedStatus.Str?
    ensures v.state == STATE_UNKNOWN <==> diff <= args.crit && diff <= args.warn && !status.feedStatus.Str?
  {
    if diff > args.crit then
      Verdict("CRIT threshold reached: " + IntToStr(diff), STATE_CRIT)
    else if diff > args.warn then
      Verdict("WARN threshold reached: " + IntToStr(diff), STATE_WARN)
    else
      match status.feedStatus
      case Str(s) =>
        Verdict("Feeder: OK - " + IntToStr(diff) + "s since last upload"
                  + "\nStatus: " + s + " since " + status.feedLastConnectedTime, STATE_OK)
      case _ => Verdict(TypeErrorMessage(status.feedStatus), STATE_UNKNOWN)
  }

  /**
   * Every threshold message shows the elapsed seconds in decimal; the CRIT and WARN
   * messages are a single line, and only the OK message ends with the status line.
   */
  lemma VerdictMessages(diff: nat, args: Args, status: Status)
    ensures var v := Evaluate(diff, args, status);
      && (v.state != STATE_UNKNOWN ==> Contains(v.msg, IntToStr(diff)))
      && (v.state == STATE_CRIT || v.state == STATE_WARN ==> '\n' !in v.msg)
      && (v.state == STATE_OK ==>
            var tail := "\nStatus: " + status.feedStatus.s + " since " + status.feedLastConnectedTime;
            |tail| <= |v.msg| && v.msg[|v.msg| - |tail|..] == tail)
  {
    var secs := IntToStr(diff);
    if diff > args.crit {
      ThresholdMessage("CRIT threshold reached: ", secs);
    } else if diff > args.warn {
      ThresholdMessage("WARN threshold reached: ", secs);
    } else if status.feedStatus.Str? {
      OkMessage(secs, status.feedStatus.s, status.feedLastConnectedTime);
    }
  }

  lemma ThresholdMessage(prefix: string, secs: string)
    requires '\n' !in prefix && AllDigits(secs)
    ensures Contains(prefix + secs, secs) && '\n' !in prefix + secs
  {
    ContainsMiddle(prefix, secs, "");
    assert prefix + secs + "" == prefix + secs;
  }

  lemma OkMessage(secs: string, feedStatus: string, connected: string)
    ensures var msg := "Feeder: OK - " + secs + "s since last upload" + "\nStatus: " + feedStatus + " since " + connected;
      var tail := "\nStatus: " + feedStatus + " since " + connected;
      Contains(msg, secs) && |tail| <= |msg| && msg[|msg| - |tail|..] == tail
  {
    var head := "Feeder: OK - " + secs + "s since last upload";
    var tail := "\nStatus: " + feedStatus + " since " + connected;
    var msg := "Feeder: OK - " + secs + "s since last upload" + "\nStatus: " + feedStatus + " since " + connected;
    assert msg == head + tail;
    assert head + tail == "Feeder: OK - " + secs + ("s since last upload" + tail);
    ContainsMiddle("Feeder: OK - ", secs, "s since last upload" + tail);
    assert (head + tail)[|head|..] == tail;
  }

  /** With the warning threshold at or above the critical one, the WARN state never occurs. */
  lemma NoWarnAboveCrit(diff: nat, args: Args, status: Status)
    requires args.warn >= args.crit
    ensures Evaluate(diff, args, status).state != STATE_WARN
  {
  }

  /** The three counter fields of `main`'s performance data, in the order adsb, non-adsb, sum. */
  function CountersPerfdata(m: Metrics): (p: string)
    ensures |p| > 0 && p[0] == '\'' && p[|p| - 1] == ' '
  {
    PerfdataField("adsb_tracked", m.adsbTracked, None, None, None, Some(Int(0)), None)
      + PerfdataField("non_adsb_tracked", m.nonAdsbTracked, None, None, None, Some(Int(0)), None)
      + PerfdataField("sum_tracked", m.sumTracked, None, None, None, Some(Int(0)), None)
  }

  /**
   * What `oao` prints after `|`: the three fields in order, each with its separating
   * space, except the final space, which `strip()` removes.
   */
  lemma CountersPerfdataStripped(m: Metrics)
    ensures var a := PerfdataField("adsb_tracked", m.adsbTracked, None, None, None, Some(Int(0)), None);
      var n := PerfdataField("non_adsb_tracked", m.nonAdsbTracked, None, None, None, Some(Int(0)), None);
      var s := PerfdataField("sum_tracked", m.sumTracked, None, None, None, Some(Int(0)), None);
      Strip(CountersPerfdata(m)) == a + (n + s[..|s| - 1])
  {
    var a := PerfdataField("adsb_tracked", m.adsbTracked, None, None, None, Some(Int(0)), None);
    var n := PerfdataField("non_adsb_tracked", m.nonAdsbTracked, None, None, None, Some(Int(0)), None);
    var s := PerfdataField("sum_tracked", m.sumTracked, None, None, None, Some(Int(0)), None);
    StripFields(a, n, s);
  }

  /** Stripping fields whose last one ends in "; " removes only that final space. */
  lemma StripFields(a: string, n: string, z: string)
    requires |a| > 0 && a[0] == '\''
    requires |z| >= 2 && z[|z| - 2] == ';' && z[|z| - 1] == ' '
    ensures Strip(a + n + z) == a + (n + z[..|z| - 1])
  {
    var body := a + (n + z[..|z| - 1]);
    assert a + n + z == body + " ";
    assert body[|body| - 1] == ';';
    StripDropsTrailing(body, " ");
  }

  /**
   * `main` up to its final `oao`: each `coe` either hands on its payload or ends the run,
   * so the steps run in the order fetch, freshness, metrics, status. `oaoAlwaysOk` is the
   * `always_ok` argument the final `oao` call receives.
   */
  function Check(fetched: Attempt<Document>, now: int, formatUtc: int -> string, args: Args, oaoAlwaysOk: bool): Run<Output>
  {
    var response :- Coe(fetched);
    var diff :- Coe(GetSecLastStatus(response, now));
    var metrics :- Coe(GetMetrics(response));
    var status :- Coe(GetStatus(response, formatUtc));
    var verdict := Evaluate(diff, args, status);
    Continue(Oao(verdict.msg, verdict.state, CountersPerfdata(metrics), oaoAlwaysOk))
  }

  /** The printed line and exit code, whether the run ended in a `coe` or in the final `oao`. */
  function Finish(run: Run<Output>): Output
  {
    match run
    case Continue(o) => o
    case Exit(o) => o
  }

  /** All four steps succeed on this fetch result and clock reading. */
  predicate StepsSucceed(fetched: Attempt<Document>, now: int, formatUtc: int -> string)
  {
    && fetched.Success? && GetSecLastStatus(fetched.value, now).Success?
    && GetMetrics(fetched.value).Success? && GetStatus(fetched.value, formatUtc).Success?
  }

  /**
   * `main` as written, which calls `oao(msg, state, perfdata)` without the parsed
   * `--always-ok`: the printed line and exit code. The first step that fails decides
   * the output (its message, exit code 3) and nothing after it matters; when all succeed the
   * line is the stripped verdict message, `|`, and the stripped counter performance data,
   * and the exit code is the verdict's state.
   */
  function Main(fetched: Attempt<Document>, now: int, formatUtc: int -> string, args: Args): (o: Output)
    ensures 0 <= o.code <= 3
    ensures fetched.Failure? ==> o == Output(fetched.message, STATE_UNKNOWN)
    ensures fetched.Success? && GetSecLastStatus(fetched.value, now).Failure? ==>
      o == Output(LAST_STATUS_ERROR, STATE_UNKNOWN)
    ensures fetched.Success? && GetSecLastStatus(fetched.value, now).Success? && GetMetrics(fetched.value).Failure? ==>
      o == Output(METRICS_ERROR, STATE_UNKNOWN)
    ensures (&& fetched.Success? && GetSecLastStatus(fetched.value, now).Success?
             && GetMetrics(fetched.value).Success? && GetStatus(fetched.value, formatUtc).Failure?) ==>
      o == Output(STATUS_ERROR, STATE_UNKNOWN)
    ensures StepsSucceed(fetched, now, formatUtc) ==>
      var v := Evaluate(GetSecLastStatus(fetched.value, now).value, args, GetStatus(fetched.value, formatUtc).value);
      && o.code == v.state
      && o.line == Strip(v.msg) + "|" + Strip(CountersPerfdata(GetMetrics(fetched.value).value))
  {
    Finish(Check(fetched, now, formatUtc, args, false))
  }

  /** `main` step by step, as check_fr24feed.py runs it: `msg`, `state` and `perfdata` are updated in place. */
  method RunCheck(fetched: Attempt<Document>, now: int, formatUtc: int -> string, args: Args)
    returns (line: string, code: int)
    ensures Output(line, code) == Main(fetched, now, formatUtc, args)
  {
    var msg := "";
    var state := STATE_OK;
    var perfdata := "";

    var response: Document;
    match Coe(fetched) {
      case Exit(o) => return o.line, o.code;
      case Continue(r) => response := r;
    }
    var diffSecs: nat;
    match Coe(GetSecLastStatus(response, now)) {
      case Exit(o) => return o.line, o.code;
      case Continue(d) => diffSecs := d;
    }
    var metrics: Metrics;
    match Coe(GetMetrics(response)) {
      case Exit(o) => return o.line, o.code;
      case Continue(m) => metrics := m;
    }
    var status: Status;
    match Coe(GetStatus(response, formatUtc)) {
      case Exit(o) => return o.line, o.code;
      case Continue(s) => status := s;
    }

    var field := GetPerfdata("adsb_tracked", metrics.adsbTracked, None, None, None, Some(Int(0)), None);
    perfdata := perfdata + field;
    assert perfdata == field;
    ghost var adsb := field;
    field := GetPerfdata("non_adsb_tracked", metrics.nonAdsbTracked, None, None, None, Some(Int(0)), None);
    perfdata := perfdata + field;
    ghost var nonAdsb := field;
    field := GetPerfdata("sum_tracked", metrics.sumTracked, None, None, None, Some(Int(0)), None);
    perfdata := perfdata + field;
    assert perfdata == adsb + nonAdsb + field;

    msg, state := ThresholdBlock(msg, diffSecs, args, status);

    assert perfdata == CountersPerfdata(metrics);
    var out := Oao(msg, state, perfdata, false);
    assert Check(fetched, now, formatUtc, args, false) == Continue(out);
    return out.line, out.code;
  }

  /**
   * The `try` block of `main` that sets `msg` and `state` from the elapsed seconds,
   * starting from the empty message `main` initialised.
   */
  method ThresholdBlock(msg0: string, diffSecs: nat, args: Args, status: Status) returns (msg: string, state: int)
    requires msg0 == ""
    ensures Verdict(msg, state) == Evaluate(diffSecs, args, status)
  {
    msg := msg0;
    assert msg0 + "CRIT threshold reached: " == "CRIT threshold reached: ";
    assert msg0 + "WARN threshold reached: " == "WARN threshold reached: ";
    if diffSecs > args.crit {
      msg := msg + "CRIT threshold reached: " + IntToStr(diffSecs);
      state := STATE_CRIT;
    } else if diffSecs > args.warn {
      msg := msg + "WARN threshold reached: " + IntToStr(diffSecs);
      state := STATE_WARN;
    } else {
      msg := "Feeder: OK - " + IntToStr(diffSecs) + "s since last upload";
      if status.feedStatus.Str? {
        msg := msg + "\nStatus: " + status.feedStatus.s + " since " + status.feedLastConnectedTime;
        state := STATE_OK;
      } else {
        // the except clause: the concatenation above raised TypeError
        msg := TypeErrorMessage(status.feedStatus);
        state := STATE_UNKNOWN;
      }
    }
  }

  // ----- what `main` reports -----

  /**
   * Once every step has succeeded, the exit code is the threshold verdict: 2 exactly
   * above the critical threshold, 1 exactly above the warning but not the critical one,
   * 0 otherwise unless `feed_status` is not a string (3), and the printed line shows the
   * elapsed seconds whenever the verdict is 0, 1 or 2.
   */
  lemma MainVerdict(fetched: Attempt<Document>, now: int, formatUtc: int -> string, args: Args)
    requires StepsSucceed(fetched, now, formatUtc)
    ensures var diff := GetSecLastStatus(fetched.value, now).value;
      var o := Main(fetched, now, formatUtc, args);
      && (o.code == STATE_CRIT <==> diff > args.crit)
      && (o.code == STATE_WARN <==> !(diff > args.crit) && diff > args.warn)
      && (o.code == STATE_OK <==> diff <= args.crit && diff <= args.warn && GetStatus(fetched.value, formatUtc).value.feedStatus.Str?)
      && (o.code != STATE_UNKNOWN ==> Contains(o.line, IntToStr(diff)))
  {
    var diff := GetSecLastStatus(fetched.value, now).value;
    var status := GetStatus(fetched.value, formatUtc).value;
    var perf := Strip(CountersPerfdata(GetMetrics(fetched.value).value));
    VerdictLine(diff, args, status, perf);
  }

  lemma VerdictLine(diff: nat, args: Args, status: Status, perf: string)
    ensures var v := Evaluate(diff, args, status);
      v.state != STATE_UNKNOWN ==> Contains(Strip(v.msg) + "|" + perf, IntToStr(diff))
  {
    if diff > args.crit {
      ThresholdLine("CRIT threshold reached: ", IntToStr(diff), perf);
    } else if diff > args.warn {
      ThresholdLine("WARN threshold reached: ", IntToStr(diff), perf);
    } else if status.feedStatus.Str? {
      var tail := "\nStatus: " + status.feedStatus.s + " since " + status.feedLastConnectedTime;
      assert Evaluate(diff, args, status).msg == "Feeder: OK - " + IntToStr(diff) + "s since last upload" + tail;
      OkLine(IntToStr(diff), tail, perf);
    }
  }

  lemma ThresholdLine(prefix: string, secs: string, perf: string)
    requires |prefix| > 0 && !IsSpace(prefix[0]) && |secs| > 0 && AllDigits(secs)
    ensures Contains(Strip(prefix + secs) + "|" + perf, secs)
  {
    var msg := prefix + secs;
    assert IsDigit(secs[|secs| - 1]);
    assert msg[|msg| - 1] == secs[|secs| - 1];
    assert Trimmed(msg);
    StripTrimmed(msg);
    var line := msg + "|" + perf;
    assert line[|prefix|..][..|secs|] == secs;
    assert secs <= line[|prefix|..];
  }

  lemma OkLine(secs: string, tail: string, perf: string)
    ensures Contains(Strip("Feeder: OK - " + secs + "s since last upload" + tail) + "|" + perf, secs)
  {
    var head := "Feeder: OK - " + secs + "s since last upload";
    StripKeepsPrefix(head, tail);
    var stripped := Strip(head + tail);
    var rest := stripped[|head|..] + "|" + perf;
    assert stripped + "|" + perf == head + rest;
    assert head + rest == "Feeder: OK - " + secs + ("s since last upload" + rest);
    ContainsMiddle("Feeder: OK - ", secs, "s since last upload" + rest);
  }

  // ----- the `--always-ok` flag -----

  /**
   * As written, `--always-ok` changes nothing: `main` computes the same line and the same
   * exit code whichever way the flag is set.
   */
  lemma AlwaysOkIgnored(fetched: Attempt<Document>, now: int, formatUtc: int -> string, args: Args)
    ensures Main(fetched, now, formatUtc, args) == Main(fetched, now, formatUtc, args.(alwaysOk := !args.alwaysOk))
    ensures StepsSucceed(fetched, now, formatUtc) ==>
      Main(fetched, now, formatUtc, args).code
        == Evaluate(GetSecLastStatus(fetched.value, now).value, args, GetStatus(fetched.value, formatUtc).value).state
  {
    var flipped := args.(alwaysOk := !args.alwaysOk);
    if StepsSucceed(fetched, now, formatUtc) {
      var diff := GetSecLastStatus(fetched.value, now).value;
      var status := GetStatus(fetched.value, formatUtc).value;
      assert Evaluate(diff, args, status) == Evaluate(diff, flipped, status);
    }
  }

  /**
   * `main` with the parsed flag passed on, `oao(msg, state, perfdata, always_ok=args.ALWAYS_OK)`,
   * as the option's help text ("Always returns OK.") promises. A failing step still exits
   * through `coe` with code 3.
   */
  function MainCorrected(fetched: Attempt<Document>, now: int, formatUtc: int -> string, args: Args): (o: Output)
    ensures o.line == Main(fetched, now, formatUtc, args).line
    ensures !args.alwaysOk ==> o == Main(fetched, now, formatUtc, args)
    ensures args.alwaysOk && StepsSucceed(fetched, now, formatUtc) ==> o.code == STATE_OK
    ensures !StepsSucceed(fetched, now, formatUtc) ==> o.code == STATE_UNKNOWN
  {
    Finish(Check(fetched, now, formatUtc, args, args.alwaysOk))
  }

  // ----- worked examples -----

  /** A feeder document with the seven fields the check reads, all integers except the two statuses. */
  function SampleDocument(sent: int, adsb: int, nonAdsb: int, sum: int, connected: int): Document
  {
    Fields(map[
      SENT_TIME_KEY := Int(sent),
      ADSB_KEY := Int(adsb),
      NON_ADSB_KEY := Int(nonAdsb),
      SUM_KEY := Int(sum),
      FEED_STATUS_KEY := Str("CONNECTED"),
      RX_STATUS_KEY := Str("CONNECTED"),
      CONNECTED_TIME_KEY := Int(connected)])
  }

  /** On the sample document every step succeeds, and the elapsed time is the sample's age. */
  lemma SampleSteps(nowSecs: int, micros: int, age: nat, formatUtc: int -> string)
    requires MIN_TIMESTAMP + age <= nowSecs && MIN_TIMESTAMP + 500 <= nowSecs <= MAX_TIMESTAMP
    requires 0 <= micros < MICROS_PER_SECOND
    ensures var doc := SampleDocument(nowSecs - age, 5, 2, 7, nowSecs - 500);
      var now := nowSecs * MICROS_PER_SECOND + micros;
      && StepsSucceed(Success(doc), now, formatUtc)
      && GetSecLastStatus(doc, now) == Success(age)
      && GetMetrics(doc) == Success(Metrics(Int(5), Int(2), Int(7)))
      && GetStatus(doc, formatUtc).value.feedStatus == Str("CONNECTED")
  {
    var now := nowSecs * MICROS_PER_SECOND + micros;
    SampleFields(nowSecs - age, 5, 2, 7, nowSecs - 500);
    assert now - (nowSecs - age) * MICROS_PER_SECOND == age * MICROS_PER_SECOND + micros;
    DivUnique(age * MICROS_PER_SECOND + micros, MICROS_PER_SECOND, age, micros);
  }

  lemma SampleFields(sent: int, adsb: int, nonAdsb: int, sum: int, connected: int)
    ensures var doc := SampleDocument(sent, adsb, nonAdsb, sum, connected);
      && Lookup(doc, SENT_TIME_KEY) == Some(Int(sent))
      && Lookup(doc, ADSB_KEY) == Some(Int(adsb))
      && Lookup(doc, NON_ADSB_KEY) == Some(Int(nonAdsb))
      && Lookup(doc, SUM_KEY) == Some(Int(sum))
      && Lookup(doc, FEED_STATUS_KEY) == Some(Str("CONNECTED"))
      && Lookup(doc, RX_STATUS_KEY) == Some(Str("CONNECTED"))
      && Lookup(doc, CONNECTED_TIME_KEY) == Some(Int(connected))
  {
  }

  /** The OK message's opening sentence survives `strip()` at the head of the printed line. */
  lemma OkLinePrefix(secs: string, tail: string, perf: string)
    ensures var head := "Feeder: OK - " + secs + "s since last upload";
      head <= Strip(head + tail) + "|" + perf
  {
    var head := "Feeder: OK - " + secs + "s since last upload";
    StripKeepsPrefix(head, tail);
  }

  /** The first counter field appears in full after the `|` of the printed line. */
  lemma FirstFieldInLine(text: string, m: Metrics)
    ensures Contains(text + "|" + Strip(CountersPerfdata(m)),
                     PerfdataField("adsb_tracked", m.adsbTracked, None, None, None, Some(Int(0)), None))
  {
    var a := PerfdataField("adsb_tracked", m.adsbTracked, None, None, None, Some(Int(0)), None);
    var n := PerfdataField("non_adsb_tracked", m.nonAdsbTracked, None, None, None, Some(Int(0)), None);
    var z := PerfdataField("sum_tracked", m.sumTracked, None, None, None, Some(Int(0)), None);
    CountersPerfdataStripped(m);
    FieldInLine(text, a, n + z[..|z| - 1], Strip(CountersPerfdata(m)));
  }

  lemma FieldInLine(text: string, field: string, rest: string, perf: string)
    requires perf == field + rest
    ensures Contains(text + "|" + perf, field)
  {
    assert text + "|" + (field + rest) == (text + "|") + field + rest;
    ContainsMiddle(text + "|", field, rest);
  }

  /**
   * Last upload 100 s ago, default thresholds: exit 0, the line opens with
   * `Feeder: OK - 100s since last upload` and carries `'adsb_tracked'=5;;;0; `.
   */
  lemma HealthyExample(nowSecs: int, micros: int, formatUtc: int -> string, alwaysOk: bool)
    requires MIN_TIMESTAMP + 500 <= nowSecs <= MAX_TIMESTAMP && 0 <= micros < MICROS_PER_SECOND
    ensures var o := Main(Success(SampleDocument(nowSecs - 100, 5, 2, 7, nowSecs - 500)),
                          nowSecs * MICROS_PER_SECOND + micros, formatUtc, Args(DEFAULT_WARN, DEFAULT_CRIT, alwaysOk));
      && o.code == STATE_OK
      && "Feeder: OK - 100s since last upload" <= o.line
      && Contains(o.line, "'adsb_tracked'=5;;;0; ")
  {
    var doc := SampleDocument(nowSecs - 100, 5, 2, 7, nowSecs - 500);
    var now := nowSecs * MICROS_PER_SECOND + micros;
    var args := Args(DEFAULT_WARN, DEFAULT_CRIT, alwaysOk);
    var fetched: Attempt<Document> := Success(doc);
    SampleSteps(nowSecs, micros, 100, formatUtc);
    var status := GetStatus(doc, formatUtc).value;
    var tail := "\nStatus: " + "CONNECTED" + " since " + status.feedLastConnectedTime;
    HealthyVerdict(args, status);
    HundredDigits();
    HealthyLine(tail, Metrics(Int(5), Int(2), Int(7)));
  }

  lemma HealthyVerdict(args: Args, status: Status)
    requires args.warn == DEFAULT_WARN && args.crit == DEFAULT_CRIT && status.feedStatus == Str("CONNECTED")
    ensures var tail := "\nStatus: " + "CONNECTED" + " since " + status.feedLastConnectedTime;
      Evaluate(100, args, status) == Verdict("Feeder: OK - " + IntToStr(100) + "s since last upload" + tail, STATE_OK)
  {
  }

  lemma HundredDigits()
    ensures IntToStr(100) == "100"
  {
    assert Digits(1) == "1";
    assert Digits(10) == "10";
  }

  lemma HealthyLine(tail: string, m: Metrics)
    requires m == Metrics(Int(5), Int(2), Int(7))
    ensures var line := Strip("Feeder: OK - " + "100" + "s since last upload" + tail) + "|" + Strip(CountersPerfdata(m));
      && "Feeder: OK - 100s since last upload" <= line
      && Contains(line, "'adsb_tracked'=5;;;0; ")
  {
    var msg := "Feeder: OK - " + "100" + "s since last upload" + tail;
    HealthyPrefix(tail, Strip(CountersPerfdata(m)));
    FirstFieldInLine(Strip(msg), m);
    CounterFieldExample();
  }

  lemma HealthyPrefix(tail: string, perf: string)
    ensures "Feeder: OK - 100s since last upload" <= Strip("Feeder: OK - " + "100" + "s since last upload" + tail) + "|" + perf
  {
    assert "Feeder: OK - 100s since last upload" == "Feeder: OK - " + "100" + "s since last upload";
    OkLinePrefix("100", tail, perf);
  }

  /** Last upload 4000 s ago, default thresholds: exit 2 (critical) and the line shows 4000. */
  lemma CriticalExample(nowSecs: int, formatUtc: int -> string, alwaysOk: bool)
    requires MIN_TIMESTAMP + 4000 <= nowSecs <= MAX_TIMESTAMP
    ensures var o := Main(Success(SampleDocument(nowSecs - 4000, 5, 2, 7, nowSecs - 500)),
                          nowSecs * MICROS_PER_SECOND, formatUtc, Args(DEFAULT_WARN, DEFAULT_CRIT, alwaysOk));
      && o.code == STATE_CRIT
      && Contains(o.line, "4000")
  {
    var fetched: Attempt<Document> := Success(SampleDocument(nowSecs - 4000, 5, 2, 7, nowSecs - 500));
    SampleSteps(nowSecs, 0, 4000, formatUtc);
    FourThousandDigits();
    MainVerdict(fetched, nowSecs * MICROS_PER_SECOND + 0, formatUtc, Args(DEFAULT_WARN, DEFAULT_CRIT, alwaysOk));
  }

  lemma FourThousandDigits()
    ensures IntToStr(4000) == "4000"
  {
    assert Digits(4) == "4";
    assert Digits(40) == "40";
    assert Digits(400) == "400";
  }

  /**
   * The `--always-ok` discrepancy on a concrete run: with the flag set and a stale feeder,
   * the check as written exits 2, where the option promises 0.
   */
  lemma AlwaysOkCounterexample(nowSecs: int, formatUtc: int -> string)
    requires MIN_TIMESTAMP + 4000 <= nowSecs <= MAX_TIMESTAMP
    ensures var fetched: Attempt<Document> := Success(SampleDocument(nowSecs - 4000, 5, 2, 7, nowSecs - 500));
      var args := Args(DEFAULT_WARN, DEFAULT_CRIT, true);
      && Main(fetched, nowSecs * MICROS_PER_SECOND, formatUtc, args).code == STATE_CRIT
      && MainCorrected(fetched, nowSecs * MICROS_PER_SECOND, formatUtc, args).code == STATE_OK
  {
    var fetched: Attempt<Document> := Success(SampleDocument(nowSecs - 4000, 5, 2, 7, nowSecs - 500));
    CriticalExample(nowSecs, formatUtc, true);
    ElapsedWholeSecond(nowSecs, nowSecs - 4000);
    assert StepsSucceed(fetched, nowSecs * MICROS_PER_SECOND, formatUtc);
  }
}
