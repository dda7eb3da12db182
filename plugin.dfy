/**
 * The monitoring-plugin helpers the check is built on: the performance-data
 * field builder `get_perfdata`, "continue or exit" `coe` and "over and out" `oao`.
 * Printing and `sys.exit` are modelled by returning the printed line and the exit code.
 */
module Plugin {
  import opened Wrappers
  import opened PyText
  import opened Json

  const STATE_OK: int := 0
  const STATE_WARN: int := 1
  const STATE_CRIT: int := 2
  const STATE_UNKNOWN: int := 3

  /** What the process prints (one `print` call) and the code it exits with. */
  datatype Output = Output(line: string, code: int)

  /** The `(success, payload-or-error)` pair a step returns: `(True, value)` or `(False, message)`. */
  datatype Attempt<+T> = Success(value: T) | Failure(message: string)

  /** A run that either goes on with a value or has already ended the process. */
  datatype Run<+T> = Continue(value: T) | Exit(out: Output)
  {
    predicate IsFailure()
    {
      Exit?
    }

    function PropagateFailure<U>(): Run<U>
      requires Exit?
    {
      Exit(out)
    }

    function Extract(): T
      requires Continue?
    {
      value
    }
  }

  /**
   * `coe(result, state)`: hands back the payload of a success; on a failure prints the
   * message as it is (not stripped) and exits with `state`.
   */
  function Coe<T>(result: Attempt<T>, state: int := STATE_UNKNOWN): (r: Run<T>)
    ensures r.Continue? <==> result.Success?
    ensures result.Success? ==> r.value == result.value
    ensures result.Failure? ==> r.out.line == result.message && r.out.code == state
  {
    match result
    case Success(v) => Continue(v)
    case Failure(m) => Exit(Output(m, state))
  }

  /**
   * `oao(msg, state, perfdata, always_ok)`: prints the stripped message, followed by `|`
   * and the stripped performance data when that is non-empty; exits with 0 under
   * `always_ok` and with `state` otherwise.
   */
  function Oao(msg: string, state: int, perfdata: string, alwaysOk: bool): (o: Output)
    ensures o.code == if alwaysOk then STATE_OK else state
    ensures perfdata == [] ==> o.line == Strip(msg)
    ensures perfdata != [] ==> o.line == Strip(msg) + "|" + Strip(perfdata)
  {
    var line := if perfdata != [] then Strip(msg) + "|" + Strip(perfdata) else Strip(msg);
    Output(line, if alwaysOk then STATE_OK else state)
  }

  /** The printed line reads back as message and performance data: the first `|` separates them. */
  lemma OaoSeparates(msg: string, state: int, perfdata: string, alwaysOk: bool)
    requires perfdata != [] && '|' !in msg
    ensures var line := Oao(msg, state, perfdata, alwaysOk).line;
      var k := |Strip(msg)|;
      k < |line| && line[k] == '|' && '|' !in line[..k] && line[..k] == Strip(msg) && line[k + 1..] == Strip(perfdata)
  {
    var s := Strip(msg);
    var line := s + "|" + Strip(perfdata);
    assert Oao(msg, state, perfdata, alwaysOk).line == line;
    assert line[..|s|] == s;
    assert line[|s| + 1..] == Strip(perfdata);
    StripKeepsAbsent(msg, '|');
  }

  /** `always_ok` only changes the exit code, never the printed line. */
  lemma OaoAlwaysOkKeepsLine(msg: string, state: int, perfdata: string)
    ensures Oao(msg, state, perfdata, true).line == Oao(msg, state, perfdata, false).line
    ensures Oao(msg, state, perfdata, true).code == STATE_OK
    ensures Oao(msg, state, perfdata, false).code == state
  {
  }

  // ----- performance data -----

  /** A component given as `None` renders as nothing, anything else as `str(x)`. */
  function Render(x: Option<Value>): string
  {
    match x
    case None => ""
    case Some(v) => ToStr(v)
  }

  function OrEmpty(s: Option<string>): string
  {
    match s
    case None => ""
    case Some(u) => u
  }

  /**
   * `get_perfdata(label, value, uom, warn, crit, min, max)`:
   * `'label'=value[uom];[warn];[crit];[min];[max] `, always ending in one space.
   */
  function PerfdataField(name: string, value: Value, uom: Option<string>,
                         warn: Option<Value>, crit: Option<Value>, min: Option<Value>, max: Option<Value>): (s: string)
    ensures |s| > 0 && s[0] == '\'' && s[|s| - 1] == ' '
    ensures max == None ==> |s| >= 2 && s[|s| - 2] == ';'
  {
    "'" + name + "'=" + ToStr(value) + OrEmpty(uom) + ";" + Render(warn) + ";" + Render(crit) + ";"
      + Render(min) + ";" + Render(max) + " "
  }

  /** The field built the way the Python check does it: one append after another to `msg`. */
  method GetPerfdata(name: string, value: Value, uom: Option<string>,
                     warn: Option<Value>, crit: Option<Value>, min: Option<Value>, max: Option<Value>)
    returns (msg: string)
    ensures msg == PerfdataField(name, value, uom, warn, crit, min, max)
  {
    msg := "'" + name + "'=" + ToStr(value);
    if uom.Some? {
      msg := msg + uom.value;
    }
    assert msg == "'" + name + "'=" + ToStr(value) + OrEmpty(uom);
    msg := msg + ";";
    ghost var before := msg;
    if warn.Some? {
      msg := msg + ToStr(warn.value);
    }
    assert msg == before + Render(warn);
    msg := msg + ";";
    before := msg;
    if crit.Some? {
      msg := msg + ToStr(crit.value);
    }
    assert msg == before + Render(crit);
    msg := msg + ";";
    before := msg;
    if min.Some? {
      msg := msg + ToStr(min.value);
    }
    assert msg == before + Render(min);
    msg := msg + ";";
    before := msg;
    if max.Some? {
      msg := msg + ToStr(max.value);
    }
    assert msg == before + Render(max);
    msg := msg + " ";
  }

  /** `s.split(sep)`: the pieces between separators, empty ones included. */
  function SplitOn(s: string, sep: char): (parts: seq<string>)
    ensures |parts| > 0
  {
    if s == [] then [""]
    else
      var rest := SplitOn(s[1..], sep);
      if s[0] == sep then [""] + rest else [[s[0]] + rest[0]] + rest[1..]
  }

  lemma {:induction false} SplitOnNone(s: string, sep: char)
    requires sep !in s
    ensures SplitOn(s, sep) == [s]
  {
    if s != [] {
      SplitOnNone(s[1..], sep);
      assert [s[0]] + s[1..] == s;
    }
  }

  lemma {:induction false} SplitOnFirst(a: string, sep: char, b: string)
    requires sep !in a
    ensures SplitOn(a + [sep] + b, sep) == [a] + SplitOn(b, sep)
  {
    if a == [] {
      assert a + [sep] + b == [sep] + b;
      assert ([sep] + b)[1..] == b;
    } else {
      assert (a + [sep] + b)[1..] == a[1..] + [sep] + b;
      SplitOnFirst(a[1..], sep, b);
      assert [a[0]] + a[1..] == a;
    }
  }

  /**
   * Splitting a field at `;` gives back its five slots: `'label'=value[uom]`, warn, crit,
   * min and max (the last with the closing space), each `None` as an empty slot,
   * provided no rendered component contains a `;` itself.
   */
  lemma PerfdataSlots(name: string, value: Value, uom: Option<string>,
                      warn: Option<Value>, crit: Option<Value>, min: Option<Value>, max: Option<Value>)
    requires var head := "'" + name + "'=" + ToStr(value) + OrEmpty(uom);
      ';' !in head && ';' !in Render(warn) && ';' !in Render(crit) && ';' !in Render(min) && ';' !in Render(max)
    ensures SplitOn(PerfdataField(name, value, uom, warn, crit, min, max), ';')
         == ["'" + name + "'=" + ToStr(value) + OrEmpty(uom), Render(warn), Render(crit), Render(min), Render(max) + " "]
  {
    var head := "'" + name + "'=" + ToStr(value) + OrEmpty(uom);
    var w, c, lo, hi := Render(warn), Render(crit), Render(min), Render(max);
    assert PerfdataField(name, value, uom, warn, crit, min, max) == head + ";" + w + ";" + c + ";" + lo + ";" + (hi + " ");
    SplitFive(head, w, c, lo, hi + " ");
  }

  lemma SplitFive(a: string, b: string, c: string, d: string, e: string)
    requires ';' !in a && ';' !in b && ';' !in c && ';' !in d && ';' !in e
    ensures SplitOn(a + ";" + b + ";" + c + ";" + d + ";" + e, ';') == [a, b, c, d, e]
  {
    var de := d + ";" + e;
    var cde := c + ";" + de;
    var bcde := b + ";" + cde;
    JoinFive(a, b, c, d, e);
    SplitOnNone(e, ';');
    SplitOnFirst(d, ';', e);
    SplitOnFirst(c, ';', de);
    SplitOnFirst(b, ';', cde);
    SplitOnFirst(a, ';', bcde);
    assert [a] + ([b] + ([c] + ([d] + [e]))) == [a, b, c, d, e];
  }

  lemma JoinFive(a: string, b: string, c: string, d: string, e: string)
    ensures a + ";" + b + ";" + c + ";" + d + ";" + e == a + ";" + (b + ";" + (c + ";" + (d + ";" + e)))
  {
  }

  /** The field for a counter with a floor of 0 and no other bound, as the check emits it. */
  lemma CounterFieldExample()
    ensures PerfdataField("adsb_tracked", Int(5), None, None, None, Some(Int(0)), None) == "'adsb_tracked'=5;;;0; "
  {
    assert IntToStr(5) == "5" && IntToStr(0) == "0";
  }
}
