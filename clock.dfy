/**
 * The slice of Python's `datetime` the freshness check uses: naive UTC datetimes,
 * `utcfromtimestamp` on an integer timestamp, subtraction giving a normalised
 * `timedelta`, `abs` of a `timedelta`, and its `days` and `seconds` fields.
 * A datetime is represented by its offset from the Unix epoch in microseconds.
 */
module Clock {
  import opened Wrappers

  const MICROS_PER_SECOND: int := 1_000_000
  const SECONDS_PER_DAY: int := 86_400
  const MICROS_PER_DAY: int := 86_400_000_000

  /** 0001-01-01 00:00:00 and 9999-12-31 23:59:59, the ends of `datetime`'s range. */
  const MIN_TIMESTAMP: int := -62_135_596_800
  const MAX_TIMESTAMP: int := 253_402_300_799

  /** A normalised `timedelta`: `0 <= seconds < 86400`, `0 <= microseconds < 10**6`, `days` of any sign. */
  datatype TimeDelta = TimeDelta(days: int, seconds: int, microseconds: int)

  function TotalMicros(d: TimeDelta): int
  {
    d.days * MICROS_PER_DAY + d.seconds * MICROS_PER_SECOND + d.microseconds
  }

  /** `timedelta(microseconds=us)`: Python's normalisation, floor division by day and second. */
  function FromMicros(us: int): (d: TimeDelta)
    ensures 0 <= d.seconds < SECONDS_PER_DAY && 0 <= d.microseconds < MICROS_PER_SECOND
    ensures TotalMicros(d) == us
    ensures d.days < 0 <==> us < 0
  {
    var rest := us % MICROS_PER_DAY;
    TimeDelta(us / MICROS_PER_DAY, rest / MICROS_PER_SECOND, rest % MICROS_PER_SECOND)
  }

  /** `abs(d)`: `-d` when `d.days < 0`, otherwise `d`. */
  function Abs(d: TimeDelta): (a: TimeDelta)
    requires 0 <= d.seconds < SECONDS_PER_DAY && 0 <= d.microseconds < MICROS_PER_SECOND
    ensures a.days >= 0
    ensures 0 <= a.seconds < SECONDS_PER_DAY && 0 <= a.microseconds < MICROS_PER_SECOND
    ensures TotalMicros(a) == if TotalMicros(d) < 0 then -TotalMicros(d) else TotalMicros(d)
  {
    if d.days < 0 then FromMicros(-TotalMicros(d)) else d
  }

  /**
   * Days from 1970-01-01 to the proleptic Gregorian date `y-m-d`, counted in 400-year eras
   * of 146097 days, with years starting in March so that the leap day falls last.
   */
  function DaysFromCivil(y: int, m: int, d: int): int
    requires 1 <= m <= 12 && 1 <= d <= 31
  {
    var yy := if m <= 2 then y - 1 else y;
    var era := yy / 400;
    var yoe := yy - era * 400;
    var mp := if m > 2 then m - 3 else m + 9;
    var doy := (153 * mp + 2) / 5 + d - 1;
    var doe := yoe * 365 + yoe / 4 - yoe / 100 + doy;
    era * 146097 + doe - 719468
  }

  /**
   * The timestamp bounds are the first second of 0001-01-01 and the last second of
   * 9999-12-31, the ends of `datetime`'s range, counted from the epoch 1970-01-01.
   */
  lemma TimestampRange()
    ensures DaysFromCivil(1970, 1, 1) == 0
    ensures MIN_TIMESTAMP == DaysFromCivil(1, 1, 1) * SECONDS_PER_DAY
    ensures MAX_TIMESTAMP == DaysFromCivil(9999, 12, 31) * SECONDS_PER_DAY + SECONDS_PER_DAY - 1
  {
  }

  /** `utcfromtimestamp(t)` for an integer `t`: fails (ValueError/OverflowError) outside years 1..9999. */
  function UtcFromTimestamp(t: int): (r: Option<int>)
    ensures r.Some? <==> MIN_TIMESTAMP <= t <= MAX_TIMESTAMP
    ensures r.Some? ==> r.value == t * MICROS_PER_SECOND
  {
    if MIN_TIMESTAMP <= t <= MAX_TIMESTAMP then Some(t * MICROS_PER_SECOND) else None
  }

  /**
   * `abs(now - past).days * 24 * 60 * 60 + abs(now - past).seconds`, both instants in
   * microseconds: the whole seconds of the absolute difference, microseconds dropped.
   */
  function ElapsedSeconds(now: int, past: int): (secs: nat)
    ensures secs == AbsInt(now - past) / MICROS_PER_SECOND
  {
    var a := Abs(FromMicros(now - past));
    WholeSeconds(a);
    a.days * 24 * 60 * 60 + a.seconds
  }

  function AbsInt(x: int): nat
  {
    if x < 0 then -x else x
  }

  /** For a non-negative delta, `days * 86400 + seconds` is the floor of its length in seconds. */
  lemma WholeSeconds(a: TimeDelta)
    requires a.days >= 0 && 0 <= a.seconds < SECONDS_PER_DAY && 0 <= a.microseconds < MICROS_PER_SECOND
    ensures a.days * SECONDS_PER_DAY + a.seconds == TotalMicros(a) / MICROS_PER_SECOND
  {
    var q := a.days * SECONDS_PER_DAY + a.seconds;
    assert TotalMicros(a) == q * MICROS_PER_SECOND + a.microseconds;
    DivUnique(TotalMicros(a), MICROS_PER_SECOND, q, a.microseconds);
  }

  /** Euclidean division has a unique quotient and remainder. */
  lemma DivUnique(n: int, m: int, q: int, r: int)
    requires m > 0 && 0 <= r < m && n == q * m + r
    ensures n / m == q && n % m == r
  {
    var q', r' := n / m, n % m;
    assert n == q' * m + r' && 0 <= r' < m;
    assert (q - q') * m == r' - r;
    if q > q' {
      MulAtLeast(q - q', m);
    } else if q < q' {
      MulAtLeast(q' - q, m);
    }
  }

  lemma MulAtLeast(k: int, m: int)
    requires k >= 1 && m > 0
    ensures k * m >= m
  {
  }

  /**
   * With the clock on a whole second, the elapsed time is `|now - t|` and so does not
   * depend on which of the two comes first.
   */
  lemma ElapsedWholeSecond(nowSecs: int, t: int)
    ensures ElapsedSeconds(nowSecs * MICROS_PER_SECOND, t * MICROS_PER_SECOND) == AbsInt(nowSecs - t)
    ensures ElapsedSeconds(nowSecs * MICROS_PER_SECOND, t * MICROS_PER_SECOND)
         == ElapsedSeconds(t * MICROS_PER_SECOND, nowSecs * MICROS_PER_SECOND)
  {
    var d := nowSecs - t;
    assert nowSecs * MICROS_PER_SECOND - t * MICROS_PER_SECOND == d * MICROS_PER_SECOND;
    assert t * MICROS_PER_SECOND - nowSecs * MICROS_PER_SECOND == -d * MICROS_PER_SECOND;
    DivUnique(AbsInt(d) * MICROS_PER_SECOND, MICROS_PER_SECOND, AbsInt(d), 0);
    assert AbsInt(d * MICROS_PER_SECOND) == AbsInt(d) * MICROS_PER_SECOND;
    assert AbsInt(-d * MICROS_PER_SECOND) == AbsInt(d) * MICROS_PER_SECOND;
  }

  /**
   * A clock `f` microseconds past a whole second counts a timestamp `d` whole seconds in
   * the past as `d` seconds old, and one `d` seconds in the future as only `d - 1`: the
   * microseconds of the clock are dropped after taking the absolute value.
   */
  lemma ElapsedDropsMicroseconds(nowSecs: int, f: int, d: int)
    requires 0 < f < MICROS_PER_SECOND && d >= 1
    ensures ElapsedSeconds(nowSecs * MICROS_PER_SECOND + f, (nowSecs - d) * MICROS_PER_SECOND) == d
    ensures ElapsedSeconds(nowSecs * MICROS_PER_SECOND + f, (nowSecs + d) * MICROS_PER_SECOND) == d - 1
  {
    var now := nowSecs * MICROS_PER_SECOND + f;
    assert now - (nowSecs - d) * MICROS_PER_SECOND == d * MICROS_PER_SECOND + f;
    assert now - (nowSecs + d) * MICROS_PER_SECOND == -((d - 1) * MICROS_PER_SECOND + (MICROS_PER_SECOND - f));
    DivUnique(d * MICROS_PER_SECOND + f, MICROS_PER_SECOND, d, f);
    DivUnique((d - 1) * MICROS_PER_SECOND + (MICROS_PER_SECOND - f), MICROS_PER_SECOND, d - 1, MICROS_PER_SECOND - f);
  }
}
