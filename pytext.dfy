/**
 * The pieces of Python's text handling the check relies on:
 * `str.strip()` with no argument, `str(n)` for an integer and `int(s)` for a string,
 * all over Dafny strings (sequences of Unicode scalar values).
 */
module PyText {
  import opened Wrappers

  /** Python's `str.isspace()` for one character (the characters `str.strip()` removes). */
  predicate IsSpace(c: char)
  {
    || ('\t' <= c <= '\r')                 // TAB, LF, VT, FF, CR
    || ('\U{1C}' <= c <= '\U{1F}')         // file, group, record, unit separators
    || c == ' ' || c == '\U{85}' || c == '\U{A0}' || c == '\U{1680}'
    || ('\U{2000}' <= c <= '\U{200A}')
    || c == '\U{2028}' || c == '\U{2029}' || c == '\U{202F}' || c == '\U{205F}' || c == '\U{3000}'
  }

  predicate AllSpace(s: string)
  {
    forall i :: 0 <= i < |s| ==> IsSpace(s[i])
  }

  /** No whitespace at either end: what `strip()` leaves behind. */
  predicate Trimmed(s: string)
  {
    s == [] || (!IsSpace(s[0]) && !IsSpace(s[|s| - 1]))
  }

  /** `s.lstrip()`: drops the whitespace prefix and nothing else. */
  function LStrip(s: string): (r: string)
    ensures |r| <= |s| && r == s[|s| - |r|..]
    ensures r == [] || !IsSpace(r[0])
  {
    if |s| > 0 && IsSpace(s[0]) then LStrip(s[1..]) else s
  }

  /** `s.rstrip()`: drops the whitespace suffix and nothing else. */
  function RStrip(s: string): (r: string)
    ensures |r| <= |s| && r == s[..|r|]
    ensures r == [] || !IsSpace(r[|r| - 1])
  {
    if |s| > 0 && IsSpace(s[|s| - 1]) then RStrip(s[..|s| - 1]) else s
  }

  /** `s.strip()`: `lstrip` then `rstrip`. */
  function Strip(s: string): (r: string)
    ensures Trimmed(r)
  {
    RStrip(LStrip(s))
  }

  /** What `lstrip()` removes is whitespace only. */
  lemma {:induction false} LStripRemovesSpace(s: string)
    ensures AllSpace(s[..|s| - |LStrip(s)|])
    decreases |s|
  {
    if |s| > 0 && IsSpace(s[0]) {
      var t := s[1..];
      LStripRemovesSpace(t);
      var p := s[..|s| - |LStrip(s)|];
      assert LStrip(s) == LStrip(t);
      forall k | 0 <= k < |p|
        ensures IsSpace(p[k])
      {
        if k > 0 {
          assert p[k] == t[..|t| - |LStrip(t)|][k - 1];
        }
      }
    }
  }

  /** What `rstrip()` removes is whitespace only. */
  lemma {:induction false} RStripRemovesSpace(s: string)
    ensures AllSpace(s[|RStrip(s)|..])
    decreases |s|
  {
    if |s| > 0 && IsSpace(s[|s| - 1]) {
      var t := s[..|s| - 1];
      RStripRemovesSpace(t);
      assert s[|RStrip(s)|..] == t[|RStrip(t)|..] + [s[|s| - 1]];
    }
  }

  /**
   * What `strip()` returns is the slice of `s` between a whitespace-only prefix and a
   * whitespace-only suffix.
   */
  lemma StripIsSlice(s: string)
    ensures exists i, j :: 0 <= i <= j <= |s| && Strip(s) == s[i..j] && AllSpace(s[..i]) && AllSpace(s[j..])
  {
    var l := LStrip(s);
    var r := RStrip(l);
    var i := |s| - |l|;
    LStripRemovesSpace(s);
    RStripRemovesSpace(l);
    assert r == s[i..i + |r|];
    assert (s[i..])[|r|..] == s[i + |r|..];
  }

  /** `strip()` introduces no character that was not already there. */
  lemma StripKeepsAbsent(s: string, c: char)
    requires c !in s
    ensures c !in Strip(s)
  {
    var l := LStrip(s);
    var r := RStrip(l);
    forall n | 0 <= n < |r|
      ensures r[n] != c
    {
      assert r[n] == l[n];
      assert l[n] == s[|s| - |l| + n];
    }
  }

  /** Stripping text that is already trimmed changes nothing. */
  lemma StripTrimmed(s: string)
    requires Trimmed(s)
    ensures Strip(s) == s
  {
  }

  /** `strip()` is idempotent. */
  lemma StripIdempotent(s: string)
    ensures Strip(Strip(s)) == Strip(s)
  {
    StripTrimmed(Strip(s));
  }

  /** Stripping removes exactly the trailing whitespace of text that starts with a non-space. */
  lemma {:induction false} StripDropsTrailing(s: string, tail: string)
    requires |s| > 0 && !IsSpace(s[0]) && !IsSpace(s[|s| - 1])
    requires AllSpace(tail)
    ensures Strip(s + tail) == s
    decreases |tail|
  {
    if tail == [] {
      assert s + tail == s;
    } else {
      var u := s + tail[..|tail| - 1];
      assert (s + tail)[..|s + tail| - 1] == u;
      StripDropsTrailing(s, tail[..|tail| - 1]);
      assert LStrip(s + tail) == s + tail;
      assert LStrip(u) == u;
    }
  }

  // ----- str(n) -----

  predicate IsDigit(c: char)
  {
    '0' <= c <= '9'
  }

  predicate AllDigits(s: string)
  {
    forall i :: 0 <= i < |s| ==> IsDigit(s[i])
  }

  function DigitChar(d: nat): (c: char)
    requires d < 10
    ensures IsDigit(c)
  {
    "0123456789"[d]
  }

  function DigitValue(c: char): (d: nat)
    requires IsDigit(c)
    ensures d < 10 && DigitChar(d) == c
  {
    (c as int - '0' as int) as nat
  }

  /** The decimal digits of `n`, most significant first, without leading zeros. */
  function Digits(n: nat): (s: string)
    ensures |s| > 0 && AllDigits(s)
    ensures |s| > 1 ==> s[0] != '0'
  {
    if n < 10 then [DigitChar(n)] else Digits(n / 10) + [DigitChar(n % 10)]
  }

  /** `str(n)` for a Python integer: an optional minus sign, then the decimal digits. */
  function IntToStr(n: int): (s: string)
    ensures |s| > 0 && Trimmed(s)
    ensures n >= 0 <==> AllDigits(s)
    ensures n >= 0 && |s| > 1 ==> s[0] != '0'
    ensures n < 0 ==> |s| > 1 && s[0] == '-' && AllDigits(s[1..]) && (|s| > 2 ==> s[1] != '0')
  {
    if n < 0 then "-" + Digits(-n) else Digits(n)
  }

  // ----- int(s) -----

  /**
   * The padding `int(s)` skips: the six ASCII whitespace characters ` \t\n\v\f\r`, and any
   * non-ASCII character `str.isspace()` accepts (which `int()` first turns into a space).
   * The ASCII separators U+001C..U+001F are whitespace to `strip()` but not to `int()`.
   */
  predicate IsIntSpace(c: char)
  {
    c == ' ' || ('\t' <= c <= '\r') || (c as int >= 0x80 && IsSpace(c))
  }

  predicate AllIntSpace(s: string)
  {
    forall i :: 0 <= i < |s| ==> IsIntSpace(s[i])
  }

  predicate IntTrimmed(s: string)
  {
    s == [] || (!IsIntSpace(s[0]) && !IsIntSpace(s[|s| - 1]))
  }

  function IntLStrip(s: string): (r: string)
    ensures |r| <= |s| && r == s[|s| - |r|..]
    ensures r == [] || !IsIntSpace(r[0])
  {
    if |s| > 0 && IsIntSpace(s[0]) then IntLStrip(s[1..]) else s
  }

  function IntRStrip(s: string): (r: string)
    ensures |r| <= |s| && r == s[..|r|]
    ensures r == [] || !IsIntSpace(r[|r| - 1])
  {
    if |s| > 0 && IsIntSpace(s[|s| - 1]) then IntRStrip(s[..|s| - 1]) else s
  }

  /** The whitespace `int(s)` removes around the number before reading it. */
  function IntStrip(s: string): (r: string)
    ensures IntTrimmed(r)
  {
    IntRStrip(IntLStrip(s))
  }

  /** The value of a non-empty run of decimal digits (leading zeros allowed). */
  function DigitsValue(s: string): (n: nat)
    requires AllDigits(s)
  {
    if s == [] then 0 else DigitsValue(s[..|s| - 1]) * 10 + DigitValue(s[|s| - 1])
  }

  /**
   * `int(s)` for a string, base 10: surrounding `int()` whitespace is ignored, an optional
   * `+` or `-` sign is followed by at least one digit; anything else is a ValueError (None).
   */
  function ParseInt(s: string): (r: Option<int>)
    ensures r.Some? <==> var t := IntStrip(s);
      || (|t| > 0 && AllDigits(t))
      || (|t| > 1 && (t[0] == '-' || t[0] == '+') && AllDigits(t[1..]))
    ensures var t := IntStrip(s); |t| > 0 && AllDigits(t) ==> r == Some(DigitsValue(t) as int)
    ensures var t := IntStrip(s); |t| > 1 && t[0] == '+' && AllDigits(t[1..]) ==> r == Some(DigitsValue(t[1..]) as int)
    ensures var t := IntStrip(s); |t| > 1 && t[0] == '-' && AllDigits(t[1..]) ==> r == Some(-(DigitsValue(t[1..]) as int))
  {
    ParseSigned(IntStrip(s))
  }

  /** The sign-and-digits part of `int(s)`, once the whitespace is gone. */
  function ParseSigned(t: string): (r: Option<int>)
    ensures r.Some? <==>
      || (|t| > 0 && AllDigits(t))
      || (|t| > 1 && (t[0] == '-' || t[0] == '+') && AllDigits(t[1..]))
    ensures |t| > 0 && AllDigits(t) ==> r == Some(DigitsValue(t) as int)
    ensures |t| > 1 && t[0] == '+' && AllDigits(t[1..]) ==> r == Some(DigitsValue(t[1..]) as int)
    ensures |t| > 1 && t[0] == '-' && AllDigits(t[1..]) ==> r == Some(-(DigitsValue(t[1..]) as int))
  {
    if |t| > 0 && (t[0] == '-' || t[0] == '+') then
      var d := t[1..];
      if |d| > 0 && AllDigits(d) then
        Some(if t[0] == '-' then -(DigitsValue(d) as int) else DigitsValue(d) as int)
      else None
    else if |t| > 0 && AllDigits(t) then Some(DigitsValue(t) as int)
    else None
  }

  lemma {:induction false} DigitsRoundTrip(n: nat)
    ensures DigitsValue(Digits(n)) == n
    decreases n
  {
    if n >= 10 {
      var s := Digits(n);
      assert s[..|s| - 1] == Digits(n / 10);
      DigitsRoundTrip(n / 10);
    }
  }

  /** `int(str(n)) == n`: the rendering of an integer parses back to it. */
  lemma IntStrRoundTrip(n: int)
    ensures ParseInt(IntToStr(n)) == Some(n)
  {
    var s := IntToStr(n);
    TrimmedForInt(s);
    ParseTrimmed(s);
    if n < 0 {
      var d := Digits(-n);
      assert s == "-" + d;
      DigitsRoundTrip(-n);
      ParseSignedNegative(d);
    } else {
      DigitsRoundTrip(n);
      ParseSignedDigits(Digits(n));
    }
  }

  /** Text `strip()` would leave alone is also left alone by `int()`, whose whitespace is a subset. */
  lemma TrimmedForInt(s: string)
    requires Trimmed(s)
    ensures IntTrimmed(s)
  {
  }

  lemma ParseTrimmed(s: string)
    requires IntTrimmed(s)
    ensures ParseInt(s) == ParseSigned(s)
  {
    assert IntLStrip(s) == s;
    assert IntRStrip(s) == s;
  }

  lemma ParseSignedDigits(d: string)
    requires |d| > 0 && AllDigits(d)
    ensures ParseSigned(d) == Some(DigitsValue(d) as int)
  {
    assert IsDigit(d[0]);
  }

  lemma ParseSignedNegative(d: string)
    requires |d| > 0 && AllDigits(d)
    ensures ParseSigned("-" + d) == Some(-(DigitsValue(d) as int))
  {
    var t := "-" + d;
    assert t[1..] == d;
    NegativeBranch(t);
  }

  lemma NegativeBranch(t: string)
    requires |t| > 1 && t[0] == '-' && AllDigits(t[1..])
    ensures ParseSigned(t) == Some(-(DigitsValue(t[1..]) as int))
  {
  }

  /** Distinct integers render differently. */
  lemma IntToStrInjective(m: int, n: int)
    requires IntToStr(m) == IntToStr(n)
    ensures m == n
  {
    IntStrRoundTrip(m);
    IntStrRoundTrip(n);
  }

  /** `int()` accepts its own whitespace around the number. */
  lemma ParseIntIgnoresPadding(pre: string, s: string, post: string)
    requires AllIntSpace(pre) && AllIntSpace(post)
    requires IntTrimmed(s)
    ensures ParseInt(pre + s + post) == ParseInt(s)
  {
    IntStripPadded(pre, s, post);
    ParseTrimmed(s);
  }

  /**
   * A unit separator is whitespace to `strip()` but not to `int()`: `int("\x1f5")` raises,
   * while `int(" 5\n")` is 5.
   */
  lemma ParseIntRejectsSeparator()
    ensures Strip("\U{1F}5") == "5"
    ensures ParseInt("\U{1F}5") == None
    ensures ParseInt(" 5\n") == Some(5)
  {
    StripSeparator();
    SeparatorNotIntSpace();
    PaddedFive();
  }

  lemma StripSeparator()
    ensures Strip("\U{1F}5") == "5"
  {
    var s: string := ['\U{1F}', '5'];
    assert IsSpace(s[0]);
    assert s[1..] == ['5'];
    assert LStrip(['5']) == ['5'];
    assert LStrip(s) == ['5'];
    assert RStrip(['5']) == ['5'];
  }

  lemma SeparatorNotIntSpace()
    ensures ParseInt("\U{1F}5") == None
  {
    var s: string := ['\U{1F}', '5'];
    assert !IsIntSpace(s[0]) && !IsIntSpace(s[1]);
    assert IntStrip(s) == s;
    assert !IsDigit(s[0]);
  }

  lemma PaddedFive()
    ensures ParseInt(" 5\n") == Some(5)
  {
    var s: string := [' ', '5', '\n'];
    assert s[1..] == ['5', '\n'];
    assert IntLStrip(['5', '\n']) == ['5', '\n'];
    assert IntLStrip(s) == ['5', '\n'];
    assert ['5', '\n'][..1] == ['5'];
    assert IntRStrip(['5']) == ['5'];
    assert IntStrip(s) == ['5'];
    assert ['5'][..0] == [];
    assert DigitsValue(['5']) == 5;
  }

  lemma {:induction false} IntStripPadded(pre: string, s: string, post: string)
    requires AllIntSpace(pre) && AllIntSpace(post)
    requires IntTrimmed(s)
    ensures IntStrip(pre + s + post) == s
    decreases |pre|
  {
    if pre != [] {
      assert (pre + s + post)[1..] == pre[1..] + s + post;
      IntStripPadded(pre[1..], s, post);
      assert IntLStrip(pre + s + post) == IntLStrip(pre[1..] + s + post);
    } else if s == [] {
      assert pre + s + post == post;
      AllIntSpaceStripsToEmpty(post);
    } else {
      assert pre + s + post == s + post;
      IntStripDropsTrailing(s, post);
    }
  }

  lemma {:induction false} IntStripDropsTrailing(s: string, tail: string)
    requires |s| > 0 && !IsIntSpace(s[0]) && !IsIntSpace(s[|s| - 1])
    requires AllIntSpace(tail)
    ensures IntStrip(s + tail) == s
    decreases |tail|
  {
    if tail == [] {
      assert s + tail == s;
    } else {
      var u := s + tail[..|tail| - 1];
      assert (s + tail)[..|s + tail| - 1] == u;
      IntStripDropsTrailing(s, tail[..|tail| - 1]);
      assert IntLStrip(s + tail) == s + tail;
      assert IntLStrip(u) == u;
    }
  }

  lemma {:induction false} AllIntSpaceStripsToEmpty(s: string)
    requires AllIntSpace(s)
    ensures IntLStrip(s) == [] && IntStrip(s) == []
    decreases |s|
  {
    if s != [] {
      AllIntSpaceStripsToEmpty(s[1..]);
    }
  }

  // ----- substrings -----

  /** Python's `t in s` for strings. */
  predicate Contains(s: string, t: string)
  {
    exists i :: 0 <= i <= |s| && t <= s[i..]
  }

  lemma ContainsMiddle(a: string, b: string, c: string)
    ensures Contains(a + b + c, b)
  {
    var s := a + b + c;
    assert b <= s[|a|..];
  }

  /** Stripping keeps a prefix that starts and ends with a non-space character. */
  lemma StripKeepsPrefix(p: string, q: string)
    requires |p| > 0 && !IsSpace(p[0]) && !IsSpace(p[|p| - 1])
    ensures |p| <= |Strip(p + q)| && Strip(p + q)[..|p|] == p
  {
    var s := p + q;
    assert LStrip(s) == s;
    RStripKeeps(s, |p|);
    assert s[..|p|] == p;
  }

  lemma {:induction false} RStripKeeps(s: string, n: nat)
    requires 0 < n <= |s| && !IsSpace(s[n - 1])
    ensures n <= |RStrip(s)|
    decreases |s|
  {
    if IsSpace(s[|s| - 1]) {
      RStripKeeps(s[..|s| - 1], n);
    }
  }
}
