/**
 * The Python string built-ins the GUI's input handling rests on:
 * `str.split(sep)`, `sep.join(tokens)`, `int(str)` (base 10) and `str(int)`.
 * Strings are sequences of code points, as in Python 3.
 */
module PyText {

  datatype Option<T> = None | Some(value: T)

  /** `s.split(sep)` with an explicit one-character separator: never empty,
      `"".split(",") == [""]`, and no token contains the separator. */
  function Split(s: string, sep: char): (r: seq<string>)
    ensures |r| >= 1
    ensures forall i :: 0 <= i < |r| ==> sep !in r[i]
    decreases |s|
  {
    if s == [] then [[]]
    else if s[0] == sep then [[]] + Split(s[1..], sep)
    else
      var rest := Split(s[1..], sep);
      [[s[0]] + rest[0]] + rest[1..]
  }

  /** `sep.join(tokens)`. */
  function Join(tokens: seq<string>, sep: char): string
  {
    if |tokens| == 0 then []
    else if |tokens| == 1 then tokens[0]
    else tokens[0] + [sep] + Join(tokens[1..], sep)
  }

  lemma {:induction false} SplitNoSep(t: string, sep: char)
    requires sep !in t
    ensures Split(t, sep) == [t]
    decreases |t|
  {
    if t != [] {
      SplitNoSep(t[1..], sep);
      assert [t[0]] + t[1..] == t;
    }
  }

  lemma {:induction false} SplitCons(t: string, rest: string, sep: char)
    requires sep !in t
    ensures Split(t + [sep] + rest, sep) == [t] + Split(rest, sep)
    decreases |t|
  {
    var s := t + [sep] + rest;
    if t == [] {
      assert s == [sep] + rest;
      assert s[1..] == rest;
    } else {
      assert s[1..] == t[1..] + [sep] + rest;
      SplitCons(t[1..], rest, sep);
      assert [t[0]] + t[1..] == t;
    }
  }

  /** Splitting undoes joining whenever no token holds the separator and
      there is at least one token (joining `[]` gives `""`, which splits to `[""]`). */
  lemma {:induction false} SplitJoin(tokens: seq<string>, sep: char)
    requires |tokens| >= 1
    requires forall i :: 0 <= i < |tokens| ==> sep !in tokens[i]
    ensures Split(Join(tokens, sep), sep) == tokens
    decreases |tokens|
  {
    if |tokens| == 1 {
      SplitNoSep(tokens[0], sep);
    } else {
      SplitJoin(tokens[1..], sep);
      SplitCons(tokens[0], Join(tokens[1..], sep), sep);
      assert [tokens[0]] + tokens[1..] == tokens;
    }
  }

  /** Joining undoes splitting, for every string. */
  lemma {:induction false} JoinSplit(s: string, sep: char)
    ensures Join(Split(s, sep), sep) == s
    decreases |s|
  {
    if s != [] {
      JoinSplit(s[1..], sep);
      var rest := Split(s[1..], sep);
      if s[0] == sep {
        assert s == [sep] + s[1..];
      } else {
        assert s == [s[0]] + s[1..];
      }
    }
  }

  /** `s.startswith(p)`. */
  predicate IsPrefix(p: string, s: string)
  {
    |p| <= |s| && s[..|p|] == p
  }

  /** The characters `int()` skips around a number: the six ASCII white-space
      characters, and the non-ASCII characters Python counts as white space
      (which `int()` turns into a space before parsing). The ASCII separators
      U+001C..U+001F, white space to `str.isspace()`, are not skipped. */
  predicate IsSpace(c: char)
  {
    c in {' ', '\t', '\n', '\r', '\U{000B}', '\U{000C}', '\U{0085}', '\U{00A0}', '\U{1680}',
          '\U{2028}', '\U{2029}', '\U{202F}', '\U{205F}', '\U{3000}'}
    || '\U{2000}' <= c <= '\U{200A}'
  }

  predicate IsDigit(c: char) { '0' <= c <= '9' }

  function DigitValue(c: char): (d: nat)
    requires IsDigit(c)
    ensures d <= 9
  {
    (c as int) - ('0' as int)
  }

  function DigitChar(d: nat): (c: char)
    requires d <= 9
    ensures IsDigit(c) && DigitValue(c) == d
  {
    (d + '0' as int) as char
  }

  /** The white space `int()` skips on both sides of the number. */
  function Strip(s: string): string
  {
    TrimEnd(TrimStart(s))
  }

  function TrimStart(s: string): (r: string)
    ensures r == [] || !IsSpace(r[0])
    ensures |r| <= |s|
  {
    if s != [] && IsSpace(s[0]) then TrimStart(s[1..]) else s
  }

  function TrimEnd(s: string): (r: string)
    ensures r == [] || !IsSpace(r[|r| - 1])
    ensures |r| <= |s|
  {
    if s != [] && IsSpace(s[|s| - 1]) then TrimEnd(s[..|s| - 1]) else s
  }

  /** A run of ASCII digits in which single underscores may separate digits,
      the body `int()` accepts after the sign. */
  predicate DigitRun(s: string)
  {
    && |s| > 0
    && IsDigit(s[0])
    && IsDigit(s[|s| - 1])
    && (forall i :: 0 <= i < |s| ==> IsDigit(s[i]) || s[i] == '_')
    && (forall i :: 0 <= i < |s| - 1 ==> !DoubleUnderscore(s, i))
  }

  predicate DoubleUnderscore(s: string, i: nat)
    requires i + 1 < |s|
  {
    s[i] == '_' && s[i + 1] == '_'
  }

  /** The value of a run of digits and underscores, underscores skipped. */
  function RunValue(s: string): nat
    requires forall i :: 0 <= i < |s| ==> IsDigit(s[i]) || s[i] == '_'
  {
    if s == [] then 0
    else if s[|s| - 1] == '_' then RunValue(s[..|s| - 1])
    else 10 * RunValue(s[..|s| - 1]) + DigitValue(s[|s| - 1])
  }

  /** `int(s)` for a `str` argument in base 10: surrounding white space,
      one optional sign, then a digit run; `None` is the `ValueError`. */
  function ParseInt(s: string): Option<int>
  {
    ParseStripped(Strip(s))
  }

  /** `int()` after the strip: one optional sign, then a digit run. */
  function ParseStripped(t: string): Option<int>
  {
    if t == [] then None
    else
      var neg := t[0] == '-';
      var body := if t[0] == '-' || t[0] == '+' then t[1..] else t;
      if !DigitRun(body) then None
      else
        var v: int := RunValue(body);
        Some(if neg then -v else v)
  }

  /** `str(n)` for a non-negative integer: decimal digits, no leading zero. */
  function NatToString(n: nat): (r: string)
    ensures |r| >= 1 && forall i :: 0 <= i < |r| ==> IsDigit(r[i])
  {
    if n < 10 then [DigitChar(n)] else NatToString(n / 10) + [DigitChar(n % 10)]
  }

  /** `str(n)` for any integer. */
  function IntToString(n: int): string
  {
    if n < 0 then "-" + NatToString(-n) else NatToString(n)
  }

  lemma {:induction false} NatToStringValue(n: nat)
    ensures RunValue(NatToString(n)) == n
  {
    var s := NatToString(n);
    if n >= 10 {
      NatToStringValue(n / 10);
      assert s[..|s| - 1] == NatToString(n / 10);
    }
  }

  lemma StripKeeps(s: string)
    requires s != [] && !IsSpace(s[0]) && !IsSpace(s[|s| - 1])
    ensures Strip(s) == s
  {
    assert TrimStart(s) == s;
  }

  lemma NotSpace(c: char)
    requires IsDigit(c) || c == '-'
    ensures !IsSpace(c)
  {
  }

  /** What `int()` makes of an already stripped string: a signed or unsigned digit run. */
  lemma ParseClean(s: string, body: string, neg: bool)
    requires DigitRun(body)
    requires s == (if neg then "-" else "") + body
    ensures ParseInt(s) == Some(if neg then -(RunValue(body) as int) else RunValue(body))
  {
    if neg {
      assert s[0] == '-' && s[1..] == body;
    } else {
      assert s == body;
    }
    NotSpace(s[0]);
    NotSpace(s[|s| - 1]);
    StripKeeps(s);
    var t := Strip(s);
    assert t == s;
    assert (if t[0] == '-' || t[0] == '+' then t[1..] else t) == body;
  }

  /** `int()` of a single digit. */
  lemma ParseDigit(s: string)
    requires |s| == 1 && IsDigit(s[0])
    ensures ParseInt(s) == Some(DigitValue(s[0]) as int)
  {
    assert RunValue(s) == DigitValue(s[0]) by { assert s[..0] == []; }
    ParseClean(s, s, false);
  }

  /** An example: `int()` does not skip the ASCII separator U+001C, although
      `str.isspace()` counts it as white space. */
  lemma SeparatorIsNotSpace()
    ensures ParseInt("\U{001C}1") == None
  {
    StripKeeps("\U{001C}1");
  }

  /** A non-empty run of plain digits is a digit run. */
  lemma DigitsAreARun(d: string)
    requires |d| >= 1 && forall i :: 0 <= i < |d| ==> IsDigit(d[i])
    ensures DigitRun(d)
  {
    forall i | 0 <= i < |d| - 1
      ensures !DoubleUnderscore(d, i)
    {
      assert IsDigit(d[i]);
    }
  }

  /** `int(str(n)) == n`: the parser reads back every integer it is shown. */
  lemma IntRoundTrip(n: int)
    ensures ParseInt(IntToString(n)) == Some(n)
  {
    var m: nat := if n < 0 then -n else n;
    NatToStringValue(m);
    DigitsAreARun(NatToString(m));
    ParseClean(IntToString(n), NatToString(m), n < 0);
  }
}
