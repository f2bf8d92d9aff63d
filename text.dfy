/**
 * The few operations of Python's `str` that the languoid code relies on, with
 * Python's semantics: `find`, `split(sep)`, `split(sep, 1)`, `join`, `strip()`,
 * `endswith`, slicing off the last character, decimal rendering of an integer
 * (`'%s' % n`) and the newline replacement done before a descriptor is written.
 */
module Text {
  import opened Wrappers

  /** `sep` occurs in `s` starting at index `i`. */
  predicate OccursAt(s: string, sep: string, i: nat) {
    i + |sep| <= |s| && s[i..i + |sep|] == sep
  }

  /** The first occurrence of `sep` in `s` at or after `from` (`s.find(sep, from)`). */
  function IndexFrom(s: string, sep: string, from: nat): (r: Option<nat>)
    decreases |s| - from
    ensures r.Some? ==> from <= r.value && OccursAt(s, sep, r.value)
    ensures forall j :: from <= j && (r.None? || j < r.value) ==> !OccursAt(s, sep, j)
  {
    if from + |sep| > |s| then None
    else if s[from..from + |sep|] == sep then Some(from)
    else IndexFrom(s, sep, from + 1)
  }

  function IndexOf(s: string, sep: string): Option<nat> {
    IndexFrom(s, sep, 0)
  }

  /** `s.split(sep)`: the pieces between the non-overlapping occurrences of `sep`, left to right. */
  function Split(s: string, sep: string): (parts: seq<string>)
    requires |sep| > 0
    decreases |s|
    ensures |parts| >= 1
  {
    match IndexOf(s, sep)
    case None => [s]
    case Some(i) => [s[..i]] + Split(s[i + |sep|..], sep)
  }

  /** `s.split(sep, 1)` unpacked into two names: fails when `sep` does not occur. */
  function SplitOnce(s: string, sep: string): (r: Option<(string, string)>)
    requires |sep| > 0
    ensures r.Some? <==> exists i :: OccursAt(s, sep, i)
    ensures r.Some? ==> s == r.value.0 + sep + r.value.1
    ensures r.Some? ==> forall j :: 0 <= j < |r.value.0| ==> !OccursAt(s, sep, j)
  {
    match IndexOf(s, sep)
    case None => None
    case Some(i) =>
      assert s == s[..i] + sep + s[i + |sep|..] by {
        assert s[i..i + |sep|] == sep;
        assert s == s[..i] + s[i..i + |sep|] + s[i + |sep|..];
      }
      Some((s[..i], s[i + |sep|..]))
  }

  /** `sep.join(parts)`. */
  function Join(parts: seq<string>, sep: string): string
    decreases |parts|
  {
    if |parts| == 0 then ""
    else if |parts| == 1 then parts[0]
    else parts[0] + sep + Join(parts[1..], sep)
  }

  /** Joining a piece in front of a non-empty list puts one separator between them. */
  lemma {:induction false} JoinCons(p: string, rest: seq<string>, sep: string)
    requires rest != []
    ensures Join([p] + rest, sep) == p + sep + Join(rest, sep)
  {
    assert ([p] + rest)[1..] == rest;
  }

  /** Splitting and joining again gives back the string. */
  lemma {:induction false} JoinSplit(s: string, sep: string)
    requires |sep| > 0
    ensures Join(Split(s, sep), sep) == s
    decreases |s|
  {
    match IndexOf(s, sep)
    case None =>
    case Some(i) =>
      var rest := s[i + |sep|..];
      var tail := Split(rest, sep);
      JoinSplit(rest, sep);
      JoinCons(s[..i], tail, sep);
      assert s[i..i + |sep|] == sep;
      assert s == s[..i] + s[i..i + |sep|] + rest;
  }

  /** No occurrence of `sep` starts inside `p` when `p` is followed by `sep`. */
  predicate NoEarlyMatch(p: string, sep: string) {
    forall j :: 0 <= j < |p| ==> !OccursAt(p + sep, sep, j)
  }

  /** The first occurrence of `sep` in `p + sep + rest` is the one after `p`. */
  lemma {:induction false} IndexOfJoin(p: string, sep: string, rest: string)
    requires NoEarlyMatch(p, sep)
    ensures IndexOf(p + sep + rest, sep) == Some(|p|)
  {
    var s := p + sep + rest;
    assert s[|p|..|p| + |sep|] == sep;
    assert OccursAt(s, sep, |p|);
    forall j | 0 <= j < |p|
      ensures !OccursAt(s, sep, j)
    {
      assert !OccursAt(p + sep, sep, j);
      assert s[j..j + |sep|] == (p + sep)[j..j + |sep|];
    }
  }

  /** When the first separator sits right after `p`, splitting peels `p` off the front. */
  lemma {:induction false} SplitCons(p: string, sep: string, rest: string)
    requires |sep| > 0 && NoEarlyMatch(p, sep)
    ensures Split(p + sep + rest, sep) == [p] + Split(rest, sep)
  {
    IndexOfJoin(p, sep, rest);
    var s := p + sep + rest;
    assert s[|p| + |sep|..] == rest;
    assert s[..|p|] == p;
  }

  /**
   * Joining pieces and splitting again gives back the pieces, provided no
   * piece but the last runs into a separator early and the last has none.
   */
  lemma {:induction false} SplitJoin(parts: seq<string>, sep: string)
    requires |sep| > 0 && |parts| >= 1
    requires forall i :: 0 <= i < |parts| - 1 ==> NoEarlyMatch(parts[i], sep)
    requires IndexOf(parts[|parts| - 1], sep).None?
    ensures Split(Join(parts, sep), sep) == parts
    decreases |parts|
  {
    if |parts| > 1 {
      var head, tail := parts[0], parts[1..];
      assert Join(parts, sep) == head + sep + Join(tail, sep);
      forall i | 0 <= i < |tail| - 1 ensures NoEarlyMatch(tail[i], sep) {
        assert tail[i] == parts[i + 1];
      }
      assert tail[|tail| - 1] == parts[|parts| - 1];
      SplitJoin(tail, sep);
      SplitCons(head, sep, Join(tail, sep));
      assert parts == [head] + tail;
    }
  }

  predicate EndsWith(s: string, c: char) {
    |s| > 0 && s[|s| - 1] == c
  }

  /** `s[:-1]`: the empty string stays empty. */
  function DropLast(s: string): string {
    if |s| == 0 then "" else s[..|s| - 1]
  }

  /** Python's `str.isspace` for one character. */
  predicate IsSpace(c: char) {
    || c == ' '
    || ('\t' <= c <= '\r')
    || ('\U{1C}' <= c <= '\U{1F}')
    || c == '\U{85}' || c == '\U{A0}' || c == '\U{1680}'
    || ('\U{2000}' <= c <= '\U{200A}')
    || c == '\U{2028}' || c == '\U{2029}' || c == '\U{202F}' || c == '\U{205F}' || c == '\U{3000}'
  }

  predicate AllSpace(s: string) {
    forall i :: 0 <= i < |s| ==> IsSpace(s[i])
  }

  /** Whitespace followed by whitespace is whitespace. */
  lemma {:induction false} AllSpaceAppend(u: string, v: string)
    requires AllSpace(u) && AllSpace(v)
    ensures AllSpace(u + v)
  {
    forall i | 0 <= i < |u + v| ensures IsSpace((u + v)[i]) {
      if i < |u| {
        assert (u + v)[i] == u[i];
      } else {
        assert (u + v)[i] == v[i - |u|];
      }
    }
  }

  /** `s.lstrip()`: the longest suffix that does not start with whitespace. */
  function TrimLeft(s: string): (r: string)
    decreases |s|
    ensures |r| <= |s| && r == s[|s| - |r|..]
    ensures AllSpace(s[..|s| - |r|])
    ensures r == "" || !IsSpace(r[0])
  {
    if |s| > 0 && IsSpace(s[0]) then
      var t := TrimLeft(s[1..]);
      assert s[..|s| - |t|] == [s[0]] + s[1..][..|s| - 1 - |t|];
      t
    else s
  }

  /** `s.rstrip()`: the longest prefix that does not end with whitespace. */
  function TrimRight(s: string): (r: string)
    decreases |s|
    ensures |r| <= |s| && r == s[..|r|]
    ensures AllSpace(s[|r|..])
    ensures r == "" || !IsSpace(r[|r| - 1])
  {
    if |s| > 0 && IsSpace(s[|s| - 1]) then
      var t := TrimRight(s[..|s| - 1]);
      assert s[|t|..] == s[..|s| - 1][|t|..] + [s[|s| - 1]];
      AllSpaceAppend(s[..|s| - 1][|t|..], [s[|s| - 1]]);
      t
    else s
  }

  /** `s.strip()`. */
  function Strip(s: string): string {
    TrimRight(TrimLeft(s))
  }

  /** `lstrip` removes exactly a run of whitespace in front of a part that does not start with it. */
  lemma {:induction false} TrimLeftPadded(pre: string, rest: string)
    requires AllSpace(pre) && (rest == "" || !IsSpace(rest[0]))
    ensures TrimLeft(pre + rest) == rest
    decreases |pre|
  {
    if pre != [] {
      assert (pre + rest)[0] == pre[0] && (pre + rest)[1..] == pre[1..] + rest;
      TrimLeftPadded(pre[1..], rest);
    } else {
      assert pre + rest == rest;
    }
  }

  /** `rstrip` removes exactly a run of whitespace after a part that does not end with it. */
  lemma {:induction false} TrimRightPadded(core: string, post: string)
    requires AllSpace(post) && (core == "" || !IsSpace(core[|core| - 1]))
    ensures TrimRight(core + post) == core
    decreases |post|
  {
    if post != [] {
      var s := core + post;
      assert s[|s| - 1] == post[|post| - 1] && s[..|s| - 1] == core + post[..|post| - 1];
      TrimRightPadded(core, post[..|post| - 1]);
    } else {
      assert core + post == core;
    }
  }

  /** Whitespace around a trimmed core is exactly what `strip` removes. */
  lemma {:induction false} StripPadded(pre: string, core: string, post: string)
    requires AllSpace(pre) && AllSpace(post)
    requires core == "" || (!IsSpace(core[0]) && !IsSpace(core[|core| - 1]))
    ensures Strip(pre + core + post) == core
  {
    if core == "" {
      assert pre + core + post == pre + post + "";
      assert AllSpace(pre + post) by {
        forall i | 0 <= i < |pre + post| ensures IsSpace((pre + post)[i]) {
          if i >= |pre| { assert (pre + post)[i] == post[i - |pre|]; }
        }
      }
      TrimLeftPadded(pre + post, "");
    } else {
      assert pre + core + post == pre + (core + post) && (core + post)[0] == core[0];
      TrimLeftPadded(pre, core + post);
      TrimRightPadded(core, post);
    }
  }

  predicate IsAsciiDigit(c: char) {
    '0' <= c <= '9'
  }

  function DigitChar(d: nat): (c: char)
    requires d < 10
    ensures IsAsciiDigit(c)
  {
    ('0' as int + d) as char
  }

  /** The decimal digits of `n`, most significant first, without leading zeros. */
  function Digits(n: nat): (r: string)
    decreases n
    ensures |r| >= 1 && forall i :: 0 <= i < |r| ==> IsAsciiDigit(r[i])
    ensures n >= 10 ==> |r| >= 2
  {
    if n < 10 then [DigitChar(n)] else Digits(n / 10) + [DigitChar(n % 10)]
  }

  /** `'%s' % n` for an integer `n`. */
  function Decimal(n: int): (r: string)
    ensures |r| >= 1 && (r[0] == '-' <==> n < 0)
  {
    if n < 0 then "-" + Digits(-n) else Digits(n)
  }

  /** Different numbers have different digit strings. */
  lemma {:induction false} DigitsInjective(a: nat, b: nat)
    requires Digits(a) == Digits(b)
    ensures a == b
    decreases a
  {
    if a >= 10 && b >= 10 {
      var da, db := Digits(a), Digits(b);
      assert da[|da| - 1] == DigitChar(a % 10);
      assert db[|db| - 1] == DigitChar(b % 10);
      assert Digits(a / 10) == da[..|da| - 1] == db[..|db| - 1] == Digits(b / 10);
      DigitsInjective(a / 10, b / 10);
    }
  }

  /** Different integers are rendered differently. */
  lemma {:induction false} DecimalInjective(a: int, b: int)
    requires Decimal(a) == Decimal(b)
    ensures a == b
  {
    if a < 0 {
      assert Digits(-a) == Decimal(a)[1..] == Decimal(b)[1..] == Digits(-b);
      DigitsInjective(-a, -b);
    } else {
      DigitsInjective(a, b);
    }
  }

  /** A four-digit number is rendered as exactly four ASCII digits. */
  lemma {:induction false} DecimalFourDigits(n: int)
    requires 1000 <= n <= 9999
    ensures |Decimal(n)| == 4 && forall i :: 0 <= i < 4 ==> IsAsciiDigit(Decimal(n)[i])
  {
    var hundreds, tens, ones := n / 10, n / 100, n / 1000;
    assert hundreds / 10 == tens && tens / 10 == ones;
    assert 100 <= hundreds <= 999 && 10 <= tens <= 99 && 1 <= ones <= 9;
    assert |Digits(ones)| == 1;
    assert |Digits(tens)| == 2;
    assert |Digits(hundreds)| == 3;
    assert |Digits(n)| == 4;
  }

  /** `text.replace('\n', '\r\n')`: every line feed is given a carriage return in front. */
  function ToCrlf(text: string): (r: string)
    decreases |text|
    ensures forall i :: 0 <= i < |r| && r[i] == '\n' ==> 0 < i && r[i - 1] == '\r'
    ensures '\n' !in text ==> r == text
  {
    if text == [] then []
    else (if text[0] == '\n' then "\r\n" else [text[0]]) + ToCrlf(text[1..])
  }

  /** The replacement works character by character, so it distributes over concatenation. */
  lemma {:induction false} ToCrlfAppend(a: string, b: string)
    ensures ToCrlf(a + b) == ToCrlf(a) + ToCrlf(b)
    decreases |a|
  {
    if a == [] {
      assert a + b == b;
    } else {
      assert (a + b)[0] == a[0] && (a + b)[1..] == a[1..] + b;
      ToCrlfAppend(a[1..], b);
    }
  }

  /** A text made of lines joined by `\n` becomes the same lines joined by `\r\n`. */
  lemma {:induction false} ToCrlfLines(lines: seq<string>)
    requires forall i :: 0 <= i < |lines| ==> '\n' !in lines[i]
    ensures ToCrlf(Join(lines, "\n")) == Join(lines, "\r\n")
    decreases |lines|
  {
    if |lines| > 1 {
      var rest := Join(lines[1..], "\n");
      forall i | 0 <= i < |lines[1..]| ensures '\n' !in lines[1..][i] {
        assert lines[1..][i] == lines[i + 1];
      }
      ToCrlfLines(lines[1..]);
      assert lines[0] + "\n" + rest == lines[0] + ("\n" + rest);
      ToCrlfAppend(lines[0], "\n" + rest);
      ToCrlfAppend("\n", rest);
      assert ToCrlf("\n") == "\r\n" by {
        assert "\n"[1..] == [];
      }
    } else if |lines| == 1 {
      assert '\n' !in lines[0];
    }
  }
}
