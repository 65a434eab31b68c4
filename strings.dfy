/**
 * The Python string built-ins the analysis code relies on, stated on `seq<char>`:
 * `str.split()`, `str.split(sep)`, `sep.join`, `str.count`, `str.rstrip('\n')`,
 * `str.lower()` (Latin-1 only), the `<`, `^` and `>` alignments of format
 * specifications, `str(int)` and `os.path.basename`.
 */
module Strings {

  function Max(a: int, b: int): int { if a < b then b else a }

  /** `a / b if b != 0 else 0`, as an exact quotient. */
  function Ratio(a: int, b: int): (q: real)
    ensures b == 0 ==> q == 0.0
    ensures b != 0 ==> q * b as real == a as real
  {
    if b == 0 then 0.0 else a as real / b as real
  }

  // ---------------------------------------------------------------------------
  // Whitespace and str.split()
  // ---------------------------------------------------------------------------

  /** The characters for which Python's `str.isspace()` holds. */
  predicate IsSpace(c: char) {
    || c == ' '
    || '\t' <= c <= '\r'
    || '\U{1C}' <= c <= '\U{1F}'
    || c == '\U{85}' || c == '\U{A0}' || c == '\U{1680}'
    || '\U{2000}' <= c <= '\U{200A}'
    || c == '\U{2028}' || c == '\U{2029}' || c == '\U{202F}' || c == '\U{205F}' || c == '\U{3000}'
  }

  predicate NoSpace(w: string) {
    forall i :: 0 <= i < |w| ==> !IsSpace(w[i])
  }

  predicate AllSpace(w: string) {
    forall i :: 0 <= i < |w| ==> IsSpace(w[i])
  }

  /** Number of characters of `s` that are not whitespace. */
  function NonSpaceCount(s: string): nat {
    if s == [] then 0 else (if IsSpace(s[0]) then 0 else 1) + NonSpaceCount(s[1..])
  }

  /** Sum of the lengths of the strings in `ws`. */
  function SumLengths(ws: seq<string>): nat {
    if ws == [] then 0 else |ws[0]| + SumLengths(ws[1..])
  }

  /** Scans `s` with `word` holding the run of non-space characters read so far. */
  function SplitRuns(s: string, word: string): seq<string>
    decreases |s|
  {
    if s == [] then (if word == [] then [] else [word])
    else if IsSpace(s[0]) then (if word == [] then [] else [word]) + SplitRuns(s[1..], [])
    else SplitRuns(s[1..], word + [s[0]])
  }

  /** Python's `s.split()`: the maximal runs of non-whitespace characters, in order. */
  function Split(s: string): seq<string> {
    SplitRuns(s, [])
  }

  lemma {:induction false} SplitRunsShape(s: string, word: string)
    requires NoSpace(word)
    ensures forall w :: w in SplitRuns(s, word) ==> w != [] && NoSpace(w)
    decreases |s|
  {
    if s != [] {
      if IsSpace(s[0]) {
        SplitRunsShape(s[1..], []);
      } else {
        SplitRunsShape(s[1..], word + [s[0]]);
      }
    }
  }

  /** Every word `str.split()` yields is non-empty and holds no whitespace. */
  lemma SplitShape(s: string)
    ensures forall w :: w in Split(s) ==> w != [] && NoSpace(w)
  {
    SplitRunsShape(s, []);
  }

  lemma {:induction false} SplitRunsLengths(s: string, word: string)
    ensures SumLengths(SplitRuns(s, word)) == |word| + NonSpaceCount(s)
    decreases |s|
  {
    if s != [] {
      if IsSpace(s[0]) {
        SplitRunsLengths(s[1..], []);
        var rest := SplitRuns(s[1..], []);
        if word != [] {
          assert ([word] + rest)[1..] == rest;
        } else {
          assert [] + rest == rest;
        }
      } else {
        SplitRunsLengths(s[1..], word + [s[0]]);
      }
    } else if word != [] {
      assert [word][1..] == [];
    }
  }

  /** The words of `s.split()` together hold exactly the non-whitespace characters of `s`. */
  lemma SplitLengths(s: string)
    ensures SumLengths(Split(s)) == NonSpaceCount(s)
  {
    SplitRunsLengths(s, []);
  }

  lemma {:induction false} SplitRunsAllSpace(t: string, word: string)
    requires AllSpace(t)
    ensures SplitRuns(t, word) == if word == [] then [] else [word]
    decreases |t|
  {
    if t != [] {
      SplitRunsAllSpace(t[1..], []);
    }
  }

  lemma {:induction false} SplitRunsSpaceSuffix(s: string, t: string, word: string)
    requires AllSpace(t)
    ensures SplitRuns(s + t, word) == SplitRuns(s, word)
    decreases |s|
  {
    if s == [] {
      assert s + t == t;
      SplitRunsAllSpace(t, word);
    } else {
      assert (s + t)[0] == s[0];
      assert (s + t)[1..] == s[1..] + t;
      if IsSpace(s[0]) {
        SplitRunsSpaceSuffix(s[1..], t, []);
      } else {
        SplitRunsSpaceSuffix(s[1..], t, word + [s[0]]);
      }
    }
  }

  // ---------------------------------------------------------------------------
  // str.rstrip('\n'), str.count, str.lower()
  // ---------------------------------------------------------------------------

  /** Python's `s.rstrip('\n')`: `s` without its trailing line feeds. */
  function RStripNewlines(s: string): (r: string)
    ensures |r| <= |s| && r == s[..|r|]
    ensures r == [] || r[|r| - 1] != '\n'
  {
    if s != [] && s[|s| - 1] == '\n' then RStripNewlines(s[..|s| - 1]) else s
  }

  /** Stripping trailing line feeds does not change what `str.split()` yields. */
  lemma {:induction false} RStripNewlinesSplit(s: string)
    ensures Split(RStripNewlines(s)) == Split(s)
    decreases |s|
  {
    if s != [] && s[|s| - 1] == '\n' {
      var p := s[..|s| - 1];
      assert s == p + "\n";
      SplitRunsSpaceSuffix(p, "\n", []);
      RStripNewlinesSplit(p);
    }
  }

  /** Python's `s.count(c)` for a one-character `c`. */
  function CountChar(s: string, c: char): nat {
    if s == [] then 0 else (if s[0] == c then 1 else 0) + CountChar(s[1..], c)
  }

  /** `s` with every occurrence of `c` deleted. */
  function RemoveChar(s: string, c: char): string {
    if s == [] then []
    else if s[0] == c then RemoveChar(s[1..], c)
    else [s[0]] + RemoveChar(s[1..], c)
  }

  lemma {:induction false} RemoveCharConcat(a: string, b: string, c: char)
    ensures RemoveChar(a + b, c) == RemoveChar(a, c) + RemoveChar(b, c)
    decreases |a|
  {
    if a == [] {
      assert a + b == b;
    } else {
      RemoveCharConcat(a[1..], b, c);
      assert (a + b)[0] == a[0] && (a + b)[1..] == a[1..] + b;
    }
  }

  lemma {:induction false} RemoveCharAbsent(s: string, c: char)
    requires c !in s
    ensures RemoveChar(s, c) == s
    decreases |s|
  {
    if s != [] {
      RemoveCharAbsent(s[1..], c);
    }
  }

  /** Python's `str.lower()` on one character, for ASCII and the Latin-1 letters. */
  function LowerChar(c: char): char {
    if 'A' <= c <= 'Z' || ('\U{C0}' <= c <= '\U{DE}' && c != '\U{D7}') then (c as int + 32) as char else c
  }

  function Lower(s: string): (r: string)
    ensures |r| == |s|
  {
    seq(|s|, i requires 0 <= i < |s| => LowerChar(s[i]))
  }

  function EndsWith(s: string, suffix: string): bool {
    |suffix| <= |s| && s[|s| - |suffix|..] == suffix
  }

  // ---------------------------------------------------------------------------
  // str.split(sep) and sep.join
  // ---------------------------------------------------------------------------

  /** Scans `s` with `piece` holding the characters read since the last separator. */
  function SplitOnFrom(s: string, sep: char, piece: string): (r: seq<string>)
    ensures |r| > 0
    decreases |s|
  {
    if s == [] then [piece]
    else if s[0] == sep then [piece] + SplitOnFrom(s[1..], sep, [])
    else SplitOnFrom(s[1..], sep, piece + [s[0]])
  }

  /** Python's `s.split(sep)` for a one-character separator, empty pieces included. */
  function SplitOn(s: string, sep: char): (r: seq<string>)
    ensures |r| > 0
  {
    SplitOnFrom(s, sep, [])
  }

  /** Python's `sep.join(xs)`. */
  function Join(xs: seq<string>, sep: string): string {
    if xs == [] then [] else if |xs| == 1 then xs[0] else xs[0] + sep + Join(xs[1..], sep)
  }

  /** `sep.join(xs)` is as long as its pieces plus one separator between each two. */
  lemma {:induction false} JoinLength(xs: seq<string>, sep: string)
    ensures |Join(xs, sep)| == SumLengths(xs) + (if xs == [] then 0 else (|xs| - 1) * |sep|)
    decreases |xs|
  {
    if |xs| > 1 {
      JoinLength(xs[1..], sep);
    }
  }

  lemma {:induction false} SplitOnFromCount(s: string, sep: char, piece: string)
    ensures |SplitOnFrom(s, sep, piece)| == CountChar(s, sep) + 1
    ensures SumLengths(SplitOnFrom(s, sep, piece)) + CountChar(s, sep) == |piece| + |s|
    decreases |s|
  {
    if s != [] {
      if s[0] == sep {
        SplitOnFromCount(s[1..], sep, []);
        assert ([piece] + SplitOnFrom(s[1..], sep, []))[1..] == SplitOnFrom(s[1..], sep, []);
      } else {
        SplitOnFromCount(s[1..], sep, piece + [s[0]]);
      }
    } else {
      assert [piece][1..] == [];
    }
  }

  /**
   * `s.split(sep)` yields one piece more than there are separators, and the
   * pieces hold every character of `s` that is not a separator.
   */
  lemma SplitOnCount(s: string, sep: char)
    ensures |SplitOn(s, sep)| == CountChar(s, sep) + 1
    ensures SumLengths(SplitOn(s, sep)) + CountChar(s, sep) == |s|
  {
    SplitOnFromCount(s, sep, []);
  }

  lemma {:induction false} JoinSplitOnFrom(s: string, sep: char, piece: string)
    ensures Join(SplitOnFrom(s, sep, piece), [sep]) == piece + s
    decreases |s|
  {
    if s != [] {
      if s[0] == sep {
        var rest := SplitOnFrom(s[1..], sep, []);
        JoinSplitOnFrom(s[1..], sep, []);
        assert ([piece] + rest)[1..] == rest;
        assert piece + s == piece + [sep] + s[1..];
      } else {
        JoinSplitOnFrom(s[1..], sep, piece + [s[0]]);
        assert piece + s == piece + [s[0]] + s[1..];
      }
    }
  }

  /** Joining the pieces of `s.split(sep)` with `sep` gives back `s`. */
  lemma JoinSplitOn(s: string, sep: char)
    ensures Join(SplitOn(s, sep), [sep]) == s
  {
    JoinSplitOnFrom(s, sep, []);
  }

  lemma {:induction false} SplitOnFromConcat(a: string, b: string, sep: char, piece: string)
    ensures SplitOnFrom(a + [sep] + b, sep, piece) == SplitOnFrom(a, sep, piece) + SplitOnFrom(b, sep, [])
    decreases |a|
  {
    if a == [] {
      assert a + [sep] + b == [sep] + b;
      assert ([sep] + b)[1..] == b;
    } else {
      assert (a + [sep] + b)[0] == a[0];
      assert (a + [sep] + b)[1..] == a[1..] + [sep] + b;
      if a[0] == sep {
        SplitOnFromConcat(a[1..], b, sep, []);
      } else {
        SplitOnFromConcat(a[1..], b, sep, piece + [a[0]]);
      }
    }
  }

  /** Splitting at a separator splits the two sides independently. */
  lemma SplitOnConcat(a: string, b: string, sep: char)
    ensures SplitOn(a + [sep] + b, sep) == SplitOn(a, sep) + SplitOn(b, sep)
  {
    SplitOnFromConcat(a, b, sep, []);
  }

  lemma {:induction false} SplitOnFromNoSep(s: string, sep: char, piece: string)
    requires sep !in s
    ensures SplitOnFrom(s, sep, piece) == [piece + s]
    decreases |s|
  {
    if s != [] {
      assert s[0] != sep && sep !in s[1..];
      SplitOnFromNoSep(s[1..], sep, piece + [s[0]]);
      assert piece + [s[0]] + s[1..] == piece + s;
    } else {
      assert piece + s == piece;
    }
  }

  /** A string without the separator splits into itself alone. */
  lemma SplitOnNoSep(s: string, sep: char)
    requires sep !in s
    ensures SplitOn(s, sep) == [s]
  {
    SplitOnFromNoSep(s, sep, []);
    assert [] + s == s;
  }

  lemma {:induction false} SplitOnFromPieces(s: string, sep: char, piece: string)
    requires sep !in piece
    ensures forall i :: 0 <= i < |SplitOnFrom(s, sep, piece)| ==> sep !in SplitOnFrom(s, sep, piece)[i]
    decreases |s|
  {
    if s != [] {
      if s[0] == sep {
        SplitOnFromPieces(s[1..], sep, []);
      } else {
        SplitOnFromPieces(s[1..], sep, piece + [s[0]]);
      }
    }
  }

  /** No piece of `s.split(sep)` contains `sep`. */
  lemma SplitOnPieces(s: string, sep: char)
    ensures forall i :: 0 <= i < |SplitOn(s, sep)| ==> sep !in SplitOn(s, sep)[i]
  {
    SplitOnFromPieces(s, sep, []);
  }

  /** Splitting a join of separator-free pieces gives back the pieces. */
  lemma {:induction false} SplitOnJoin(xs: seq<string>, sep: char)
    requires |xs| > 0
    requires forall i :: 0 <= i < |xs| ==> sep !in xs[i]
    ensures SplitOn(Join(xs, [sep]), sep) == xs
    decreases |xs|
  {
    if |xs| == 1 {
      SplitOnNoSep(xs[0], sep);
    } else {
      SplitOnJoin(xs[1..], sep);
      SplitOnConcat(xs[0], Join(xs[1..], [sep]), sep);
      SplitOnNoSep(xs[0], sep);
      assert xs == [xs[0]] + xs[1..];
    }
  }

  /** Every line followed by a line feed, in order. */
  function Terminated(ls: seq<string>): string {
    if ls == [] then [] else Terminated(ls[..|ls| - 1]) + ls[|ls| - 1] + "\n"
  }

  lemma TerminatedAppend(ls: seq<string>, l: string)
    ensures Terminated(ls + [l]) == Terminated(ls) + l + "\n"
  {
    assert (ls + [l])[..|ls|] == ls;
  }

  lemma {:induction false} SplitOnTerminatedPrefix(ls: seq<string>, rest: string)
    requires forall i :: 0 <= i < |ls| ==> '\n' !in ls[i]
    ensures SplitOn(Terminated(ls) + rest, '\n') == ls + SplitOn(rest, '\n')
    decreases |ls|
  {
    if ls != [] {
      var p, l := ls[..|ls| - 1], ls[|ls| - 1];
      assert Terminated(ls) + rest == Terminated(p) + (l + ['\n'] + rest);
      SplitOnTerminatedPrefix(p, l + ['\n'] + rest);
      SplitOnConcat(l, rest, '\n');
      SplitOnNoSep(l, '\n');
      assert ls == p + [l];
    } else {
      assert Terminated(ls) + rest == rest;
    }
  }

  /** Terminated lines split on line feeds into the lines and one empty remainder. */
  lemma SplitOnTerminated(ls: seq<string>)
    requires forall i :: 0 <= i < |ls| ==> '\n' !in ls[i]
    ensures SplitOn(Terminated(ls), '\n') == ls + [""]
  {
    SplitOnTerminatedPrefix(ls, "");
    assert Terminated(ls) + "" == Terminated(ls);
  }

  // ---------------------------------------------------------------------------
  // Padding and alignment of format specifications
  // ---------------------------------------------------------------------------

  /** Python's `c * n`: empty when `n` is not positive. */
  function Repeat(c: char, n: int): (r: string)
    ensures |r| == if n > 0 then n else 0
    ensures forall i :: 0 <= i < |r| ==> r[i] == c
  {
    seq(if n > 0 then n else 0, _ => c)
  }

  /** The alignment characters `<`, `^` and `>` of a format specification. */
  datatype Align = Left | Center | Right

  /** Python's `f"{s:<w}"`, `f"{s:^w}"` and `f"{s:>w}"`; centring puts the odd space on the right. */
  function Aligned(s: string, align: Align, width: int): (r: string)
    ensures |r| == Max(|s|, width)
  {
    var pad := width - |s|;
    match align
    case Left => s + Repeat(' ', pad)
    case Right => Repeat(' ', pad) + s
    case Center => Repeat(' ', pad / 2) + s + Repeat(' ', pad - pad / 2)
  }

  /** Where the padded text sits, and that everything around it is blank. */
  lemma AlignedShape(s: string, align: Align, width: int)
    ensures var r := Aligned(s, align, width);
      var lead := match align
        case Left => 0
        case Right => Max(|s|, width) - |s|
        case Center => Max(0, width - |s|) / 2;
      && 0 <= lead && lead + |s| <= |r|
      && r[lead..lead + |s|] == s
      && (forall i :: 0 <= i < lead ==> r[i] == ' ')
      && (forall i :: lead + |s| <= i < |r| ==> r[i] == ' ')
  {
    var r := Aligned(s, align, width);
    var pad := width - |s|;
    match align
    case Left =>
      assert r == s + Repeat(' ', pad);
    case Right =>
      assert r == Repeat(' ', pad) + s;
    case Center =>
      assert r == Repeat(' ', pad / 2) + s + Repeat(' ', pad - pad / 2);
  }

  // ---------------------------------------------------------------------------
  // str(int) and os.path.basename
  // ---------------------------------------------------------------------------

  predicate IsDigit(c: char) { '0' <= c <= '9' }

  function DigitChar(d: int): (c: char)
    requires 0 <= d < 10
    ensures IsDigit(c)
  {
    ('0' as int + d) as char
  }

  /** The number a string of decimal digits denotes, most significant digit first. */
  function DigitsValue(s: string): int {
    if s == [] then 0 else 10 * DigitsValue(s[..|s| - 1]) + (s[|s| - 1] as int - '0' as int)
  }

  /** The decimal digits of `n`, most significant first, as `str(n)` writes them. */
  function Digits(n: nat): (r: string)
    ensures |r| > 0
    ensures forall i :: 0 <= i < |r| ==> IsDigit(r[i])
  {
    if n < 10 then [DigitChar(n)] else Digits(n / 10) + [DigitChar(n % 10)]
  }

  /** The digits denote `n`, and only `0` itself is written with a leading zero. */
  lemma {:induction false} DigitsMeaning(n: nat)
    ensures DigitsValue(Digits(n)) == n
    ensures n > 0 ==> Digits(n)[0] != '0'
  {
    if n >= 10 {
      DigitsMeaning(n / 10);
      var prefix := Digits(n / 10);
      assert Digits(n)[..|Digits(n)| - 1] == prefix;
    }
  }

  /** Python's `str(n)`. */
  function IntToString(n: int): string {
    if n < 0 then "-" + Digits(-n) else Digits(n)
  }

  /** POSIX `os.path.basename(p)`: what follows the last `/`. */
  function Basename(p: string): string {
    if p == [] || p[|p| - 1] == '/' then [] else Basename(p[..|p| - 1]) + [p[|p| - 1]]
  }

  /** The base name is the longest suffix of the path without a `'/'`. */
  lemma {:induction false} BasenameMeaning(p: string)
    ensures var r := Basename(p);
      && |r| <= |p| && r == p[|p| - |r|..]
      && '/' !in r
      && (|r| < |p| ==> p[|p| - |r| - 1] == '/')
    decreases |p|
  {
    if p != [] && p[|p| - 1] != '/' {
      var q := p[..|p| - 1];
      BasenameMeaning(q);
      var r := Basename(p);
      assert r == Basename(q) + [p[|p| - 1]];
      assert p == q + [p[|p| - 1]];
    }
  }
}
