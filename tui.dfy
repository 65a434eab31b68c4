/**
 * The text-interface helpers of stex_tui.py that compute rather than prompt: the framed
 * content box (main.py's `generate_header` has the identical body), the names of the loaded
 * files, and the comment filter applied to a prompt template.
 */
module Tui {
  import opened Outcomes
  import opened Strings
  import opened OrderedCounts
  import Filing

  // ---------------------------------------------------------------------------
  // generate_stylized_content_box / generate_header
  // ---------------------------------------------------------------------------

  /** The length of the longest line, 0 when there is none. */
  function Longest(ls: seq<string>): nat {
    if ls == [] then 0 else Max(Longest(ls[..|ls| - 1]), |ls[|ls| - 1]|)
  }

  /** Every line fits in the longest, and the longest is one of the lines (or 0 with none). */
  lemma {:induction false} LongestMeaning(ls: seq<string>)
    ensures forall i :: 0 <= i < |ls| ==> |ls[i]| <= Longest(ls)
    ensures ls == [] || exists i :: 0 <= i < |ls| && Longest(ls) == |ls[i]|
    decreases |ls|
  {
    if ls != [] {
      var p := ls[..|ls| - 1];
      LongestMeaning(p);
      assert forall i :: 0 <= i < |p| ==> p[i] == ls[i];
      if Longest(ls) != |ls[|ls| - 1]| {
        var i :| 0 <= i < |p| && Longest(p) == |p[i]|;
        assert Longest(ls) == |ls[i]|;
      }
    }
  }

  /** A top or bottom border: two corners around `width` double bars. */
  function Border(left: char, right: char, width: int): string {
    [left] + Repeat('═', width) + [right]
  }

  /** One framed line: bar, `padding` spaces, the text, the fill up to `width`, bar. */
  function BoxRow(line: string, padding: int, width: int): string {
    "║" + Repeat(' ', padding) + line + Repeat(' ', width - padding - |line|) + "║"
  }

  /** The width inside the frame: the longest line plus the padding on both sides. */
  function BoxWidth(ls: seq<string>, padding: int): int {
    Longest(ls) + padding * 2
  }

  /** One framed row per line, in order. */
  function FramedLines(ls: seq<string>, padding: int, width: int): (r: seq<string>)
    ensures |r| == |ls| && forall i :: 0 <= i < |ls| ==> r[i] == BoxRow(ls[i], padding, width)
  {
    seq(|ls|, i requires 0 <= i < |ls| => BoxRow(ls[i], padding, width))
  }

  /** The top border, one framed row per line, and the bottom border. */
  function BoxRows(ls: seq<string>, padding: int): (r: seq<string>)
    ensures |r| == |ls| + 2
  {
    var width := BoxWidth(ls, padding);
    [Border('╔', '╗', width)] + FramedLines(ls, padding, width) + [Border('╚', '╝', width)]
  }

  /** The box for `text`, one row per `'\n'`-separated line, each row ending in a line feed. */
  function ContentBox(text: string, padding: int): string {
    Terminated(BoxRows(SplitOn(text, '\n'), padding))
  }

  /** The running maximum of the first loop of generate_stylized_content_box. */
  method LengthOfLongest(textSplit: seq<string>) returns (lengthOfLongest: nat)
    ensures lengthOfLongest == Longest(textSplit)
  {
    lengthOfLongest := 0;
    for i := 0 to |textSplit|
      invariant lengthOfLongest == Longest(textSplit[..i])
    {
      assert textSplit[..i + 1][..i] == textSplit[..i];
      if |textSplit[i]| > lengthOfLongest {
        lengthOfLongest := |textSplit[i]|;
      }
    }
    assert textSplit[..|textSplit|] == textSplit;
  }

  /** The second loop of generate_stylized_content_box: one framed row per line, each followed by a line feed. */
  method AppendFramedLines(header0: string, ghost before: seq<string>, textSplit: seq<string>, padding: int, width: int)
    returns (header: string)
    requires header0 == Terminated(before)
    ensures header == Terminated(before + FramedLines(textSplit, padding, width))
  {
    ghost var middle := FramedLines(textSplit, padding, width);
    ghost var done := before;
    header := header0;
    for i := 0 to |textSplit|
      invariant done == before + middle[..i]
      invariant header == Terminated(done)
    {
      var row := BoxRow(textSplit[i], padding, width);
      TerminatedAppend(done, row);
      PrefixStep(middle, i);
      done := done + [row];
      header := header + row + "\n";
    }
    assert middle[..|textSplit|] == middle;
  }

  /** Extending a prefix by one element. */
  lemma PrefixStep<T>(s: seq<T>, i: nat)
    requires i < |s|
    ensures s[..i + 1] == s[..i] + [s[i]]
  {
  }

  method GenerateStylizedContentBox(headerText: string, padding: int) returns (header: string)
    ensures header == ContentBox(headerText, padding)
  {
    var textSplit := SplitOn(headerText, '\n');
    var lengthOfLongest := LengthOfLongest(textSplit);
    var width := lengthOfLongest + padding * 2;
    assert width == BoxWidth(textSplit, padding);
    var top := Border('╔', '╗', width);
    TerminatedAppend([], top);
    assert [] + [top] == [top];
    header := AppendFramedLines(top + "\n", [top], textSplit, padding, width);
    var bottom := Border('╚', '╝', width);
    TerminatedAppend([top] + FramedLines(textSplit, padding, width), bottom);
    header := header + bottom + "\n";
  }

  /**
   * A framed row of a line that fits is `width + 2` characters: the bars at both ends,
   * `padding` spaces, the line unchanged, and spaces up to the closing bar.
   */
  lemma BoxRowShape(line: string, padding: nat, width: int)
    requires |line| + 2 * padding <= width && '\n' !in line
    ensures var r := BoxRow(line, padding, width);
      && |r| == width + 2
      && r[0] == '║' && r[|r| - 1] == '║'
      && (forall j :: 1 <= j < 1 + padding ==> r[j] == ' ')
      && r[1 + padding..1 + padding + |line|] == line
      && (forall j :: 1 + padding + |line| <= j < |r| - 1 ==> r[j] == ' ')
      && '\n' !in r
  {
    var r := BoxRow(line, padding, width);
    var a, b := Repeat(' ', padding), Repeat(' ', width - padding - |line|);
    assert r == "║" + a + line + b + "║";
    assert forall j :: 0 <= j < |line| ==> r[1 + padding + j] == line[j];
    assert forall j :: 0 <= j < |b| ==> r[1 + padding + |line| + j] == b[j];
  }

  /**
   * With a non-negative padding the box has a top border, one framed row per input line and
   * a bottom border, each a line of `width + 2` characters followed by `'\n'` (BoxRowShape
   * says what a framed row holds).
   */
  lemma ContentBoxShape(text: string, padding: nat)
    ensures var ls := SplitOn(text, '\n');
      var width := BoxWidth(ls, padding);
      var rows := BoxRows(ls, padding);
      && SplitOn(ContentBox(text, padding), '\n') == rows + [""]
      && |rows| == |ls| + 2
      && (forall i :: 0 <= i < |rows| ==> |rows[i]| == width + 2)
      && rows[0] == Border('╔', '╗', width) && rows[|rows| - 1] == Border('╚', '╝', width)
      && (forall i :: 0 <= i < |ls| ==> rows[i + 1] == BoxRow(ls[i], padding, width))
      && (forall i :: 0 <= i < |ls| ==> |ls[i]| + 2 * padding <= width && '\n' !in ls[i])
  {
    var ls := SplitOn(text, '\n');
    var width := BoxWidth(ls, padding);
    var rows := BoxRows(ls, padding);
    LongestMeaning(ls);
    SplitOnPieces(text, '\n');
    forall i | 0 <= i < |rows|
      ensures |rows[i]| == width + 2 && '\n' !in rows[i]
    {
      if 0 < i < |rows| - 1 {
        assert rows[i] == BoxRow(ls[i - 1], padding, width);
        BoxRowShape(ls[i - 1], padding, width);
      }
    }
    SplitOnTerminated(rows);
  }

  // ---------------------------------------------------------------------------
  // get_loaded_file_names
  // ---------------------------------------------------------------------------

  /** `None` for an empty inventory, else each file's short name in inventory order. */
  method GetLoadedFileNames(inventory: seq<Filing.TextFile>) returns (r: Option<seq<string>>)
    ensures r.None? <==> inventory == []
    ensures r.Some? ==> |r.value| == |inventory| && forall i :: 0 <= i < |inventory| ==> r.value[i] == inventory[i].shortname
  {
    if |inventory| < 1 {
      return None;
    }
    var names: seq<string> := [];
    for i := 0 to |inventory|
      invariant |names| == i && forall j :: 0 <= j < i ==> names[j] == inventory[j].shortname
    {
      names := names + [inventory[i].shortname];
    }
    r := Some(names);
  }

  // ---------------------------------------------------------------------------
  // The comment filter of get_prompt_file_contents
  // ---------------------------------------------------------------------------

  /** A comment line is a non-empty line starting with `'#'`. */
  predicate IsComment(line: string) {
    |line| >= 1 && line[0] == '#'
  }

  function KeptLines(ls: seq<string>): seq<string> {
    if ls == [] then []
    else KeptLines(ls[..|ls| - 1]) + (if IsComment(ls[|ls| - 1]) then [] else [ls[|ls| - 1]])
  }

  /** The template's lines without its comment lines, each followed by a line feed. */
  method StripComments(raw: string) returns (content: string)
    ensures content == Terminated(KeptLines(SplitOn(raw, '\n')))
  {
    var ls := SplitOn(raw, '\n');
    content := "";
    for i := 0 to |ls|
      invariant content == Terminated(KeptLines(ls[..i]))
    {
      assert ls[..i + 1][..i] == ls[..i];
      var line := ls[i];
      assert KeptLines(ls[..i + 1]) == KeptLines(ls[..i]) + (if IsComment(line) then [] else [line]);
      if |line| < 1 || line[0] != '#' {
        TerminatedAppend(KeptLines(ls[..i]), line);
        content := content + line + "\n";
      } else {
        assert KeptLines(ls[..i + 1]) == KeptLines(ls[..i]);
      }
    }
    assert ls[..|ls|] == ls;
  }

  /**
   * The kept lines are the non-comment lines in their original order, each as many times as
   * it occurs in the template, and no comment line.
   */
  lemma {:induction false} KeptLinesMeaning(ls: seq<string>)
    ensures IsSubsequence(KeptLines(ls), ls)
    ensures forall l :: multiset(KeptLines(ls))[l] == if IsComment(l) then 0 else multiset(ls)[l]
    decreases |ls|
  {
    if ls != [] {
      var p, l := ls[..|ls| - 1], ls[|ls| - 1];
      KeptLinesMeaning(p);
      assert ls == p + [l];
      SubsequenceAppend(KeptLines(p), p, if IsComment(l) then [] else [l], l);
    }
  }

  lemma {:induction false} SubsequenceAppend<T>(a: seq<T>, b: seq<T>, e: seq<T>, x: T)
    requires IsSubsequence(a, b) && (e == [] || e == [x])
    ensures IsSubsequence(a + e, b + [x])
    decreases |b|
  {
    if a == [] {
      if e != [] {
        assert a + e == [x];
        LastIsSubsequence(b, x);
      }
    } else if a[0] == b[0] && IsSubsequence(a[1..], b[1..]) {
      SubsequenceAppend(a[1..], b[1..], e, x);
      assert (a + e)[0] == a[0] && (a + e)[1..] == a[1..] + e;
      assert (b + [x])[0] == b[0] && (b + [x])[1..] == b[1..] + [x];
    } else {
      SubsequenceAppend(a, b[1..], e, x);
      assert (b + [x])[1..] == b[1..] + [x];
    }
  }

  lemma {:induction false} LastIsSubsequence<T>(b: seq<T>, x: T)
    ensures IsSubsequence([x], b + [x])
    decreases |b|
  {
    if b == [] {
      assert b + [x] == [x] && [x][1..] == [];
    } else {
      LastIsSubsequence(b[1..], x);
      assert (b + [x])[1..] == b[1..] + [x];
    }
  }

  /** Split on line feeds, the filtered template gives back the kept lines and an empty remainder. */
  lemma StripCommentsLines(raw: string)
    ensures SplitOn(Terminated(KeptLines(SplitOn(raw, '\n'))), '\n') == KeptLines(SplitOn(raw, '\n')) + [""]
  {
    var ls := SplitOn(raw, '\n');
    SplitOnPieces(raw, '\n');
    KeptLinesMeaning(ls);
    var k := KeptLines(ls);
    forall i | 0 <= i < |k|
      ensures '\n' !in k[i]
    {
      assert k[i] in multiset(k);
      assert multiset(ls)[k[i]] > 0;
      assert k[i] in ls;
    }
    SplitOnTerminated(k);
  }
}
