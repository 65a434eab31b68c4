/**
 * The legacy basic-statistics pass of hy_analysis.py. Unlike the newer pass it splits each
 * line on single `' '` characters, so runs of spaces yield empty words and every line,
 * even an empty one, counts at least one word.
 */
module HyAnalysis {
  import opened Strings
  import Analysis

  datatype HyCounts = HyCounts(lines: nat, words: nat, characters: nat, spaces: nat)

  /** What one line adds, after `rstrip('\n')` and `split(' ')`. */
  function HyLineCounts(line: string): HyCounts {
    var words := SplitOn(RStripNewlines(line), ' ');
    HyCounts(1, |words|, SumLengths(words), |words| - 1)
  }

  /** The four counters after reading `lines`. */
  function HyTotals(lines: seq<string>): HyCounts {
    if lines == [] then HyCounts(0, 0, 0, 0)
    else
      var p, l := HyTotals(lines[..|lines| - 1]), HyLineCounts(lines[|lines| - 1]);
      HyCounts(p.lines + l.lines, p.words + l.words, p.characters + l.characters, p.spaces + l.spaces)
  }

  /** The six-element result tuple: four counts and two averages. */
  datatype HyBasicStatistics = HyBasicStatistics(
    lines: nat, words: nat, characters: nat, spaces: nat,
    averageWordsPerLine: real, averageCharactersPerWord: real)

  /**
   * The result as the tuple `HyTracked.HyTextFile.AppendBasicStatistics` accepts: six values,
   * so its arity check passes, in the order lines, words, characters, spaces, average words
   * per line, average characters per word.
   */
  function AsTuple(s: HyBasicStatistics): (t: seq<real>)
    ensures |t| == 6
  {
    [s.lines as real, s.words as real, s.characters as real, s.spaces as real,
     s.averageWordsPerLine, s.averageCharactersPerWord]
  }

  method CalculateBasicStatistics(lines: seq<string>) returns (r: HyBasicStatistics)
    ensures HyCounts(r.lines, r.words, r.characters, r.spaces) == HyTotals(lines)
    ensures r.averageWordsPerLine == Ratio(r.words, r.lines)
    ensures r.averageCharactersPerWord == Ratio(r.characters, r.words)
  {
    var fileLines: nat, fileWords: nat, fileCharacters: nat, fileSpaces: nat := 0, 0, 0, 0;
    for i := 0 to |lines|
      invariant HyCounts(fileLines, fileWords, fileCharacters, fileSpaces) == HyTotals(lines[..i])
    {
      assert lines[..i + 1][..i] == lines[..i];
      var line := RStripNewlines(lines[i]);
      fileLines := fileLines + 1;
      var words := SplitOn(line, ' ');
      var lineWords := |words|;
      fileSpaces := fileSpaces + (|words| - 1);
      var lineCharacters := SumLengths(words);
      fileWords := fileWords + lineWords;
      fileCharacters := fileCharacters + lineCharacters;
    }
    assert lines[..|lines|] == lines;
    var averageWordsPerLine := Ratio(fileWords, fileLines);
    var averageCharactersPerWord := Ratio(fileCharacters, fileWords);
    r := HyBasicStatistics(fileLines, fileWords, fileCharacters, fileSpaces,
                           averageWordsPerLine, averageCharactersPerWord);
  }

  /** The lengths of the lines, each stripped of its trailing line feeds. */
  function StrippedLength(lines: seq<string>): nat {
    if lines == [] then 0 else StrippedLength(lines[..|lines| - 1]) + |RStripNewlines(lines[|lines| - 1])|
  }

  /**
   * Each line yields one word more than it has spaces and exactly as many spaces as literal
   * `' '` characters; characters and spaces together make up the stripped lines; an empty
   * line still counts one word, so there are never fewer words than lines.
   */
  lemma {:induction false} HyTotalsMeaning(lines: seq<string>)
    ensures HyTotals(lines).lines == |lines|
    ensures HyTotals(lines).spaces == Analysis.LiteralSpaces(lines)
    ensures HyTotals(lines).words == |lines| + Analysis.LiteralSpaces(lines)
    ensures HyTotals(lines).characters + HyTotals(lines).spaces == StrippedLength(lines)
    ensures HyTotals(lines).words >= HyTotals(lines).lines
    decreases |lines|
  {
    if lines != [] {
      HyTotalsMeaning(lines[..|lines| - 1]);
      SplitOnCount(RStripNewlines(lines[|lines| - 1]), ' ');
    }
  }
}
