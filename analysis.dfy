/**
 * The four streaming passes of stex_analysis.py. Each pass reads the file line by line;
 * here the file is the sequence of lines its iterator yields (each with its trailing
 * line feed, if any). The character sets read from the resources folder are parameters.
 */
module Analysis {
  import opened Strings
  import opened OrderedCounts

  /** The contents of resources/stopchars, letters, digits and punctuation, as sets. */
  datatype Resources = Resources(stopChars: set<char>, letters: set<char>, digits: set<char>, punctuation: set<char>)

  /** The words of all lines, in file order, as `line.split()` yields them. */
  function Tokens(lines: seq<string>): seq<string> {
    if lines == [] then [] else Tokens(lines[..|lines| - 1]) + Split(lines[|lines| - 1])
  }

  lemma TokensAppend(lines: seq<string>, i: nat)
    requires i < |lines|
    ensures Tokens(lines[..i + 1]) == Tokens(lines[..i]) + Split(lines[i])
  {
    assert lines[..i + 1][..i] == lines[..i];
  }

  // ---------------------------------------------------------------------------
  // Basic counts (invoke_basic_statistics)
  // ---------------------------------------------------------------------------

  datatype BasicCounts = BasicCounts(lines: nat, words: nat, characters: nat, spaces: nat)

  /** What one line adds to the four counters, after `rstrip('\n')`. */
  function LineCounts(line: string): BasicCounts {
    var s := RStripNewlines(line);
    var words := Split(s);
    BasicCounts(1, |words|, SumLengths(words), CountChar(s, ' ') + 1)
  }

  function Plus(a: BasicCounts, b: BasicCounts): BasicCounts {
    BasicCounts(a.lines + b.lines, a.words + b.words, a.characters + b.characters, a.spaces + b.spaces)
  }

  /** The counters after reading `lines`. */
  function BasicTotals(lines: seq<string>): BasicCounts {
    if lines == [] then BasicCounts(0, 0, 0, 0)
    else Plus(BasicTotals(lines[..|lines| - 1]), LineCounts(lines[|lines| - 1]))
  }

  /** The returned tuple `(lines, words, characters, spaces)`. */
  method InvokeBasicStatistics(lines: seq<string>) returns (r: BasicCounts)
    ensures r == BasicTotals(lines)
  {
    var fileLines: nat, fileWords: nat, fileCharacters: nat, fileSpaces: nat := 0, 0, 0, 0;
    for i := 0 to |lines|
      invariant BasicCounts(fileLines, fileWords, fileCharacters, fileSpaces) == BasicTotals(lines[..i])
    {
      assert lines[..i + 1][..i] == lines[..i];
      var line := RStripNewlines(lines[i]);
      fileLines := fileLines + 1;
      var words := Split(line);
      var lineWords := |words|;
      fileSpaces := fileSpaces + (CountChar(line, ' ') + 1);
      var lineCharacters := SumLengths(words);
      fileWords := fileWords + lineWords;
      fileCharacters := fileCharacters + lineCharacters;
    }
    assert lines[..|lines|] == lines;
    r := BasicCounts(fileLines, fileWords, fileCharacters, fileSpaces);
  }

  /** Non-whitespace characters of the lines, each stripped of its trailing line feeds. */
  function NonSpaceTotal(lines: seq<string>): nat {
    if lines == [] then 0
    else NonSpaceTotal(lines[..|lines| - 1]) + NonSpaceCount(RStripNewlines(lines[|lines| - 1]))
  }

  /** Literal `' '` characters of the lines, each stripped of its trailing line feeds. */
  function LiteralSpaces(lines: seq<string>): nat {
    if lines == [] then 0
    else LiteralSpaces(lines[..|lines| - 1]) + CountChar(RStripNewlines(lines[|lines| - 1]), ' ')
  }

  /**
   * Every line counts once; `words` counts the whitespace-split words of the file;
   * `characters` counts exactly its non-whitespace characters; `spaces` is the number of
   * literal spaces plus one per line, so never less than `lines`.
   */
  lemma {:induction false} BasicTotalsMeaning(lines: seq<string>)
    ensures BasicTotals(lines).lines == |lines|
    ensures BasicTotals(lines).words == |Tokens(lines)|
    ensures BasicTotals(lines).characters == NonSpaceTotal(lines)
    ensures BasicTotals(lines).spaces == |lines| + LiteralSpaces(lines)
    ensures BasicTotals(lines).spaces >= BasicTotals(lines).lines
    decreases |lines|
  {
    if lines != [] {
      var p, last := lines[..|lines| - 1], lines[|lines| - 1];
      BasicTotalsMeaning(p);
      RStripNewlinesSplit(last);
      SplitLengths(RStripNewlines(last));
    }
  }

  // ---------------------------------------------------------------------------
  // Word normalisation and frequency (invoke_word_frequency_statistics)
  // ---------------------------------------------------------------------------

  /** VALID_CHARS: "abcdefghijklmnopqrstuvwxyzåäö'-". */
  predicate IsValidChar(c: char) {
    'a' <= c <= 'z' || c == 'å' || c == 'ä' || c == 'ö' || c == '\'' || c == '-'
  }

  /** `re.sub("[^" + VALID_CHARS + "]+", "", word)`: every character outside VALID_CHARS deleted. */
  function Clean(word: string): (r: string)
    ensures |r| <= |word|
    ensures forall i :: 0 <= i < |r| ==> IsValidChar(r[i])
    ensures forall i :: 0 <= i < |word| && IsValidChar(word[i]) ==> word[i] in r
  {
    if word == [] then []
    else
      var rest := Clean(word[1..]);
      assert forall i :: 1 <= i < |word| ==> word[i] == word[1..][i - 1];
      if IsValidChar(word[0]) then [word[0]] + rest else rest
  }

  /**
   * `re.sub` keeps the valid characters in their original order, each as often as it occurs,
   * and nothing else.
   */
  lemma {:induction false} CleanMeaning(word: string)
    ensures IsSubsequence(Clean(word), word)
    ensures forall c :: multiset(Clean(word))[c] == if IsValidChar(c) then multiset(word)[c] else 0
  {
    if word != [] {
      CleanMeaning(word[1..]);
      assert word == [word[0]] + word[1..];
    }
  }

  /** The normalised words of `words` that do not end up empty, in order. */
  function CleanWordsOf(words: seq<string>): seq<string> {
    if words == [] then []
    else
      var w := Clean(Lower(words[|words| - 1]));
      CleanWordsOf(words[..|words| - 1]) + (if w != [] then [w] else [])
  }

  /** The normalised words of the whole file, in order. */
  function CleanWords(lines: seq<string>): seq<string> {
    if lines == [] then [] else CleanWords(lines[..|lines| - 1]) + CleanWordsOf(Split(lines[|lines| - 1]))
  }

  /** The length of each word, or the word count of each sentence, in order. */
  function Lengths<T>(xs: seq<seq<T>>): (r: seq<int>)
    ensures |r| == |xs| && forall i :: 0 <= i < |xs| ==> r[i] == |xs[i]|
  {
    seq(|xs|, i requires 0 <= i < |xs| => |xs[i]|)
  }

  datatype WordFrequencies = WordFrequencies(wordCount: Counts<string>, wordLengths: Counts<int>)

  /** The two dicts of the word pass, before sorting. */
  function WordTallies(ws: seq<string>): WordFrequencies {
    WordFrequencies(Tally(ws), Tally(Lengths(ws)))
  }

  lemma CleanWordsAppend(lines: seq<string>, i: nat)
    requires i < |lines|
    ensures CleanWords(lines[..i + 1]) == CleanWords(lines[..i]) + CleanWordsOf(Split(lines[i]))
  {
    assert lines[..i + 1][..i] == lines[..i];
  }

  /** One word of the inner loop: a word that normalises to something bumps both tallies. */
  lemma WordStep(before: seq<string>, words: seq<string>, j: nat)
    requires j < |words|
    ensures var w := Clean(Lower(words[j])); var t := WordTallies(before + CleanWordsOf(words[..j]));
      WordTallies(before + CleanWordsOf(words[..j + 1]))
      == if w != [] then WordFrequencies(Bump(t.wordCount, w), Bump(t.wordLengths, |w|)) else t
  {
    var w := Clean(Lower(words[j]));
    var ws := before + CleanWordsOf(words[..j]);
    assert words[..j + 1][..j] == words[..j];
    if w != [] {
      assert before + CleanWordsOf(words[..j + 1]) == ws + [w];
      TallyAppend(ws, w);
      assert Lengths(ws + [w]) == Lengths(ws) + [|w|];
      TallyAppend(Lengths(ws), |w|);
    } else {
      assert before + CleanWordsOf(words[..j + 1]) == ws;
    }
  }

  /** The returned pair `(sorted_word_count, sorted_word_lengths)`. */
  method InvokeWordFrequencyStatistics(lines: seq<string>) returns (r: WordFrequencies)
    ensures r.wordCount == SortByCountDesc(Tally(CleanWords(lines)))
    ensures r.wordLengths == SortByCountDesc(Tally(Lengths(CleanWords(lines))))
  {
    var wordCount: Counts<string> := [];
    var wordLengths: Counts<int> := [];
    for i := 0 to |lines|
      invariant WordFrequencies(wordCount, wordLengths) == WordTallies(CleanWords(lines[..i]))
    {
      var words := Split(lines[i]);
      ghost var before := CleanWords(lines[..i]);
      assert before + CleanWordsOf(words[..0]) == before;
      for j := 0 to |words|
        invariant WordFrequencies(wordCount, wordLengths) == WordTallies(before + CleanWordsOf(words[..j]))
      {
        WordStep(before, words, j);
        var word := Lower(words[j]);
        var cleanWord := Clean(word);
        if cleanWord != [] {
          wordCount := Bump(wordCount, cleanWord);
          var length := |cleanWord|;
          wordLengths := Bump(wordLengths, length);
        }
      }
      assert words[..|words|] == words;
      CleanWordsAppend(lines, i);
    }
    assert lines[..|lines|] == lines;
    r := WordFrequencies(SortByCountDesc(wordCount), SortByCountDesc(wordLengths));
  }

  lemma {:induction false} CleanWordsOfShape(words: seq<string>)
    ensures |CleanWordsOf(words)| <= |words|
    ensures forall w :: w in CleanWordsOf(words) ==> w != [] && forall i :: 0 <= i < |w| ==> IsValidChar(w[i])
    decreases |words|
  {
    if words != [] {
      CleanWordsOfShape(words[..|words| - 1]);
    }
  }

  lemma {:induction false} CleanWordsShape(lines: seq<string>)
    ensures |CleanWords(lines)| <= |Tokens(lines)|
    ensures forall w :: w in CleanWords(lines) ==> w != [] && forall i :: 0 <= i < |w| ==> IsValidChar(w[i])
    decreases |lines|
  {
    if lines != [] {
      CleanWordsShape(lines[..|lines| - 1]);
      CleanWordsOfShape(Split(lines[|lines| - 1]));
    }
  }

  /** In a dict, the entry `k: v` is present exactly when `k` is a key and `d.get(k, 0) == v`. */
  lemma {:induction false} CountMember<K>(d: Counts<K>, k: K, v: int)
    requires DistinctKeys(d)
    ensures Entry(k, v) in d <==> k in Keys(d) && Count(d, k) == v
    decreases |d|
  {
    if d != [] {
      assert DistinctKeys(d[1..]);
      assert Keys(d) == [d[0].key] + Keys(d[1..]);
      CountMember(d[1..], k, v);
      if d[0].key == k {
        assert k !in Keys(d[1..]);
        forall e | e in d[1..] ensures e.key != k {
          var i :| 0 <= i < |d[1..]| && d[1..][i] == e;
          assert Keys(d[1..])[i] == e.key;
        }
      }
    }
  }

  /**
   * Every key of the word dict is a non-empty string of VALID_CHARS; each normalised word is
   * present with exactly its number of occurrences; both dicts count every normalised word once,
   * so their totals agree and never exceed the basic word count.
   */
  lemma WordFrequencyMeaning(lines: seq<string>)
    ensures var r := WordFrequencies(SortByCountDesc(Tally(CleanWords(lines))),
                                     SortByCountDesc(Tally(Lengths(CleanWords(lines)))));
      && (forall e :: e in r.wordCount ==> e.key != [] && forall i :: 0 <= i < |e.key| ==> IsValidChar(e.key[i]))
      && (forall w, n :: Entry(w, n) in r.wordCount <==> w in CleanWords(lines) && n == multiset(CleanWords(lines))[w])
      && (forall l, n :: Entry(l, n) in r.wordLengths <==> l in Lengths(CleanWords(lines)) && n == multiset(Lengths(CleanWords(lines)))[l])
      && Total(r.wordCount) == Total(r.wordLengths) == |CleanWords(lines)|
      && Total(r.wordCount) <= BasicTotals(lines).words
  {
    var ws := CleanWords(lines);
    var wc, wl := Tally(ws), Tally(Lengths(ws));
    TallySpec(ws);
    TallySpec(Lengths(ws));
    SortByCountDescSpec(wc);
    SortByCountDescSpec(wl);
    CleanWordsShape(lines);
    BasicTotalsMeaning(lines);
    forall e | e in SortByCountDesc(wc)
      ensures e.key != [] && forall i :: 0 <= i < |e.key| ==> IsValidChar(e.key[i])
    {
      assert e in multiset(wc);
      var i :| 0 <= i < |wc| && wc[i] == e;
      assert e.key in Keys(wc);
    }
    forall w, n ensures Entry(w, n) in SortByCountDesc(wc) <==> w in ws && n == multiset(ws)[w] {
      CountMember(wc, w, n);
      assert Entry(w, n) in SortByCountDesc(wc) <==> Entry(w, n) in multiset(wc);
    }
    forall l, n ensures Entry(l, n) in SortByCountDesc(wl) <==> l in Lengths(ws) && n == multiset(Lengths(ws))[l] {
      CountMember(wl, l, n);
      assert Entry(l, n) in SortByCountDesc(wl) <==> Entry(l, n) in multiset(wl);
    }
  }

  /**
   * Both word dicts are ordered by count, descending, and within one count keep the order
   * in which their keys were first inserted during the scan.
   */
  lemma WordFrequencyOrder(lines: seq<string>)
    ensures var ws := CleanWords(lines);
      && SortedDesc(SortByCountDesc(Tally(ws)))
      && SortedDesc(SortByCountDesc(Tally(Lengths(ws))))
      && (forall c :: WithCount(SortByCountDesc(Tally(ws)), c) == WithCount(Tally(ws), c))
      && (forall c :: WithCount(SortByCountDesc(Tally(Lengths(ws))), c) == WithCount(Tally(Lengths(ws)), c))
      && Keys(Tally(ws)) == FirstOccurrences(ws)
      && Keys(Tally(Lengths(ws))) == FirstOccurrences(Lengths(ws))
  {
    var ws := CleanWords(lines);
    SortByCountDescSpec(Tally(ws));
    SortByCountDescSpec(Tally(Lengths(ws)));
    TallySpec(ws);
    TallySpec(Lengths(ws));
  }

  // ---------------------------------------------------------------------------
  // Cross-line sentence segmentation (invoke_sentence_statistics)
  // ---------------------------------------------------------------------------

  predicate HasStop(word: string, stopChars: set<char>) {
    exists i :: 0 <= i < |word| && word[i] in stopChars
  }

  /** The pass's variables: working_sentence, shortest_sentence, longest_sentence, sentence_distribution. */
  datatype SentenceScan = SentenceScan(working: seq<string>, shortest: seq<string>, longest: seq<string>, distribution: Counts<int>)

  /** Closing the working sentence. */
  function Commit(s: SentenceScan): SentenceScan {
    var n := |s.working|;
    SentenceScan(
      [],
      if n < |s.shortest| || |s.shortest| == 0 then s.working else s.shortest,
      if n > |s.longest| then s.working else s.longest,
      Bump(s.distribution, n))
  }

  /** One word read: it joins the working sentence, which a stop character in it then closes. */
  function ScanWord(s: SentenceScan, word: string, stopChars: set<char>): SentenceScan {
    var t := s.(working := s.working + [word]);
    if HasStop(word, stopChars) then Commit(t) else t
  }

  function ScanWords(words: seq<string>, stopChars: set<char>): SentenceScan {
    if words == [] then SentenceScan([], [], [], [])
    else ScanWord(ScanWords(words[..|words| - 1], stopChars), words[|words| - 1], stopChars)
  }

  datatype SentenceStats = SentenceStats(shortest: string, longest: string, distribution: Counts<int>)

  lemma ScanWordsAppend(words: seq<string>, w: string, stopChars: set<char>)
    ensures ScanWords(words + [w], stopChars) == ScanWord(ScanWords(words, stopChars), w, stopChars)
  {
    assert (words + [w])[..|words|] == words;
  }

  /** The body of the word loop: append the word, then close the sentence at its first stop character. */
  method ReadWord(working0: seq<string>, shortest0: seq<string>, longest0: seq<string>, distribution0: Counts<int>,
                  word: string, stop: set<char>)
    returns (working: seq<string>, shortest: seq<string>, longest: seq<string>, distribution: Counts<int>)
    ensures SentenceScan(working, shortest, longest, distribution)
            == ScanWord(SentenceScan(working0, shortest0, longest0, distribution0), word, stop)
  {
    working, shortest, longest, distribution := working0 + [word], shortest0, longest0, distribution0;
    ghost var appended := SentenceScan(working, shortest, longest, distribution);
    for k := 0 to |word|
      invariant SentenceScan(working, shortest, longest, distribution)
                == if exists m :: 0 <= m < k && word[m] in stop then Commit(appended) else appended
    {
      if word[k] in stop && |working| > 0 {
        var finished := |working|;
        if finished < |shortest| || |shortest| == 0 {
          shortest := working;
        }
        if finished > |longest| {
          longest := working;
        }
        distribution := Bump(distribution, finished);
        working := [];
      }
    }
  }

  /** The word loop of one line, continuing the scan of the words `seen` before it. */
  method ReadWords(working0: seq<string>, shortest0: seq<string>, longest0: seq<string>, distribution0: Counts<int>,
                   words: seq<string>, stop: set<char>, ghost seen: seq<string>)
    returns (working: seq<string>, shortest: seq<string>, longest: seq<string>, distribution: Counts<int>)
    requires SentenceScan(working0, shortest0, longest0, distribution0) == ScanWords(seen, stop)
    ensures SentenceScan(working, shortest, longest, distribution) == ScanWords(seen + words, stop)
  {
    working, shortest, longest, distribution := working0, shortest0, longest0, distribution0;
    ghost var scanned := seen;
    for j := 0 to |words|
      invariant scanned == seen + words[..j]
      invariant SentenceScan(working, shortest, longest, distribution) == ScanWords(scanned, stop)
    {
      var word := words[j];
      working, shortest, longest, distribution := ReadWord(working, shortest, longest, distribution, word, stop);
      ScanWordsAppend(scanned, word, stop);
      assert words[..j + 1] == words[..j] + [word];
      scanned := scanned + [word];
    }
    assert words[..|words|] == words;
  }

  /** The returned triple: both sentences joined by single spaces, and the sorted length distribution. */
  method InvokeSentenceStatistics(lines: seq<string>, res: Resources) returns (r: SentenceStats)
    ensures var s := ScanWords(Tokens(lines), res.stopChars);
      r == SentenceStats(Join(s.shortest, " "), Join(s.longest, " "), SortByCountDesc(s.distribution))
  {
    var stop := res.stopChars;
    var working: seq<string> := [];
    var shortest: seq<string> := [];
    var longest: seq<string> := [];
    var distribution: Counts<int> := [];
    for i := 0 to |lines|
      invariant SentenceScan(working, shortest, longest, distribution) == ScanWords(Tokens(lines[..i]), stop)
    {
      var words := Split(lines[i]);
      working, shortest, longest, distribution := ReadWords(working, shortest, longest, distribution, words, stop, Tokens(lines[..i]));
      TokensAppend(lines, i);
    }
    assert lines[..|lines|] == lines;
    r := SentenceStats(Join(shortest, " "), Join(longest, " "), SortByCountDesc(distribution));
  }

  /** The sentences a scan closes, and the words still waiting for a stop character. */
  datatype Segmentation = Segmentation(closed: seq<seq<string>>, pending: seq<string>)

  function Segment(words: seq<string>, stopChars: set<char>): Segmentation {
    if words == [] then Segmentation([], [])
    else
      var p := Segment(words[..|words| - 1], stopChars);
      var w := words[|words| - 1];
      if HasStop(w, stopChars) then Segmentation(p.closed + [p.pending + [w]], [])
      else Segmentation(p.closed, p.pending + [w])
  }

  function Flatten(ss: seq<seq<string>>): seq<string> {
    if ss == [] then [] else Flatten(ss[..|ss| - 1]) + ss[|ss| - 1]
  }

  lemma LengthsAppend<T>(ss: seq<seq<T>>, s: seq<T>)
    ensures Lengths(ss + [s]) == Lengths(ss) + [|s|]
  {
    var a, b := Lengths(ss + [s]), Lengths(ss) + [|s|];
    assert |a| == |b|;
    forall i | 0 <= i < |a| ensures a[i] == b[i] {
      if i < |ss| {
        assert (ss + [s])[i] == ss[i];
      }
    }
  }

  /** A sentence: at least one word, only its last word holds a stop character. */
  predicate WellFormedSentence(s: seq<string>, stopChars: set<char>) {
    s != [] && HasStop(s[|s| - 1], stopChars) && NoStops(s[..|s| - 1], stopChars)
  }

  /** No word of `ws` holds a stop character. */
  predicate NoStops(ws: seq<string>, stopChars: set<char>) {
    forall i :: 0 <= i < |ws| ==> !HasStop(ws[i], stopChars)
  }

  /**
   * The scan cuts the word stream into closed sentences followed by leftover words: every
   * closed sentence is well formed and no leftover word holds a stop character, so the
   * leftover words at end of file are never counted.
   */
  lemma {:induction false} SegmentSentences(words: seq<string>, stopChars: set<char>)
    ensures forall i :: 0 <= i < |Segment(words, stopChars).closed| ==>
              WellFormedSentence(Segment(words, stopChars).closed[i], stopChars)
    ensures NoStops(Segment(words, stopChars).pending, stopChars)
    decreases |words|
  {
    if words != [] {
      var p := Segment(words[..|words| - 1], stopChars);
      var w := words[|words| - 1];
      SegmentSentences(words[..|words| - 1], stopChars);
      var cur := p.pending + [w];
      assert cur[..|cur| - 1] == p.pending;
      if HasStop(w, stopChars) {
        assert WellFormedSentence(cur, stopChars);
        var closed := p.closed + [cur];
        assert forall i :: 0 <= i < |p.closed| ==> closed[i] == p.closed[i];
      } else {
        assert NoStops(cur, stopChars);
      }
    }
  }

  /** Nothing is lost or reordered: the closed sentences and the leftover words make up the stream. */
  lemma {:induction false} SegmentFlatten(words: seq<string>, stopChars: set<char>)
    ensures Flatten(Segment(words, stopChars).closed) + Segment(words, stopChars).pending == words
    decreases |words|
  {
    if words != [] {
      var p := Segment(words[..|words| - 1], stopChars);
      var w := words[|words| - 1];
      SegmentFlatten(words[..|words| - 1], stopChars);
      var cur := p.pending + [w];
      assert words == words[..|words| - 1] + [w];
      AppendLast(Flatten(p.closed), p.pending, words[..|words| - 1], w);
      if HasStop(w, stopChars) {
        assert Segment(words, stopChars) == Segmentation(p.closed + [cur], []);
        FlattenAppend(p.closed, cur);
      } else {
        assert Segment(words, stopChars) == Segmentation(p.closed, cur);
      }
    }
  }

  lemma AppendLast<T>(a: seq<T>, b: seq<T>, prefix: seq<T>, x: T)
    requires a + b == prefix
    ensures a + (b + [x]) == prefix + [x]
  {
  }

  lemma FlattenAppend(ss: seq<seq<string>>, s: seq<string>)
    ensures Flatten(ss + [s]) == Flatten(ss) + s
  {
    assert (ss + [s])[..|ss|] == ss;
  }

  /** `s` is the first of the shortest sentences of `closed` (empty when there is none). */
  predicate IsFirstShortest(s: seq<string>, closed: seq<seq<string>>) {
    if closed == [] then s == []
    else exists i :: (0 <= i < |closed| && closed[i] == s
                      && (forall j :: 0 <= j < |closed| ==> |closed[j]| >= |s|)
                      && (forall j :: 0 <= j < i ==> |closed[j]| > |s|))
  }

  /** `s` is the first of the longest sentences of `closed` (empty when there is none). */
  predicate IsFirstLongest(s: seq<string>, closed: seq<seq<string>>) {
    if closed == [] then s == []
    else exists i :: (0 <= i < |closed| && closed[i] == s
                      && (forall j :: 0 <= j < |closed| ==> |closed[j]| <= |s|)
                      && (forall j :: 0 <= j < i ==> |closed[j]| < |s|))
  }

  /** The shortest-sentence update keeps `IsFirstShortest` when a non-empty sentence closes. */
  lemma ShortestStep(s: seq<string>, closed: seq<seq<string>>, cur: seq<string>)
    requires IsFirstShortest(s, closed) && cur != []
    requires forall i :: 0 <= i < |closed| ==> closed[i] != []
    ensures IsFirstShortest(if |cur| < |s| || |s| == 0 then cur else s, closed + [cur])
  {
    var next := closed + [cur];
    if closed == [] {
      assert next[0] == cur;
    } else {
      var i :| 0 <= i < |closed| && closed[i] == s
        && (forall j :: 0 <= j < |closed| ==> |closed[j]| >= |s|)
        && (forall j :: 0 <= j < i ==> |closed[j]| > |s|);
      if |cur| < |s| {
        assert next[|closed|] == cur;
      } else {
        assert next[i] == s;
      }
    }
  }

  /** The longest-sentence update keeps `IsFirstLongest` when a non-empty sentence closes. */
  lemma LongestStep(s: seq<string>, closed: seq<seq<string>>, cur: seq<string>)
    requires IsFirstLongest(s, closed) && cur != []
    ensures IsFirstLongest(if |cur| > |s| then cur else s, closed + [cur])
  {
    var next := closed + [cur];
    if closed == [] {
      assert next[0] == cur;
    } else {
      var i :| 0 <= i < |closed| && closed[i] == s
        && (forall j :: 0 <= j < |closed| ==> |closed[j]| <= |s|)
        && (forall j :: 0 <= j < i ==> |closed[j]| < |s|);
      if |cur| > |s| {
        assert next[|closed|] == cur;
      } else {
        assert next[i] == s;
      }
    }
  }

  /**
   * What the scan's variables mean: the working sentence holds the leftover words, the
   * distribution counts each closed sentence's length once, and shortest/longest are the
   * first sentences of minimal/maximal length.
   */
  lemma {:induction false} ScanMeaning(words: seq<string>, stopChars: set<char>)
    ensures var s, g := ScanWords(words, stopChars), Segment(words, stopChars);
      && s.working == g.pending
      && s.distribution == Tally(Lengths(g.closed))
      && IsFirstShortest(s.shortest, g.closed)
      && IsFirstLongest(s.longest, g.closed)
    decreases |words|
  {
    if words != [] {
      var pw, w := words[..|words| - 1], words[|words| - 1];
      var s0, g0 := ScanWords(pw, stopChars), Segment(pw, stopChars);
      ScanMeaning(pw, stopChars);
      var s, g := ScanWords(words, stopChars), Segment(words, stopChars);
      var cur := g0.pending + [w];
      var t := s0.(working := s0.working + [w]);
      assert t.working == cur;
      if HasStop(w, stopChars) {
        assert s == Commit(t);
        assert g == Segmentation(g0.closed + [cur], []);
        SegmentSentences(pw, stopChars);
        ShortestStep(s0.shortest, g0.closed, cur);
        assert s.shortest == if |cur| < |s0.shortest| || |s0.shortest| == 0 then cur else s0.shortest;
        LongestStep(s0.longest, g0.closed, cur);
        assert s.longest == if |cur| > |s0.longest| then cur else s0.longest;
        LengthsAppend(g0.closed, cur);
        TallyAppend(Lengths(g0.closed), |cur|);
      } else {
        assert s == t;
        assert g == Segmentation(g0.closed, cur);
      }
    }
  }

  /** Each closed sentence is counted once in the distribution, by its word count. */
  lemma SentenceDistributionMeaning(words: seq<string>, stopChars: set<char>)
    ensures var s, g := ScanWords(words, stopChars), Segment(words, stopChars);
      && Total(s.distribution) == |g.closed|
      && (forall n :: Count(s.distribution, n) == multiset(Lengths(g.closed))[n])
      && (forall e :: e in s.distribution ==> e.key > 0 && e.value > 0)
  {
    var s, g := ScanWords(words, stopChars), Segment(words, stopChars);
    ScanMeaning(words, stopChars);
    SegmentSentences(words, stopChars);
    TallySpec(Lengths(g.closed));
    forall e | e in s.distribution ensures e.key > 0 && e.value > 0 {
      var i :| 0 <= i < |s.distribution| && s.distribution[i] == e;
      assert e.key in Keys(s.distribution);
      var j :| 0 <= j < |g.closed| && Lengths(g.closed)[j] == e.key;
      assert WellFormedSentence(g.closed[j], stopChars);
    }
  }

  // ---------------------------------------------------------------------------
  // Character classification (invoke_character_statistics)
  // ---------------------------------------------------------------------------

  datatype CharClass = Letter | Space | Digit | Punctuation | Other

  /** The classification chain: letters, then the literal space, then digits, then punctuation. */
  function Classify(c: char, res: Resources): (k: CharClass)
    ensures k == Letter <==> c in res.letters
    ensures k == Space <==> c !in res.letters && c == ' '
    ensures k == Digit <==> c !in res.letters && c != ' ' && c in res.digits
    ensures k == Punctuation <==> c !in res.letters && c != ' ' && c !in res.digits && c in res.punctuation
  {
    if c in res.letters then Letter
    else if c == ' ' then Space
    else if c in res.digits then Digit
    else if c in res.punctuation then Punctuation
    else Other
  }

  /** Every character of the file, line feeds included, in order. */
  function Chars(lines: seq<string>): string {
    if lines == [] then [] else Chars(lines[..|lines| - 1]) + lines[|lines| - 1]
  }

  /** How many characters of `s` fall in class `k`. */
  function ClassCount(s: string, k: CharClass, res: Resources): nat {
    if s == [] then 0
    else ClassCount(s[..|s| - 1], k, res) + (if Classify(s[|s| - 1], res) == k then 1 else 0)
  }

  datatype CharacterStats = CharacterStats(occurrences: Counts<char>, letters: nat, digits: nat, punctuation: nat, spaces: nat, other: nat)

  /** The statistics of the characters seen so far. */
  function CharacterTotals(s: string, res: Resources): CharacterStats {
    CharacterStats(Tally(s), ClassCount(s, Letter, res), ClassCount(s, Digit, res),
                   ClassCount(s, Punctuation, res), ClassCount(s, Space, res), ClassCount(s, Other, res))
  }

  lemma CharacterTotalsAppend(s: string, c: char, res: Resources)
    ensures var t := CharacterTotals(s, res); var k := Classify(c, res);
      CharacterTotals(s + [c], res) == CharacterStats(
        Bump(t.occurrences, c),
        t.letters + (if k == Letter then 1 else 0), t.digits + (if k == Digit then 1 else 0),
        t.punctuation + (if k == Punctuation then 1 else 0), t.spaces + (if k == Space then 1 else 0),
        t.other + (if k == Other then 1 else 0))
  {
    assert (s + [c])[..|s|] == s;
    TallyAppend(s, c);
  }

  /** The returned tuple; the occurrence dict is returned unsorted, in first-occurrence order. */
  method InvokeCharacterStatistics(lines: seq<string>, res: Resources) returns (r: CharacterStats)
    ensures r == CharacterTotals(Chars(lines), res)
  {
    var occurrences: Counts<char> := [];
    var letterCount, digitCount, punctuationCount, spaceCount, otherCount := 0, 0, 0, 0, 0;
    for i := 0 to |lines|
      invariant CharacterStats(occurrences, letterCount, digitCount, punctuationCount, spaceCount, otherCount)
                == CharacterTotals(Chars(lines[..i]), res)
    {
      var line := lines[i];
      ghost var before := Chars(lines[..i]);
      assert before + line[..0] == before;
      for k := 0 to |line|
        invariant CharacterStats(occurrences, letterCount, digitCount, punctuationCount, spaceCount, otherCount)
                  == CharacterTotals(before + line[..k], res)
      {
        var character := line[k];
        CharacterTotalsAppend(before + line[..k], character, res);
        assert before + line[..k + 1] == before + line[..k] + [character];
        if character in res.letters {
          letterCount := letterCount + 1;
        } else if character == ' ' {
          spaceCount := spaceCount + 1;
        } else if character in res.digits {
          digitCount := digitCount + 1;
        } else if character in res.punctuation {
          punctuationCount := punctuationCount + 1;
        } else {
          otherCount := otherCount + 1;
        }
        occurrences := Bump(occurrences, character);
      }
      assert line[..|line|] == line;
      assert lines[..i + 1][..i] == lines[..i];
    }
    assert lines[..|lines|] == lines;
    r := CharacterStats(occurrences, letterCount, digitCount, punctuationCount, spaceCount, otherCount);
  }

  /**
   * The five class counts partition the characters scanned, and the occurrence dict counts
   * each character exactly as often as it occurs, keys in first-occurrence order.
   */
  lemma {:induction false} CharacterTotalsMeaning(s: string, res: Resources)
    ensures var t := CharacterTotals(s, res);
      && t.letters + t.digits + t.punctuation + t.spaces + t.other == |s|
      && Total(t.occurrences) == |s|
      && (forall c :: Count(t.occurrences, c) == multiset(s)[c])
      && Keys(t.occurrences) == FirstOccurrences(s)
    decreases |s|
  {
    TallySpec(s);
    if s != [] {
      CharacterTotalsMeaning(s[..|s| - 1], res);
    }
  }
}
