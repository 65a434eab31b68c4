/**
 * The aggregate record of stex_filing.py: a `TextFile` that is admitted by a few sanity
 * checks, stores the results of the analysis passes and derives further statistics from them.
 * Python attributes that only exist once an `append_*` method ran are `Option` slots here;
 * reading one that is still absent is the `AttributeError` the getters would raise.
 */
module Filing {
  import opened Outcomes
  import opened Strings
  import opened OrderedCounts
  import opened Analysis

  datatype BasicRecord = BasicRecord(
    numberOfLines: int, numberOfWords: int, numberOfCharacters: int, numberOfSpaces: int,
    numberOfCharactersAndSpaces: int)

  datatype WordRecord = WordRecord(wordOccurrences: Counts<string>, wordLengthOccurrences: Counts<int>)

  datatype SentenceRecord = SentenceRecord(
    shortestSentenceText: string, longestSentenceText: string,
    sentenceLengthDistribution: Counts<int>, totalSentences: int)

  datatype CharacterRecord = CharacterRecord(
    characterOccurrences: Counts<char>, letterCount: int, digitCount: int, punctuationCount: int,
    spaceCount: int, otherCount: int, totalCharacters: int)

  datatype WordLengthSummary = WordLengthSummary(shortest: int, longest: int, average: real)

  /**
   * The checks of `__init__`, in their order: the file must exist, its lower-cased path must
   * end with ".txt", and its first 512 characters must decode as UTF-8.
   */
  function Admission(filepath: string, fileExists: bool, sampleDecodes: bool): (r: Outcome<Failure>)
    ensures r == Done <==> fileExists && EndsWith(Lower(filepath), ".txt") && sampleDecodes
    ensures !fileExists ==> r == Raised(FileNotFound)
    ensures fileExists && !EndsWith(Lower(filepath), ".txt") ==> r == Raised(ExtensionMismatch)
    ensures fileExists && EndsWith(Lower(filepath), ".txt") && !sampleDecodes ==> r == Raised(InvalidEncoding)
  {
    if !fileExists then Raised(FileNotFound)
    else if !EndsWith(Lower(filepath), ".txt") then Raised(ExtensionMismatch)
    else if !sampleDecodes then Raised(InvalidEncoding)
    else Done
  }

  /** The index of the first entry with the largest value: what `max(d, key=d.get)` picks. */
  function FirstMaxIndex<K>(d: seq<Entry<K, real>>): (i: nat)
    requires d != []
    ensures i < |d|
    ensures forall j :: 0 <= j < |d| ==> d[j].value <= d[i].value
    ensures forall j :: 0 <= j < i ==> d[j].value < d[i].value
  {
    if |d| == 1 then 0
    else
      var i := FirstMaxIndex(d[..|d| - 1]);
      if d[|d| - 1].value > d[i].value then |d| - 1 else i
  }

  /** The smallest key of a non-empty dict: `sorted(d.keys())[0]`. */
  function MinKey(d: Counts<int>): (k: int)
    requires d != []
    ensures k in Keys(d)
    ensures forall j :: 0 <= j < |d| ==> k <= d[j].key
  {
    if |d| == 1 then d[0].key
    else
      var m := MinKey(d[1..]);
      assert forall j :: 1 <= j < |d| ==> d[j] == d[1..][j - 1];
      assert m in Keys(d[1..]) ==> m in Keys(d);
      if d[0].key <= m then d[0].key else m
  }

  /** The largest key of a non-empty dict: `sorted(d.keys())[-1]`. */
  function MaxKey(d: Counts<int>): (k: int)
    requires d != []
    ensures k in Keys(d)
    ensures forall j :: 0 <= j < |d| ==> d[j].key <= k
  {
    if |d| == 1 then d[0].key
    else
      var m := MaxKey(d[1..]);
      assert forall j :: 1 <= j < |d| ==> d[j] == d[1..][j - 1];
      assert m in Keys(d[1..]) ==> m in Keys(d);
      if d[0].key >= m then d[0].key else m
  }

  /** The keys whose count is exactly 1, in dict order. */
  function Orphans<K>(d: Counts<K>): seq<K> {
    if d == [] then [] else (if d[0].value == 1 then [d[0].key] else []) + Orphans(d[1..])
  }

  /**
   * A word is an orphan exactly when the dict holds it with count 1, and the orphans are a
   * subsequence of the unique words.
   */
  lemma {:induction false} OrphansMeaning<K>(d: Counts<K>)
    ensures forall w :: w in Orphans(d) <==> Entry(w, 1) in d
    ensures IsSubsequence(Orphans(d), Keys(d))
    decreases |d|
  {
    if d != [] {
      OrphansMeaning(d[1..]);
      assert d == [d[0]] + d[1..];
      assert Keys(d)[1..] == Keys(d[1..]);
      var a, b := Orphans(d), Keys(d);
      if d[0].value == 1 {
        assert a[0] == b[0] && a[1..] == Orphans(d[1..]);
      } else {
        assert a == Orphans(d[1..]);
      }
    }
  }

  // The two alphabets of get_count_of_lowercase_and_capitalized_ascii. Every member of the
  // first is `islower()` and every member of the second `isupper()` in Python, so membership
  // alone decides.
  predicate IsSwedishLower(c: char) {
    'a' <= c <= 'z' || c == 'å' || c == 'ä' || c == 'ö'
  }

  predicate IsSwedishUpper(c: char) {
    'A' <= c <= 'Z' || c == 'Å' || c == 'Ä' || c == 'Ö'
  }

  datatype LetterCase = Lowercase | Uppercase | Caseless

  function CaseOf(c: char): LetterCase {
    if IsSwedishLower(c) then Lowercase else if IsSwedishUpper(c) then Uppercase else Caseless
  }

  /** The summed counts of the characters of case `k`. */
  function CaseTotal(d: Counts<char>, k: LetterCase): int {
    if d == [] then 0 else (if CaseOf(d[0].key) == k then d[0].value else 0) + CaseTotal(d[1..], k)
  }

  /** Every counted character goes into exactly one of the lower, upper and caseless totals. */
  lemma {:induction false} CaseTotalsPartition(d: Counts<char>)
    ensures CaseTotal(d, Lowercase) + CaseTotal(d, Uppercase) + CaseTotal(d, Caseless) == Total(d)
    decreases |d|
  {
    if d != [] {
      CaseTotalsPartition(d[1..]);
    }
  }

  /** The entries whose key is in `s`, in dict order. */
  function Matching<K, V>(d: seq<Entry<K, V>>, s: set<K>): seq<Entry<K, V>> {
    if d == [] then []
    else if d[0].key in s then [d[0]] + Matching(d[1..], s)
    else Matching(d[1..], s)
  }

  /**
   * The constraint filter keeps exactly the entries whose key is in the constraint, as an
   * order-preserving subsequence of the dict.
   */
  lemma {:induction false} MatchingMeaning<K, V>(d: seq<Entry<K, V>>, s: set<K>)
    ensures forall e :: e in Matching(d, s) <==> e in d && e.key in s
    ensures IsSubsequence(Matching(d, s), d)
    decreases |d|
  {
    if d != [] {
      MatchingMeaning(d[1..], s);
      assert d == [d[0]] + d[1..];
      var a := Matching(d, s);
      if d[0].key in s {
        assert a[0] == d[0] && a[1..] == Matching(d[1..], s);
      } else {
        assert a == Matching(d[1..], s);
      }
    }
  }

  lemma PrefixOfConcat<T>(a: seq<T>, b: seq<T>)
    ensures (a + b)[..|a|] == a
  {
  }

  /** `top_n` after `if top_n > len(d): top_n = len(d)`. */
  function ClampTop(topN: int, size: nat): (n: int)
    ensures n <= size && (n == topN || n == size)
    ensures topN <= size ==> n == topN
  {
    if topN > size then size else topN
  }

  /** How many entries `list(d.items())[:n]` keeps: negative `n` counts from the end. */
  function SliceLength(n: int, size: nat): (len: nat)
    requires n <= size
    ensures n >= 0 ==> len == n
    ensures n < 0 ==> len == Max(0, size + n)
  {
    if n >= 0 then n else if size + n > 0 then size + n else 0
  }

  class TextFile {
    const path: string
    const shortname: string
    var basic: Option<BasicRecord>
    var wordFrequencies: Option<WordRecord>
    var sentences: Option<SentenceRecord>
    var characters: Option<CharacterRecord>
    var languageProbabilities: Option<seq<Entry<string, real>>>
    var mostLikelyLanguage: Option<string>

    /** A record with no results stored yet. */
    predicate Blank()
      reads this
    {
      basic.None? && wordFrequencies.None? && sentences.None? && characters.None?
      && languageProbabilities.None? && mostLikelyLanguage.None?
    }

    constructor (filepath: string)
      ensures path == filepath && shortname == Basename(filepath)
      ensures Blank()
    {
      basic, wordFrequencies, sentences, characters := None, None, None, None;
      languageProbabilities, mostLikelyLanguage := None, None;
      path := filepath;
      shortname := Basename(filepath);
    }

    /** `TextFile(filepath)`: the record, or the exception its checks raise. */
    static method Open(filepath: string, fileExists: bool, sampleDecodes: bool) returns (r: Result<TextFile, Failure>)
      ensures Admission(filepath, fileExists, sampleDecodes).Raised? ==>
                r == Err(Admission(filepath, fileExists, sampleDecodes).failure)
      ensures Admission(filepath, fileExists, sampleDecodes) == Done ==>
                r.Ok? && fresh(r.value) && r.value.path == filepath
                && r.value.shortname == Basename(filepath) && r.value.Blank()
    {
      var admitted := Admission(filepath, fileExists, sampleDecodes);
      if admitted.Raised? {
        return Err(admitted.failure);
      }
      var f := new TextFile(filepath);
      r := Ok(f);
    }

    // ----------- storing results -----------

    /** Stores `(lines, words, characters, spaces)`; a tuple of any other arity is refused. */
    method AppendBasicStatistics(stats: seq<int>) returns (r: Outcome<Failure>)
      modifies this
      ensures r == (if |stats| == 4 then Done else Raised(MalformedStatistics))
      ensures |stats| == 4 ==>
                basic == Some(BasicRecord(stats[0], stats[1], stats[2], stats[3], stats[2] + stats[3]))
      ensures |stats| != 4 ==> basic == old(basic)
      ensures wordFrequencies == old(wordFrequencies) && sentences == old(sentences)
      ensures characters == old(characters)
      ensures languageProbabilities == old(languageProbabilities) && mostLikelyLanguage == old(mostLikelyLanguage)
    {
      if |stats| != 4 {
        return Raised(MalformedStatistics);
      }
      var numberOfCharacters, numberOfSpaces := stats[2], stats[3];
      basic := Some(BasicRecord(stats[0], stats[1], numberOfCharacters, numberOfSpaces,
                                numberOfCharacters + numberOfSpaces));
      r := Done;
    }

    method AppendWordFrequencyStatistics(stats: WordFrequencies)
      modifies this
      ensures wordFrequencies == Some(WordRecord(stats.wordCount, stats.wordLengths))
      ensures basic == old(basic) && sentences == old(sentences) && characters == old(characters)
      ensures languageProbabilities == old(languageProbabilities) && mostLikelyLanguage == old(mostLikelyLanguage)
    {
      wordFrequencies := Some(WordRecord(stats.wordCount, stats.wordLengths));
    }

    /** Stores the sentence results and derives `total_sentences` from the distribution. */
    method AppendSentenceStatistics(stats: SentenceStats)
      modifies this
      ensures sentences == Some(SentenceRecord(stats.shortest, stats.longest, stats.distribution, Total(stats.distribution)))
      ensures basic == old(basic) && wordFrequencies == old(wordFrequencies) && characters == old(characters)
      ensures languageProbabilities == old(languageProbabilities) && mostLikelyLanguage == old(mostLikelyLanguage)
    {
      var totalSentences := Total(stats.distribution);
      sentences := Some(SentenceRecord(stats.shortest, stats.longest, stats.distribution, totalSentences));
    }

    /** Stores the character results and derives `total_characters` from the occurrence dict. */
    method AppendCharacterStatistics(stats: CharacterStats)
      modifies this
      ensures characters == Some(CharacterRecord(stats.occurrences, stats.letters, stats.digits, stats.punctuation,
                                                 stats.spaces, stats.other, Total(stats.occurrences)))
      ensures basic == old(basic) && wordFrequencies == old(wordFrequencies) && sentences == old(sentences)
      ensures languageProbabilities == old(languageProbabilities) && mostLikelyLanguage == old(mostLikelyLanguage)
    {
      var totalCharacters := Total(stats.occurrences);
      characters := Some(CharacterRecord(stats.occurrences, stats.letters, stats.digits, stats.punctuation,
                                         stats.spaces, stats.other, totalCharacters));
    }

    /**
     * Stores the probabilities, then picks the first most probable language. The dict is stored
     * before `max` raises on an empty one, which leaves `most_likely_language` as it was.
     */
    method AppendLanguageProbabilities(stats: seq<Entry<string, real>>) returns (r: Outcome<Failure>)
      modifies this
      ensures languageProbabilities == Some(stats)
      ensures stats == [] ==> r == Raised(EmptyInput) && mostLikelyLanguage == old(mostLikelyLanguage)
      ensures stats != [] ==> r == Done && mostLikelyLanguage == Some(stats[FirstMaxIndex(stats)].key)
      ensures basic == old(basic) && wordFrequencies == old(wordFrequencies)
      ensures sentences == old(sentences) && characters == old(characters)
    {
      languageProbabilities := Some(stats);
      if stats == [] {
        return Raised(EmptyInput);
      }
      mostLikelyLanguage := Some(stats[FirstMaxIndex(stats)].key);
      r := Done;
    }

    // ----------- derived statistics -----------

    /** Words per line, 0 for a file without lines. */
    function AverageWordsPerLine(): (r: Result<real, Failure>)
      reads this
      ensures basic.None? ==> r == Err(MissingStatistics)
      ensures basic.Some? ==> r.Ok?
      ensures basic.Some? && basic.value.numberOfLines == 0 ==> r.value == 0.0
      ensures basic.Some? && basic.value.numberOfLines != 0 ==>
                r.value * basic.value.numberOfLines as real == basic.value.numberOfWords as real
    {
      match basic
      case None => Err(MissingStatistics)
      case Some(b) => Ok(Ratio(b.numberOfWords, b.numberOfLines))
    }

    /** Characters per word, 0 for a file without words. */
    function AverageCharactersPerWord(): (r: Result<real, Failure>)
      reads this
      ensures basic.None? ==> r == Err(MissingStatistics)
      ensures basic.Some? ==> r.Ok?
      ensures basic.Some? && basic.value.numberOfWords == 0 ==> r.value == 0.0
      ensures basic.Some? && basic.value.numberOfWords != 0 ==>
                r.value * basic.value.numberOfWords as real == basic.value.numberOfCharacters as real
    {
      match basic
      case None => Err(MissingStatistics)
      case Some(b) => Ok(Ratio(b.numberOfCharacters, b.numberOfWords))
    }

    /**
     * Words per sentence: 0 for an empty distribution, else the weighted sum of lengths over
     * `total_sentences`, which raises when that total is 0.
     */
    function AverageWordsPerSentence(): (r: Result<real, Failure>)
      reads this
      ensures sentences.None? ==> r == Err(MissingStatistics)
      ensures sentences.Some? && sentences.value.sentenceLengthDistribution == [] ==> r == Ok(0.0)
      ensures sentences.Some? && sentences.value.sentenceLengthDistribution != [] ==>
                var s := sentences.value;
                (r.Err? <==> s.totalSentences == 0) && (r.Err? ==> r.error == DivisionByZero)
                && (r.Ok? ==> r.value * s.totalSentences as real == WeightedSum(s.sentenceLengthDistribution) as real)
    {
      match sentences
      case None => Err(MissingStatistics)
      case Some(s) =>
        if s.sentenceLengthDistribution == [] then Ok(0.0)
        else if s.totalSentences == 0 then Err(DivisionByZero)
        else Ok(WeightedSum(s.sentenceLengthDistribution) as real / s.totalSentences as real)
    }

    /** The words that occurred exactly once, in dict order. */
    method GetOrphanWords() returns (r: Result<seq<string>, Failure>)
      ensures wordFrequencies.None? ==> r == Err(MissingStatistics)
      ensures wordFrequencies.Some? ==> r == Ok(Orphans(wordFrequencies.value.wordOccurrences))
    {
      if wordFrequencies.None? {
        return Err(MissingStatistics);
      }
      var occurrences := wordFrequencies.value.wordOccurrences;
      var orphanWords: seq<string> := [];
      for i := 0 to |occurrences|
        invariant orphanWords + Orphans(occurrences[i..]) == Orphans(occurrences)
      {
        assert occurrences[i..][1..] == occurrences[i + 1..];
        if occurrences[i].value == 1 {
          orphanWords := orphanWords + [occurrences[i].key];
        }
      }
      assert occurrences[|occurrences|..] == [];
      assert orphanWords == Orphans(occurrences);
      r := Ok(orphanWords);
    }

    /** Every word once, in dict order. */
    method GetUniqueWords() returns (r: Result<seq<string>, Failure>)
      ensures wordFrequencies.None? ==> r == Err(MissingStatistics)
      ensures wordFrequencies.Some? ==> r == Ok(Keys(wordFrequencies.value.wordOccurrences))
    {
      if wordFrequencies.None? {
        return Err(MissingStatistics);
      }
      var occurrences := wordFrequencies.value.wordOccurrences;
      var uniqueWords: seq<string> := [];
      for i := 0 to |occurrences|
        invariant uniqueWords == Keys(occurrences[..i])
      {
        uniqueWords := uniqueWords + [occurrences[i].key];
      }
      assert occurrences[..|occurrences|] == occurrences;
      r := Ok(uniqueWords);
    }

    /** `(lower_total, upper_total)` over the a-z/åäö and A-Z/ÅÄÖ alphabets. */
    method GetCountOfLowercaseAndCapitalizedAscii() returns (r: Result<(int, int), Failure>)
      ensures characters.None? ==> r == Err(MissingStatistics)
      ensures characters.Some? ==>
                var d := characters.value.characterOccurrences;
                r == Ok((CaseTotal(d, Lowercase), CaseTotal(d, Uppercase)))
    {
      if characters.None? {
        return Err(MissingStatistics);
      }
      var occurrences := characters.value.characterOccurrences;
      var lowerTotal, upperTotal := 0, 0;
      for i := 0 to |occurrences|
        invariant lowerTotal + CaseTotal(occurrences[i..], Lowercase) == CaseTotal(occurrences, Lowercase)
        invariant upperTotal + CaseTotal(occurrences[i..], Uppercase) == CaseTotal(occurrences, Uppercase)
      {
        assert occurrences[i..][1..] == occurrences[i + 1..];
        var character, count := occurrences[i].key, occurrences[i].value;
        if IsSwedishLower(character) {
          lowerTotal := lowerTotal + count;
        } else if IsSwedishUpper(character) {
          upperTotal := upperTotal + count;
        }
      }
      r := Ok((lowerTotal, upperTotal));
    }

    /**
     * The first `top_n` entries of `dictionary` (after clamping `top_n` to its size), or, with a
     * constraint, the matching entries up to the first point where at least `top_n` were taken.
     * The count is checked only after an entry is taken, so at least one matching entry is
     * returned whenever there is one.
     */
    static method GetTopElementsOfDictionary<K, V>(dictionary: seq<Entry<K, V>>, topN: int, constraint: Option<set<K>>)
      returns (r: seq<Entry<K, V>>)
      ensures var n := ClampTop(topN, |dictionary|);
        constraint.None? ==> r == dictionary[..SliceLength(n, |dictionary|)]
      ensures constraint.Some? ==>
        var n := ClampTop(topN, |dictionary|); var matching := Matching(dictionary, constraint.value);
        r == matching[..if Max(1, n) < |matching| then Max(1, n) else |matching|]
    {
      var n := ClampTop(topN, |dictionary|);
      if constraint.None? {
        return dictionary[..SliceLength(n, |dictionary|)];
      }
      var allowed := constraint.value;
      ghost var matching := Matching(dictionary, allowed);
      var filtered: seq<Entry<K, V>> := [];
      var elementCount := 0;
      var i := 0;
      while i < |dictionary|
        invariant 0 <= i <= |dictionary|
        invariant filtered + Matching(dictionary[i..], allowed) == matching
        invariant elementCount == |filtered| < Max(1, n)
      {
        assert dictionary[i..][1..] == dictionary[i + 1..];
        var entry := dictionary[i];
        if entry.key in allowed {
          assert Matching(dictionary[i..], allowed) == [entry] + Matching(dictionary[i + 1..], allowed);
          filtered := filtered + [entry];
          elementCount := elementCount + 1;
          if elementCount >= n {
            PrefixOfConcat(filtered, Matching(dictionary[i + 1..], allowed));
            break;
          }
        }
        i := i + 1;
      }
      assert i == |dictionary| ==> filtered == matching;
      r := filtered;
    }

    /** Shortest and longest word length, and the mean length weighted by occurrences. */
    function GetWordLengthStatistics(): (r: Result<WordLengthSummary, Failure>)
      reads this
      ensures wordFrequencies.None? ==> r == Err(MissingStatistics)
      ensures wordFrequencies.Some? ==>
                var d := wordFrequencies.value.wordLengthOccurrences;
                && (r.Err? <==> Total(d) == 0)
                && (r.Err? ==> r.error == DivisionByZero)
                && (r.Ok? ==> d != [] && r.value.shortest in Keys(d) && r.value.longest in Keys(d)
                              && (forall j :: 0 <= j < |d| ==> r.value.shortest <= d[j].key <= r.value.longest)
                              && r.value.average * Total(d) as real == WeightedSum(d) as real)
    {
      match wordFrequencies
      case None => Err(MissingStatistics)
      case Some(w) =>
        var d := w.wordLengthOccurrences;
        if Total(d) == 0 then Err(DivisionByZero)
        else Ok(WordLengthSummary(MinKey(d), MaxKey(d), WeightedSum(d) as real / Total(d) as real))
    }
  }

  lemma {:induction false} SumSentenceLengths(closed: seq<seq<string>>)
    ensures Sum(Lengths(closed)) == |Flatten(closed)|
    decreases |closed|
  {
    if closed != [] {
      var p := closed[..|closed| - 1];
      SumSentenceLengths(p);
      assert Lengths(closed) == Lengths(p) + [|closed[|closed| - 1]|];
      SumAppend(Lengths(p), |closed[|closed| - 1]|);
    }
  }

  /**
   * For a distribution produced by the sentence pass, `total_sentences` is the number of closed
   * sentences, the distribution is empty exactly when there is none, and the weighted sum is
   * the number of words in closed sentences: the average is words per sentence.
   */
  lemma SentenceAverageMeaning(lines: seq<string>, res: Resources)
    ensures var words := Tokens(lines);
      var dist := SortByCountDesc(ScanWords(words, res.stopChars).distribution);
      var g := Segment(words, res.stopChars);
      && Total(dist) == |g.closed|
      && (dist == [] <==> g.closed == [])
      && WeightedSum(dist) == |Flatten(g.closed)|
  {
    var words := Tokens(lines);
    var g := Segment(words, res.stopChars);
    var d := ScanWords(words, res.stopChars).distribution;
    ScanMeaning(words, res.stopChars);
    TallySpec(Lengths(g.closed));
    SortByCountDescSpec(d);
    WeightedSumSort(d);
    WeightedSumTally(Lengths(g.closed));
    SumSentenceLengths(g.closed);
  }

  lemma {:induction false} SumLengthsIs(ws: seq<string>)
    ensures Sum(Lengths(ws)) == SumLengths(ws)
    decreases |ws|
  {
    if ws != [] {
      SumLengthsIs(ws[1..]);
      assert Lengths(ws)[1..] == Lengths(ws[1..]);
    }
  }

  /**
   * For the word-length dict of the word pass, the weights sum to the number of normalised words
   * and the weighted sum to their total length: the average is characters per normalised word.
   */
  lemma WordLengthAverageMeaning(lines: seq<string>)
    ensures var ws := CleanWords(lines);
      var d := SortByCountDesc(Tally(Lengths(ws)));
      Total(d) == |ws| && WeightedSum(d) == SumLengths(ws)
  {
    var ws := CleanWords(lines);
    TallySpec(Lengths(ws));
    SortByCountDescSpec(Tally(Lengths(ws)));
    WeightedSumSort(Tally(Lengths(ws)));
    WeightedSumTally(Lengths(ws));
    SumLengthsIs(ws);
  }
}
