# SimpleTextAnalysis / HyTextAnalysis in Dafny

A Dafny model of the analysis core of the SimpleTextAnalysis program (and of its predecessor
HyTextAnalysis), with proofs of what the code guarantees.

The code reads a text file and computes its statistics in passes:

- a basic pass counts lines, whitespace-separated words, non-space characters and spaces;
- a word-frequency pass lowercases the words, strips them to the letters `a-z åäö ' -`, and
  tallies the words and their lengths in dicts sorted by count;
- a sentence pass groups words into sentences at words that contain a stop character;
- a character pass classifies every character as letter, space, digit, punctuation or other.

A `TextFile` object stores the results of each pass. Its getters derive averages, orphan
words, the top entries of a dict and letter-case totals from them. Pretty-printers turn the
results into aligned listings and framed tables. A small text interface draws framed boxes
and filters comment lines. HyTextAnalysis has its own basic pass (splitting on single
spaces), its own file record and inventory, and its own table builder.

Modules, one per source file plus shared helpers:

| module | models |
|---|---|
| `Outcomes` | `None`, and the exceptions the code raises, as `Option`/`Result`/`Outcome` values |
| `Strings` | the `str` operations used: `split()`, `split(sep)`, `join`, `rstrip('\n')`, `count`, `lower()`, `endswith`, padding and alignment, `str(int)`, `os.path.basename` |
| `OrderedCounts` | insertion-ordered `dict[K, int]` as a sequence of entries: `d[k] += 1`, tallying, and Python's stable `sorted(..., key=count, reverse=True)` |
| `Analysis` | stex_analysis.py: the four analysis passes |
| `Filing` | stex_filing.py: class `TextFile` |
| `HyAnalysis`, `HyTracked` | hy_analysis.py, hy_tracked_textfiles.py |
| `Tables` | what `_gen_table` (stex_pretty.py) and `gen_table` (hy_tables.py) share: rows, the `Column` class, widths, cells |
| `Pretty`, `HyTables` | stex_pretty.py, hy_tables.py |
| `Tui`, `StexMain` | the computing helpers of stex_tui.py (plus `generate_header` of main.py, which has the same body) and stex_main.py |

Each imperative pass in the source is a `method` with its loops. Its postcondition ties the
result to a specification function (a left fold over the lines, words or characters).
Lemmas then state what the specification means: counts equal multiset multiplicities,
totals agree, sentences are well formed, and the sort is stable. Objects the code updates
in place are classes: `TextFile`, `HyTextFile`, `HyFileInventory`, `Column` and the
inventory list `StexMain.Inventory`.

Environment inputs are parameters:

- file contents are `lines: seq<string>`, the lines as Python's file iterator yields them, `'\n'` included;
- `os.path.exists` is `fileExists: bool`;
- the outcome of the 512-character UTF-8 sample read is `sampleDecodes: bool`;
- the contents of the resource files `stopchars`, `letters`, `digits` and `punctuation` are the fields of `Analysis.Resources`;
- the text of a percentage, `f"({count / total * 100:5.2f}%)"`, is the function parameter `formatPercentage`.

Python averages are exact rational quotients (`real`), before rounding. Where the code
divides, the zero-divisor case is modelled. A division that raises is `Err(DivisionByZero)`.
Attributes that only exist after an `append_*` method has run are `Option` slots, and
reading an empty slot gives `Err(MissingStatistics)`.

Three points where the code does something a reader might not expect; the model follows the code:

- the character occurrence map is returned in first-occurrence order and never sorted. Yet
  `get_top_elements_of_dictionary` expects a sorted dictionary (its docstring at
  stex_filing.py:233-235), and `fetch_common_letters_list` passes it this map as the source of
  the "top" letters (stex_pretty.py:220-221). So the letters listed are the first ones to occur,
  not the most frequent;
- a word holding a stop character closes its sentence even when it is the only word, so
  `"Hello world. Bye."` gives the sentence lengths 2 and 1;
- for a constraint set in `get_top_elements_of_dictionary`, the loop breaks only after storing an
  element. So a `top_n` of 0 or less still returns the first matching entry, although the
  docstring (stex_filing.py:243) promises N entries. `Filing.TextFile.GetTopElementsOfDictionary`
  states this as `min(max(1, n), matches)`.

## Model

Two source functions have no member of their own, because their bodies are identical to
functions modelled here. `generate_header` (main.py:27-53) is `generate_stylized_content_box`,
so `Tui.GenerateStylizedContentBox` and `Tui.ContentBoxShape` cover it. `create_word_row`
(hy_tables.py:69-90) builds the same row as stex_pretty.py's, so `Pretty.CreateWordRow`
covers it.

| member | source | states |
|---|---|---|
| Analysis.InvokeBasicStatistics | stex_analysis.py:26-82 | the four counters are the per-line totals `BasicTotals` of the lines |
| Analysis.BasicTotalsMeaning | stex_analysis.py:49-70 | lines = number of lines; words = number of `split()` tokens; characters = non-whitespace characters after `rstrip('\n')`; spaces = lines + literal `' '` count, hence spaces >= lines |
| Analysis.Clean | stex_analysis.py:102-125 | a cleaned word is no longer than the word, holds only `VALID_CHARS`, and keeps every valid character of the word |
| Analysis.CleanMeaning | stex_analysis.py:102-125 | the cleaned word is a subsequence of the word holding each valid character exactly as often as the word does and no other character |
| Analysis.Lengths | stex_analysis.py:133 | one length per word, in order (and, for line 196, one word count per sentence) |
| Analysis.InvokeWordFrequencyStatistics | stex_analysis.py:84-147 | the two dicts are the count-sorted tallies of the cleaned non-empty words and of their lengths |
| Analysis.CleanWordsShape | stex_analysis.py:119-126 | no more cleaned words than tokens; each is non-empty and only valid characters |
| Analysis.WordFrequencyMeaning | stex_analysis.py:112-142 | every key is a non-empty valid word; an entry (w, n) is present iff w occurs, with n its multiplicity (likewise for lengths); both dicts total the number of cleaned words, which is at most the basic word count |
| Analysis.WordFrequencyOrder | stex_analysis.py:128-142 | both dicts are sorted by count descending; entries with equal counts keep first-insertion order; the unsorted keys are the words in first-occurrence order |
| Analysis.InvokeSentenceStatistics | stex_analysis.py:149-222 | returns the space-joined shortest and longest sentences and the count-sorted length distribution of the word scan `ScanWords` |
| Analysis.ReadWord | stex_analysis.py:188-213 | one word read: it joins the working sentence, and its first stop character closes that sentence (`ScanWord`) |
| Analysis.ReadWords | stex_analysis.py:187-213 | the word loop of one line continues the scan over exactly that line's words |
| Analysis.SegmentSentences | stex_analysis.py:186-213 | every recorded sentence is non-empty, ends in a word with a stop character, and has no stop character before it; the words after the last stop are never closed |
| Analysis.SegmentFlatten | stex_analysis.py:186-213 | the closed sentences followed by the pending words are exactly the input words |
| Analysis.ScanMeaning | stex_analysis.py:178-216 | the working sentence is the pending tail; the distribution tallies the closed sentences' lengths; shortest/longest are the first sentence of minimal/maximal length (empty when none closed) |
| Analysis.SentenceDistributionMeaning | stex_analysis.py:196-210 | the distribution totals the number of closed sentences, counts each length's multiplicity, and has only positive keys and values |
| Analysis.Classify | stex_analysis.py:258-267 | letters first, then `' '`, digits, punctuation, other, each tested only when the earlier tests failed |
| Analysis.InvokeCharacterStatistics | stex_analysis.py:224-282 | the map and the five counts are `CharacterTotals` of all characters of all lines |
| Analysis.CharacterTotalsMeaning | stex_analysis.py:249-282 | the five class counts sum to the number of characters, as do the map's values; each count is the character's multiplicity; keys are in first-occurrence order |
| OrderedCounts.Keys | stex_filing.py:226-227 | the keys of a dict, in its order |
| OrderedCounts.BumpSpec | stex_analysis.py:128-131 | `d[k] += 1` or `d[k] = 1`: the total grows by one, only k's count changes, a new key is appended at the end, keys stay distinct and counts positive |
| OrderedCounts.TallySpec | stex_analysis.py:128-137 | a tally has distinct keys, total = number of items, each count = multiplicity, keys = the items in first-occurrence order, all counts positive |
| OrderedCounts.SortByCountDescSpec | stex_analysis.py:141-142 | the sort is a permutation, sorted by count descending, and stable: for every count, the entries with that count keep their order |
| OrderedCounts.SortByCountDescUnique | stex_analysis.py:141-142 | two count-sorted arrangements that agree on the order within every count are equal, so any stable sort (Python's included) yields exactly `SortByCountDesc` |
| OrderedCounts.WeightedSumTally | stex_filing.py:199 | the sum of length × count over a tally of lengths is the sum of the lengths |
| OrderedCounts.WeightedSumSort | stex_filing.py:199 | sorting does not change the sum of key × count |
| Filing.Admission | stex_filing.py:29-52 | the existence check comes first (FileNotFoundError), then the case-insensitive `.txt` check, then the UTF-8 check (both ValueError); admitted iff all three pass |
| Filing.TextFile.constructor | stex_filing.py:54-55 | stores the path and its basename; no statistics yet |
| Filing.TextFile.Open | stex_filing.py:29-55 | raises what `Admission` raises, else a new blank file for the path |
| Filing.TextFile.AppendBasicStatistics | stex_filing.py:58-85 | a tuple whose length is not 4 raises and changes nothing; else stores the four counts and characters + spaces |
| Filing.TextFile.AppendWordFrequencyStatistics | stex_filing.py:87-101 | stores both dicts; nothing else changes |
| Filing.TextFile.AppendSentenceStatistics | stex_filing.py:103-113 | stores the texts and the distribution, and total_sentences = sum of its values |
| Filing.TextFile.AppendCharacterStatistics | stex_filing.py:115-138 | stores the map and counts, and total_characters = sum of the map's values |
| Filing.TextFile.AppendLanguageProbabilities | stex_filing.py:140-148 | stores the dict; the most likely language is the first key of maximal value; an empty dict raises after storing it |
| Filing.FirstMaxIndex | stex_filing.py:148 | `max(d, key=d.get)`: the first entry whose value no other exceeds |
| Filing.TextFile.AverageWordsPerLine | stex_filing.py:151-159 | words / lines, 0 when there are no lines |
| Filing.TextFile.AverageCharactersPerWord | stex_filing.py:181-189 | characters / words, 0 when there are no words |
| Filing.TextFile.AverageWordsPerSentence | stex_filing.py:191-203 | 0 for an empty distribution; else sum(length × count) / total_sentences, raising when total_sentences is 0 |
| Filing.SentenceAverageMeaning | stex_filing.py:195-202 | for a stored distribution: its total is the number of sentences, it is empty iff no sentence closed, and sum(length × count) is the number of words in sentences |
| Filing.TextFile.GetOrphanWords | stex_filing.py:205-218 | the words whose count is 1, in dict order |
| Filing.OrphansMeaning | stex_filing.py:213-218 | w is an orphan iff (w, 1) is an entry; orphans are a subsequence of the keys |
| Filing.TextFile.GetUniqueWords | stex_filing.py:220-229 | the keys of the word dict, in order |
| Filing.TextFile.GetCountOfLowercaseAndCapitalizedAscii | stex_filing.py:161-179 | the summed counts of a–z/åäö and of A–Z/ÅÄÖ characters |
| Filing.CaseTotalsPartition | stex_filing.py:170-177 | lowercase + uppercase + caseless counts = total of the map |
| Filing.ClampTop | stex_filing.py:247-248 | `top_n` lowered to the dict size when larger, else unchanged |
| Filing.SliceLength | stex_filing.py:271 | length of `items[:n]`: n when n >= 0, else size + n floored at 0 |
| Filing.MatchingMeaning | stex_filing.py:252-266 | the entries whose key is in the constraint, in dict order |
| Filing.TextFile.GetTopElementsOfDictionary | stex_filing.py:232-272 | without a constraint the slice `items[:n]`; with one, the first min(max(1, n), matches) matching entries |
| Filing.MinKey | stex_filing.py:293-303 | the smallest key, which is one of the keys |
| Filing.MaxKey | stex_filing.py:293-304 | the largest key, which is one of the keys |
| Filing.TextFile.GetWordLengthStatistics | stex_filing.py:274-306 | shortest and longest length are the least and greatest keys; the average × total count = sum(length × count); raises when the counts total 0 |
| Filing.WordLengthAverageMeaning | stex_filing.py:289-300 | for the stored length dict: the counts total the number of cleaned words, and sum(length × count) is their total length |
| HyAnalysis.CalculateBasicStatistics | hy_analysis.py:4-62 | the counts are `HyTotals` of the lines; the averages are words / lines and characters / words, 0 for a zero divisor |
| HyAnalysis.HyTotalsMeaning | hy_analysis.py:30-48 | lines = number of lines; spaces = literal `' '` count; words = lines + spaces; characters + spaces = stripped length; words >= lines |
| HyAnalysis.AsTuple | hy_analysis.py:55-62 | the result tuple has the six elements `HyTracked.HyTextFile.AppendBasicStatistics` accepts, in its documented order |
| HyTracked.HyAdmission | hy_tracked_textfiles.py:22-27 | existence first (FileNotFoundError), then the case-insensitive `.txt` check (ValueError) |
| HyTracked.HyTextFile.constructor | hy_tracked_textfiles.py:28-29 | stores the path and its basename |
| HyTracked.HyTextFile.Open | hy_tracked_textfiles.py:22-29 | raises what `HyAdmission` raises, else a new file record |
| HyTracked.HyTextFile.AppendBasicStatistics | hy_tracked_textfiles.py:31-62 | a tuple whose length is not 6 raises and changes nothing; else stores the six values and characters + spaces |
| HyTracked.HyFileInventory.constructor | hy_tracked_textfiles.py:71-73 | starts empty |
| HyTracked.HyFileInventory.AddFile | hy_tracked_textfiles.py:75-80 | appends exactly the new record (the path, its basename, no statistics) at the end and returns it; on a raise the inventory is unchanged |
| Strings.Ratio | stex_filing.py:157 | `a / b if b != 0 else 0`: 0 for b = 0, else q × b = a |
| Strings.SplitShape | stex_analysis.py:57 | `split()` tokens are non-empty and hold no whitespace |
| Strings.SplitLengths | stex_analysis.py:66 | the tokens' lengths sum to the number of non-whitespace characters |
| Strings.RStripNewlines | stex_analysis.py:52 | a prefix of the line with no trailing `'\n'` |
| Strings.RStripNewlinesSplit | stex_analysis.py:52-57 | stripping the line feeds does not change `split()` |
| Strings.SplitOnCount | hy_analysis.py:37-41 | `split(' ')` gives one piece more than there are spaces, and the pieces hold every other character |
| Strings.JoinSplitOn | hy_analysis.py:37 | joining the pieces of `split(sep)` with sep gives back the string |
| Strings.SplitOnJoin | stex_analysis.py:219-220 | splitting a join of separator-free pieces gives back the pieces |
| Strings.SplitOnPieces | stex_tui.py:25 | no piece of `split(sep)` contains sep |
| Strings.SplitOnTerminated | stex_tui.py:101-104 | lines each followed by `'\n'` split back into the lines and one empty remainder |
| Strings.JoinLength | stex_pretty.py:376-378 | a join is as long as its pieces plus one separator between each two |
| Strings.Lower | stex_analysis.py:124 | lowercasing keeps the length |
| Strings.Repeat | stex_pretty.py:381 | `c * n`: n copies of c, empty for n <= 0 |
| Strings.Aligned | stex_pretty.py:320 | an aligned field is max(len, width) long |
| Strings.AlignedShape | stex_pretty.py:377 | the text sits at offset 0 (`<`), width − len (`>`) or (width − len) // 2 (`^`), with spaces elsewhere |
| Strings.Digits | stex_pretty.py:335 | at least one character, every one a decimal digit |
| Strings.DigitsMeaning | stex_pretty.py:335 | the digits denote the number (`DigitsValue`), and only 0 is written with a leading zero |
| Strings.BasenameMeaning | stex_filing.py:55 | `os.path.basename`: the longest suffix of the path without a `'/'` (the whole path when it has none) |
| Tables.WidenMeaning | stex_pretty.py:369-373 | a widened column is at least its start width and at least every non-empty cell, and equals the start width or one cell's length |
| Tables.WidenIdempotent | stex_pretty.py:369-373 | widening again over the same rows changes nothing |
| Tables.WidenSpecs | stex_pretty.py:369-373 | every column widened over the rows; names and alignments unchanged |
| Tables.WidenedFits | stex_pretty.py:344-373 | columns starting at their header length end up fitting the header and every cell |
| Tables.Pad | stex_pretty.py:377 | a cell is the padded text with one space on either side |
| Tables.HeaderCells | stex_pretty.py:376-378 | one padded header cell per column, in column order |
| Tables.RowCells | stex_pretty.py:386-389 | one padded cell per column, the row's value looked up by column name |
| Tables.BodyLines | stex_pretty.py:384-390 | one framed line per row, in row order |
| Tables.FramedLength | stex_pretty.py:376-378 | a framed line of fitting cells has the common line width |
| Tables.LinesShareLength | stex_pretty.py:376-390 | in a fitting table the header and all row lines have the same length |
| Tables.MissingKeyIsBlank | stex_pretty.py:387 | a row without a column's key shows a blank cell of the column's width |
| Tables.PadShowsText | stex_pretty.py:387 | the cell shows the text unchanged at its alignment offset, spaces elsewhere |
| Tables.Column.constructor | stex_pretty.py:341-344 | a column starts as wide as its name |
| Tables.Column.WidenTo | stex_pretty.py:370-373 | the inner width loop: the width becomes `Widen` of the old width over the rows |
| Tables.Specs | stex_pretty.py:376-389 | the columns' names, alignments and current widths |
| Tables.WidenColumns | stex_pretty.py:369-373 | every column's new width is `Widen` of its old width, even when the same column appears twice |
| Pretty.FormatNumberMeaning | stex_pretty.py:324-335 | `f"{n:,}"` without its commas is `str(n)`; a negative number is `-` and its absolute value; the first group has 1 to 3 digits, the others exactly 3 |
| Pretty.GroupRemoveCommas | stex_pretty.py:335 | grouping only inserts commas |
| Pretty.GroupPieces | stex_pretty.py:335 | the groups between commas have 1 to 3 digits first and exactly 3 after |
| Pretty.DictLines | stex_pretty.py:316-320 | one line per entry, in order |
| Pretty.FormatDictionary | stex_pretty.py:298-322 | the concatenation of one listing line per entry, in order |
| Pretty.DictLineShape | stex_pretty.py:318-320 | a listing line: the title padded to at least 30, `": "`, the value (ints grouped) right-aligned in at least 10, `'\n'` |
| Pretty.PrettyLinesShape | stex_pretty.py:376-392 | a fitting table has len(rows) + 4 lines of equal length: divider, header, divider, rows in order, divider, with the divider `'═'` × the header length |
| Pretty.RenderTable | stex_pretty.py:375-394 | the lines of `PrettyLines` joined with `'\n'` |
| Pretty.GenTable | stex_pretty.py:355-394 | widens the columns in place (`WidenSpecs` of the old columns), keeps header-fitting columns fitting, and returns the rendered table |
| Pretty.CreateWordRow | stex_pretty.py:396-416 | rank and word unchanged; occurrences grouped with `" times"`; the given percentage text |
| Pretty.CreateSentenceRow | stex_pretty.py:418-436 | rank and length unchanged; occurrences grouped with `" times"` |
| Pretty.CreateCharacterRow | stex_pretty.py:438-457 | type unchanged; occurrences grouped with `" times"`; the given percentage text |
| Pretty.RankWordRows | stex_pretty.py:167-178 | rank i + 1 for the i-th top entry, in dict order; raises on the first entry when the word total is 0 |
| Pretty.RankLetterRows | stex_pretty.py:232-241 | as the word ranks, for letters, dividing by the letter count |
| Pretty.RankSentenceRows | stex_pretty.py:206-213 | rank i + 1 for the i-th top length, in dict order |
| Pretty.CharacterRows | stex_pretty.py:114-132 | one character row per statistic, in order |
| Pretty.CharacterRowsOf | stex_pretty.py:112-132 | the rows of a statistics dict, raising when the total is 0 |
| Pretty.RenderSharedTables | stex_pretty.py:106-136 | both tables rendered with the same three column objects, the second from the widths the first left |
| Pretty.FetchCharacterTypeDistributionTable | stex_pretty.py:83-136 | a file without character statistics raises; a zero character or casing total raises; else the type table, `'\n'`, and the casing table |
| Pretty.ReusedColumnsFitBoth | stex_pretty.py:134-135 | reused columns never narrow and, after the second table, fit the rows of both |
| HyTables.HyLinesShape | hy_tables.py:49-65 | a fitting table has len(rows) + 2 lines of equal length: header, `'-'` divider, rows in order; no top or bottom divider |
| HyTables.RenderHyTable | hy_tables.py:48-67 | the lines of `HyLines` joined with `'\n'` |
| HyTables.GenTable | hy_tables.py:30-67 | widens the columns in place, keeps header-fitting columns fitting, returns the rendered table |
| Tui.LongestMeaning | stex_tui.py:28-31 | the longest length bounds every line and is one of them |
| Tui.LengthOfLongest | stex_tui.py:27-31 | the running maximum is the longest line length |
| Tui.FramedLines | stex_tui.py:41-42 | one framed row per line, in line order |
| Tui.BoxRows | stex_tui.py:37-43 | the box has two lines more than the text: the borders around the framed rows |
| Tui.AppendFramedLines | stex_tui.py:41-42 | the second loop appends exactly the framed rows, each followed by `'\n'` |
| Tui.GenerateStylizedContentBox | stex_tui.py:9-45 | the box `ContentBox` of the text's `'\n'`-separated lines |
| Tui.ContentBoxShape | stex_tui.py:25-43 | with padding >= 0: len(split) + 2 lines, each `width + 2` long and ending in `'\n'`, width = longest + 2 × padding |
| Tui.BoxRowShape | stex_tui.py:42 | a framed row is `'║'`, padding spaces, the text unchanged, fill spaces, `'║'` |
| Tui.GetLoadedFileNames | stex_tui.py:47-61 | None for an empty inventory, else the short names in inventory order |
| Tui.StripComments | stex_tui.py:100-106 | the non-comment lines each followed by `'\n'` |
| Tui.KeptLinesMeaning | stex_tui.py:101-104 | the kept lines are, in order, exactly the lines that are empty or do not start with `'#'`, each as often as in the template |
| Tui.StripCommentsLines | stex_tui.py:101-104 | the filtered text splits back into the kept lines |
| StexMain.NormalizeUserInput | stex_main.py:64-81 | None iff the input is empty; else the first character, lowercased, as a one-character string |
| StexMain.PrepareToRequestResult | stex_main.py:230-247 | an empty inventory raises ValueError; a single file is chosen directly; a larger inventory goes to the prompt |
| StexMain.IndexOf | stex_main.py:252 | the first position of the file in the list |
| StexMain.RemoveFirstMeaning | stex_main.py:252 | `list.remove` drops only the first occurrence: the rest keeps its order, one copy leaves |
| StexMain.Inventory.constructor | stex_main.py:302 | starts empty |
| StexMain.Inventory.UnloadFile | stex_main.py:249-256 | a loaded file is removed (first occurrence) with the success message; otherwise the inventory is unchanged and the error message returned |

## Left out

- Trigram fingerprints, language ranking and cosine similarity: their implementations are not part of this model. Only storing the probabilities (`append_language_probabilities`) is modelled.
- File I/O: the model takes the file's lines as given. This covers opening files, `errors='replace'` decoding, `read_resource_file`, and the 512-character UTF-8 sample read (reduced to its outcome `sampleDecodes`). `os.path.exists` is a boolean parameter of the admission checks. The `os.path.isfile` check of `get_prompt_file_contents` and its `FileNotFoundError` are left out with the rest of that function's file reading; `Tui.StripComments` takes the text already read.
- Filing.TextFile.AppendWordFrequencyStatistics, Filing.TextFile.AppendSentenceStatistics, Filing.TextFile.AppendCharacterStatistics: these take typed records, so the `ValueError` that tuple unpacking raises on a tuple of the wrong length is not modelled; every caller passes the fixed tuple its `invoke_*` function returns.
- Float arithmetic: `round(..., n)` in the averages and `np.average` are left out; averages are exact quotients. `Filing.TextFile.GetWordLengthStatistics` states the average through average × total = weighted sum.
- Percentages: the `5.2f` percentage texts of the table rows are the parameter `formatPercentage`. Only the division by zero is modelled.
- Filing.TextFile.GetCountOfLowercaseAndCapitalizedAscii: the code tests `islower()`/`isupper()` before set membership. For the 58 letters of its two sets these tests always agree with membership, so only the membership tests are modelled.
- `fetch_basic_statistics`, `fetch_word_length_statistics`, `fetch_sentence_statistics`: only their format-dictionary core (`FormatDictionary`) is modelled; their values involve rounded floats.
- `fetch_word_frequency_table`, `fetch_sentence_length_distribution_table` and `fetch_common_letters_list` are modelled through their rank loops (`RankWordRows`, `RankSentenceRows`, `RankLetterRows`) and `GenTable`. The calls that join them are not repeated.
- `fetch_language_guess_table`, `_create_language_row` and `fetch_similarity_two_files` format floats only.
- `str.lower()`: modelled for ASCII and Latin-1 letters only. Other Unicode case mappings, including ones that change the length, are left out. `str.split()` uses Python's whitespace set; `re.sub` is the filter to `VALID_CHARS`.
- Interactive prompts and menus: `load_file_prompt`, `save_file_prompt`, `select_file_prompt`, `list_text_files`, `print_menu_prompt`, `menu_loop`, `execute`, `_analyze_all`, and the prompt branch of `_prepare_to_request_result`.
- Other modules: stex_plotting.py (matplotlib) and the JSON exporters stex_json.py and hy_fetch_json.py are not modelled. stex_exceptions.py only defines an exception class. trigram_sample_generator.py is not part of this model.
- Exceptions raised inside an analysis loop are re-raised unchanged. Such I/O failures are outside the model.
