/**
 * The human-readable renderers of stex_pretty.py: thousands grouping, the aligned
 * title/value listing, the framed table builder with its mutable `Column` widths, the row
 * builders and the rank loops of the table fetchers. Percentages are floats formatted with
 * `5.2f`; their text is supplied by a `formatPercentage(count, total)` parameter, while the
 * division by zero it would raise is kept.
 */
module Pretty {
  import opened Outcomes
  import opened Strings
  import opened OrderedCounts
  import opened Tables
  import Filing

  // ---------------------------------------------------------------------------
  // _format_number
  // ---------------------------------------------------------------------------

  /** Commas between groups of three digits, counted from the right. */
  function Group(ds: string): string
    decreases |ds|
  {
    if |ds| <= 3 then ds else Group(ds[..|ds| - 3]) + "," + ds[|ds| - 3..]
  }

  /** `f"{number:,}"` */
  function FormatNumber(n: int): string {
    if n < 0 then "-" + Group(Digits(-n)) else Group(Digits(n))
  }

  lemma {:induction false} GroupRemoveCommas(ds: string)
    requires ',' !in ds
    ensures RemoveChar(Group(ds), ',') == ds
    decreases |ds|
  {
    if |ds| <= 3 {
      RemoveCharAbsent(ds, ',');
    } else {
      var p, t := ds[..|ds| - 3], ds[|ds| - 3..];
      assert ',' !in p && ',' !in t;
      GroupRemoveCommas(p);
      var gp := Group(p);
      assert Group(ds) == gp + [','] + t;
      RemoveSeparatorStep(gp, t, ',');
      assert ds == p + t;
    }
  }

  /** Removing `c` from `a`, then `c`, then a `c`-free `b` keeps `b` whole. */
  lemma {:induction false} RemoveSeparatorStep(a: string, b: string, c: char)
    requires c !in b
    ensures RemoveChar(a + [c] + b, c) == RemoveChar(a, c) + b
  {
    var t := [c] + b;
    assert a + [c] + b == a + t;
    RemoveCharConcat(a, t, c);
    assert t[0] == c && t[1..] == b;
    RemoveCharAbsent(b, c);
  }

  /** The comma-separated groups: the first holds 1 to 3 digits, every later one exactly 3. */
  lemma {:induction false} GroupPieces(ds: string)
    requires ds != [] && ',' !in ds
    ensures var g := SplitOn(Group(ds), ',');
      && 1 <= |g[0]| <= 3
      && (forall i :: 1 <= i < |g| ==> |g[i]| == 3)
      && Join(g, "") == ds
    decreases |ds|
  {
    if |ds| <= 3 {
      SplitOnNoSep(ds, ',');
    } else {
      var p, t := ds[..|ds| - 3], ds[|ds| - 3..];
      assert ',' !in p && ',' !in t;
      GroupPieces(p);
      SplitOnConcat(Group(p), t, ',');
      SplitOnNoSep(t, ',');
      assert Group(ds) == Group(p) + [','] + t;
      var gp := SplitOn(Group(p), ',');
      JoinAppend(gp, t);
      assert ds == p + t;
    }
  }

  lemma {:induction false} JoinAppend(xs: seq<string>, t: string)
    requires xs != []
    ensures Join(xs + [t], "") == Join(xs, "") + t
    decreases |xs|
  {
    if |xs| > 1 {
      JoinAppend(xs[1..], t);
      assert (xs + [t])[1..] == xs[1..] + [t];
    }
  }

  lemma DigitsNoComma(n: nat)
    ensures ',' !in Digits(n) && Digits(n) != []
  {
    var ds := Digits(n);
    assert forall i :: 0 <= i < |ds| ==> ds[i] != ',';
  }

  /**
   * With its commas removed, `f"{n:,}"` is `str(n)`; a negative number is its absolute value
   * with a leading minus sign; the digit groups have the shape of GroupPieces.
   */
  lemma FormatNumberMeaning(n: int)
    ensures RemoveChar(FormatNumber(n), ',') == IntToString(n)
    ensures n < 0 ==> FormatNumber(n) == "-" + FormatNumber(-n)
    ensures n >= 0 ==>
      var g := SplitOn(FormatNumber(n), ',');
      1 <= |g[0]| <= 3 && (forall i :: 1 <= i < |g| ==> |g[i]| == 3) && Join(g, "") == Digits(n)
  {
    var m := if n < 0 then -n else n;
    DigitsNoComma(m);
    GroupRemoveCommas(Digits(m));
    GroupPieces(Digits(m));
    if n < 0 {
      RemoveCharConcat("-", Group(Digits(m)), ',');
    }
  }

  // ---------------------------------------------------------------------------
  // _format_dictionary
  // ---------------------------------------------------------------------------

  /** The value as listed: integers with thousands grouping, anything else as its text. */
  function DisplayValue(v: Cell): string {
    match v
    case IntCell(n) => FormatNumber(n)
    case TextCell(s) => s
  }

  /** `f'{title:<30}: {value:>10}' + '\n'` */
  function DictLine(title: string, value: Cell): string {
    Aligned(title, Left, 30) + ": " + Aligned(DisplayValue(value), Right, 10) + "\n"
  }

  function DictLines(d: seq<Entry<string, Cell>>): (r: seq<string>)
    ensures |r| == |d| && forall i :: 0 <= i < |d| ==> r[i] == DictLine(d[i].key, d[i].value)
  {
    seq(|d|, i requires 0 <= i < |d| => DictLine(d[i].key, d[i].value))
  }

  function Concat(xs: seq<string>): string {
    if xs == [] then [] else Concat(xs[..|xs| - 1]) + xs[|xs| - 1]
  }

  method FormatDictionary(dictionary: seq<Entry<string, Cell>>) returns (result: string)
    ensures result == Concat(DictLines(dictionary))
  {
    result := "";
    for i := 0 to |dictionary|
      invariant result == Concat(DictLines(dictionary[..i]))
    {
      var title, value := dictionary[i].key, dictionary[i].value;
      result := result + DictLine(title, value);
      assert DictLines(dictionary[..i + 1])[..i] == DictLines(dictionary[..i]);
    }
    assert dictionary[..|dictionary|] == dictionary;
  }

  /**
   * One listing line: the title left-aligned in at least 30 columns, `": "`, the value
   * right-aligned in at least 10 columns, and a line feed.
   */
  lemma DictLineShape(title: string, value: Cell)
    ensures var l, v := DictLine(title, value), DisplayValue(value);
      var t := Max(|title|, 30);
      && |l| == t + 2 + Max(|v|, 10) + 1
      && l[..|title|] == title
      && (forall i :: |title| <= i < t ==> l[i] == ' ')
      && l[t..t + 2] == ": "
      && (forall i :: t + 2 <= i < |l| - 1 - |v| ==> l[i] == ' ')
      && l[|l| - 1 - |v|..|l| - 1] == v
      && l[|l| - 1] == '\n'
  {
    var v := DisplayValue(value);
    var a, b := Aligned(title, Left, 30), Aligned(v, Right, 10);
    AlignedShape(title, Left, 30);
    AlignedShape(v, Right, 10);
    var l := DictLine(title, value);
    assert l == a + ": " + b + "\n";
    assert forall i :: 0 <= i < |a| ==> l[i] == a[i];
    assert forall i :: 0 <= i < |b| ==> l[|a| + 2 + i] == b[i];
  }

  // ---------------------------------------------------------------------------
  // _gen_table
  // ---------------------------------------------------------------------------

  /** divider, header, divider, one line per row, divider. */
  function PrettyLines(specs: seq<ColumnSpec>, rows: seq<Row>): seq<string> {
    var header := Framed(HeaderCells(specs), '║');
    var divider := Repeat('═', |header|);
    [divider, header, divider] + BodyLines(specs, rows, '║') + [divider]
  }

  /**
   * A fitting table has `len(rows) + 4` lines of one common length: three copies of the
   * divider around the header and the rows, the header, and the row lines in row order.
   */
  lemma PrettyLinesShape(specs: seq<ColumnSpec>, rows: seq<Row>)
    requires Fits(specs, rows)
    ensures var lines := PrettyLines(specs, rows);
      && |lines| == |rows| + 4
      && (forall i :: 0 <= i < |lines| ==> |lines[i]| == LineWidth(specs))
      && lines[0] == lines[2] == lines[|lines| - 1] == Repeat('═', LineWidth(specs))
      && lines[1] == Framed(HeaderCells(specs), '║')
      && (forall i :: 0 <= i < |rows| ==> lines[3 + i] == Framed(RowCells(specs, rows[i]), '║'))
  {
    LinesShareLength(specs, rows, '║');
    var header := Framed(HeaderCells(specs), '║');
    FramedLinesShape(Repeat('═', |header|), header, BodyLines(specs, rows, '║'), LineWidth(specs));
  }

  /** Divider, header, divider, body, divider: the positions and widths of the lines. */
  lemma FramedLinesShape(divider: string, header: string, body: seq<string>, width: int)
    requires |divider| == width && |header| == width
    requires forall i :: 0 <= i < |body| ==> |body[i]| == width
    ensures var lines := [divider, header, divider] + body + [divider];
      && |lines| == |body| + 4
      && (forall i :: 0 <= i < |lines| ==> |lines[i]| == width)
      && lines[0] == lines[2] == lines[|lines| - 1] == divider && lines[1] == header
      && (forall i :: 0 <= i < |body| ==> lines[3 + i] == body[i])
  {
    var lines := [divider, header, divider] + body + [divider];
    forall i | 0 <= i < |lines|
      ensures |lines[i]| == width
    {
      if 3 <= i < |lines| - 1 {
        assert lines[i] == body[i - 3];
      }
    }
  }

  /** The line-building half of _gen_table, once the widths are settled. */
  method RenderTable(specs: seq<ColumnSpec>, rows: seq<Row>) returns (table: string)
    ensures table == Join(PrettyLines(specs, rows), "\n")
  {
    var header := Framed(HeaderCells(specs), '║');
    var divider := Repeat('═', |header|);
    var bodyLines: seq<string> := [];
    for r := 0 to |rows|
      invariant bodyLines == BodyLines(specs, rows[..r], '║')
    {
      bodyLines := bodyLines + [Framed(RowCells(specs, rows[r]), '║')];
    }
    assert rows[..|rows|] == rows;
    table := Join([divider, header, divider] + bodyLines + [divider], "\n");
  }

  /**
   * Widens every column to fit its cells (columns are updated in place, so a column reused
   * for another table keeps its width), then renders the table. Columns whose headers fit
   * keep fitting, and then fit every cell too.
   */
  method GenTable(columns: seq<Column>, rows: seq<Row>) returns (table: string)
    modifies set k | 0 <= k < |columns| :: columns[k]
    ensures Specs(columns) == WidenSpecs(old(Specs(columns)), rows)
    ensures (forall k :: 0 <= k < |columns| ==> old(columns[k].Valid())) ==>
              (forall k :: 0 <= k < |columns| ==> columns[k].Valid()) && Fits(Specs(columns), rows)
    ensures table == Join(PrettyLines(Specs(columns), rows), "\n")
  {
    ghost var before := Specs(columns);
    WidenColumns(columns, rows);
    var specs := Specs(columns);
    assert specs == WidenSpecs(before, rows);
    if forall k :: 0 <= k < |columns| ==> old(columns[k].Valid()) {
      WidenedFits(before, rows);
    }
    table := RenderTable(specs, rows);
  }

  // ---------------------------------------------------------------------------
  // Row builders and the rank loops of the fetch_*_table functions
  // ---------------------------------------------------------------------------

  /** `_create_word_row`: rank and word as given, occurrences grouped with " times" appended. */
  function CreateWordRow(rank: int, word: string, occurrences: int, percentage: string): (r: Row)
    ensures r.valuePair.Keys == {"Rank", "Word", "Occurrences", "Percentage"}
    ensures Lookup(r, "Rank") == IntToString(rank) && Lookup(r, "Word") == word
    ensures Lookup(r, "Occurrences") == FormatNumber(occurrences) + " times"
    ensures Lookup(r, "Percentage") == percentage
  {
    Row(map["Rank" := IntCell(rank), "Word" := TextCell(word),
            "Occurrences" := TextCell(FormatNumber(occurrences) + " times"), "Percentage" := TextCell(percentage)])
  }

  /** `_create_sentence_row` */
  function CreateSentenceRow(rank: int, length: int, occurrences: int): (r: Row)
    ensures r.valuePair.Keys == {"Rank", "Amount of Words", "Count of Sentences"}
    ensures Lookup(r, "Rank") == IntToString(rank) && Lookup(r, "Amount of Words") == IntToString(length)
    ensures Lookup(r, "Count of Sentences") == FormatNumber(occurrences) + " times"
  {
    Row(map["Rank" := IntCell(rank), "Amount of Words" := IntCell(length),
            "Count of Sentences" := TextCell(FormatNumber(occurrences) + " times")])
  }

  /** `_create_character_row` */
  function CreateCharacterRow(charType: string, occurrences: int, percentage: string): (r: Row)
    ensures r.valuePair.Keys == {"Type", "Occurrences", "Percentage"}
    ensures Lookup(r, "Type") == charType && Lookup(r, "Occurrences") == FormatNumber(occurrences) + " times"
    ensures Lookup(r, "Percentage") == percentage
  {
    Row(map["Type" := TextCell(charType), "Occurrences" := TextCell(FormatNumber(occurrences) + " times"),
            "Percentage" := TextCell(percentage)])
  }

  /**
   * The loop of fetch_word_frequency_table: ranks 1, 2, ... in the order of the top-N dict;
   * the percentage divides by `total`, which raises on the first entry when `total` is 0.
   */
  method RankWordRows(top: Counts<string>, total: int, formatPercentage: (int, int) -> string)
    returns (r: Result<seq<Row>, Failure>)
    ensures total == 0 && top != [] ==> r == Err(DivisionByZero)
    ensures total != 0 || top == [] ==>
              r.Ok? && |r.value| == |top|
              && forall i :: 0 <= i < |top| ==>
                   r.value[i] == CreateWordRow(i + 1, top[i].key, top[i].value, formatPercentage(top[i].value, total))
  {
    var rows: seq<Row> := [];
    for i := 0 to |top|
      invariant total == 0 ==> i == 0
      invariant |rows| == i
      invariant forall j :: 0 <= j < i ==>
                  rows[j] == CreateWordRow(j + 1, top[j].key, top[j].value, formatPercentage(top[j].value, total))
    {
      var rank, word, count := i + 1, top[i].key, top[i].value;
      if total == 0 {
        return Err(DivisionByZero);
      }
      var percentage := formatPercentage(count, total);
      rows := rows + [CreateWordRow(rank, word, count, percentage)];
    }
    r := Ok(rows);
  }

  /** The loop of fetch_common_letters_list: as RankWordRows, each letter shown as a one-character word. */
  method RankLetterRows(top: Counts<char>, totalLetters: int, formatPercentage: (int, int) -> string)
    returns (r: Result<seq<Row>, Failure>)
    ensures totalLetters == 0 && top != [] ==> r == Err(DivisionByZero)
    ensures totalLetters != 0 || top == [] ==>
              r.Ok? && |r.value| == |top|
              && forall i :: 0 <= i < |top| ==>
                   r.value[i] == CreateWordRow(i + 1, [top[i].key], top[i].value, formatPercentage(top[i].value, totalLetters))
  {
    var rows: seq<Row> := [];
    for i := 0 to |top|
      invariant totalLetters == 0 ==> i == 0
      invariant |rows| == i
      invariant forall j :: 0 <= j < i ==>
                  rows[j] == CreateWordRow(j + 1, [top[j].key], top[j].value, formatPercentage(top[j].value, totalLetters))
    {
      var rank, letter, count := i + 1, top[i].key, top[i].value;
      if totalLetters == 0 {
        return Err(DivisionByZero);
      }
      var percentage := formatPercentage(count, totalLetters);
      rows := rows + [CreateWordRow(rank, [letter], count, percentage)];
    }
    r := Ok(rows);
  }

  /** The loop of fetch_sentence_length_distribution_table: ranks 1, 2, ... in dict order. */
  method RankSentenceRows(top: Counts<int>) returns (rows: seq<Row>)
    ensures |rows| == |top|
    ensures forall i :: 0 <= i < |top| ==> rows[i] == CreateSentenceRow(i + 1, top[i].key, top[i].value)
  {
    rows := [];
    for i := 0 to |top|
      invariant |rows| == i
      invariant forall j :: 0 <= j < i ==> rows[j] == CreateSentenceRow(j + 1, top[j].key, top[j].value)
    {
      var rank, length, count := i + 1, top[i].key, top[i].value;
      rows := rows + [CreateSentenceRow(rank, length, count)];
    }
  }

  /** The rows of a character-type table for `stats`, each percentage taken of `total`. */
  function CharacterRows(stats: seq<Entry<string, int>>, total: int, formatPercentage: (int, int) -> string): (r: seq<Row>)
    ensures |r| == |stats|
  {
    seq(|stats|, i requires 0 <= i < |stats| =>
      CreateCharacterRow(stats[i].key, stats[i].value, formatPercentage(stats[i].value, total)))
  }

  method CharacterRowsOf(stats: seq<Entry<string, int>>, total: int, formatPercentage: (int, int) -> string)
    returns (r: Result<seq<Row>, Failure>)
    ensures r == if total == 0 && stats != [] then Err(DivisionByZero) else Ok(CharacterRows(stats, total, formatPercentage))
  {
    var rows: seq<Row> := [];
    for i := 0 to |stats|
      invariant total == 0 ==> i == 0
      invariant rows == CharacterRows(stats[..i], total, formatPercentage)
    {
      var charType, occurrences := stats[i].key, stats[i].value;
      if total == 0 {
        return Err(DivisionByZero);
      }
      var percentage := formatPercentage(occurrences, total);
      rows := rows + [CreateCharacterRow(charType, occurrences, percentage)];
    }
    assert stats[..|stats|] == stats;
    r := Ok(rows);
  }

  /** The two row sets of fetch_character_type_distribution_table. */
  function TypeStats(c: Filing.CharacterRecord): seq<Entry<string, int>> {
    [Entry("Letters", c.letterCount), Entry("Digits", c.digitCount), Entry("Spaces", c.spaceCount),
     Entry("Punctuation", c.punctuationCount), Entry("Other", c.otherCount)]
  }

  function CasingStats(lower: int, upper: int): seq<Entry<string, int>> {
    [Entry("Uppercase", upper), Entry("Lowercase", lower)]
  }

  /** The column set of the character-type tables, with the given widths. */
  function CharacterColumns(wType: int, wOccurrences: int, wPercentage: int): seq<ColumnSpec> {
    [ColumnSpec("Type", Left, wType), ColumnSpec("Occurrences", Right, wOccurrences),
     ColumnSpec("Percentage", Right, wPercentage)]
  }

  /**
   * Two tables rendered with the same Type/Occurrences/Percentage columns: the second starts
   * from the widths the first left behind.
   */
  function SharedTables(rowsA: seq<Row>, rowsB: seq<Row>): string {
    var specsA := WidenSpecs(CharacterColumns(4, 11, 10), rowsA);
    var specsB := WidenSpecs(specsA, rowsB);
    Join(PrettyLines(specsA, rowsA), "\n") + "\n" + Join(PrettyLines(specsB, rowsB), "\n")
  }

  /** The last three lines of fetch_character_type_distribution_table, one column set for both tables. */
  method RenderSharedTables(rowsA: seq<Row>, rowsB: seq<Row>) returns (t: string)
    ensures t == SharedTables(rowsA, rowsB)
  {
    var typeColumn := new Column("Type", Left);
    var occurrencesColumn := new Column("Occurrences", Right);
    var percentageColumn := new Column("Percentage", Right);
    var columns := [typeColumn, occurrencesColumn, percentageColumn];
    assert Specs(columns) == CharacterColumns(4, 11, 10);
    var table := GenTable(columns, rowsA);
    var tableB := GenTable(columns, rowsB);
    t := table + "\n" + tableB;
  }

  /** What fetch_character_type_distribution_table returns for a file with these statistics. */
  function CharacterTypeTables(c: Filing.CharacterRecord, lower: int, upper: int, formatPercentage: (int, int) -> string)
    : Result<string, Failure>
  {
    if c.totalCharacters == 0 || lower + upper == 0 then Err(DivisionByZero)
    else
      Ok(SharedTables(CharacterRows(TypeStats(c), c.totalCharacters, formatPercentage),
                      CharacterRows(CasingStats(lower, upper), lower + upper, formatPercentage)))
  }

  /** Unfolds the success case of `CharacterTypeTables` in a small context of its own. */
  lemma CharacterTypeTablesOk(c: Filing.CharacterRecord, lower: int, upper: int, formatPercentage: (int, int) -> string)
    requires c.totalCharacters != 0 && lower + upper != 0
    ensures CharacterTypeTables(c, lower, upper, formatPercentage)
      == Ok(SharedTables(CharacterRows(TypeStats(c), c.totalCharacters, formatPercentage),
                         CharacterRows(CasingStats(lower, upper), lower + upper, formatPercentage)))
  {
  }

  /** fetch_character_type_distribution_table: the type table, a line feed, and the casing table. */
  method FetchCharacterTypeDistributionTable(file: Filing.TextFile, formatPercentage: (int, int) -> string)
    returns (r: Result<string, Failure>)
    ensures file.characters.None? ==> r == Err(MissingStatistics)
    ensures file.characters.Some? ==>
      var d := file.characters.value.characterOccurrences;
      r == CharacterTypeTables(file.characters.value, Filing.CaseTotal(d, Filing.Lowercase),
                               Filing.CaseTotal(d, Filing.Uppercase), formatPercentage)
  {
    var casing := file.GetCountOfLowercaseAndCapitalizedAscii();
    if casing.Err? {
      return Err(casing.error);
    }
    var lowercaseCount, uppercaseCount := casing.value.0, casing.value.1;
    var totalAsciiCasing := lowercaseCount + uppercaseCount;
    var c := file.characters.value;
    var rows := CharacterRowsOf(TypeStats(c), c.totalCharacters, formatPercentage);
    if rows.Err? {
      assert c.totalCharacters == 0;
      return Err(rows.error);
    }
    var rowsB := CharacterRowsOf(CasingStats(lowercaseCount, uppercaseCount), totalAsciiCasing, formatPercentage);
    if rowsB.Err? {
      assert totalAsciiCasing == 0;
      return Err(rowsB.error);
    }
    var tables := RenderSharedTables(rows.value, rowsB.value);
    CharacterTypeTablesOk(c, lowercaseCount, uppercaseCount, formatPercentage);
    r := Ok(tables);
  }

  /**
   * A column set reused for a second table ends at least as wide as after the first, and
   * fits the rows of both tables.
   */
  lemma ReusedColumnsFitBoth(specs: seq<ColumnSpec>, rowsA: seq<Row>, rowsB: seq<Row>)
    requires forall k :: 0 <= k < |specs| ==> |specs[k].name| <= specs[k].width
    ensures var a := WidenSpecs(specs, rowsA);
      var b := WidenSpecs(a, rowsB);
      && (forall k :: 0 <= k < |specs| ==> specs[k].width <= a[k].width <= b[k].width)
      && Fits(a, rowsA) && Fits(b, rowsA) && Fits(b, rowsB)
  {
    var a := WidenSpecs(specs, rowsA);
    WidenedFits(specs, rowsA);
    WidenedFits(a, rowsB);
    forall k | 0 <= k < |specs|
      ensures specs[k].width <= a[k].width <= WidenSpecs(a, rowsB)[k].width
    {
      WidenMeaning(specs[k].width, rowsA, specs[k].name);
      WidenMeaning(a[k].width, rowsB, specs[k].name);
    }
  }
}
