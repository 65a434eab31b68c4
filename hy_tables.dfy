/**
 * The table builder of hy_tables.py: the same width computation as stex_pretty.py over the
 * shared `Column` class, drawn with `'|'` bars and a `'-'` divider under the header only.
 * Its `create_word_row` builds exactly the row `Pretty.CreateWordRow` builds.
 */
module HyTables {
  import opened Strings
  import opened Tables

  /** header, divider, one line per row; no top or bottom divider. */
  function HyLines(specs: seq<ColumnSpec>, rows: seq<Row>): seq<string> {
    var header := Framed(HeaderCells(specs), '|');
    [header, Repeat('-', |header|)] + BodyLines(specs, rows, '|')
  }

  /**
   * A fitting table has `len(rows) + 2` lines of one common length: the header, a divider
   * of dashes, and the row lines in row order.
   */
  lemma HyLinesShape(specs: seq<ColumnSpec>, rows: seq<Row>)
    requires Fits(specs, rows)
    ensures var lines := HyLines(specs, rows);
      && |lines| == |rows| + 2
      && (forall i :: 0 <= i < |lines| ==> |lines[i]| == LineWidth(specs))
      && lines[0] == Framed(HeaderCells(specs), '|')
      && lines[1] == Repeat('-', LineWidth(specs))
      && (forall i :: 0 <= i < |rows| ==> lines[2 + i] == Framed(RowCells(specs, rows[i]), '|'))
  {
    LinesShareLength(specs, rows, '|');
    var header := Framed(HeaderCells(specs), '|');
    DividedLinesShape(header, Repeat('-', |header|), BodyLines(specs, rows, '|'), LineWidth(specs));
  }

  /** Header, divider, body: the positions and widths of the lines. */
  lemma DividedLinesShape(header: string, divider: string, body: seq<string>, width: int)
    requires |divider| == width && |header| == width
    requires forall i :: 0 <= i < |body| ==> |body[i]| == width
    ensures var lines := [header, divider] + body;
      && |lines| == |body| + 2
      && (forall i :: 0 <= i < |lines| ==> |lines[i]| == width)
      && lines[0] == header && lines[1] == divider
      && (forall i :: 0 <= i < |body| ==> lines[2 + i] == body[i])
  {
    var lines := [header, divider] + body;
    forall i | 0 <= i < |lines|
      ensures |lines[i]| == width
    {
      if 2 <= i {
        assert lines[i] == body[i - 2];
      }
    }
  }

  /** The line-building half of gen_table. */
  method RenderHyTable(specs: seq<ColumnSpec>, rows: seq<Row>) returns (table: string)
    ensures table == Join(HyLines(specs, rows), "\n")
  {
    var header := Framed(HeaderCells(specs), '|');
    var divider := Repeat('-', |header|);
    var bodyLines: seq<string> := [];
    for r := 0 to |rows|
      invariant bodyLines == BodyLines(specs, rows[..r], '|')
    {
      bodyLines := bodyLines + [Framed(RowCells(specs, rows[r]), '|')];
    }
    assert rows[..|rows|] == rows;
    table := Join([header, divider] + bodyLines, "\n");
  }

  /** gen_table: widens the columns in place, then renders them. */
  method GenTable(columns: seq<Column>, rows: seq<Row>) returns (table: string)
    modifies set k | 0 <= k < |columns| :: columns[k]
    ensures Specs(columns) == WidenSpecs(old(Specs(columns)), rows)
    ensures (forall k :: 0 <= k < |columns| ==> old(columns[k].Valid())) ==>
              (forall k :: 0 <= k < |columns| ==> columns[k].Valid()) && Fits(Specs(columns), rows)
    ensures table == Join(HyLines(Specs(columns), rows), "\n")
  {
    ghost var before := Specs(columns);
    WidenColumns(columns, rows);
    var specs := Specs(columns);
    assert specs == WidenSpecs(before, rows);
    if forall k :: 0 <= k < |columns| ==> old(columns[k].Valid()) {
      WidenedFits(before, rows);
    }
    table := RenderHyTable(specs, rows);
  }
}
