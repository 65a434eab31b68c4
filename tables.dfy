/**
 * What the two table builders (`_gen_table` in stex_pretty.py and `gen_table` in
 * hy_tables.py) have in common: rows as dicts from column name to value, the column-width
 * computation, and the framed cell lines. They differ only in their frame characters and in
 * which dividers they put around the lines.
 */
module Tables {
  import opened Strings

  /** A table value: an `int`, or a value whose `str()` is the given text. */
  datatype Cell = IntCell(n: int) | TextCell(s: string)

  /** `str(value)` */
  function CellText(c: Cell): string {
    match c
    case IntCell(n) => IntToString(n)
    case TextCell(s) => s
  }

  /** `Row` / `RowObj`: a dict from column name to value. */
  datatype Row = Row(valuePair: map<string, Cell>)

  /** `str(row.value_pair.get(name, ""))` */
  function Lookup(row: Row, name: string): string {
    if name in row.valuePair then CellText(row.valuePair[name]) else ""
  }

  /** The width of a column after its inner loop over `rows`, starting from `width`. */
  function Widen(width: int, rows: seq<Row>, name: string): int {
    if rows == [] then width
    else
      var w := Widen(width, rows[..|rows| - 1], name);
      var considered := Lookup(rows[|rows| - 1], name);
      if considered != [] then Max(w, |considered|) else w
  }

  /**
   * A widened column is the maximum of its starting width and the lengths of its cells:
   * at least each of them, and equal to one of them.
   */
  lemma {:induction false} WidenMeaning(width: int, rows: seq<Row>, name: string)
    ensures Widen(width, rows, name) >= width
    ensures forall r :: 0 <= r < |rows| && Lookup(rows[r], name) != [] ==> Widen(width, rows, name) >= |Lookup(rows[r], name)|
    ensures Widen(width, rows, name) == width
            || exists r :: 0 <= r < |rows| && Widen(width, rows, name) == |Lookup(rows[r], name)|
    decreases |rows|
  {
    if rows != [] {
      var p := rows[..|rows| - 1];
      WidenMeaning(width, p, name);
      assert forall r :: 0 <= r < |p| ==> p[r] == rows[r];
    }
  }

  /** Widening a column that already fits every cell changes nothing. */
  lemma {:induction false} WidenAbsorbs(width: int, rows: seq<Row>, name: string)
    requires forall r :: 0 <= r < |rows| && Lookup(rows[r], name) != [] ==> |Lookup(rows[r], name)| <= width
    ensures Widen(width, rows, name) == width
    decreases |rows|
  {
    if rows != [] {
      WidenAbsorbs(width, rows[..|rows| - 1], name);
    }
  }

  /** Widening twice with the same rows is widening once, so widths never shrink and are stable. */
  lemma WidenIdempotent(width: int, rows: seq<Row>, name: string)
    ensures Widen(Widen(width, rows, name), rows, name) == Widen(width, rows, name)
  {
    WidenMeaning(width, rows, name);
    WidenAbsorbs(Widen(width, rows, name), rows, name);
  }

  /** A column as the line builders see it once its width is settled. */
  datatype ColumnSpec = ColumnSpec(name: string, align: Align, width: int)

  /** `f" {text:{align}{width}} "` */
  function Pad(text: string, c: ColumnSpec): (r: string)
    ensures |r| == Max(|text|, c.width) + 2
  {
    " " + Aligned(text, c.align, c.width) + " "
  }

  /** Every column widened over `rows`. */
  function WidenSpecs(specs: seq<ColumnSpec>, rows: seq<Row>): (r: seq<ColumnSpec>)
    ensures |r| == |specs|
    ensures forall k :: 0 <= k < |specs| ==>
              r[k] == ColumnSpec(specs[k].name, specs[k].align, Widen(specs[k].width, rows, specs[k].name))
  {
    seq(|specs|, k requires 0 <= k < |specs| =>
      ColumnSpec(specs[k].name, specs[k].align, Widen(specs[k].width, rows, specs[k].name)))
  }

  function HeaderCells(specs: seq<ColumnSpec>): (r: seq<string>)
    ensures |r| == |specs| && forall k :: 0 <= k < |specs| ==> r[k] == Pad(specs[k].name, specs[k])
  {
    seq(|specs|, k requires 0 <= k < |specs| => Pad(specs[k].name, specs[k]))
  }

  function RowCells(specs: seq<ColumnSpec>, row: Row): (r: seq<string>)
    ensures |r| == |specs| && forall k :: 0 <= k < |specs| ==> r[k] == Pad(Lookup(row, specs[k].name), specs[k])
  {
    seq(|specs|, k requires 0 <= k < |specs| => Pad(Lookup(row, specs[k].name), specs[k]))
  }

  /** `bar + bar.join(cells) + bar` */
  function Framed(cells: seq<string>, bar: char): string {
    [bar] + Join(cells, [bar]) + [bar]
  }

  function BodyLines(specs: seq<ColumnSpec>, rows: seq<Row>, bar: char): (r: seq<string>)
    ensures |r| == |rows| && forall i :: 0 <= i < |rows| ==> r[i] == Framed(RowCells(specs, rows[i]), bar)
  {
    seq(|rows|, i requires 0 <= i < |rows| => Framed(RowCells(specs, rows[i]), bar))
  }

  /** Every header name and every cell text fits its column's width. */
  predicate Fits(specs: seq<ColumnSpec>, rows: seq<Row>) {
    && (forall k :: 0 <= k < |specs| ==> |specs[k].name| <= specs[k].width)
    && (forall k, i :: 0 <= k < |specs| && 0 <= i < |rows| ==> |Lookup(rows[i], specs[k].name)| <= specs[k].width)
  }

  /** The widths of the cells of a line, each padded by one space on either side. */
  function CellsWidth(specs: seq<ColumnSpec>): int {
    if specs == [] then 0 else specs[0].width + 2 + CellsWidth(specs[1..])
  }

  /** The length every line of a fitting table has. */
  function LineWidth(specs: seq<ColumnSpec>): int {
    2 + CellsWidth(specs) + (if specs == [] then 0 else |specs| - 1)
  }

  lemma {:induction false} CellsLength(cells: seq<string>, specs: seq<ColumnSpec>)
    requires |cells| == |specs|
    requires forall k :: 0 <= k < |specs| ==> |cells[k]| == specs[k].width + 2
    ensures SumLengths(cells) == CellsWidth(specs)
    decreases |specs|
  {
    if specs != [] {
      CellsLength(cells[1..], specs[1..]);
    }
  }

  /** A line whose cells all fit is `LineWidth(specs)` characters long. */
  lemma FramedLength(cells: seq<string>, specs: seq<ColumnSpec>, bar: char)
    requires |cells| == |specs|
    requires forall k :: 0 <= k < |specs| ==> |cells[k]| == specs[k].width + 2
    ensures |Framed(cells, bar)| == LineWidth(specs)
  {
    JoinLength(cells, [bar]);
    CellsLength(cells, specs);
  }

  /** In a fitting table the header and every row line have the same length. */
  lemma LinesShareLength(specs: seq<ColumnSpec>, rows: seq<Row>, bar: char)
    requires Fits(specs, rows)
    ensures |Framed(HeaderCells(specs), bar)| == LineWidth(specs)
    ensures forall i :: 0 <= i < |rows| ==> |BodyLines(specs, rows, bar)[i]| == LineWidth(specs)
  {
    FramedLength(HeaderCells(specs), specs, bar);
    forall i | 0 <= i < |rows| ensures |BodyLines(specs, rows, bar)[i]| == LineWidth(specs) {
      FramedLength(RowCells(specs, rows[i]), specs, bar);
    }
  }

  /** A row without a column's key shows a blank cell exactly as wide as the column. */
  lemma MissingKeyIsBlank(specs: seq<ColumnSpec>, row: Row, k: nat)
    requires k < |specs| && specs[k].name !in row.valuePair
    ensures RowCells(specs, row)[k] == " " + Repeat(' ', specs[k].width) + " "
  {
    var pad := specs[k].width;
    assert Repeat(' ', pad / 2) + Repeat(' ', pad - pad / 2) == Repeat(' ', pad);
  }

  /** A padded cell shows its text unchanged, surrounded only by spaces. */
  lemma PadShowsText(text: string, c: ColumnSpec)
    ensures var p := Pad(text, c);
      var lead := 1 + match c.align
        case Left => 0
        case Right => Max(|text|, c.width) - |text|
        case Center => Max(0, c.width - |text|) / 2;
      && lead + |text| < |p| && p[lead..lead + |text|] == text
      && (forall i :: 0 <= i < lead ==> p[i] == ' ')
      && (forall i :: lead + |text| <= i < |p| ==> p[i] == ' ')
  {
    AlignedShape(text, c.align, c.width);
    var a := Aligned(text, c.align, c.width);
    var p := Pad(text, c);
    assert p == " " + a + " ";
    assert forall i :: 1 <= i < |p| - 1 ==> p[i] == a[i - 1];
  }

  /** Columns whose headers fit, widened over `rows`, fit the header and every cell. */
  lemma WidenedFits(specs: seq<ColumnSpec>, rows: seq<Row>)
    requires forall k :: 0 <= k < |specs| ==> |specs[k].name| <= specs[k].width
    ensures Fits(WidenSpecs(specs, rows), rows)
  {
    var after := WidenSpecs(specs, rows);
    forall k | 0 <= k < |specs|
      ensures |after[k].name| <= after[k].width
      ensures forall i :: 0 <= i < |rows| ==> |Lookup(rows[i], after[k].name)| <= after[k].width
    {
      WidenMeaning(specs[k].width, rows, specs[k].name);
    }
  }

  /**
   * `Column` (stex_pretty.py) and `ColumnObj` (hy_tables.py): a name, an alignment, and a
   * width that the table builders widen in place.
   */
  class Column {
    const columnName: string
    const align: Align
    var columnMinWidth: int

    /** The header always fits: widths start at the name's length and never shrink. */
    predicate Valid()
      reads this
    {
      |columnName| <= columnMinWidth
    }

    constructor (columnName: string, align: Align)
      ensures this.columnName == columnName && this.align == align
      ensures columnMinWidth == |columnName| && Valid()
    {
      this.columnName := columnName;
      this.align := align;
      columnMinWidth := |columnName|;
    }

    function Spec(): ColumnSpec
      reads this
    {
      ColumnSpec(columnName, align, columnMinWidth)
    }

    /** The inner loop of the width computation, over the rows for this column. */
    method WidenTo(rows: seq<Row>)
      modifies this
      ensures columnMinWidth == Widen(old(columnMinWidth), rows, columnName)
    {
      for j := 0 to |rows|
        invariant columnMinWidth == Widen(old(columnMinWidth), rows[..j], columnName)
      {
        assert rows[..j + 1][..j] == rows[..j];
        var considered := Lookup(rows[j], columnName);
        if considered != [] {
          columnMinWidth := Max(columnMinWidth, |considered|);
        }
      }
      assert rows[..|rows|] == rows;
    }
  }

  function Specs(columns: seq<Column>): (r: seq<ColumnSpec>)
    reads set k | 0 <= k < |columns| :: columns[k]
    ensures |r| == |columns| && forall k :: 0 <= k < |columns| ==> r[k] == columns[k].Spec()
  {
    seq(|columns|, k reads set k | 0 <= k < |columns| :: columns[k] requires 0 <= k < |columns| => columns[k].Spec())
  }

  /** The outer loop of the width computation: every column widened over all rows. */
  method WidenColumns(columns: seq<Column>, rows: seq<Row>)
    modifies set k | 0 <= k < |columns| :: columns[k]
    ensures forall k :: 0 <= k < |columns| ==>
              columns[k].columnMinWidth == Widen(old(columns[k].columnMinWidth), rows, columns[k].columnName)
  {
    for i := 0 to |columns|
      invariant forall k :: 0 <= k < |columns| ==>
                  columns[k].columnMinWidth
                  == if columns[k] in columns[..i] then Widen(old(columns[k].columnMinWidth), rows, columns[k].columnName)
                     else old(columns[k].columnMinWidth)
    {
      var column := columns[i];
      if column in columns[..i] {
        WidenIdempotent(old(column.columnMinWidth), rows, column.columnName);
      }
      column.WidenTo(rows);
      assert forall k :: 0 <= k < |columns| ==>
               (columns[k] in columns[..i + 1] <==> columns[k] in columns[..i] || columns[k] == column);
    }
    assert forall k :: 0 <= k < |columns| ==> columns[k] in columns[..|columns|];
  }
}
