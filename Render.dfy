/**
 * The two Markdown tables of the generated page: one row per parsed asset
 * line and one per parsed operation line, joined by newlines.
 */
module Render {
  import opened Text
  import opened Rows

  /** What a template literal prints for a property the object does not have. */
  const Undefined := "undefined"

  /** `| c1 | c2 | … |`: a row opens and closes with a bar. */
  function TableRow(cells: seq<string>): (row: string)
    ensures StartsWith(row, "| ") && EndsWith(row, " |")
  {
    var row := "| " + Join(cells, " | ") + " |";
    assert row[..2] == "| ";
    assert row[|row| - 2..] == " |";
    row
  }

  /** The cells of a row as a table reader sees them between the bars: padded by one space. */
  function Padded(cells: seq<string>): (r: seq<string>)
    ensures |r| == |cells|
    ensures forall k :: 0 <= k < |r| ==> r[k] == " " + cells[k] + " "
  {
    if cells == [] then [] else [" " + cells[0] + " "] + Padded(cells[1..])
  }

  /** The columns of the asset table, in order. */
  function AssetCells(row: AssetRow): (cells: seq<string>)
    ensures |cells| == 7
  {
    [row.symbol, row.size, row.avg, row.price, row.pnl, row.pnlRate, row.value]
  }

  /**
   * The columns of the operation table.  A raw line is checked for being
   * non-empty; an empty one falls through to the trade template, where every
   * property is missing.
   */
  function OperationCells(op: Operation): (cells: seq<string>)
    ensures |cells| == 7
    ensures op.Trade? ==> cells == [op.time, op.symbol, op.side, op.size, op.price, op.amount, op.profit]
    ensures op.Raw? && op.raw != "" ==> cells[0] == op.raw && forall k :: 1 <= k < 7 ==> cells[k] == Sentinel
    ensures op.Raw? && op.raw == "" ==> forall k :: 0 <= k < 7 ==> cells[k] == Undefined
  {
    match op
    case Raw(raw) =>
      if raw != "" then [raw, Sentinel, Sentinel, Sentinel, Sentinel, Sentinel, Sentinel]
      else [Undefined, Undefined, Undefined, Undefined, Undefined, Undefined, Undefined]
    case Trade(time, symbol, side, size, price, amount, profit) =>
      [time, symbol, side, size, price, amount, profit]
  }

  /** The body of the asset table: one row per asset, in order. */
  function AssetRows(rows: seq<AssetRow>): (r: seq<string>)
    ensures |r| == |rows|
    ensures forall k :: 0 <= k < |r| ==> r[k] == TableRow(AssetCells(rows[k]))
  {
    if rows == [] then [] else [TableRow(AssetCells(rows[0]))] + AssetRows(rows[1..])
  }

  /** The body of the operation table: one row per operation, in order. */
  function OperationRows(ops: seq<Operation>): (r: seq<string>)
    ensures |r| == |ops|
    ensures forall k :: 0 <= k < |r| ==> r[k] == TableRow(OperationCells(ops[k]))
  {
    if ops == [] then [] else [TableRow(OperationCells(ops[0]))] + OperationRows(ops[1..])
  }

  /** The asset table's rows joined by line breaks: split at them, it gives back one row per asset. */
  function AssetTable(rows: seq<AssetRow>): (table: string)
    ensures |rows| >= 1 && (forall k :: 0 <= k < |rows| ==> NoneContains(AssetCells(rows[k]), '\n')) ==>
            Split(table, '\n') == AssetRows(rows)
    ensures |rows| == 0 ==> table == ""
  {
    var r := AssetRows(rows);
    assert (|rows| >= 1 && forall k :: 0 <= k < |rows| ==> NoneContains(AssetCells(rows[k]), '\n')) ==> Split(Join(r, "\n"), '\n') == r by {
      if |rows| >= 1 && forall k :: 0 <= k < |rows| ==> NoneContains(AssetCells(rows[k]), '\n') {
        AssetRowsLineFree(rows);
        TableLines(r);
      }
    }
    Join(r, "\n")
  }

  /** The operation table's rows joined by line breaks: split at them, it gives back one row per operation. */
  function OperationTable(ops: seq<Operation>): (table: string)
    ensures |ops| >= 1 && (forall k :: 0 <= k < |ops| ==> NoneContains(OperationCells(ops[k]), '\n')) ==>
            Split(table, '\n') == OperationRows(ops)
    ensures |ops| == 0 ==> table == ""
  {
    var r := OperationRows(ops);
    assert (|ops| >= 1 && forall k :: 0 <= k < |ops| ==> NoneContains(OperationCells(ops[k]), '\n')) ==> Split(Join(r, "\n"), '\n') == r by {
      if |ops| >= 1 && forall k :: 0 <= k < |ops| ==> NoneContains(OperationCells(ops[k]), '\n') {
        OperationRowsLineFree(ops);
        TableLines(r);
      }
    }
    Join(r, "\n")
  }

  predicate NoneContains(cells: seq<string>, c: char) {
    forall k :: 0 <= k < |cells| ==> c !in cells[k]
  }

  lemma {:induction false} PaddedJoin(cells: seq<string>)
    requires |cells| >= 1
    ensures " " + Join(cells, " | ") + " " == Join(Padded(cells), "|")
  {
    if |cells| > 1 {
      var rest := cells[1..];
      PaddedJoin(rest);
      assert Padded(cells) == [" " + cells[0] + " "] + Padded(rest);
      calc {
        " " + Join(cells, " | ") + " ";
        " " + (cells[0] + " | " + Join(rest, " | ")) + " ";
        (" " + cells[0] + " ") + "|" + (" " + Join(rest, " | ") + " ");
        (" " + cells[0] + " ") + "|" + Join(Padded(rest), "|");
      }
    }
  }

  lemma JoinBetween(parts: seq<string>, sep: string)
    requires |parts| >= 1
    ensures Join([""] + parts + [""], sep) == sep + Join(parts, sep) + sep
  {
    JoinSnoc(parts, sep);
    assert ([""] + parts + [""])[1..] == parts + [""];
  }

  lemma {:induction false} JoinSnoc(parts: seq<string>, sep: string)
    requires |parts| >= 1
    ensures Join(parts + [""], sep) == Join(parts, sep) + sep
  {
    if |parts| > 1 {
      assert (parts + [""])[1..] == parts[1..] + [""];
      JoinSnoc(parts[1..], sep);
    }
  }

  /**
   * A table reader splitting a row at its bars gets an empty piece before the
   * first bar and after the last, and every cell padded by one space between,
   * as long as no cell holds a bar itself.
   */
  lemma RowCells(cells: seq<string>)
    requires |cells| >= 1 && NoneContains(cells, '|')
    ensures Split(TableRow(cells), '|') == [""] + Padded(cells) + [""]
  {
    var padded := Padded(cells);
    PaddedJoin(cells);
    JoinBetween(padded, "|");
    RowShape(cells);
    var parts := [""] + padded + [""];
    forall i | 0 <= i < |parts| ensures '|' !in parts[i] {
      if 1 <= i < |parts| - 1 {
        assert parts[i] == padded[i - 1];
      }
    }
    SplitOfJoin(parts, '|');
  }

  lemma RowShape(cells: seq<string>)
    ensures TableRow(cells) == "|" + (" " + Join(cells, " | ") + " ") + "|"
  {
  }

  /** A padded cell that a table reader trims is the cell itself. */
  lemma PaddedTrim(cell: string)
    requires Trimmed(cell)
    ensures Trim(" " + cell + " ") == cell
  {
    var s := " " + cell + " ";
    assert s[1..] == cell + " ";
    if cell != [] {
      assert (cell + " ")[0] == cell[0];
      assert (cell + " ")[..|cell|] == cell;
    }
  }

  /**
   * A table reader who splits a row at its bars and trims the pieces between
   * the first and the last bar reads back the cells, as long as no cell holds
   * a bar or starts or ends with white space.
   */
  lemma RowReadBack(cells: seq<string>)
    requires |cells| >= 1 && NoneContains(cells, '|')
    requires forall k :: 0 <= k < |cells| ==> Trimmed(cells[k])
    ensures var pieces := Split(TableRow(cells), '|');
            |pieces| == |cells| + 2 && TrimAll(pieces[1..|cells| + 1]) == cells
  {
    RowCells(cells);
    var padded := Padded(cells);
    assert Split(TableRow(cells), '|')[1..|cells| + 1] == padded;
    var back := TrimAll(padded);
    forall k | 0 <= k < |cells| ensures back[k] == cells[k] {
      PaddedTrim(cells[k]);
    }
  }

  /** An asset row reads back as the asset's seven fields. */
  lemma AssetRowReadBack(row: AssetRow)
    requires NoneContains(AssetCells(row), '|')
    requires forall k :: 0 <= k < 7 ==> Trimmed(AssetCells(row)[k])
    ensures var pieces := Split(TableRow(AssetCells(row)), '|');
            |pieces| == 9 && TrimAll(pieces[1..8]) == [row.symbol, row.size, row.avg, row.price, row.pnl, row.pnlRate, row.value]
  {
    RowReadBack(AssetCells(row));
  }

  /**
   * An operation row reads back as the trade's seven fields, or as the raw
   * text followed by six sentinels.
   */
  lemma OperationRowReadBack(op: Operation)
    requires op.Trade? || op.raw != ""
    requires NoneContains(OperationCells(op), '|')
    requires forall k :: 0 <= k < 7 ==> Trimmed(OperationCells(op)[k])
    ensures var pieces := Split(TableRow(OperationCells(op)), '|');
            && |pieces| == 9
            && (op.Trade? ==> TrimAll(pieces[1..8]) == [op.time, op.symbol, op.side, op.size, op.price, op.amount, op.profit])
            && (op.Raw? ==> TrimAll(pieces[1..8]) == [op.raw, Sentinel, Sentinel, Sentinel, Sentinel, Sentinel, Sentinel])
  {
    var cells := OperationCells(op);
    RowReadBack(cells);
  }

  /** No row holds a line break when no cell does. */
  lemma RowLineFree(cells: seq<string>)
    requires NoneContains(cells, '\n')
    ensures '\n' !in TableRow(cells)
  {
    JoinFree(cells, " | ", '\n');
  }

  lemma {:induction false} JoinFree(parts: seq<string>, sep: string, c: char)
    requires NoneContains(parts, c) && c !in sep
    ensures c !in Join(parts, sep)
  {
    if |parts| > 1 {
      JoinFree(parts[1..], sep, c);
    }
  }

  lemma AssetRowsLineFree(rows: seq<AssetRow>)
    requires forall k :: 0 <= k < |rows| ==> NoneContains(AssetCells(rows[k]), '\n')
    ensures NoneContains(AssetRows(rows), '\n')
  {
    var r := AssetRows(rows);
    forall k | 0 <= k < |r| ensures '\n' !in r[k] {
      RowLineFree(AssetCells(rows[k]));
    }
  }

  lemma {:induction false} OperationRowsLineFree(ops: seq<Operation>)
    requires forall k :: 0 <= k < |ops| ==> NoneContains(OperationCells(ops[k]), '\n')
    ensures NoneContains(OperationRows(ops), '\n')
  {
    if ops != [] {
      var rest := ops[1..];
      assert forall k :: 0 <= k < |rest| ==> rest[k] == ops[k + 1];
      OperationRowsLineFree(rest);
      OperationRowFree(ops[0]);
      var r := OperationRows(ops);
      assert r == [TableRow(OperationCells(ops[0]))] + OperationRows(rest);
    }
  }

  lemma OperationRowFree(op: Operation)
    requires NoneContains(OperationCells(op), '\n')
    ensures '\n' !in TableRow(OperationCells(op))
  {
    RowLineFree(OperationCells(op));
  }

  /** Rows without line breaks, joined by them, are split back apart. */
  lemma TableLines(rows: seq<string>)
    requires |rows| >= 1 && NoneContains(rows, '\n')
    ensures Split(Join(rows, "\n"), '\n') == rows
  {
    SplitOfJoin(rows, '\n');
  }
}
