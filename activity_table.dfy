// The table activity: rows of cells keyed by column, edited in place, with
// a delayed save of all rows once something was changed and some cell holds
// text.

module ActivityTable {

  import opened Strings

  /** One row: a cell per column name. */
  type TableRow = map<string, string>

  /** A row with every column empty. */
  function EmptyRow(columns: seq<string>): (r: TableRow)
    ensures forall c :: c in r <==> c in columns
    ensures forall c :: c in r ==> r[c] == ""
  {
    map c | c in columns :: ""
  }

  /** The stored rows when there are any, one empty row otherwise. */
  function InitialRows(value: seq<TableRow>, columns: seq<string>): (r: seq<TableRow>)
    ensures |r| >= 1
    ensures value != [] ==> r == value
    ensures value == [] ==> r == [EmptyRow(columns)]
  {
    if |value| > 0 then value else [EmptyRow(columns)]
  }

  /** `Object.values(row).some(v => v.trim() !== '')`. */
  predicate HasText(row: TableRow) {
    exists c :: c in row && !IsBlank(row[c])
  }

  /** The rows with some text, in order. */
  function NonEmptyRows(rows: seq<TableRow>): (r: seq<TableRow>)
    ensures forall x :: x in r <==> x in rows && HasText(x)
    decreases |rows|
  {
    if rows == [] then []
    else if HasText(rows[|rows| - 1]) then NonEmptyRows(rows[..|rows| - 1]) + [rows[|rows| - 1]]
    else NonEmptyRows(rows[..|rows| - 1])
  }

  /** `rows.filter((_, i) => i !== index)`. */
  function RemoveAt(rows: seq<TableRow>, index: int): (r: seq<TableRow>)
    ensures 0 <= index < |rows| ==>
              |r| == |rows| - 1 &&
              (forall i :: 0 <= i < index ==> r[i] == rows[i]) &&
              (forall i :: index <= i < |r| ==> r[i] == rows[i + 1])
    ensures !(0 <= index < |rows|) ==> r == rows
  {
    if 0 <= index < |rows| then rows[..index] + rows[index + 1..] else rows
  }

  class TableActivity {
    const columns: seq<string>
    var rows: seq<TableRow>
    var hasChanged: bool
    /** The row lists handed to `onSave`, in order. */
    var saves: seq<seq<TableRow>>

    /** The table always shows at least one row. */
    predicate Valid()
      reads this
    {
      |rows| >= 1
    }

    constructor (columns: seq<string>, value: seq<TableRow>)
      ensures Valid()
      ensures this.columns == columns && rows == InitialRows(value, columns) && !hasChanged && saves == []
    {
      this.columns := columns;
      rows := InitialRows(value, columns);
      hasChanged := false;
      saves := [];
    }

    /** New stored rows replace the table's, unless there are none. */
    method Resync(value: seq<TableRow>)
      requires Valid()
      modifies this
      ensures Valid()
      ensures rows == (if |value| > 0 then value else old(rows))
      ensures hasChanged == old(hasChanged) && saves == old(saves)
    {
      if |value| > 0 {
        rows := value;
      }
    }

    /** `handleChange`: exactly one cell takes the new text. */
    method HandleChange(rowIndex: nat, column: string, value: string)
      requires Valid() && rowIndex < |rows|
      modifies this
      ensures Valid() && hasChanged && saves == old(saves)
      ensures |rows| == |old(rows)| && rows[rowIndex] == old(rows)[rowIndex][column := value]
      ensures forall i :: 0 <= i < |rows| && i != rowIndex ==> rows[i] == old(rows)[i]
    {
      var newRows := rows;
      newRows := newRows[rowIndex := newRows[rowIndex][column := value]];
      rows := newRows;
      hasChanged := true;
    }

    /** `addRow`: one empty row at the end. */
    method AddRow()
      requires Valid()
      modifies this
      ensures Valid() && hasChanged && saves == old(saves)
      ensures rows == old(rows) + [EmptyRow(columns)]
    {
      rows := rows + [EmptyRow(columns)];
      hasChanged := true;
    }

    /** `removeRow`: the row goes only while there are two or more. */
    method RemoveRow(index: int)
      requires Valid()
      modifies this
      ensures Valid() && saves == old(saves)
      ensures |old(rows)| > 1 ==> rows == RemoveAt(old(rows), index) && hasChanged
      ensures |old(rows)| <= 1 ==> rows == old(rows) && hasChanged == old(hasChanged)
    {
      if |rows| > 1 {
        rows := RemoveAt(rows, index);
        hasChanged := true;
      }
    }

    /** The delayed save firing: after a change, and only if some row has
      * text, all rows are saved, blank ones included. */
    method SaveTimerFires()
      requires Valid()
      modifies this
      ensures Valid() && rows == old(rows) && hasChanged == old(hasChanged)
      ensures saves == (if hasChanged && exists i :: 0 <= i < |rows| && HasText(rows[i])
                        then old(saves) + [rows] else old(saves))
    {
      if !hasChanged {
        return;
      }
      var nonEmptyRows := NonEmptyRows(rows);
      if |nonEmptyRows| > 0 {
        assert nonEmptyRows[0] in rows;
        saves := saves + [rows];
      } else {
        forall i | 0 <= i < |rows|
          ensures !HasText(rows[i])
        {
          assert rows[i] in rows;
        }
      }
    }
  }

  /** A fresh table is never saved: its one row is empty, so nothing is
    * saved until a cell gets text. */
  lemma EmptyRowHasNoText(columns: seq<string>)
    ensures !HasText(EmptyRow(columns))
  {
    var r := EmptyRow(columns);
    forall c | c in r
      ensures IsBlank(r[c])
    {
    }
  }

  /** Typing text in a cell makes its row count for the save. */
  lemma TypedCellHasText(row: TableRow, column: string, value: string)
    requires !IsBlank(value)
    ensures HasText(row[column := value])
  {
    assert column in row[column := value];
  }
}
