/**
  The part of a pandas DataFrame that `process_file` touches (app.py:53-62):
  an ordered list of column labels and the rows of cells. The handler
  relabels columns, reads a column by its label and appends a column on the
  right in place.
 */
module Frame {
  import opened Text

  /** A column label: the position the reader assigns when there is no header row, or a name given later. */
  datatype Label = Position(index: nat) | Name(text: string)

  /** The labels of a freshly read sheet: 0, 1, ..., width - 1. */
  function Positions(width: nat): seq<Label>
  {
    seq(width, i requires 0 <= i => Position(i))
  }

  /**
    Column relabelling: the order and number of columns is kept, a label that
    is a key of `mapping` gives way to its value, any other label stays, and
    no label appears that was neither there before nor a value of `mapping`.
   */
  function Relabel(labels: seq<Label>, mapping: map<Label, Label>): (r: seq<Label>)
    ensures |r| == |labels|
    ensures forall i :: 0 <= i < |labels| && labels[i] in mapping ==> r[i] == mapping[labels[i]]
    ensures forall i :: 0 <= i < |labels| && labels[i] !in mapping ==> r[i] == labels[i]
    ensures forall l :: l in r ==> l in labels || l in mapping.Values
  {
    seq(|labels|, i requires 0 <= i < |labels| => if labels[i] in mapping then mapping[labels[i]] else labels[i])
  }

  /** The position of the first column labelled `l`. */
  function IndexOf(labels: seq<Label>, l: Label): (r: Option<nat>)
    ensures r.Some? ==> r.value < |labels| && labels[r.value] == l
    ensures r.Some? ==> forall i :: 0 <= i < r.value ==> labels[i] != l
    ensures r.None? <==> l !in labels
  {
    if |labels| == 0 then None
    else if labels[0] == l then Some(0)
    else match IndexOf(labels[1..], l)
      case None => None
      case Some(i) => Some(i + 1)
  }

  class DataFrame {
    var labels: seq<Label>
    var rows: seq<seq<string>>

    /** Every row has one cell per label. */
    ghost predicate Valid()
      reads this
    {
      forall r :: 0 <= r < |rows| ==> |rows[r]| == |labels|
    }

    /** The frame read from a sheet `width` columns wide with no header row: positional labels. */
    constructor (width: nat, cells: seq<seq<string>>)
      requires forall r :: 0 <= r < |cells| ==> |cells[r]| == width
      ensures Valid() && labels == Positions(width) && rows == cells
    {
      labels := Positions(width);
      rows := cells;
    }

    /**
      Reading a column by a label the frame has: the cells, top to bottom, of
      the first column carrying that label.
     */
    function Column(l: Label): (col: seq<string>)
      reads this
      requires Valid() && l in labels
      ensures |col| == |rows|
      ensures exists c :: 0 <= c < |labels| && labels[c] == l && (forall i :: 0 <= i < c ==> labels[i] != l)
                          && forall r :: 0 <= r < |rows| ==> col[r] == rows[r][c]
    {
      var c := IndexOf(labels, l).value;
      var cells := rows;
      seq(|cells|, r requires 0 <= r < |cells| => cells[r][c])
    }

    /** Relabelling the frame's columns in place: labels change, cells do not. */
    method Rename(mapping: map<Label, Label>)
      requires Valid()
      modifies this
      ensures Valid()
      ensures labels == Relabel(old(labels), mapping) && rows == old(rows)
    {
      labels := Relabel(labels, mapping);
    }

    /**
      Inserting a column after the last one: a new right-most column.
      pandas refuses a label the frame already has, so callers use a new one.
     */
    method InsertLast(name: string, values: seq<string>)
      requires Valid() && |values| == |rows| && Name(name) !in labels
      modifies this
      ensures Valid()
      ensures labels == old(labels) + [Name(name)]
      ensures |rows| == |old(rows)|
      ensures forall r :: 0 <= r < |rows| ==> rows[r] == old(rows)[r] + [values[r]]
    {
      var cells := rows;
      rows := seq(|cells|, r requires 0 <= r < |cells| => cells[r] + [values[r]]);
      labels := labels + [Name(name)];
    }
  }
}
