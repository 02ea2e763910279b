/** The two column-selection dialogs (`src/backend/columns.py`): a check box
    per column for the inputs, a radio button per column for the output. The
    dialogs' widgets are reduced to what the confirm buttons read: the check
    box variables (`column_vars`, insertion-ordered) and the radio variable. */
module Columns {
  import opened Values
  import opened Text
  import opened Widgets

  /** The distinct elements of `xs`, in order of first occurrence: the key
      order of a dict filled from `xs`. */
  function Dedup(xs: seq<string>): seq<string> {
    if xs == [] then []
    else
      var d := Dedup(xs[..|xs| - 1]);
      if xs[|xs| - 1] in d then d else d + [xs[|xs| - 1]]
  }

  predicate Distinct(xs: seq<string>) {
    forall i, j :: 0 <= i < j < |xs| ==> xs[i] != xs[j]
  }

  lemma {:induction false} DedupSpec(xs: seq<string>)
    ensures Distinct(Dedup(xs))
    ensures forall x :: x in Dedup(xs) <==> x in xs
  {
    if xs != [] {
      var init := xs[..|xs| - 1];
      DedupSpec(init);
      assert xs == init + [xs[|xs| - 1]];
    }
  }

  /** A list without repeats is its own key order, as the columns of a table are. */
  lemma {:induction false} DedupDistinct(xs: seq<string>)
    requires Distinct(xs)
    ensures Dedup(xs) == xs
  {
    if xs != [] {
      var init := xs[..|xs| - 1];
      DedupDistinct(init);
      assert xs[|xs| - 1] !in init;
      assert xs == init + [xs[|xs| - 1]];
    }
  }

  /** The names in `order` whose box is ticked, in that order. */
  function Checked(order: seq<string>, checks: map<string, bool>): seq<string> {
    if order == [] then []
    else
      var rest := Checked(order[..|order| - 1], checks);
      var last := order[|order| - 1];
      if last in checks && checks[last] then rest + [last] else rest
  }

  /** A subsequence of `order`: `pos` gives each element's position there. */
  predicate SubsequenceAt(sub: seq<string>, order: seq<string>, pos: seq<nat>) {
    && |pos| == |sub|
    && (forall j :: 0 <= j < |pos| ==> pos[j] < |order| && order[pos[j]] == sub[j])
    && (forall j, k :: 0 <= j < k < |pos| ==> pos[j] < pos[k])
  }

  /** `Checked` keeps exactly the ticked names, in the dialog's order. */
  lemma {:induction false} CheckedSpec(order: seq<string>, checks: map<string, bool>)
    ensures forall x :: x in Checked(order, checks) <==> x in order && x in checks && checks[x]
    ensures exists pos :: SubsequenceAt(Checked(order, checks), order, pos)
  {
    if order == [] {
      assert SubsequenceAt([], order, []);
    } else {
      var init := order[..|order| - 1];
      var last := order[|order| - 1];
      CheckedSpec(init, checks);
      assert order == init + [last];
      var pos: seq<nat> :| SubsequenceAt(Checked(init, checks), init, pos);
      var rest := Checked(init, checks);
      if last in checks && checks[last] {
        var pos' := pos + [|order| - 1];
        assert SubsequenceAt(rest + [last], order, pos') by {
          forall j | 0 <= j < |pos| ensures pos'[j] < |order| && order[pos'[j]] == (rest + [last])[j] {
            assert order[pos[j]] == init[pos[j]];
          }
        }
      } else {
        assert SubsequenceAt(rest, order, pos) by {
          forall j | 0 <= j < |pos| ensures order[pos[j]] == rest[j] {
            assert order[pos[j]] == init[pos[j]];
          }
        }
      }
    }
  }

  class ColumnSelector {
    const panel: Panel
    var checkOrder: seq<string>            // the keys of column_vars, in insertion order
    var checks: map<string, bool>          // column_vars: whether each box is ticked
    var columnsSelected: seq<string>
    var outputColumn: Option<string>
    var outputChoice: string               // output_column_var
    var inputDialogOpen: bool
    var outputDialogOpen: bool

    ghost predicate Valid()
      reads this
    {
      (forall x :: x in checks <==> x in checkOrder) && Distinct(checkOrder)
    }

    constructor (p: Panel)
      ensures Valid() && panel == p
      ensures checkOrder == [] && checks == map[] && columnsSelected == [] && outputColumn == None
      ensures outputChoice == "" && !inputDialogOpen && !outputDialogOpen
    {
      panel := p;
      checkOrder := [];
      checks := map[];
      columnsSelected := [];
      outputColumn := None;
      outputChoice := "";
      inputDialogOpen := false;
      outputDialogOpen := false;
    }

    /** `select_columns`: opens the input dialog with one box per column. The
        previous selection is cleared first, so every box starts unticked. */
    method SelectColumns(columns: seq<string>)
      modifies this
      ensures Valid()
      ensures checkOrder == Dedup(columns)
      ensures forall x :: x in checks <==> x in columns
      ensures forall x :: x in checks ==> !checks[x]
      ensures columnsSelected == [] && inputDialogOpen
      ensures outputColumn == old(outputColumn) && outputChoice == old(outputChoice)
      ensures outputDialogOpen == old(outputDialogOpen)
    {
      checks := map[];
      checkOrder := [];
      if columnsSelected != [] {
        columnsSelected := [];
      }
      var i := 0;
      while i < |columns|
        invariant 0 <= i <= |columns|
        invariant checkOrder == Dedup(columns[..i])
        invariant forall x :: x in checks <==> x in columns[..i]
        invariant forall x :: x in checks ==> !checks[x]
        invariant columnsSelected == []
        invariant outputColumn == old(outputColumn) && outputChoice == old(outputChoice)
        invariant outputDialogOpen == old(outputDialogOpen)
      {
        var col := columns[i];
        var ticked := col in columnsSelected;
        assert columns[..i + 1] == columns[..i] + [col];
        DedupSpec(columns[..i]);
        if col !in checks {
          checkOrder := checkOrder + [col];
        }
        checks := checks[col := ticked];
        i := i + 1;
      }
      assert columns[..i] == columns;
      DedupSpec(columns);
      inputDialogOpen := true;
    }

    /** The user ticks or clears the box of `column`. */
    method SetCheck(column: string, ticked: bool)
      requires Valid()
      modifies this
      ensures Valid()
      ensures checks == if column in old(checks) then old(checks)[column := ticked] else old(checks)
      ensures checkOrder == old(checkOrder) && columnsSelected == old(columnsSelected)
      ensures outputColumn == old(outputColumn) && outputChoice == old(outputChoice)
      ensures inputDialogOpen == old(inputDialogOpen) && outputDialogOpen == old(outputDialogOpen)
    {
      if column in checks {
        checks := checks[column := ticked];
      }
    }

    /** `confirm_selection`: the ticked columns become the selection. A
        non-empty selection closes the dialog, is shown on the label and
        disables prediction; an empty one only warns. */
    method ConfirmSelection() returns (accepted: bool)
      requires Valid()
      modifies this, panel
      ensures Valid()
      ensures columnsSelected == Checked(checkOrder, checks)
      ensures accepted <==> columnsSelected != []
      ensures accepted ==>
        (!inputDialogOpen
         && panel.controls == old(panel.controls).(predict := false)
         && panel.labels == old(panel.labels).(inputColumns := Join(columnsSelected, ", ")))
      ensures !accepted ==>
        (inputDialogOpen == old(inputDialogOpen)
         && panel.controls == old(panel.controls) && panel.labels == old(panel.labels))
      ensures checkOrder == old(checkOrder) && checks == old(checks)
      ensures outputColumn == old(outputColumn) && outputChoice == old(outputChoice)
      ensures outputDialogOpen == old(outputDialogOpen) && panel.constantText == old(panel.constantText)
    {
      var selected: seq<string> := [];
      var i := 0;
      while i < |checkOrder|
        invariant 0 <= i <= |checkOrder|
        invariant selected == Checked(checkOrder[..i], checks)
      {
        var col := checkOrder[i];
        assert checkOrder[..i + 1][..i] == checkOrder[..i];
        if checks[col] {
          selected := selected + [col];
        }
        i := i + 1;
      }
      assert checkOrder[..i] == checkOrder;
      columnsSelected := selected;
      accepted := columnsSelected != [];
      if accepted {
        panel.labels := panel.labels.(inputColumns := Join(columnsSelected, ", "));
        inputDialogOpen := false;
        panel.controls := panel.controls.(predict := false);
      }
    }

    /** The Cancel button closes the input dialog; the selection it cleared stays cleared. */
    method CancelSelection()
      modifies this
      ensures !inputDialogOpen
      ensures checkOrder == old(checkOrder) && checks == old(checks) && columnsSelected == old(columnsSelected)
      ensures outputColumn == old(outputColumn) && outputChoice == old(outputChoice)
      ensures outputDialogOpen == old(outputDialogOpen)
    {
      inputDialogOpen := false;
    }

    /** `select_output_column`: opens the output dialog with one radio button
        per column; the current output column is preselected when it is one of
        them, and nothing is selected otherwise. */
    method SelectOutputColumn(columns: seq<string>)
      modifies this
      ensures outputChoice == if outputColumn.Some? && outputColumn.value in columns then outputColumn.value else ""
      ensures outputDialogOpen
      ensures outputColumn == old(outputColumn)
      ensures checkOrder == old(checkOrder) && checks == old(checks) && columnsSelected == old(columnsSelected)
      ensures inputDialogOpen == old(inputDialogOpen)
    {
      outputChoice := "";
      var i := 0;
      while i < |columns|
        invariant 0 <= i <= |columns|
        invariant outputChoice == if outputColumn.Some? && outputColumn.value in columns[..i] then outputColumn.value else ""
        invariant outputColumn == old(outputColumn)
        invariant checkOrder == old(checkOrder) && checks == old(checks) && columnsSelected == old(columnsSelected)
        invariant inputDialogOpen == old(inputDialogOpen)
      {
        var col := columns[i];
        assert columns[..i + 1] == columns[..i] + [col];
        if outputColumn.Some? && col == outputColumn.value {
          outputChoice := col;
        }
        i := i + 1;
      }
      assert columns[..i] == columns;
      outputDialogOpen := true;
    }

    /** The user picks the radio button of `column`. */
    method ChooseOutput(column: string)
      modifies this
      ensures outputChoice == column
      ensures outputColumn == old(outputColumn) && outputDialogOpen == old(outputDialogOpen)
      ensures checkOrder == old(checkOrder) && checks == old(checks) && columnsSelected == old(columnsSelected)
      ensures inputDialogOpen == old(inputDialogOpen)
    {
      outputChoice := column;
    }

    /** `confirm_output_column`: a chosen column becomes the output column,
        closes the dialog, is shown on the label, disables prediction and
        enables model creation; no choice only warns. */
    method ConfirmOutputColumn() returns (accepted: bool)
      modifies this, panel
      ensures accepted <==> old(outputChoice) != ""
      ensures accepted ==>
        (outputColumn == Some(old(outputChoice)) && !outputDialogOpen
         && panel.controls == old(panel.controls).(predict := false, createModel := true)
         && panel.labels == old(panel.labels).(outputColumn := VStr(old(outputChoice))))
      ensures !accepted ==>
        (outputColumn == old(outputColumn) && outputDialogOpen == old(outputDialogOpen)
         && panel.controls == old(panel.controls) && panel.labels == old(panel.labels))
      ensures outputChoice == old(outputChoice) && inputDialogOpen == old(inputDialogOpen)
      ensures checkOrder == old(checkOrder) && checks == old(checks) && columnsSelected == old(columnsSelected)
      ensures panel.constantText == old(panel.constantText)
    {
      var chosen := outputChoice;
      accepted := chosen != "";
      if accepted {
        outputColumn := Some(chosen);
        outputDialogOpen := false;
        panel.labels := panel.labels.(outputColumn := VStr(chosen));
        panel.controls := panel.controls.(predict := false, createModel := true);
      }
    }

    /** The Cancel button closes the output dialog and keeps the output column. */
    method CancelOutput()
      modifies this
      ensures !outputDialogOpen
      ensures outputColumn == old(outputColumn) && outputChoice == old(outputChoice)
      ensures checkOrder == old(checkOrder) && checks == old(checks) && columnsSelected == old(columnsSelected)
      ensures inputDialogOpen == old(inputDialogOpen)
    {
      outputDialogOpen := false;
    }
  }

  /** After the input dialog is opened on a table's columns (which have no
      repeats) and the user ticks some boxes, confirming selects exactly the
      ticked columns, in table order. */
  lemma SelectionFollowsTable(columns: seq<string>, checks: map<string, bool>)
    requires Distinct(columns)
    ensures forall x :: x in Checked(columns, checks) <==> x in columns && x in checks && checks[x]
    ensures exists pos :: SubsequenceAt(Checked(columns, checks), columns, pos)
    ensures Dedup(columns) == columns
  {
    DedupDistinct(columns);
    CheckedSpec(columns, checks);
  }
}
