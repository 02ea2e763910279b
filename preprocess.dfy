/** Null-value remediation (`src/backend/preprocess.py`): the census of missing
    cells per column, and the four remedies the null-option menu offers, applied
    to the loaded table in place. Message boxes become returned outcomes and the
    "Are you sure to proceed?" question becomes the `confirmed` argument. */
module Preprocess {
  import opened Values
  import opened Tables
  import opened Widgets

  // ------------------------------------------------------------------- census

  /** `df.isnull().sum()` restricted to the columns with a positive count. */
  function CensusOf(cols: seq<Column>): map<string, nat> {
    if cols == [] then map[]
    else
      var rest := CensusOf(cols[1..]);
      var k := MissingCount(cols[0].cells);
      if k > 0 then rest[cols[0].name := k] else rest
  }

  function Census(t: Table): map<string, nat> {
    CensusOf(t.columns)
  }

  /** The census maps exactly the columns that have a missing cell to their
      number of missing cells; columns without one are absent, and nothing else
      is present. */
  lemma {:induction false} CensusExact(cols: seq<Column>)
    requires forall i, j :: 0 <= i < j < |cols| ==> cols[i].name != cols[j].name
    ensures forall i :: 0 <= i < |cols| ==> (cols[i].name in CensusOf(cols) <==> MissingCount(cols[i].cells) > 0)
    ensures forall i :: 0 <= i < |cols| && cols[i].name in CensusOf(cols) ==> CensusOf(cols)[cols[i].name] == MissingCount(cols[i].cells)
    ensures forall n :: n in CensusOf(cols) ==> exists i :: 0 <= i < |cols| && cols[i].name == n
  {
    if cols != [] {
      var rest := cols[1..];
      CensusExact(rest);
      forall i | 0 <= i < |cols|
        ensures (cols[i].name in CensusOf(cols) <==> MissingCount(cols[i].cells) > 0)
        ensures cols[i].name in CensusOf(cols) ==> CensusOf(cols)[cols[i].name] == MissingCount(cols[i].cells)
      {
        if i > 0 {
          assert cols[i] == rest[i - 1];
          assert cols[i].name != cols[0].name;
        }
      }
      forall n | n in CensusOf(cols) ensures exists i :: 0 <= i < |cols| && cols[i].name == n {
        if n != cols[0].name {
          var i :| 0 <= i < |rest| && rest[i].name == n;
          assert cols[i + 1].name == n;
        }
      }
    }
  }

  lemma CensusOfTable(t: Table)
    requires Valid(t)
    ensures forall i :: 0 <= i < |t.columns| ==> (t.columns[i].name in Census(t) <==> MissingCount(t.columns[i].cells) > 0)
    ensures forall i :: 0 <= i < |t.columns| && t.columns[i].name in Census(t) ==> Census(t)[t.columns[i].name] == MissingCount(t.columns[i].cells)
    ensures forall n :: n in Census(t) ==> n in Names(t)
  {
    CensusExact(t.columns);
    forall n | n in Census(t) ensures n in Names(t) {
      var i :| 0 <= i < |t.columns| && t.columns[i].name == n;
      assert Names(t)[i] == n;
    }
  }

  lemma CensusKeys(t: Table)
    requires Valid(t)
    ensures forall n :: n in Census(t) ==> n in Names(t)
  {
    CensusOfTable(t);
  }

  /** A table without missing cells has an empty census. */
  lemma CensusEmptyWhenComplete(t: Table)
    requires Valid(t)
    requires forall i, r :: 0 <= i < |t.columns| && 0 <= r < |t.columns[i].cells| ==> t.columns[i].cells[r] != Missing
    ensures Census(t) == map[]
  {
    CensusOfTable(t);
    forall i | 0 <= i < |t.columns| ensures MissingCount(t.columns[i].cells) == 0 {
      MissingCountPositive(t.columns[i].cells);
    }
    if Census(t) != map[] {
      var n :| n in Census(t);
      var i := IndexOf(t, n);
      assert false;
    }
  }

  // ------------------------------------------------------------ delete rows

  predicate RowComplete(t: Table, r: nat) {
    forall i :: 0 <= i < |t.columns| ==> r < |t.columns[i].cells| && t.columns[i].cells[r] != Missing
  }

  /** The complete rows among the first `n`, in ascending order. */
  function KeptBelow(t: Table, n: nat): (rows: seq<nat>)
    ensures forall j :: 0 <= j < |rows| ==> rows[j] < n
    ensures |rows| <= n
  {
    if n == 0 then [] else KeptBelow(t, n - 1) + (if RowComplete(t, n - 1) then [n - 1] else [])
  }

  function KeptRows(t: Table): seq<nat> {
    KeptBelow(t, RowCount(t))
  }

  function Pick(cells: seq<Cell>, rows: seq<nat>): seq<Cell>
    requires forall j :: 0 <= j < |rows| ==> rows[j] < |cells|
  {
    seq(|rows|, j requires 0 <= j < |rows| => cells[rows[j]])
  }

  /** `df.dropna(inplace=True)`: keeps the rows with no missing cell in any column. */
  function DropMissingRows(t: Table): Table
    requires Valid(t)
  {
    var rows := KeptRows(t);
    Table(seq(|t.columns|, i requires 0 <= i < |t.columns| =>
      t.columns[i].(cells := Pick(t.columns[i].cells, rows))))
  }

  lemma {:induction false} KeptBelowSpec(t: Table, n: nat)
    ensures forall j, k :: 0 <= j < k < |KeptBelow(t, n)| ==> KeptBelow(t, n)[j] < KeptBelow(t, n)[k]
    ensures forall r: nat :: r in KeptBelow(t, n) <==> r < n && RowComplete(t, r)
  {
    if n > 0 {
      KeptBelowSpec(t, n - 1);
    }
  }

  /** When every row is complete, every row is kept. */
  lemma {:induction false} KeptBelowAll(t: Table, n: nat)
    requires forall r :: 0 <= r < n ==> RowComplete(t, r)
    ensures KeptBelow(t, n) == seq(n, r requires 0 <= r < n => r)
  {
    if n > 0 {
      KeptBelowAll(t, n - 1);
    }
  }

  /** Deleting rows: the result is a valid table with the same columns, no more
      rows than before, no missing cell anywhere, and its rows are the complete
      rows of the original, in their original order. */
  lemma DropMissingRowsSpec(t: Table)
    requires Valid(t)
    ensures var d := DropMissingRows(t);
      && Valid(d)
      && Names(d) == Names(t)
      && (forall i :: 0 <= i < |t.columns| ==> d.columns[i].dtype == t.columns[i].dtype)
      && RowCount(d) <= RowCount(t)
      && (forall i, r :: 0 <= i < |d.columns| && 0 <= r < |d.columns[i].cells| ==> d.columns[i].cells[r] != Missing)
      && (forall j, k :: 0 <= j < k < |KeptRows(t)| ==> KeptRows(t)[j] < KeptRows(t)[k])
      && (forall r: nat :: r in KeptRows(t) <==> r < RowCount(t) && RowComplete(t, r))
      && RowCount(d) == |KeptRows(t)|
      && (forall i, j :: 0 <= i < |t.columns| && 0 <= j < |KeptRows(t)| ==> d.columns[i].cells[j] == t.columns[i].cells[KeptRows(t)[j]])
  {
    KeptBelowSpec(t, RowCount(t));
    var d := DropMissingRows(t);
    var rows := KeptRows(t);
    forall i, r | 0 <= i < |d.columns| && 0 <= r < |d.columns[i].cells| ensures d.columns[i].cells[r] != Missing {
      assert rows[r] in rows;
    }
  }

  /** Deleting rows a second time changes nothing. */
  lemma DropMissingRowsIdempotent(t: Table)
    requires Valid(t)
    ensures Valid(DropMissingRows(t))
    ensures DropMissingRows(DropMissingRows(t)) == DropMissingRows(t)
  {
    DropMissingRowsSpec(t);
    var d := DropMissingRows(t);
    KeptBelowAll(d, RowCount(d));
    var dd := DropMissingRows(d);
    forall i | 0 <= i < |d.columns| ensures dd.columns[i] == d.columns[i] {
      assert Pick(d.columns[i].cells, KeptRows(d)) == d.columns[i].cells;
    }
  }

  /** After deleting rows the census is empty. */
  lemma DropMissingRowsClearsCensus(t: Table)
    requires Valid(t)
    ensures Census(DropMissingRows(t)) == map[]
  {
    DropMissingRowsSpec(t);
    CensusEmptyWhenComplete(DropMissingRows(t));
  }

  // ------------------------------------------------------------------ fills

  /** `column.fillna(v)`. */
  function FillCells(cells: seq<Cell>, v: real): seq<Cell> {
    seq(|cells|, r requires 0 <= r < |cells| => if cells[r] == Missing then Num(v) else cells[r])
  }

  /** The mean/median remedy's effect: the numeric columns named in `keys` get
      their missing cells filled with `v`; all other columns are left alone. */
  function FillNumericColumns(t: Table, keys: set<string>, v: real): Table {
    Table(seq(|t.columns|, i requires 0 <= i < |t.columns| =>
      var c := t.columns[i];
      if c.name in keys && c.dtype == Numeric then c.(cells := FillCells(c.cells, v)) else c))
  }

  /** `df[name] = df[name].fillna(v)`. */
  function FillNamed(t: Table, name: string, v: real): Table {
    Table(seq(|t.columns|, i requires 0 <= i < |t.columns| =>
      var c := t.columns[i];
      if c.name == name then c.(cells := FillCells(c.cells, v)) else c))
  }

  /** `df.fillna(v, inplace=True)`: every missing cell of every column, text columns included. */
  function FillAll(t: Table, v: real): Table {
    Table(seq(|t.columns|, i requires 0 <= i < |t.columns| =>
      t.columns[i].(cells := FillCells(t.columns[i].cells, v))))
  }

  /** One more pass of the fill loop extends the set of columns filled so far. */
  lemma FillNumericStep(t0: Table, done: set<string>, col: string, v: real)
    requires Valid(t0) && col in Names(t0)
    ensures ColumnNamed(t0, col).dtype == Numeric ==>
      FillNamed(FillNumericColumns(t0, done, v), col, v) == FillNumericColumns(t0, done + {col}, v)
    ensures ColumnNamed(t0, col).dtype != Numeric ==>
      FillNumericColumns(t0, done, v) == FillNumericColumns(t0, done + {col}, v)
  {
    var a := FillNumericColumns(t0, done, v);
    var b := FillNumericColumns(t0, done + {col}, v);
    var k := IndexOf(t0, col);
    forall i | 0 <= i < |t0.columns| && t0.columns[i].name == col ensures i == k {
    }
    if ColumnNamed(t0, col).dtype == Numeric {
      var c := FillNamed(a, col, v);
      forall i | 0 <= i < |t0.columns| ensures c.columns[i] == b.columns[i] {
        var ci := t0.columns[i];
        if ci.name == col {
          if ci.name in done {
            assert FillCells(FillCells(ci.cells, v), v) == FillCells(ci.cells, v);
          }
        }
      }
    }
  }

  /** The fill keeps the table valid, its column names and their dtypes. */
  lemma FillNumericShape(t0: Table, done: set<string>, v: real, col: string)
    requires Valid(t0) && col in Names(t0)
    ensures var f := FillNumericColumns(t0, done, v);
      Valid(f) && Names(f) == Names(t0) && col in Names(f) && ColumnNamed(f, col).dtype == ColumnNamed(t0, col).dtype
  {
    var f := FillNumericColumns(t0, done, v);
    assert Names(f) == Names(t0);
    var k := IndexOf(t0, col);
    assert f.columns[k].name == col;
    assert IndexOf(f, col) == k;
  }

  /** What the fill with zero does to one column, and to the census. */
  lemma FillNumericSpec(t: Table, v: real)
    requires Valid(t)
    ensures var f := FillNumericColumns(t, Census(t).Keys, v);
      && Valid(f)
      && Names(f) == Names(t)
      && (forall i, r :: 0 <= i < |t.columns| && 0 <= r < |t.columns[i].cells| ==>
            f.columns[i].cells[r] ==
              if t.columns[i].cells[r] == Missing && t.columns[i].name in Census(t) && t.columns[i].dtype == Numeric
              then Num(v) else t.columns[i].cells[r])
      && (forall i :: 0 <= i < |t.columns| ==>
            (t.columns[i].name in Census(f) <==> t.columns[i].name in Census(t) && t.columns[i].dtype == NonNumeric))
  {
    var f := FillNumericColumns(t, Census(t).Keys, v);
    assert Names(f) == Names(t);
    FillNumericCensus(t, f, Census(t).Keys, v);
  }

  lemma FillNumericCensus(t: Table, f: Table, keys: set<string>, v: real)
    requires Valid(t) && keys == Census(t).Keys && f == FillNumericColumns(t, keys, v)
    requires Valid(f) && Names(f) == Names(t)
    ensures forall i :: 0 <= i < |t.columns| ==>
      (t.columns[i].name in Census(f) <==> t.columns[i].name in keys && t.columns[i].dtype == NonNumeric)
  {
    CensusOfTable(t);
    CensusOfTable(f);
    forall i | 0 <= i < |t.columns|
      ensures t.columns[i].name in Census(f) <==> t.columns[i].name in keys && t.columns[i].dtype == NonNumeric
    {
      var c := t.columns[i];
      assert f.columns[i].name == c.name;
      if c.name in keys && c.dtype == Numeric {
        MissingCountPositive(f.columns[i].cells);
      } else {
        assert f.columns[i] == c;
      }
    }
  }

  /** The constant fill leaves no missing cell in any column and keeps every
      other cell. */
  lemma FillAllSpec(t: Table, v: real)
    requires Valid(t)
    ensures var f := FillAll(t, v);
      && Valid(f)
      && Names(f) == Names(t)
      && (forall i, r :: 0 <= i < |t.columns| && 0 <= r < |t.columns[i].cells| ==>
            f.columns[i].cells[r] == if t.columns[i].cells[r] == Missing then Num(v) else t.columns[i].cells[r])
      && Census(f) == map[]
  {
    var f := FillAll(t, v);
    assert Names(f) == Names(t);
    CensusEmptyWhenComplete(f);
  }

  // -------------------------------------------------------------- the class

  datatype CensusOutcome = NoDataLoaded | NullsFound | NoNulls

  datatype RemedyOutcome =
    | Declined
    | RowsDeleted
    | FilledMean
    | FilledMedian
    | ConstantEntryShown
    | InvalidConstant
    | FilledConstant
    | NotApplicable   // an option the menu does not offer, or Enter on a hidden entry
    | Crashed         // an AttributeError the code does not catch

  /** Controls after any remedy: the menu and the entry are disabled, the entry
      is hidden, and column selection becomes available. The entry is disabled
      before it is told to delete its text, so the text stays. */
  function AfterRemedy(c: Controls): Controls {
    c.(nullMenu := false, constantEntry := false, constantShown := false, selectColumns := true, selectOutput := true)
  }

  class Preprocessor {
    const panel: Panel
    var table: Option<Table>                   // data_table_df
    var nullCounts: Option<map<string, nat>>   // null_counts_dict, unset until the census runs

    ghost predicate Valid()
      reads this
    {
      && (table.Some? ==> Tables.Valid(table.value))
      && (nullCounts.Some? ==> table.Some? && forall n :: n in nullCounts.value ==> n in Names(table.value))
    }

    constructor (t: Option<Table>, p: Panel)
      requires t.Some? ==> Tables.Valid(t.value)
      ensures Valid() && table == t && nullCounts == None && panel == p
    {
      table := t;
      nullCounts := None;
      panel := p;
    }

    /** `preprocess_data`: takes the census and opens the menu when it is not
        empty; otherwise goes straight on to column selection. */
    method PreprocessData() returns (r: CensusOutcome)
      requires Valid()
      modifies this, panel
      ensures Valid() && table == old(table)
      ensures old(table).None? ==>
        (r == NoDataLoaded && nullCounts == old(nullCounts) && panel.controls == old(panel.controls))
      ensures old(table).Some? ==> nullCounts == Some(Census(table.value))
      ensures old(table).Some? && nullCounts.value != map[] ==>
        (r == NullsFound && panel.controls == old(panel.controls).(nullMenu := true, preprocess := false))
      ensures old(table).Some? && nullCounts.value == map[] ==>
        (r == NoNulls && panel.controls == AfterRemedy(old(panel.controls)).(preprocess := false))
      ensures panel.constantText == old(panel.constantText) && panel.labels == old(panel.labels)
    {
      if table.None? {
        return NoDataLoaded;
      }
      var t := table.value;
      CensusKeys(t);
      nullCounts := Some(Census(t));
      if nullCounts.value != map[] {
        r := NullsFound;
        panel.controls := panel.controls.(nullMenu := true);
      } else {
        r := NoNulls;
        panel.controls := AfterRemedy(panel.controls);
      }
      panel.controls := panel.controls.(preprocess := false);
    }

    /** The loop of the mean and median branches. The mean (median) is rounded
        and then, because `type(value)` is compared with the strings 'float64'
        and 'int64', always replaced by 0. */
    method FillCensusedWithZero()
      requires Valid() && nullCounts.Some?
      modifies this
      ensures Valid() && nullCounts == old(nullCounts)
      ensures table == Some(FillNumericColumns(old(table).value, nullCounts.value.Keys, 0.0))
    {
      ghost var t0 := table.value;
      var keys := nullCounts.value.Keys;
      var remaining := keys;
      assert keys - remaining == {};
      assert FillNumericColumns(t0, {}, 0.0).columns == t0.columns;
      while remaining != {}
        invariant remaining <= keys && nullCounts == old(nullCounts) && keys == nullCounts.value.Keys
        invariant table == Some(FillNumericColumns(t0, keys - remaining, 0.0))
        invariant Valid()
        decreases remaining
      {
        var col :| col in remaining;
        var t := table.value;
        FillNumericShape(t0, keys - remaining, 0.0, col);
        FillNumericStep(t0, keys - remaining, col, 0.0);
        if ColumnNamed(t, col).dtype == Numeric {
          var fillValue := 0.0;
          table := Some(FillNamed(t, col, fillValue));
        }
        FillNumericShape(t0, keys - (remaining - {col}), 0.0, col);
        assert (keys - remaining) + {col} == keys - (remaining - {col});
        remaining := remaining - {col};
      }
      assert keys - remaining == keys;
    }

    /** `handle_null_option`: applies the chosen remedy once the user confirms it. */
    method HandleNullOption(option: string, confirmed: bool) returns (r: RemedyOutcome)
      requires Valid()
      modifies this, panel
      ensures Valid() && nullCounts == old(nullCounts) && panel.labels == old(panel.labels)
      ensures panel.constantText == old(panel.constantText)
      ensures option == "Delete rows with nulls" && confirmed && old(table).Some? ==>
        r == RowsDeleted && table == Some(DropMissingRows(old(table).value))
        && panel.controls == AfterRemedy(old(panel.controls))
      ensures (option == "Fill with mean" || option == "Fill with median") && confirmed && old(nullCounts).Some? ==>
        r == (if option == "Fill with mean" then FilledMean else FilledMedian)
        && table == Some(FillNumericColumns(old(table).value, nullCounts.value.Keys, 0.0))
        && panel.controls == AfterRemedy(old(panel.controls))
      ensures option == "Fill with constant" ==>
        r == ConstantEntryShown && table == old(table)
        && panel.controls == old(panel.controls).(constantShown := true, constantEntry := true)
      ensures r in {Declined, Crashed, NotApplicable} ==>
        table == old(table) && panel.controls == old(panel.controls)
      ensures r == Declined <==> !confirmed && option in {"Delete rows with nulls", "Fill with mean", "Fill with median"}
      ensures r == Crashed <==>
        confirmed &&
        ((option == "Delete rows with nulls" && old(table).None?)
         || ((option == "Fill with mean" || option == "Fill with median") && old(nullCounts).None?))
    {
      if option == "Delete rows with nulls" {
        if !confirmed { return Declined; }
        if table.None? { return Crashed; }
        table := Some(DropMissingRows(table.value));
        DropMissingRowsSpec(old(table).value);
        r := RowsDeleted;
      } else if option == "Fill with mean" || option == "Fill with median" {
        if !confirmed { return Declined; }
        if nullCounts.None? { return Crashed; }
        FillCensusedWithZero();
        FillNumericSpec(old(table).value, 0.0);
        r := if option == "Fill with mean" then FilledMean else FilledMedian;
      } else if option == "Fill with constant" {
        panel.controls := panel.controls.(constantShown := true, constantEntry := true);
        return ConstantEntryShown;
      } else {
        return NotApplicable;
      }
      panel.controls := AfterRemedy(panel.controls);
    }

    /** `apply_constant_fill`: once confirmed, a number in the entry fills every
        missing cell of the table; text that is not a number leaves it as it is. */
    method ApplyConstantFill(confirmed: bool, parse: string -> Option<real>) returns (r: RemedyOutcome)
      requires Valid()
      modifies this, panel
      ensures Valid() && nullCounts == old(nullCounts) && panel.labels == old(panel.labels)
      ensures panel.constantText == old(panel.constantText)
      ensures r == FilledConstant <==> confirmed && parse(old(panel.constantText)).Some? && old(table).Some?
      ensures r == FilledConstant ==>
        table == Some(FillAll(old(table).value, parse(old(panel.constantText)).value))
        && panel.controls == AfterRemedy(old(panel.controls))
      ensures r == Declined <==> !confirmed
      ensures r == InvalidConstant <==> confirmed && parse(old(panel.constantText)).None?
      ensures r != FilledConstant ==>
        r in {Declined, InvalidConstant, Crashed}
        && table == old(table) && panel.controls == old(panel.controls)
    {
      if !confirmed { return Declined; }
      var v := parse(panel.constantText);
      if v.None? { return InvalidConstant; }
      if table.None? { return Crashed; }
      FillAllSpec(table.value, v.value);
      table := Some(FillAll(table.value, v.value));
      panel.controls := AfterRemedy(panel.controls);
      r := FilledConstant;
    }

    /** Escape: hides and disables the constant entry. */
    method HideConstantEntry()
      modifies panel
      ensures panel.controls == old(panel.controls).(constantShown := false, constantEntry := false)
      ensures panel.constantText == old(panel.constantText) && panel.labels == old(panel.labels)
    {
      panel.controls := panel.controls.(constantShown := false, constantEntry := false);
    }

    /** Return: applies the constant fill only while the entry is shown. */
    method EnterKey(confirmed: bool, parse: string -> Option<real>) returns (r: RemedyOutcome)
      requires Valid()
      modifies this, panel
      ensures Valid() && nullCounts == old(nullCounts) && panel.labels == old(panel.labels)
      ensures panel.constantText == old(panel.constantText)
      ensures !old(panel.controls.constantShown) ==>
        (r == NotApplicable && table == old(table) && panel.controls == old(panel.controls))
      ensures old(panel.controls.constantShown) ==>
        (r == FilledConstant <==> confirmed && parse(old(panel.constantText)).Some? && old(table).Some?)
      ensures old(panel.controls.constantShown) ==>
        (r == Declined <==> !confirmed)
        && (r == InvalidConstant <==> confirmed && parse(old(panel.constantText)).None?)
      ensures old(panel.controls.constantShown) && r == FilledConstant ==>
        table == Some(FillAll(old(table).value, parse(old(panel.constantText)).value))
        && panel.controls == AfterRemedy(old(panel.controls))
      ensures old(panel.controls.constantShown) && r != FilledConstant ==>
        r in {Declined, InvalidConstant, Crashed} && table == old(table) && panel.controls == old(panel.controls)
    {
      if panel.controls.constantShown {
        r := ApplyConstantFill(confirmed, parse);
      } else {
        r := NotApplicable;
      }
    }
  }
}
