/** The in-memory table (a pandas DataFrame): named columns of equal length,
    each with a dtype tag and a sequence of cells. */
module Tables {

  datatype Cell = Missing | Num(value: real) | Text(text: string)

  /** `Numeric` stands for the int64 and float64 dtypes; every other dtype is `NonNumeric`. */
  datatype DType = Numeric | NonNumeric

  datatype Column = Column(name: string, dtype: DType, cells: seq<Cell>)

  datatype Table = Table(columns: seq<Column>)

  function RowCount(t: Table): nat {
    if |t.columns| == 0 then 0 else |t.columns[0].cells|
  }

  predicate Rectangular(t: Table) {
    forall i :: 0 <= i < |t.columns| ==> |t.columns[i].cells| == RowCount(t)
  }

  predicate UniqueNames(t: Table) {
    forall i, j :: 0 <= i < j < |t.columns| ==> t.columns[i].name != t.columns[j].name
  }

  /** A numeric column holds numbers and missing cells only. */
  predicate WellTyped(t: Table) {
    forall i, r :: 0 <= i < |t.columns| && 0 <= r < |t.columns[i].cells| && t.columns[i].dtype == Numeric
      ==> !t.columns[i].cells[r].Text?
  }

  predicate Valid(t: Table) {
    Rectangular(t) && UniqueNames(t) && WellTyped(t)
  }

  function Names(t: Table): (names: seq<string>)
    ensures |names| == |t.columns|
    ensures forall i :: 0 <= i < |t.columns| ==> names[i] == t.columns[i].name
  {
    seq(|t.columns|, i requires 0 <= i < |t.columns| => t.columns[i].name)
  }

  /** Position of the first column called `name`. */
  function IndexOf(t: Table, name: string): (i: nat)
    requires name in Names(t)
    ensures i < |t.columns| && t.columns[i].name == name
  {
    FirstNamed(t.columns, name)
  }

  function FirstNamed(cols: seq<Column>, name: string): (i: nat)
    requires exists j :: 0 <= j < |cols| && cols[j].name == name
    ensures i < |cols| && cols[i].name == name
  {
    if cols[0].name == name then 0
    else
      assert exists j :: 0 <= j < |cols[1..]| && cols[1..][j].name == name by {
        var j :| 0 <= j < |cols| && cols[j].name == name;
        assert cols[1..][j - 1].name == name;
      }
      FirstNamed(cols[1..], name) + 1
  }

  /** `df[name]`. */
  function ColumnNamed(t: Table, name: string): Column
    requires name in Names(t)
  {
    t.columns[IndexOf(t, name)]
  }

  /** Number of missing cells (`isnull().sum()` of one column). */
  function MissingCount(cells: seq<Cell>): (k: nat)
    ensures k <= |cells|
  {
    if cells == [] then 0 else MissingCount(cells[..|cells| - 1]) + (if cells[|cells| - 1] == Missing then 1 else 0)
  }

  /** A column has missing cells exactly when one of its cells is missing. */
  lemma {:induction false} MissingCountPositive(cells: seq<Cell>)
    ensures MissingCount(cells) > 0 <==> exists r :: 0 <= r < |cells| && cells[r] == Missing
  {
    if cells != [] {
      var init := cells[..|cells| - 1];
      MissingCountPositive(init);
      if exists r :: 0 <= r < |init| && init[r] == Missing {
        var r :| 0 <= r < |init| && init[r] == Missing;
        assert cells[r] == Missing;
      }
      if exists r :: 0 <= r < |cells| && cells[r] == Missing {
        var r :| 0 <= r < |cells| && cells[r] == Missing;
        if r < |init| { assert init[r] == Missing; }
      }
    }
  }
}
