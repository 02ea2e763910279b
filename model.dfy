/** The modelling session (`src/backend/model.py`): the guards in front of a
    linear fit and the formula and metrics it records, the plot dispatch, and
    saving and loading of the six-field artifact. The regressor is a parameter
    (a fit either fails or yields coefficients, an intercept, R2 and MSE), and
    the pickle/joblib store is a `Disk` mapping paths to stored files. */
module Model {
  import opened Values
  import opened Text
  import opened Fixed
  import opened Tables
  import opened Widgets

  // ------------------------------------------------------------ the formula

  /** `repr()` of a column name, for names without quotes, backslashes or
      unprintable characters. */
  function Repr(name: string): string {
    "'" + name + "'"
  }

  /** A character `repr()` writes as itself, without an escape: printable
      ASCII other than the backslash, and printable Latin-1 letters and signs
      (the soft hyphen U+00AD is escaped). */
  predicate ReprKeeps(c: char) {
    (' ' <= c <= '~' && c != '\\') || ('\U{a1}' <= c <= '\U{ff}' && c != '\U{ad}')
  }

  /** `str()` of a list of column names: `['f1', 'f2']`. */
  function ListRepr(names: seq<string>): string {
    "[" + Join(seq(|names|, i requires 0 <= i < |names| => Repr(names[i])), ", ") + "]"
  }

  /** `str()` of the coefficient array: the rendered elements between brackets. */
  function ArrayText(coefficients: seq<real>, showCoef: real -> string): string {
    "[" + Join(seq(|coefficients|, i requires 0 <= i < |coefficients| => showCoef(coefficients[i])), " ") + "]"
  }

  /** `f"{output} = {coef_} * {columns} + {intercept:.4f}"`. */
  function FormulaText(output: string, coefficients: seq<real>, columns: seq<string>, intercept: real, showCoef: real -> string): string {
    output + " = " + ArrayText(coefficients, showCoef) + " * " + ListRepr(columns) + " + " + Format4(intercept)
  }

  // --------------------------------------------------------------- fitting

  datatype FitOutput = FitOutput(coefficients: seq<real>, intercept: real, r2: real, mse: real)

  predicate AllPresent(t: Table, names: seq<string>) {
    forall j :: 0 <= j < |names| ==> names[j] in Names(t)
  }

  lemma PresentParts(t: Table, names: seq<string>, last: string)
    requires AllPresent(t, names + [last])
    ensures AllPresent(t, names) && last in Names(t)
  {
    assert (names + [last])[|names|] == last;
    forall j | 0 <= j < |names|
      ensures names[j] in Names(t)
    {
      assert (names + [last])[j] == names[j];
    }
  }

  /** `np.issubdtype(X.dtype, np.number)` for the matrix of the named columns. */
  predicate AllNumeric(t: Table, names: seq<string>)
    requires AllPresent(t, names)
  {
    forall j :: 0 <= j < |names| ==> ColumnNamed(t, names[j]).dtype == Numeric
  }

  /** Every cell of the named columns holds a number (no NaN, no text). */
  predicate AllNumbers(t: Table, names: seq<string>)
    requires AllPresent(t, names)
  {
    forall j, r :: 0 <= j < |names| && 0 <= r < |ColumnNamed(t, names[j]).cells| ==> ColumnNamed(t, names[j]).cells[r].Num?
  }

  function CellReal(c: Cell): real {
    if c.Num? then c.value else 0.0
  }

  /** `df[name].values`. */
  function Target(t: Table, name: string): seq<real>
    requires Tables.Valid(t) && name in Names(t)
  {
    seq(RowCount(t), r requires 0 <= r < RowCount(t) => CellReal(ColumnNamed(t, name).cells[r]))
  }

  /** `df[names].values`, row by row. */
  function Matrix(t: Table, names: seq<string>): seq<seq<real>>
    requires Tables.Valid(t) && AllPresent(t, names)
  {
    seq(RowCount(t), r requires 0 <= r < RowCount(t) =>
      seq(|names|, j requires 0 <= j < |names| => CellReal(ColumnNamed(t, names[j]).cells[r])))
  }

  datatype CreateOutcome =
    | MissingSelection     // "Please select input and output columns."
    | DataUnavailable      // indexing the table failed (no table, or an unknown column)
    | NotNumeric           // "Columns must contain numeric values."
    | FitFailed            // the regressor raised, NaN in the data among the causes
    | Created(fit: FitOutput)

  /** What `create_model` ends in for the given selection, table and regressor. */
  function FitAttempt(columns: seq<string>, output: Option<string>, table: Option<Table>,
                      regress: (seq<seq<real>>, seq<real>) -> Option<FitOutput>): CreateOutcome
    requires table.Some? ==> Tables.Valid(table.value)
  {
    if columns == [] || output.None? || output.value == "" then MissingSelection
    else if table.None? || !AllPresent(table.value, columns + [output.value]) then DataUnavailable
    else
      var t := table.value;
      PresentParts(t, columns, output.value);
      if !AllNumeric(t, columns + [output.value]) then NotNumeric
      else if !AllNumbers(t, columns + [output.value]) then FitFailed
      else match regress(Matrix(t, columns), Target(t, output.value))
        case None => FitFailed
        case Some(fit) => Created(fit)
  }

  /** A fit is attempted only for a non-empty selection and an output column,
      all present in the table and all numeric. Once these checks pass and the
      data has no NaN, the outcome is exactly what the regressor returns: its
      fit, or a failure. */
  lemma FitAttemptSpec(columns: seq<string>, output: Option<string>, table: Option<Table>,
                       regress: (seq<seq<real>>, seq<real>) -> Option<FitOutput>)
    requires table.Some? ==> Tables.Valid(table.value)
    ensures var r := FitAttempt(columns, output, table, regress);
      var selected := columns != [] && output.Some? && output.value != "";
      var present := selected && table.Some? && AllPresent(table.value, columns + [output.value]);
      && (r == MissingSelection <==> !selected)
      && (r == DataUnavailable <==> selected && !present)
      && (r == NotNumeric <==> present && !AllNumeric(table.value, columns + [output.value]))
      && (r.Created? ==> present && AllNumeric(table.value, columns + [output.value]) && AllNumbers(table.value, columns + [output.value]))
      && (r.Created? ==> AllPresent(table.value, columns) && output.value in Names(table.value)
                         && regress(Matrix(table.value, columns), Target(table.value, output.value)) == Some(r.fit))
      && (present && AllNumeric(table.value, columns + [output.value]) && AllNumbers(table.value, columns + [output.value]) ==>
            && AllPresent(table.value, columns) && output.value in Names(table.value)
            && r == match regress(Matrix(table.value, columns), Target(table.value, output.value))
                    case None => FitFailed
                    case Some(fit) => Created(fit))
      && (r == FitFailed <==>
            present && AllNumeric(table.value, columns + [output.value])
            && (!AllNumbers(table.value, columns + [output.value])
                || (AllPresent(table.value, columns) && output.value in Names(table.value)
                    && regress(Matrix(table.value, columns), Target(table.value, output.value)).None?)))
  {
    if columns != [] && output.Some? && output.value != "" && table.Some? && AllPresent(table.value, columns + [output.value]) {
      PresentParts(table.value, columns, output.value);
    }
  }

  /** A missing cell in a numeric column is a NaN, so it makes the fit fail. */
  lemma MissingCellFailsFit(columns: seq<string>, output: string, t: Table,
                            regress: (seq<seq<real>>, seq<real>) -> Option<FitOutput>, j: nat, r: nat)
    requires Tables.Valid(t) && columns != [] && output != ""
    requires AllPresent(t, columns + [output]) && AllNumeric(t, columns + [output])
    requires j < |columns + [output]| && r < RowCount(t)
    requires ColumnNamed(t, (columns + [output])[j]).cells[r] == Missing
    ensures FitAttempt(columns, Some(output), Some(t), regress) == FitFailed
  {
    var c := IndexOf(t, (columns + [output])[j]);
    assert |t.columns[c].cells| == RowCount(t);
  }

  // ------------------------------------------------------------ the record

  /** The six fields an artifact carries. */
  datatype Fields = Fields(model: Value, formula: Value, inputColumns: Value, outputColumn: Value, metrics: Value, description: Value)

  /** The dict that `save_model` writes. */
  function RecordOf(f: Fields): map<string, Value> {
    map["model" := f.model, "formula" := f.formula, "input_columns" := f.inputColumns,
        "output_column" := f.outputColumn, "metrics" := f.metrics, "description" := f.description]
  }

  /** What `load_model` reads from a dict, with its defaults for absent keys. */
  function LoadFields(record: map<string, Value>): Fields {
    Fields(Get(record, "model", VNone), Get(record, "formula", VDict(map[])), Get(record, "input_columns", VList([])),
           Get(record, "output_column", VStr("")), Get(record, "metrics", VDict(map[])), Get(record, "description", VNone))
  }

  /** The record has exactly the six keys, and loading it gives every field back. */
  lemma SaveLoadRoundTrip(f: Fields)
    ensures RecordOf(f).Keys == {"model", "formula", "input_columns", "output_column", "metrics", "description"}
    ensures LoadFields(RecordOf(f)) == f
  {
  }

  /** Absent keys read as `None`, `{}`, `[]`, `""`, `{}` and `None`. */
  lemma LoadDefaults(record: map<string, Value>)
    requires record.Keys !! {"model", "formula", "input_columns", "output_column", "metrics", "description"}
    ensures LoadFields(record) == Fields(VNone, VDict(map[]), VList([]), VStr(""), VDict(map[]), VNone)
  {
  }

  // -------------------------------------------------------- showing a load

  datatype FloatResult = FloatOk(x: real) | FloatValueError | FloatTypeError

  /** Python's `float(v)`: numbers convert, strings are parsed (a `ValueError`
      when they are not numbers), everything else is a `TypeError`. */
  function PyFloat(v: Value, parse: string -> Option<real>): FloatResult {
    match v
    case VNum(x) => FloatOk(x)
    case VStr(s) => if parse(s).Some? then FloatOk(parse(s).value) else FloatValueError
    case _ => FloatTypeError
  }

  /** `float(m) if m != "N/A" else m`: `None` stands for "N/A" kept as it is. */
  function CoerceOne(v: Value, parse: string -> Option<real>): Option<FloatResult> {
    if v == VStr("N/A") then None else Some(PyFloat(v, parse))
  }

  function MetricOf(c: Option<FloatResult>): MetricLabel {
    if c.Some? && c.value.FloatOk? then MetricText(Format4(c.value.x)) else MetricNA
  }

  /** The two metric labels after the coercion at lines 349-354, or `None` when
      a `TypeError` escapes. MSE is converted first; a `ValueError` in either
      makes both "N/A". */
  function CoerceMetrics(mse: Value, r2: Value, parse: string -> Option<real>): Option<(MetricLabel, MetricLabel)> {
    var m := CoerceOne(mse, parse);
    if m == Some(FloatTypeError) then None
    else if m == Some(FloatValueError) then Some((MetricNA, MetricNA))
    else
      var r := CoerceOne(r2, parse);
      if r == Some(FloatTypeError) then None
      else if r == Some(FloatValueError) then Some((MetricNA, MetricNA))
      else Some((MetricOf(m), MetricOf(r)))
  }

  /** Numbers are shown with four decimals; "N/A" appears beside a number only
      when that metric was stored as "N/A"; a value that does not parse turns
      both labels into "N/A". */
  lemma CoerceMetricsSpec(mse: Value, r2: Value, parse: string -> Option<real>)
    ensures mse.VNum? && r2.VNum? ==> CoerceMetrics(mse, r2, parse) == Some((MetricText(Format4(mse.x)), MetricText(Format4(r2.x))))
    ensures CoerceMetrics(mse, r2, parse).Some? ==>
      var (m, r) := CoerceMetrics(mse, r2, parse).value;
      && !m.MetricNone? && !r.MetricNone?
      && (m.MetricNA? && r.MetricText? ==> mse == VStr("N/A"))
      && (r.MetricNA? && m.MetricText? ==> r2 == VStr("N/A"))
    ensures mse.VStr? && mse != VStr("N/A") && parse(mse.s).None? ==> CoerceMetrics(mse, r2, parse) == Some((MetricNA, MetricNA))
    ensures CoerceMetrics(mse, r2, parse).None? <==>
      PyFloat(mse, parse) == FloatTypeError
      || ((mse == VStr("N/A") || PyFloat(mse, parse).FloatOk?) && PyFloat(r2, parse) == FloatTypeError)
  {
  }

  /** `', '.join(v)`: a list of strings, a string (joined character by
      character) or an empty dict; anything else raises a `TypeError`. */
  function JoinValue(v: Value): Option<string> {
    match v
    case VStr(s) => Some(Join(seq(|s|, i requires 0 <= i < |s| => [s[i]]), ", "))
    case VList(items) =>
      if forall i :: 0 <= i < |items| ==> items[i].VStr?
      then Some(Join(seq(|items|, i requires 0 <= i < |items| && items[i].VStr? => items[i].s), ", "))
      else None
    case VDict(m) => if m == map[] then Some("") else None
    case _ => None
  }

  /** The input columns a session saved come back as the same label text. */
  lemma JoinStrList(names: seq<string>)
    ensures JoinValue(StrList(names)) == Some(Join(names, ", "))
  {
    var items := StrList(names).items;
    assert seq(|items|, i requires 0 <= i < |items| && items[i].VStr? => items[i].s) == names;
  }

  datatype Display = Display(formula: Value, inputColumns: string, mse: MetricLabel, r2: MetricLabel, description: Value)

  /** What lines 345-366 show for the loaded fields, or `None` when computing
      it raises (a formula or metrics that is not a dict, a metric `float()`
      refuses with a `TypeError`, input columns that cannot be joined). */
  function LoadDisplay(f: Fields, parse: string -> Option<real>): Option<Display> {
    var formula :=
      match f.formula
      case VStr(_) => Some(f.formula)
      case VDict(m) => Some(Get(m, "formula", VStr("Formula not found")))
      case _ => None;
    var description := if Truthy(f.description) then f.description else VStr("No description saved.");
    if formula.None? || !f.metrics.VDict? then None
    else
      var metrics := CoerceMetrics(Get(f.metrics.entries, "mse", VStr("N/A")), Get(f.metrics.entries, "r2", VStr("N/A")), parse);
      var inputs := JoinValue(f.inputColumns);
      if metrics.None? || inputs.None? then None
      else Some(Display(formula.value, inputs.value, metrics.value.0, metrics.value.1, description))
  }

  /** A formula stored as a string is shown as it is; a dict shows its
      "formula" entry; an empty description reads "No description saved.". */
  lemma LoadDisplaySpec(f: Fields, parse: string -> Option<real>)
    ensures LoadDisplay(f, parse).Some? ==>
      && (f.formula.VStr? ==> LoadDisplay(f, parse).value.formula == f.formula)
      && (f.formula.VDict? && "formula" in f.formula.entries ==> LoadDisplay(f, parse).value.formula == f.formula.entries["formula"])
      && (LoadDisplay(f, parse).value.description == if Truthy(f.description) then f.description else VStr("No description saved."))
    ensures !(f.formula.VStr? || f.formula.VDict?) || !f.metrics.VDict? ==> LoadDisplay(f, parse).None?
  {
  }

  /** What a session created here shows once saved and loaded again. */
  lemma CreatedSessionDisplays(output: string, columns: seq<string>, formulaText: string, fit: FitOutput, description: Value, parse: string -> Option<real>)
    ensures var f := Fields(VModel(Fitted(fit.coefficients, fit.intercept)), VDict(map["formula" := VStr(formulaText)]),
                           StrList(columns), VStr(output), VDict(map["r2" := VNum(fit.r2), "mse" := VNum(fit.mse)]), description);
      LoadDisplay(LoadFields(RecordOf(f)), parse)
        == Some(Display(VStr(formulaText), Join(columns, ", "), MetricText(Format4(fit.mse)), MetricText(Format4(fit.r2)),
                        if Truthy(description) then description else VStr("No description saved.")))
  {
    JoinStrList(columns);
  }

  /** The record of the loading test: no model, a formula stored as a string,
      numeric metrics and one input column. Its fields load and display. */
  lemma LoadTestRecord(parse: string -> Option<real>)
    ensures var record := map["formula" := VStr("y = 2x + 1"), "description" := VStr("Test model"),
                              "metrics" := VDict(map["mse" := VNum(0.02), "r2" := VNum(0.98)]),
                              "input_columns" := StrList(["x"]), "output_column" := VStr("y")];
      && LoadFields(record).model == VNone
      && LoadFields(record).formula == VStr("y = 2x + 1")
      && LoadDisplay(LoadFields(record), parse)
           == Some(Display(VStr("y = 2x + 1"), "x", MetricText(Format4(0.02)), MetricText(Format4(0.98)), VStr("Test model")))
  {
    JoinStrList(["x"]);
    assert Join(["x"], ", ") == "x";
  }

  // ---------------------------------------------------------------- storage

  /** A file on disk: an artifact that decodes to a Python object, or bytes pickle/joblib cannot read. */
  datatype StoredFile = Artifact(content: Value) | Undecodable

  class Disk {
    var files: map<string, StoredFile>

    constructor (initial: map<string, StoredFile>)
      ensures files == initial
    {
      files := initial;
    }
  }

  predicate HasModelSuffix(path: string) {
    EndsWith(path, ".pkl") || EndsWith(path, ".joblib")
  }

  /** Controls after a load: only prediction is available. */
  function LoadedControls(c: Controls): Controls {
    c.(predict := true, loadFile := false, preprocess := false, selectColumns := false, selectOutput := false,
       nullMenu := false, constantEntry := false, constantShown := false, createModel := false, showModel := false, save := false)
  }

  datatype ShowOutcome = NoModel | ShowCrashed | Plot2D | Plot3D | TooManyFeatures
  datatype SaveOutcome = SaveCancelled | InvalidExtension | Saved
  datatype LoadOutcome = NoPath | FileNotFound | DecodeError | UnsupportedFormat | NotARecord | DisplayFailed | Loaded

  /** The names of a list of strings. */
  function StrNames(v: Value): Option<seq<string>> {
    if v.VList? && forall i :: 0 <= i < |v.items| ==> v.items[i].VStr?
    then Some(seq(|v.items|, i requires 0 <= i < |v.items| && v.items[i].VStr? => v.items[i].s))
    else None
  }

  class Session {
    const panel: Panel
    const disk: Disk
    var model: Value
    var modelFormula: Value
    var modelMetrics: Value
    var descriptionSaved: Value
    var columnsSelected: Value
    var outputColumn: Value
    var dataTable: Option<Table>

    ghost predicate Valid()
      reads this
    {
      dataTable.Some? ==> Tables.Valid(dataTable.value)
    }

    constructor (p: Panel, d: Disk)
      ensures Valid() && panel == p && disk == d
      ensures model == VNone && modelFormula == VDict(map[]) && modelMetrics == VDict(map[])
      ensures descriptionSaved == VDict(map[]) && columnsSelected == VNone && outputColumn == VNone && dataTable == None
    {
      panel := p;
      disk := d;
      model := VNone;
      modelFormula := VDict(map[]);
      modelMetrics := VDict(map[]);
      descriptionSaved := VDict(map[]);
      columnsSelected := VNone;
      outputColumn := VNone;
      dataTable := None;
    }

    function CurrentFields(): Fields
      reads this
    {
      Fields(model, modelFormula, columnsSelected, outputColumn, modelMetrics, descriptionSaved)
    }

    /** `create_model`: records the selection and the table, reminds when no
        description is saved, and fits when the guards let it. */
    method CreateModel(columns: seq<string>, output: Option<string>, table: Option<Table>,
                       regress: (seq<seq<real>>, seq<real>) -> Option<FitOutput>, showCoef: real -> string)
      returns (r: CreateOutcome, reminded: bool)
      requires table.Some? ==> Tables.Valid(table.value)
      modifies this, panel
      ensures Valid()
      ensures r == FitAttempt(columns, output, table, regress)
      ensures reminded == !Truthy(old(descriptionSaved)) && descriptionSaved == old(descriptionSaved)
      ensures columnsSelected == StrList(columns) && dataTable == table
      ensures outputColumn == if output.Some? then VStr(output.value) else VNone
      ensures r == MissingSelection || r == DataUnavailable || r == NotNumeric ==> model == old(model)
      ensures !r.Created? ==> modelFormula == old(modelFormula) && modelMetrics == old(modelMetrics)
      ensures r == FitFailed ==> model == VModel(Unfitted)
      ensures r.NotNumeric? ==>
        (panel.labels == old(panel.labels).(formula := VNone, mse := MetricNone, r2 := MetricNone)
         && panel.controls == old(panel.controls).(save := false, predict := false, showModel := false))
      ensures r.Created? ==>
        var text := FormulaText(output.value, r.fit.coefficients, columns, r.fit.intercept, showCoef);
        && model == VModel(Fitted(r.fit.coefficients, r.fit.intercept))
        && modelFormula == VDict(map["formula" := VStr(text)])
        && modelMetrics == VDict(map["r2" := VNum(r.fit.r2), "mse" := VNum(r.fit.mse)])
        && panel.labels == old(panel.labels).(formula := VStr(text), mse := MetricText(Format4(r.fit.mse)), r2 := MetricText(Format4(r.fit.r2)))
        && panel.controls == old(panel.controls).(save := true, predict := true, showModel := true)
      ensures !r.NotNumeric? && !r.Created? ==> panel.labels == old(panel.labels) && panel.controls == old(panel.controls)
      ensures panel.constantText == old(panel.constantText)
    {
      columnsSelected := StrList(columns);
      outputColumn := if output.Some? then VStr(output.value) else VNone;
      dataTable := table;
      reminded := !Truthy(descriptionSaved);
      r := FitAttempt(columns, output, table, regress);
      if columns == [] || output.None? || output.value == "" {
        return;
      }
      if table.None? || !AllPresent(table.value, columns + [output.value]) {
        return;
      }
      var t := table.value;
      var everything := columns + [output.value];
      if !AllNumeric(t, everything) {
        panel.labels := panel.labels.(formula := VNone, mse := MetricNone, r2 := MetricNone);
        panel.controls := panel.controls.(save := false, predict := false, showModel := false);
        return;
      }
      model := VModel(Unfitted);
      if !AllNumbers(t, everything) {
        return;
      }
      PresentParts(t, columns, output.value);
      var fitted := regress(Matrix(t, columns), Target(t, output.value));
      if fitted.None? {
        return;
      }
      Install(output.value, columns, fitted.value, showCoef);
    }

    /** The part of `create_model` after a successful fit: the estimator, its
        formula and its metrics are stored and shown, and saving, predicting
        and plotting become available. */
    method Install(output: string, columns: seq<string>, fit: FitOutput, showCoef: real -> string)
      modifies this, panel
      ensures var text := FormulaText(output, fit.coefficients, columns, fit.intercept, showCoef);
        && model == VModel(Fitted(fit.coefficients, fit.intercept))
        && modelFormula == VDict(map["formula" := VStr(text)])
        && modelMetrics == VDict(map["r2" := VNum(fit.r2), "mse" := VNum(fit.mse)])
        && panel.labels == old(panel.labels).(formula := VStr(text), mse := MetricText(Format4(fit.mse)), r2 := MetricText(Format4(fit.r2)))
        && panel.controls == old(panel.controls).(save := true, predict := true, showModel := true)
      ensures descriptionSaved == old(descriptionSaved) && columnsSelected == old(columnsSelected)
      ensures outputColumn == old(outputColumn) && dataTable == old(dataTable)
      ensures panel.constantText == old(panel.constantText)
    {
      model := VModel(Fitted(fit.coefficients, fit.intercept));
      var text := FormulaText(output, fit.coefficients, columns, fit.intercept, showCoef);
      modelFormula := VDict(map["formula" := VStr(text)]);
      modelMetrics := VDict(map["r2" := VNum(fit.r2), "mse" := VNum(fit.mse)]);
      panel.labels := panel.labels.(formula := VStr(text), mse := MetricText(Format4(fit.mse)), r2 := MetricText(Format4(fit.r2)));
      panel.controls := panel.controls.(save := true, predict := true, showModel := true);
    }

    /** Whether the plot inputs can be built without an exception: the table
        with at least one row, the selected and output columns in it, a fitted
        model taking that many features (at least one), numbers in every
        selected cell, and metrics that are a dict. */
    predicate PlotReady()
      reads this
      requires Valid()
    {
      && dataTable.Some? && RowCount(dataTable.value) >= 1
      && StrNames(columnsSelected).Some?
      && StrNames(columnsSelected).value != []
      && AllPresent(dataTable.value, StrNames(columnsSelected).value)
      && outputColumn.VStr? && outputColumn.s in Names(dataTable.value)
      && model.VModel? && model.estimator.Fitted?
      && |model.estimator.coefficients| == |StrNames(columnsSelected).value|
      && AllNumbers(dataTable.value, StrNames(columnsSelected).value)
      && modelMetrics.VDict?
    }

    /** `show_model`: no model, a plot by the number of features, or the
        message for more than two features. The visible behaviour is this
        dispatch: one feature gives the 2D scatter with the predicted line,
        two give the 3D scatter with the predicted surface, and more give the
        "Cannot plot with more than 2 features." message. Nothing in the session changes. */
    method ShowModel() returns (r: ShowOutcome)
      requires Valid()
      ensures r == NoModel <==> !Truthy(model)
      ensures Truthy(model) && !PlotReady() ==> r == ShowCrashed
      ensures Truthy(model) && PlotReady() ==>
        var k := |StrNames(columnsSelected).value|;
        r == if k == 1 then Plot2D else if k == 2 then Plot3D else TooManyFeatures
    {
      if !Truthy(model) {
        return NoModel;
      }
      if !PlotReady() {
        return ShowCrashed;
      }
      var k := |StrNames(columnsSelected).value|;
      if k == 1 {
        r := Plot2D;
      } else if k == 2 {
        r := Plot3D;
      } else {
        r := TooManyFeatures;
      }
    }

    /** `save_model`: the dialog's path, `""` when cancelled. Only a `.pkl` or
        `.joblib` path is written, and it receives the six-field record. */
    method SaveModel(path: string) returns (r: SaveOutcome)
      modifies disk
      ensures r == SaveCancelled <==> path == ""
      ensures r == InvalidExtension <==> path != "" && !HasModelSuffix(path)
      ensures r == Saved ==> disk.files == old(disk.files)[path := Artifact(VDict(RecordOf(CurrentFields())))]
      ensures r != Saved ==> disk.files == old(disk.files)
    {
      if path == "" {
        return SaveCancelled;
      }
      if !(EndsWith(path, ".pkl") || EndsWith(path, ".joblib")) {
        return InvalidExtension;
      }
      var record := map["model" := model, "formula" := modelFormula, "input_columns" := columnsSelected,
                        "output_column" := outputColumn, "metrics" := modelMetrics, "description" := descriptionSaved];
      disk.files := disk.files[path := Artifact(VDict(record))];
      r := Saved;
    }

    /** `save_description`: stores the text, and shows it when it is not empty. */
    method SaveDescription(text: string) returns (shown: bool)
      modifies this, panel
      ensures descriptionSaved == VStr(text)
      ensures shown <==> text != ""
      ensures panel.labels == if shown then old(panel.labels).(description := VStr(text)) else old(panel.labels)
      ensures panel.controls == old(panel.controls) && panel.constantText == old(panel.constantText)
      ensures model == old(model) && modelFormula == old(modelFormula) && modelMetrics == old(modelMetrics)
      ensures columnsSelected == old(columnsSelected) && outputColumn == old(outputColumn) && dataTable == old(dataTable)
    {
      descriptionSaved := VStr(text);
      shown := text != "";
      if shown {
        panel.labels := panel.labels.(description := VStr(text));
      }
    }

    /** The part of `load_model` that reads a record: its six fields (with
        defaults) replace the session's, only prediction stays available, and
        the prediction label is cleared. */
    method Restore(record: map<string, Value>)
      modifies this, panel
      ensures CurrentFields() == LoadFields(record) && dataTable == old(dataTable)
      ensures panel.controls == LoadedControls(old(panel.controls))
      ensures panel.labels == old(panel.labels).(prediction := None) && panel.constantText == old(panel.constantText)
    {
      model := Get(record, "model", VNone);
      modelFormula := Get(record, "formula", VDict(map[]));
      columnsSelected := Get(record, "input_columns", VList([]));
      outputColumn := Get(record, "output_column", VStr(""));
      modelMetrics := Get(record, "metrics", VDict(map[]));
      descriptionSaved := Get(record, "description", VNone);
      panel.controls := LoadedControls(panel.controls);
      panel.labels := panel.labels.(prediction := None);
    }

    /** `load_model`: the existence check comes first, then the suffix. Every
        failure before the fields are read leaves the session and the panel as
        they were; once a record is read, its fields (with defaults) replace the
        session's, the controls are set for prediction only, and the labels show
        it unless computing the display raises. */
    method LoadModel(path: string, parse: string -> Option<real>) returns (r: LoadOutcome)
      requires Valid()
      modifies this, panel
      ensures Valid() && dataTable == old(dataTable)
      ensures r == NoPath <==> path == ""
      ensures r == FileNotFound <==> path != "" && path !in disk.files
      ensures r == UnsupportedFormat <==> path != "" && path in disk.files && !HasModelSuffix(path)
      ensures r == DecodeError <==> path != "" && path in disk.files && HasModelSuffix(path) && disk.files[path] == Undecodable
      ensures r == NotARecord <==> path != "" && path in disk.files && HasModelSuffix(path)
                                   && disk.files[path].Artifact? && !disk.files[path].content.VDict?
      ensures r in {NoPath, FileNotFound, UnsupportedFormat, DecodeError, NotARecord} ==>
        CurrentFields() == old(CurrentFields()) && panel.labels == old(panel.labels) && panel.controls == old(panel.controls)
      ensures r == DisplayFailed || r == Loaded ==>
        && disk.files[path].Artifact? && disk.files[path].content.VDict?
        && CurrentFields() == LoadFields(disk.files[path].content.entries)
        && panel.controls == LoadedControls(old(panel.controls))
      ensures r == DisplayFailed <==> r != NoPath && r != FileNotFound && r != UnsupportedFormat && r != DecodeError
                                       && r != NotARecord && LoadDisplay(CurrentFields(), parse).None?
      ensures r == DisplayFailed ==> panel.labels == old(panel.labels).(prediction := None)
      ensures r == Loaded ==>
        var d := LoadDisplay(CurrentFields(), parse).value;
        panel.labels == old(panel.labels).(prediction := None, formula := d.formula, inputColumns := d.inputColumns,
                                           outputColumn := outputColumn, description := d.description, mse := d.mse, r2 := d.r2)
      ensures panel.constantText == old(panel.constantText)
    {
      if path == "" {
        return NoPath;
      }
      if path !in disk.files {
        return FileNotFound;
      }
      if !(EndsWith(path, ".pkl") || EndsWith(path, ".joblib")) {
        return UnsupportedFormat;
      }
      var stored := disk.files[path];
      if stored.Undecodable? {
        return DecodeError;
      }
      if !stored.content.VDict? {
        return NotARecord;
      }
      Restore(stored.content.entries);
      var display := LoadDisplay(CurrentFields(), parse);
      if display.None? {
        return DisplayFailed;
      }
      var d := display.value;
      panel.labels := panel.labels.(inputColumns := d.inputColumns, outputColumn := outputColumn, formula := d.formula,
                                    description := d.description, mse := d.mse, r2 := d.r2);
      r := Loaded;
    }
  }
}
