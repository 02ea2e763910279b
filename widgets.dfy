/** The state of the shared window that the back-end classes change: which
    controls are enabled or shown, the text of the constant entry, and what the
    formula, MSE and R2 labels display. Every back-end object holds a reference
    to the same panel, as the Python classes all hold the same widgets. */
module Widgets {
  import opened Values

  datatype Controls = Controls(
    loadFile: bool,
    preprocess: bool,
    nullMenu: bool,
    constantEntry: bool,
    constantShown: bool,
    selectColumns: bool,
    selectOutput: bool,
    createModel: bool,
    showModel: bool,
    predict: bool,
    save: bool)

  /** What an MSE or R2 label shows after its prefix: `None`, a number with four decimals, or `N/A`. */
  datatype MetricLabel = MetricNone | MetricText(text: string) | MetricNA

  /** What the labels show after their fixed prefixes ("Formula: ", "MSE: ",
      "R2: ", "Input Columns: ", "Output Column: ", "Description: "). A `Value`
      is shown as Python's `str()` of it (`VNone` reads "None"). `prediction`
      is the number after "Result: ", or `None` for "Result prediction: None". */
  datatype Labels = Labels(
    formula: Value,
    mse: MetricLabel,
    r2: MetricLabel,
    inputColumns: string,
    outputColumn: Value,
    description: Value,
    prediction: Option<real>)

  const InitialLabels := Labels(VNone, MetricNone, MetricNone, "None", VNone, VNone, None)

  class Panel {
    var controls: Controls
    var constantText: string
    var labels: Labels

    constructor (c: Controls)
      ensures controls == c && constantText == "" && labels == InitialLabels
    {
      controls := c;
      constantText := "";
      labels := InitialLabels;
    }

    /** The user types into the constant entry; a disabled entry ignores typing. */
    method TypeConstant(text: string)
      modifies this
      ensures constantText == if old(controls.constantEntry) then text else old(constantText)
      ensures controls == old(controls) && labels == old(labels)
    {
      if controls.constantEntry {
        constantText := text;
      }
    }
  }
}
