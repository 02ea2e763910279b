# Trendify back end in Dafny

Trendify is a desktop application for simple linear regression. It reads a
table from a CSV, Excel or SQLite file. The user remedies the missing
values, picks input columns and one output column, and fits a linear model.
The application shows the model's formula, MSE and R2, saves the model with
its description to a `.pkl` or `.joblib` file, loads it again, and turns
values typed by the user into a prediction.

This project models the five back-end classes that do this work:

| module | file | Python |
|---|---|---|
| `ReadFile` | `read_file.dfy` | `DataImport`: choosing a reader by extension |
| `Preprocess` | `preprocess.dfy` | `Preprocess`: the null census and the four remedies |
| `Columns` | `columns.dfy` | `Columns`: the input and output selection dialogs |
| `Model` | `model.dfy` | `Model`: the fit, its formula and metrics, plotting dispatch, save and load |
| `Prediction` | `predictions.dfy` | `Predictions`: parsing the formula back, the entries, the prediction |

Five support modules hold what these classes share:

- `Values`: the Python objects the session stores and saves (`None`, strings, numbers, lists, dicts, the regressor).
- `Tables`: the DataFrame, as named, typed columns of cells that may be missing.
- `Widgets`: one `Panel` object for the buttons and labels that all classes change. Every class holds a reference to the same panel, just as the Python classes hold the same widgets.
- `Text`: the Python `str` operations the parsers use (`strip`, `split`, `join`, `lower`, `endswith`, `isspace`).
- `Fixed`: the `:.4f` formatting, on exact reals, with ties rounded to even, and the reading of such text back.

Each class with mutable attributes is a Dafny `class`. Its methods state the
whole new state in `ensures`. Each message box becomes a returned outcome,
and each yes/no confirmation becomes a `confirmed` argument. Three things are
parameters of the methods that use them:

- Python's `float` on a string is `parse: string -> Option<real>`.
- The rendering of a numpy coefficient is `showCoef: real -> string`.
- The scikit-learn fit is `regress`, which yields coefficients, an intercept, R2 and MSE, or fails.

The file readers are `read: (ReaderKind, string) -> Option<Table>`. Files,
for save and load, are a `Disk` object that maps paths to stored artifacts.

Where the code and its documented intent differ, the model follows the code:

- The mean and median fills write 0. The code compares `type(value)` with the strings `'float64'` and `'int64'`, so the test always fails, and the computed mean or median is always replaced by 0 (`src/backend/preprocess.py:87-90`, `:106-108`).
- The file extension is the second dot-separated segment of the whole path, not the text after the last dot (`src/backend/read_file.py:104-108`). So `sales.2024.csv` and `./data.csv` are not readable.
- After any remedy, the constant entry is disabled before it is told to delete its text, so the typed text stays.

## Model

| member | source | states |
|---|---|---|
| `Text.StripEmptyIffAllSpace` | src/backend/predictions.py:173 | `v.strip() == ""` holds exactly when every character of `v` is whitespace |
| `Text.WordsOfJoin` | src/backend/predictions.py:40 | splitting space-joined tokens on whitespace gives the tokens back |
| `Text.SplitJoined` | src/backend/predictions.py:44 | splitting `", ".join(xs)` at commas gives the first item, then each later item with a leading space |
| `Text.SplitJoin` | src/backend/read_file.py:104 | joining the segments of `split(sep)` with `sep` gives the original text |
| `Text.SplitSecond` | src/backend/read_file.py:108 | the second segment is the text after the first separator, up to the next separator or the end |
| `Fixed.Format4Value` | src/backend/model.py:104 | `:.4f` text is decimal text whose value is the number rounded to four decimals |
| `Fixed.Round4Close` | src/backend/model.py:109-110 | the shown value differs from the true value by at most 0.00005 |
| `Fixed.Format4Chars` | src/backend/model.py:104 | `:.4f` text contains only digits, one point and a leading minus sign |
| `Fixed.Format4Eleven` | src/backend/predictions.py:159 | 11 is shown as `11.0000`, as the prediction test expects |
| `Tables.MissingCountPositive` | src/backend/preprocess.py:40-41 | a column has a positive null count exactly when one of its cells is missing |
| `Preprocess.CensusExact` | src/backend/preprocess.py:39-41 | the census maps exactly the columns with a missing cell to their number of missing cells, and holds nothing else |
| `Preprocess.CensusOfTable` | src/backend/preprocess.py:39-41 | the census of a table holds only the table's column names, each counted exactly |
| `Preprocess.CensusEmptyWhenComplete` | src/backend/preprocess.py:42-46 | a table with no missing cell has an empty census and takes the no-null branch |
| `Preprocess.DropMissingRowsSpec` | src/backend/preprocess.py:71 | `dropna` keeps the columns and their dtypes, and leaves no missing cell; the kept rows are exactly the complete rows, ascending, with their cells |
| `Preprocess.DropMissingRowsIdempotent` | src/backend/preprocess.py:71 | deleting rows a second time changes nothing |
| `Preprocess.DropMissingRowsClearsCensus` | src/backend/preprocess.py:71 | after deleting rows, a new census is empty |
| `Preprocess.FillNumericStep` | src/backend/preprocess.py:85-90 | one pass of the fill loop adds its column to the filled numeric columns, and skips a non-numeric one |
| `Preprocess.FillNumericShape` | src/backend/preprocess.py:85-90 | the fill keeps the table valid, its names and each column's dtype |
| `Preprocess.FillNumericSpec` | src/backend/preprocess.py:84-90 | the mean/median fill writes the value into the missing cells of censused numeric columns only; afterwards exactly the censused non-numeric columns still have nulls |
| `Preprocess.FillNumericCensus` | src/backend/preprocess.py:102-109 | after the fill, a column is still censused exactly when it was censused and is not numeric |
| `Preprocess.FillAllSpec` | src/backend/preprocess.py:157 | `fillna(constant)` fills every missing cell of every column, text columns included, keeps every other cell, and leaves an empty census |
| `Preprocess.Preprocessor.constructor` | src/backend/preprocess.py:9-32 | the table is the one given, and no census exists yet |
| `Preprocess.Preprocessor.PreprocessData` | src/backend/preprocess.py:36-56 | with no data, a warning and no change; otherwise the census is stored, and a non-empty one enables the option menu while an empty one goes on to column selection; the Preprocess button is disabled in both cases |
| `Preprocess.Preprocessor.FillCensusedWithZero` | src/backend/preprocess.py:84-90 | the loop over the census keys leaves the table equal to the zero-fill of its censused numeric columns |
| `Preprocess.Preprocessor.HandleNullOption` | src/backend/preprocess.py:60-124 | each option's effect once confirmed (row deletion, zero-fill, showing the constant entry); a declined, unknown or crashing option leaves table and controls unchanged; both directions for the declined and crash cases |
| `Preprocess.Preprocessor.ApplyConstantFill` | src/backend/preprocess.py:148-169 | filled exactly when confirmed, the entry parses and data is loaded; an unparsable entry warns and changes nothing |
| `Preprocess.Preprocessor.HideConstantEntry` | src/backend/preprocess.py:128-136 | Escape hides and disables the entry and nothing else |
| `Preprocess.Preprocessor.EnterKey` | src/backend/preprocess.py:138-146 | Return applies the constant fill only while the entry is shown; then it fills iff confirmed, the text parses and a table exists, with the remedy controls; declined and unparsable text are iffs, and every other outcome leaves the table and controls as they were; the census, labels and constant text never change |
| `Widgets.Panel.TypeConstant` | src/backend/preprocess.py:120-124 | typing reaches the constant entry only while it is enabled |
| `Columns.DedupSpec` | src/backend/columns.py:70-77 | the keys of `column_vars` have no repeats and are exactly the table's columns |
| `Columns.DedupDistinct` | src/backend/columns.py:73-77 | for columns without repeats, the keys are the columns in table order |
| `Columns.CheckedSpec` | src/backend/columns.py:131-133 | the selection holds exactly the ticked names, in dialog order |
| `Columns.SelectionFollowsTable` | src/backend/columns.py:131-133 | for a table's columns, the confirmed selection is exactly the ticked columns, in table order |
| `Columns.ColumnSelector.constructor` | src/backend/columns.py:22-30 | no boxes, an empty selection and no output column |
| `Columns.ColumnSelector.SelectColumns` | src/backend/columns.py:70-77 | the dialog has one unticked box per distinct column, because the previous selection is cleared first |
| `Columns.ColumnSelector.SetCheck` | src/backend/columns.py:74-82 | ticking a box changes only that box's variable |
| `Columns.ColumnSelector.ConfirmSelection` | src/backend/columns.py:124-150 | the selection becomes the ticked columns; it is accepted exactly when non-empty, and then it is shown joined by `", "`, the dialog closes and prediction is disabled |
| `Columns.ColumnSelector.CancelSelection` | src/backend/columns.py:107-117 | Cancel closes the dialog, and the cleared selection stays cleared |
| `Columns.ColumnSelector.SelectOutputColumn` | src/backend/columns.py:190-208 | the current output column is preselected when it is a column; otherwise nothing is selected |
| `Columns.ColumnSelector.ChooseOutput` | src/backend/columns.py:194-205 | choosing a radio button sets the radio variable only |
| `Columns.ColumnSelector.ConfirmOutputColumn` | src/backend/columns.py:246-270 | accepted exactly when a column is chosen; then it becomes the output column and is shown, the dialog closes, prediction is disabled and model creation enabled |
| `Columns.ColumnSelector.CancelOutput` | src/backend/columns.py:228-238 | Cancel closes the dialog and keeps the output column |
| `ReadFile.DispatchSpec` | src/backend/read_file.py:104-116 | no format exactly when the path has no dot; otherwise the reader is chosen by the lower-cased text between the first dot and the next one |
| `ReadFile.DispatchStemExt` | src/backend/read_file.py:108-114 | for `stem.ext` with one dot, the reader is chosen by `ext` in any case |
| `ReadFile.DispatchUpperCase` | src/backend/read_file.py:108-110 | `data.CSV` is read as CSV |
| `ReadFile.DispatchNoDot` | src/backend/read_file.py:105-106 | a path without a dot has no format |
| `ReadFile.DispatchThreeSegments` | src/backend/read_file.py:104-108 | for `a.b.c`, the reader is chosen by `b`, and `c` is never consulted |
| `ReadFile.DispatchTwoDots` | src/backend/read_file.py:104-116 | `sales.2024.csv` is rejected, as format `2024` |
| `ReadFile.DispatchRelativePath` | src/backend/read_file.py:104-116 | `./data.csv` is rejected, as format `/data` |
| `ReadFile.DataImport.constructor` | src/backend/read_file.py:10-18 | the path is kept, and no data is loaded |
| `ReadFile.DataImport.FileType` | src/backend/read_file.py:95-116 | returns the dispatch of the path, and runs only the reader it selects; a failing reader leaves the data as it was |
| `ReadFile.DataImport.Read` | src/backend/read_file.py:120-130 | returns the data after dispatching, and `None` when nothing was read |
| `Model.FitAttemptSpec` | src/backend/model.py:83-103 | each error in both directions: a missing selection, an unavailable table or column, a non-numeric column, and a failed fit (NaN in the data or a regressor failure); once the checks pass on data without NaN, the outcome is exactly the regressor's result on those columns |
| `Model.MissingCellFailsFit` | src/backend/model.py:99-100 | a missing cell in a selected numeric column makes the fit fail |
| `Model.SaveLoadRoundTrip` | src/backend/model.py:217-224 | the saved record has exactly the six keys, and loading it gives back every field |
| `Model.LoadDefaults` | src/backend/model.py:309-314 | absent keys load as `None`, `{}`, `[]`, `""`, `{}` and `None` |
| `Model.CoerceMetricsSpec` | src/backend/model.py:346-366 | numbers are shown with four decimals; "N/A" appears beside a number only when that metric was stored as "N/A"; an unparsable MSE makes both "N/A"; the display fails exactly when `float` raises a `TypeError` |
| `Model.JoinStrList` | src/backend/model.py:355 | the saved input columns come back as the same label text |
| `Model.LoadDisplaySpec` | src/backend/model.py:345-348 | a string formula is shown as it is, a dict shows its `formula` entry, an empty description reads "No description saved."; a formula or metrics of any other type makes the display fail |
| `Model.CreatedSessionDisplays` | src/backend/model.py:309-366 | after a save and a load, a created model shows its formula, its input columns, and MSE and R2 with four decimals |
| `Model.LoadTestRecord` | tests/test_load_model.py:38-44 | the loading test's record loads with no model and its string formula, and it displays |
| `Model.Session.constructor` | src/backend/model.py:37-43 | the initial attribute values |
| `Model.Session.CreateModel` | src/backend/model.py:60-118 | records the selection and the table; reminds exactly when no description is saved; the result is the fit attempt; the formula, metrics, labels and buttons for each outcome |
| `Model.Session.ShowModel` | src/backend/model.py:122-149 | no model, a crash, a 2D plot for one feature, a 3D plot for two, a message for more; nothing changes |
| `Model.Session.SaveModel` | src/backend/model.py:200-237 | cancelled for an empty path, rejected exactly for a path without the suffixes; otherwise the six-field record is written at that path, and no other file changes |
| `Model.Session.SaveDescription` | src/backend/model.py:239-253 | the text is stored, and it is shown exactly when it is non-empty |
| `Model.Session.LoadModel` | src/backend/model.py:257-367 | each failure, with both directions, leaves session and panel unchanged; a loaded record replaces the six fields with defaults, leaves only prediction available, and shows the display unless computing it raises |
| `Prediction.ParseRecorded` | src/backend/predictions.py:36 | the formula is read from the `formula` key of the dict |
| `Prediction.CoefficientTokensLayout` | src/backend/predictions.py:38-40 | the coefficient stage finds exactly the rendered coefficient words |
| `Prediction.ColumnNamesLayout` | src/backend/predictions.py:42-44 | the column stage finds exactly the column names |
| `Prediction.InterceptTextLayout` | src/backend/predictions.py:46 | the intercept stage finds exactly the intercept text |
| `Prediction.ParseLayout` | src/backend/predictions.py:36-46 | a formula in the layout the session writes parses into its own words, names and intercept text; only `float` on these can fail |
| `Prediction.CreatedFormulaParses` | src/backend/predictions.py:36-46 | a formula written by `create_model`, with coefficients rendered as plain words that `float` accepts, parses to the numbers `float` reads from those words, to its input columns, and to its intercept rounded to four decimals |
| `Prediction.CreatedFormulaExact` | src/backend/predictions.py:40 | when numpy prints every coefficient so that `float` reads it back exactly, the parsed coefficients are the fitted ones |
| `Prediction.ParseAllRendered` | src/backend/predictions.py:40 | the list comprehension over words that `float` accepts yields one number per word, the one `float` reads from it |
| `Prediction.TestFormulaLayout` | tests/test_predictions.py:8 | the test formula `y = [2.0] * ['x1'] + 5.0` has the session's layout, with plain parts |
| `Prediction.StringFormulaNotParsed` | src/backend/predictions.py:36 | a formula held as a bare string is not a dict, so the window cannot be built from it |
| `Prediction.DotTruncates` | src/backend/predictions.py:156 | `zip` ignores the coefficients or values beyond the shorter list |
| `Prediction.DotSnoc` | src/backend/predictions.py:156 | the sum grows by the product of one more coefficient and value |
| `Prediction.PredictSpec` | src/backend/predictions.py:145-175 | blank input exactly when some entry is all whitespace; not a number exactly when no entry is blank and some entry `float` refuses; a prediction exactly when every entry is non-blank and reads as a number |
| `Prediction.PredictValue` | src/backend/predictions.py:148-156 | when the entries read as the numbers `vs`, the prediction is the sum over `zip` of coefficient times value, plus the intercept |
| `Prediction.PredictTestValue` | tests/test_predictions.py:26-35 | coefficient 2.0, intercept 5.0 and input `3` predict 11, shown as `11.0000` |
| `Prediction.PredictTestBlank` | tests/test_predictions.py:13-24 | an empty entry is blank input |
| `Prediction.EmptyEntries` | src/backend/predictions.py:77-81 | one empty entry per column name, and no other entry |
| `Prediction.Predictions.constructor` | src/backend/predictions.py:11-27 | the formula is kept, and nothing is parsed yet |
| `Prediction.Predictions.Open` | src/backend/predictions.py:31-141 | the result is the parse of the formula; the attributes assigned before a failing stage keep their new values; the window, with an empty entry per column and an empty result, opens exactly on success |
| `Prediction.Predictions.Record` | src/backend/predictions.py:40-46 | the attributes each parse stage assigns, and the window exactly when every stage succeeds |
| `Prediction.Predictions.BuildWindow` | src/backend/predictions.py:77-113 | the entry loop builds one empty entry per column, and the result starts empty |
| `Prediction.Predictions.SetInput` | src/backend/predictions.py:91-96 | typing changes only that column's entry |
| `Prediction.Predictions.Calculate` | src/backend/predictions.py:145-161 | the outcome is the prediction on the entries in column order; on success the label shows the number and the result shows it with four decimals; otherwise nothing changes |
| `Prediction.Predictions.Close` | src/backend/predictions.py:134-141 | Close closes the window and keeps the parsed formula and the entries |

## Left out

- GUI layout (frames, packing, geometry, colours, fonts) and the message boxes: each message becomes a returned outcome.
- The bodies of the three file readers (pandas' CSV and Excel readers, the SQLite query): they are the `read` parameter. The crash in `read_sql`'s `finally` when `sqlite3.connect` itself raises is not modelled.
- The console output of `DataImport` (`print`).
- scikit-learn's least-squares fit, `predict` and `mean_squared_error`: the `regress` parameter. The model fixes only that NaN in the data makes the fit fail.
- The numpy printing of the coefficient array: added padding, line wrapping, `...` and precision options. `ArrayText` joins the rendered elements with single spaces. How far a coefficient parsed from that text lies from the fitted one is not bounded, because the rendering is the `showCoef` parameter.
- The matplotlib plots and their errors: `ShowModel` returns which plot would be drawn.
- Pickle and joblib bytes: a stored file either decodes to a value or does not. Write errors on save, loading a `.pkl` file written by joblib (and the reverse), and the file-existence race are left out.
- Python's `float()` on a string: the `parse` parameter. `float`'s `repr` in the "Result: " label: the label stores the real itself.
- DataFrame aliasing: tables are passed and stored as values.
- Dtypes other than "numeric" (int64, float64) and "other".
- `Model.Session.LoadModel`: does not model the file-path label, the clearing of the Treeview, or the `()` that a cancelled dialog can return on some platforms.
- `Model.JoinValue`: joining a non-empty dict of input columns (it iterates the keys) is treated as a failure.
- `Model.Repr`: faithful only for names without quotes, backslashes or unprintable characters. The formula round-trip lemmas (`Prediction.ParseLayout`, `Prediction.CreatedFormulaParses`) therefore require, through `Prediction.PlainName`, that every character of a column name is printable ASCII or printable Latin-1 (`Model.ReprKeeps`). Names with escaped characters fall outside them.
- `Text.Lower`: maps ASCII letters only.
- `Prediction.Predictions.BuildWindow`: a repeated column name shares one entry, and the orphaned first entry widget is not modelled.
- `Prediction.Predictions.Open`: requires a closed window; a second window opened over an open one is not modelled.
- Deleting text from a disabled Tk entry has no effect, so the remedies leave the constant text as it was.
- The `Columns` class is constructed in `src/frontend/gui.py` with a different argument list. That caller is not part of this model.
