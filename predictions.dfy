/** Predictions from a formula string (`src/backend/predictions.py`): the
    formula the session recorded is taken apart again with `split` and `strip`
    into coefficients, column names and an intercept, one entry per column
    collects a value, and the prediction is the dot product plus the intercept. */
module Prediction {
  import opened Values
  import opened Text
  import opened Fixed
  import opened Widgets
  import opened Model

  // ------------------------------------------------------ taking it apart

  /** `formula.split('=')[1].split('*')[0].strip().strip('[]').split()`, or
      `None` when there is no `=` and the index fails. */
  function CoefficientTokens(s: string): Option<seq<string>> {
    var sides := Split(s, '=');
    if |sides| < 2 then None
    else Some(Words(StripChars(Strip(Split(sides[1], '*')[0]), "[]")))
  }

  /** `formula.split('*')[1].split('+')[0].strip().strip("[]").split(',')`,
      each piece `strip(" '")`ed, or `None` when there is no `*`. */
  function ColumnNames(s: string): Option<seq<string>> {
    var factors := Split(s, '*');
    if |factors| < 2 then None
    else
      var pieces := Split(StripChars(Strip(Split(factors[1], '+')[0]), "[]"), ',');
      Some(seq(|pieces|, i requires 0 <= i < |pieces| => StripChars(pieces[i], " '")))
  }

  /** `formula.split('+')[-1].strip()`. */
  function InterceptText(s: string): string {
    var terms := Split(s, '+');
    Strip(terms[|terms| - 1])
  }

  /** `[float(x) for x in words]`, or `None` at the first word `float` refuses. */
  function ParseAll(words: seq<string>, parse: string -> Option<real>): Option<seq<real>> {
    if forall i :: 0 <= i < |words| ==> parse(words[i]).Some?
    then Some(seq(|words|, i requires 0 <= i < |words| && parse(words[i]).Some? => parse(words[i]).value))
    else None
  }

  /** How far the parsing at lines 36-46 gets. Each exception stops it, and
      the attributes already assigned keep their values: the coefficients
      before the columns, the columns before the intercept. */
  datatype ParseResult =
    | NotAFormula                 // not a dict with a string under "formula"
    | NoEquals                    // IndexError for the coefficients
    | BadCoefficient              // ValueError for a coefficient
    | NoStar(coefficients: seq<real>)       // IndexError for the columns
    | BadIntercept(coefficients: seq<real>, columns: seq<string>)  // ValueError for the intercept
    | Parsed(coefficients: seq<real>, columns: seq<string>, intercept: real)

  /** The stages combined: the coefficient words (`None` when the index
      failed), the column names (likewise) and the intercept text. */
  function Combine(words: Option<seq<string>>, columns: Option<seq<string>>, interceptText: string, parse: string -> Option<real>): ParseResult {
    match words
    case None => NoEquals
    case Some(ws) =>
      match ParseAll(ws, parse)
      case None => BadCoefficient
      case Some(cs) =>
        match columns
        case None => NoStar(cs)
        case Some(cols) =>
          match parse(interceptText)
          case None => BadIntercept(cs, cols)
          case Some(b) => Parsed(cs, cols, b)
  }

  /** The stages on the formula string itself. */
  function ParseText(s: string, parse: string -> Option<real>): ParseResult {
    Combine(CoefficientTokens(s), ColumnNames(s), InterceptText(s), parse)
  }

  /** `self.formula["formula"]` and the stages on it. */
  function ParseFormula(formula: Value, parse: string -> Option<real>): ParseResult {
    if formula.VDict? && "formula" in formula.entries && formula.entries["formula"].VStr?
    then ParseText(formula.entries["formula"].s, parse)
    else NotAFormula
  }

  lemma ParseRecorded(s: string, parse: string -> Option<real>)
    ensures ParseFormula(VDict(map["formula" := VStr(s)]), parse) == ParseText(s, parse)
  {
  }

  // ------------------------------------------------------------ round trip

  /** The layout `create_model` writes: `out = [t1 t2 ...] * ['c1', 'c2', ...] + b`. */
  function Layout(output: string, tokens: seq<string>, columns: seq<string>, interceptText: string): string {
    output + " = [" + Join(tokens, " ") + "] * " + ListRepr(columns) + " + " + interceptText
  }

  /** A rendered coefficient that survives the split: one word, no `=`, `*` or bracket. */
  predicate PlainToken(t: string) {
    IsToken(t) && '=' !in t && '*' !in t && '[' !in t && ']' !in t
  }

  /** A column name that survives `repr` and the split: only characters
      `repr` keeps as they are, none of `=`, `*`, `+`, `,` or a quote, and no
      space at either end. */
  predicate PlainName(c: string) {
    && (forall k :: 0 <= k < |c| ==> ReprKeeps(c[k]))
    && '=' !in c && '*' !in c && '+' !in c && ',' !in c && '\'' !in c && (c == [] || (c[0] != ' ' && c[|c| - 1] != ' '))
  }

  predicate PlainLayout(output: string, tokens: seq<string>, columns: seq<string>, interceptText: string) {
    && '=' !in output && '*' !in output
    && (forall i :: 0 <= i < |tokens| ==> PlainToken(tokens[i]))
    && columns != [] && (forall i :: 0 <= i < |columns| ==> PlainName(columns[i]))
    && '=' !in interceptText && '*' !in interceptText && '+' !in interceptText
    && interceptText != [] && !IsSpace(interceptText[0]) && !IsSpace(interceptText[|interceptText| - 1])
  }

  function Reprs(columns: seq<string>): seq<string> {
    seq(|columns|, i requires 0 <= i < |columns| => Repr(columns[i]))
  }

  lemma ListReprFree(columns: seq<string>, c: char)
    requires c != '[' && c != ']' && c != ',' && c != ' ' && c != '\''
    requires forall i :: 0 <= i < |columns| ==> c !in columns[i]
    ensures c !in ListRepr(columns)
  {
    var reprs := Reprs(columns);
    forall i | 0 <= i < |reprs|
      ensures c !in reprs[i]
    {
      assert reprs[i] == "'" + columns[i] + "'";
    }
    JoinFree(reprs, ", ", c);
  }

  lemma EqualsSplit(output: string, j: string, rest: string)
    requires '=' !in output && '=' !in j && '=' !in rest
    ensures var sides := Split(output + " = [" + j + "] * " + rest, '=');
      |sides| >= 2 && sides[1] == " [" + j + "] " + ['*'] + (" " + rest)
  {
    var r := " [" + j + "] * " + rest;
    assert r == " [" + j + "] " + ['*'] + (" " + rest);
    assert output + " = [" + j + "] * " + rest == (output + " ") + ['='] + r;
    SplitAtSep(output + " ", r, '=');
    SplitNoSep(r, '=');
  }

  /** The first segment of `" [x] " + sep + rest` split at `sep` is the bracketed part. */
  lemma BracketSplitFirst(x: string, rest: string, sep: char)
    requires sep !in x && sep != ' ' && sep != '[' && sep != ']'
    ensures Split(" [" + x + "] " + [sep] + rest, sep)[0] == " [" + x + "] "
  {
    SplitAtSep(" [" + x + "] ", rest, sep);
  }

  lemma StarSplit(head: string, inner: string, interceptText: string)
    requires '*' !in head && '*' !in inner && '*' !in interceptText
    ensures var factors := Split(head + "* [" + inner + "] + " + interceptText, '*');
      |factors| >= 2 && factors[1] == " [" + inner + "] " + ['+'] + (" " + interceptText)
  {
    var tail := " [" + inner + "] + " + interceptText;
    assert tail == " [" + inner + "] " + ['+'] + (" " + interceptText);
    assert head + "* [" + inner + "] + " + interceptText == head + ['*'] + tail;
    SplitAtSep(head, tail, '*');
    SplitNoSep(tail, '*');
  }

  lemma PlusSplitLast(head: string, interceptText: string)
    requires '+' !in interceptText
    ensures var terms := Split(head + " + " + interceptText, '+');
      terms[|terms| - 1] == " " + interceptText
  {
    assert head + " + " + interceptText == (head + " ") + ['+'] + (" " + interceptText);
    SplitLast(head + " ", " " + interceptText, '+');
  }

  /** `" [x] ".strip().strip("[]")` is `x` when `x` neither starts nor ends with a bracket. */
  lemma Unbracket(x: string)
    requires x == [] || (x[0] !in "[]" && x[|x| - 1] !in "[]")
    ensures StripChars(Strip(" [" + x + "] "), "[]") == x
  {
    assert " [" + x + "] " == [' ', '['] + x + [']', ' '];
    StripUnwrap(x, '[', ']', "[]");
  }

  /** `" (x) ".strip().strip(chars)` is `x` for non-blank brackets in `chars`
      around an `x` whose ends are not in `chars`. */
  lemma StripUnwrap(x: string, open: char, close: char, chars: string)
    requires !IsSpace(open) && !IsSpace(close) && open in chars && close in chars
    requires x == [] || (x[0] !in chars && x[|x| - 1] !in chars)
    ensures StripChars(Strip([' ', open] + x + [close, ' ']), chars) == x
  {
    var bracketed := [open] + x + [close];
    assert [' ', open] + x + [close, ' '] == [' '] + bracketed + [' '];
    TrimFrame([' '], bracketed, [' '], IsSpace);
    StripCharsFrame([open], x, [close], chars);
  }

  lemma StripLead(t: string)
    requires t != [] && !IsSpace(t[0]) && !IsSpace(t[|t| - 1])
    ensures Strip(" " + t) == t
  {
    TrimFrame(" ", t, "", IsSpace);
    assert " " + t + "" == " " + t;
  }

  /** The coefficient stage: the text between `= [` and the following `] *`, split into words. */
  lemma CoefficientPart(output: string, j: string, rest: string)
    requires '=' !in output && '=' !in j && '=' !in rest && '*' !in j
    requires j == [] || (j[0] !in "[]" && j[|j| - 1] !in "[]")
    ensures CoefficientTokens(output + " = [" + j + "] * " + rest) == Some(Words(j))
  {
    EqualsSplit(output, j, rest);
    BracketSplitFirst(j, " " + rest, '*');
    Unbracket(j);
  }

  /** The column stage: the text between `* [` and the following `] +`, split at commas. */
  lemma ColumnPart(head: string, inner: string, interceptText: string)
    requires '*' !in head && '*' !in inner && '+' !in inner && '*' !in interceptText
    requires inner == [] || (inner[0] !in "[]" && inner[|inner| - 1] !in "[]")
    ensures var pieces := Split(inner, ',');
      ColumnNames(head + "* [" + inner + "] + " + interceptText) == Some(seq(|pieces|, i requires 0 <= i < |pieces| => StripChars(pieces[i], " '")))
  {
    StarSplit(head, inner, interceptText);
    BracketSplitFirst(inner, " " + interceptText, '+');
    Unbracket(inner);
  }

  /** The intercept stage: the text after the last `+`, stripped. */
  lemma InterceptPart(head: string, interceptText: string)
    requires '+' !in interceptText
    requires interceptText != [] && !IsSpace(interceptText[0]) && !IsSpace(interceptText[|interceptText| - 1])
    ensures InterceptText(head + " + " + interceptText) == interceptText
  {
    PlusSplitLast(head, interceptText);
    StripLead(interceptText);
  }

  /** `", ".join(repr(c) for c in columns).split(',')`, each piece stripped of
      spaces and quotes, gives the names back. */
  lemma ReprPieces(columns: seq<string>)
    requires columns != [] && forall i :: 0 <= i < |columns| ==> PlainName(columns[i])
    ensures var pieces := Split(Join(Reprs(columns), ", "), ',');
      seq(|pieces|, i requires 0 <= i < |pieces| => StripChars(pieces[i], " '")) == columns
  {
    var reprs := Reprs(columns);
    forall i | 0 <= i < |reprs|
      ensures ',' !in reprs[i]
    {
      assert reprs[i] == "'" + columns[i] + "'";
    }
    assert ", " == [','] + " ";
    SplitJoined(reprs, ',', " ");
    var pieces := Split(Join(reprs, ", "), ',');
    assert |pieces| == |columns|;
    forall i | 0 <= i < |pieces|
      ensures StripChars(pieces[i], " '") == columns[i]
    {
      var c := columns[i];
      assert PlainName(c);
      assert c == [] || (c[0] !in " '" && c[|c| - 1] !in " '");
      if i == 0 {
        assert pieces[i] == "'" + c + "'";
        StripCharsFrame("'", c, "'", " '");
      } else {
        assert pieces[i] == " '" + c + "'";
        StripCharsFrame(" '", c, "'", " '");
      }
    }
  }

  /** The joined reprs start and end with a quote. */
  lemma ReprsEnds(columns: seq<string>)
    requires columns != []
    ensures var inner := Join(Reprs(columns), ", ");
      inner != [] && inner[0] == '\'' && inner[|inner| - 1] == '\''
  {
    var reprs := Reprs(columns);
    forall i | 0 <= i < |reprs|
      ensures reprs[i] != [] && reprs[i][0] == '\'' && reprs[i][|reprs[i]| - 1] == '\''
    {
      assert reprs[i] == "'" + columns[i] + "'";
    }
    JoinEnds(reprs, ", ");
  }

  /** The coefficient words come back from the layout. */
  lemma CoefficientTokensLayout(output: string, tokens: seq<string>, columns: seq<string>, interceptText: string)
    requires PlainLayout(output, tokens, columns, interceptText)
    ensures CoefficientTokens(Layout(output, tokens, columns, interceptText)) == Some(tokens)
  {
    var j := Join(tokens, " ");
    var rest := ListRepr(columns) + " + " + interceptText;
    assert Layout(output, tokens, columns, interceptText) == output + " = [" + j + "] * " + rest;
    forall i | 0 <= i < |tokens| ensures '=' !in tokens[i] && '*' !in tokens[i] && tokens[i] != [] { }
    JoinFree(tokens, " ", '=');
    JoinFree(tokens, " ", '*');
    ListReprFree(columns, '=');
    if tokens != [] {
      JoinEnds(tokens, " ");
      assert tokens[0][0] in tokens[0];
      assert tokens[|tokens| - 1][|tokens[|tokens| - 1]| - 1] in tokens[|tokens| - 1];
    }
    CoefficientPart(output, j, rest);
    forall i | 0 <= i < |tokens| ensures IsToken(tokens[i]) { }
    WordsOfJoin(tokens);
  }

  /** The column names come back from the layout. */
  lemma ColumnNamesLayout(output: string, tokens: seq<string>, columns: seq<string>, interceptText: string)
    requires PlainLayout(output, tokens, columns, interceptText)
    ensures ColumnNames(Layout(output, tokens, columns, interceptText)) == Some(columns)
  {
    var j := Join(tokens, " ");
    var inner := Join(Reprs(columns), ", ");
    var head := output + " = [" + j + "] ";
    assert Layout(output, tokens, columns, interceptText) == head + "* [" + inner + "] + " + interceptText;
    forall i | 0 <= i < |tokens| ensures '*' !in tokens[i] { }
    JoinFree(tokens, " ", '*');
    ListReprFree(columns, '*');
    ListReprFree(columns, '+');
    assert ListRepr(columns) == "[" + inner + "]";
    ReprsEnds(columns);
    ColumnPart(head, inner, interceptText);
    ReprPieces(columns);
  }

  /** The intercept text comes back from the layout. */
  lemma InterceptTextLayout(output: string, tokens: seq<string>, columns: seq<string>, interceptText: string)
    requires PlainLayout(output, tokens, columns, interceptText)
    ensures InterceptText(Layout(output, tokens, columns, interceptText)) == interceptText
  {
    var head := output + " = [" + Join(tokens, " ") + "] * " + ListRepr(columns);
    assert Layout(output, tokens, columns, interceptText) == head + " + " + interceptText;
    InterceptPart(head, interceptText);
  }

  /** Parsing a formula laid out as `create_model` writes it finds exactly its
      coefficient words, its column names and its intercept text: what is
      left to fail is `float` on a word or on the intercept. */
  lemma ParseLayout(output: string, tokens: seq<string>, columns: seq<string>, interceptText: string, parse: string -> Option<real>)
    requires PlainLayout(output, tokens, columns, interceptText)
    ensures ParseFormula(VDict(map["formula" := VStr(Layout(output, tokens, columns, interceptText))]), parse)
      == Combine(Some(tokens), Some(columns), interceptText, parse)
  {
    var s := Layout(output, tokens, columns, interceptText);
    CoefficientTokensLayout(output, tokens, columns, interceptText);
    ColumnNamesLayout(output, tokens, columns, interceptText);
    InterceptTextLayout(output, tokens, columns, interceptText);
    ParseStages(s, tokens, columns, interceptText, parse);
    ParseRecorded(s, parse);
  }

  /** The stages put together, for any text whose three parts are known. */
  lemma ParseStages(s: string, tokens: seq<string>, columns: seq<string>, interceptText: string, parse: string -> Option<real>)
    requires CoefficientTokens(s) == Some(tokens) && ColumnNames(s) == Some(columns) && InterceptText(s) == interceptText
    ensures ParseText(s, parse)
      == Combine(Some(tokens), Some(columns), interceptText, parse)
  {
  }

  /** The rendered coefficients. */
  function CoefficientWords(coefficients: seq<real>, showCoef: real -> string): seq<string> {
    seq(|coefficients|, i requires 0 <= i < |coefficients| => showCoef(coefficients[i]))
  }

  lemma FormulaTextLayout(output: string, coefficients: seq<real>, columns: seq<string>, intercept: real, showCoef: real -> string)
    ensures FormulaText(output, coefficients, columns, intercept, showCoef)
      == Layout(output, CoefficientWords(coefficients, showCoef), columns, Format4(intercept))
  {
  }

  /** The intercept text has none of the characters the parse splits at. */
  lemma Format4Plain(x: real)
    ensures var b := Format4(x);
      && '=' !in b && '*' !in b && '+' !in b
      && b != [] && !IsSpace(b[0]) && !IsSpace(b[|b| - 1])
  {
    Format4Chars(x);
  }

  /** A formula the session creates parses back to the numbers `float` reads
      from its rendered coefficients, its input columns and its intercept
      rounded to four decimals, provided each coefficient is rendered as one
      plain word that `float` accepts, the names are plain, and `float` reads
      decimal text as its value. numpy prints a coefficient to eight
      significant digits, so the parsed coefficient is in general not the
      fitted one. */
  lemma CreatedFormulaParses(output: string, coefficients: seq<real>, columns: seq<string>, intercept: real,
                             showCoef: real -> string, parse: string -> Option<real>)
    requires '=' !in output && '*' !in output
    requires forall i :: 0 <= i < |coefficients| ==> PlainToken(showCoef(coefficients[i])) && parse(showCoef(coefficients[i])).Some?
    requires columns != [] && forall i :: 0 <= i < |columns| ==> PlainName(columns[i])
    requires forall t :: IsDecimal(t) ==> parse(t) == Some(DecimalValue(t))
    ensures var r := ParseFormula(VDict(map["formula" := VStr(FormulaText(output, coefficients, columns, intercept, showCoef))]), parse);
      && r.Parsed?
      && |r.coefficients| == |coefficients|
      && (forall i :: 0 <= i < |coefficients| ==> parse(showCoef(coefficients[i])) == Some(r.coefficients[i]))
      && r.columns == columns
      && r.intercept == Round4(intercept)
  {
    var tokens := CoefficientWords(coefficients, showCoef);
    var b := Format4(intercept);
    FormulaTextLayout(output, coefficients, columns, intercept, showCoef);
    Format4Plain(intercept);
    Format4Value(intercept);
    assert parse(b) == Some(Round4(intercept));
    assert PlainLayout(output, tokens, columns, b);
    ParseLayout(output, tokens, columns, b, parse);
    ParseAllRendered(coefficients, showCoef, parse);
  }

  /** When numpy prints every coefficient so that `float` reads it back
      exactly, the formula parses back to the fitted coefficients themselves. */
  lemma CreatedFormulaExact(output: string, coefficients: seq<real>, columns: seq<string>, intercept: real,
                            showCoef: real -> string, parse: string -> Option<real>)
    requires '=' !in output && '*' !in output
    requires forall i :: 0 <= i < |coefficients| ==> PlainToken(showCoef(coefficients[i])) && parse(showCoef(coefficients[i])) == Some(coefficients[i])
    requires columns != [] && forall i :: 0 <= i < |columns| ==> PlainName(columns[i])
    requires forall t :: IsDecimal(t) ==> parse(t) == Some(DecimalValue(t))
    ensures ParseFormula(VDict(map["formula" := VStr(FormulaText(output, coefficients, columns, intercept, showCoef))]), parse)
      == Parsed(coefficients, columns, Round4(intercept))
  {
    CreatedFormulaParses(output, coefficients, columns, intercept, showCoef, parse);
    var r := ParseFormula(VDict(map["formula" := VStr(FormulaText(output, coefficients, columns, intercept, showCoef))]), parse);
    assert r.coefficients == coefficients;
  }

  /** Words that `float` accepts parse, one number per word, to what `float` reads from each. */
  lemma ParseAllRendered(coefficients: seq<real>, showCoef: real -> string, parse: string -> Option<real>)
    requires forall i :: 0 <= i < |coefficients| ==> parse(showCoef(coefficients[i])).Some?
    ensures var p := ParseAll(CoefficientWords(coefficients, showCoef), parse);
      && p.Some? && |p.value| == |coefficients|
      && forall i :: 0 <= i < |coefficients| ==> parse(showCoef(coefficients[i])) == Some(p.value[i])
  {
    var words := CoefficientWords(coefficients, showCoef);
    assert forall i :: 0 <= i < |words| ==> words[i] == showCoef(coefficients[i]);
  }

  /** The formula of the test suite, `y = [2.0] * ['x1'] + 5.0`, has the
      layout `create_model` writes, with plain parts, so `ParseLayout` reads it
      as the coefficient `2.0`, the column `x1` and the intercept `5.0`. */
  lemma TestFormulaLayout()
    ensures Layout("y", ["2.0"], ["x1"], "5.0") == "y = [2.0] * ['x1'] + 5.0"
    ensures PlainLayout("y", ["2.0"], ["x1"], "5.0")
  {
    var columns := ["x1"];
    assert Join(["2.0"], " ") == "2.0";
    assert |Reprs(columns)| == 1 && Reprs(columns)[0] == "'x1'";
    assert Reprs(columns) == ["'x1'"];
    assert ListRepr(columns) == "['x1']";
    assert IsToken("2.0");
  }

  /** A formula loaded as a bare string (as a saved artifact may hold it) is
      not a dict, so the prediction window cannot be built from it. */
  lemma StringFormulaNotParsed(text: string, parse: string -> Option<real>)
    ensures ParseFormula(VStr(text), parse) == NotAFormula
  {
  }

  // ------------------------------------------------------------ prediction

  /** `sum(c * v for c, v in zip(cs, vs))`: `zip` stops at the shorter list. */
  function Dot(cs: seq<real>, vs: seq<real>): real
    decreases |cs|
  {
    if cs == [] || vs == [] then 0.0 else cs[0] * vs[0] + Dot(cs[1..], vs[1..])
  }

  /** The extra coefficients or values beyond the shorter list are ignored. */
  lemma {:induction false} DotTruncates(cs: seq<real>, vs: seq<real>)
    ensures var m := if |cs| <= |vs| then |cs| else |vs|;
      Dot(cs, vs) == Dot(cs[..m], vs[..m])
    decreases |cs|
  {
    if cs != [] && vs != [] {
      DotTruncates(cs[1..], vs[1..]);
      var m := if |cs| <= |vs| then |cs| else |vs|;
      assert cs[..m][1..] == cs[1..][..m - 1];
      assert vs[..m][1..] == vs[1..][..m - 1];
    }
  }

  /** The product with one more coefficient and value at the end. */
  lemma {:induction false} DotSnoc(cs: seq<real>, vs: seq<real>, c: real, v: real)
    requires |cs| == |vs|
    ensures Dot(cs + [c], vs + [v]) == Dot(cs, vs) + c * v
    decreases |cs|
  {
    if cs != [] {
      assert (cs + [c])[1..] == cs[1..] + [c];
      assert (vs + [v])[1..] == vs[1..] + [v];
      DotSnoc(cs[1..], vs[1..], c, v);
    }
  }

  /** Text that `strip()` turns into `""`. */
  predicate AllSpace(t: string) {
    forall k :: 0 <= k < |t| ==> IsSpace(t[k])
  }

  datatype PredictOutcome = BlankInput | NotANumber | Predicted(p: real)

  /** `calculate_prediction` on the entry texts: a blank entry stops it before
      the `try` (so nothing changes); a text `float` refuses is reported; the
      rest is the dot product plus the intercept. */
  function Predict(coefficients: seq<real>, intercept: real, texts: seq<string>, parse: string -> Option<real>): PredictOutcome {
    if exists i :: 0 <= i < |texts| && Strip(texts[i]) == "" then BlankInput
    else if exists i :: 0 <= i < |texts| && parse(texts[i]).None? then NotANumber
    else Predicted(Dot(coefficients, seq(|texts|, i requires 0 <= i < |texts| && parse(texts[i]).Some? => parse(texts[i]).value)) + intercept)
  }

  /** An entry counts as blank exactly when it is all whitespace; a text that
      `float` refuses among non-blank entries is reported; a prediction is made
      exactly when every entry reads as a number. */
  lemma PredictSpec(coefficients: seq<real>, intercept: real, texts: seq<string>, parse: string -> Option<real>)
    ensures Predict(coefficients, intercept, texts, parse) == BlankInput <==> exists i :: 0 <= i < |texts| && AllSpace(texts[i])
    ensures Predict(coefficients, intercept, texts, parse) == NotANumber <==>
      (forall i :: 0 <= i < |texts| ==> !AllSpace(texts[i])) && exists i :: 0 <= i < |texts| && parse(texts[i]).None?
    ensures Predict(coefficients, intercept, texts, parse).Predicted? <==>
      forall i :: 0 <= i < |texts| ==> !AllSpace(texts[i]) && parse(texts[i]).Some?
  {
    forall i | 0 <= i < |texts|
      ensures Strip(texts[i]) == "" <==> AllSpace(texts[i])
    {
      StripEmptyIffAllSpace(texts[i]);
    }
  }

  /** When every entry is filled in and reads as the number `vs[i]`, the
      prediction is the sum of the coefficients times those numbers, over the
      shorter of the two lists, plus the intercept. */
  lemma PredictValue(coefficients: seq<real>, intercept: real, texts: seq<string>, vs: seq<real>, parse: string -> Option<real>)
    requires |vs| == |texts|
    requires forall i :: 0 <= i < |texts| ==> !AllSpace(texts[i]) && parse(texts[i]) == Some(vs[i])
    ensures Predict(coefficients, intercept, texts, parse) == Predicted(Dot(coefficients, vs) + intercept)
  {
    NoneBlank(texts);
    var read := seq(|texts|, i requires 0 <= i < |texts| && parse(texts[i]).Some? => parse(texts[i]).value);
    assert forall i :: 0 <= i < |texts| ==> read[i] == vs[i];
    assert read == vs;
  }

  /** Entries that are not all whitespace do not strip to `""`. */
  lemma NoneBlank(texts: seq<string>)
    requires forall i :: 0 <= i < |texts| ==> !AllSpace(texts[i])
    ensures forall i :: 0 <= i < |texts| ==> Strip(texts[i]) != ""
  {
    forall i | 0 <= i < |texts|
      ensures Strip(texts[i]) != ""
    {
      StripEmptyIffAllSpace(texts[i]);
    }
  }

  /** The tests' valid input: `2.0 * 3 + 5.0`, shown as `11.0000`. */
  lemma PredictTestValue(parse: string -> Option<real>)
    requires parse("3") == Some(3.0)
    ensures Predict([2.0], 5.0, ["3"], parse) == Predicted(11.0)
    ensures Format4(11.0) == "11.0000"
  {
    assert Strip("3") != "" by {
      StripEmptyIffAllSpace("3");
      assert !IsSpace("3"[0]);
    }
    assert seq(1, i requires 0 <= i < 1 && parse(["3"][i]).Some? => parse(["3"][i]).value) == [3.0];
    Format4Eleven();
  }

  /** The tests' missing input. */
  lemma PredictTestBlank(parse: string -> Option<real>)
    ensures Predict([2.0], 5.0, [""], parse) == BlankInput
  {
    assert Strip([""][0]) == "";
  }

  // ---------------------------------------------------------------- window

  /** `column_vars` as the window builds it: an empty entry per name, one
      entry for a name that appears twice. */
  function EmptyEntries(names: seq<string>): (m: map<string, string>)
    ensures forall i :: 0 <= i < |names| ==> names[i] in m && m[names[i]] == ""
    ensures forall c :: c in m ==> c in names
  {
    if names == [] then map[] else EmptyEntries(names[..|names| - 1])[names[|names| - 1] := ""]
  }

  class Predictions {
    const panel: Panel
    const formula: Value
    var coefficients: Option<seq<real>>
    var columns: Option<seq<string>>
    var intercept: Option<real>
    /** One entry per distinct column name; a repeated name shares the entry. */
    var inputs: map<string, string>
    /** The read-only result entry. */
    var result: string
    var windowOpen: bool

    ghost predicate Valid()
      reads this
    {
      windowOpen ==>
        (coefficients.Some? && columns.Some? && intercept.Some?
         && forall i :: 0 <= i < |columns.value| ==> columns.value[i] in inputs)
    }

    constructor (f: Value, p: Panel)
      ensures Valid() && formula == f && panel == p
      ensures coefficients == None && columns == None && intercept == None
      ensures inputs == map[] && result == "" && !windowOpen
    {
      formula := f;
      panel := p;
      coefficients := None;
      columns := None;
      intercept := None;
      inputs := map[];
      result := "";
      windowOpen := false;
    }

    /** `predictions`: parses the formula and, when every stage succeeds,
        opens the window with an empty entry per column and an empty result. */
    method Open(parse: string -> Option<real>) returns (r: ParseResult)
      requires !windowOpen
      modifies this
      ensures Valid()
      ensures r == ParseFormula(formula, parse)
      ensures coefficients == if r.NoStar? || r.BadIntercept? || r.Parsed? then Some(r.coefficients) else old(coefficients)
      ensures columns == if r.BadIntercept? || r.Parsed? then Some(r.columns) else old(columns)
      ensures intercept == if r.Parsed? then Some(r.intercept) else old(intercept)
      ensures windowOpen <==> r.Parsed?
      ensures r.Parsed? ==> inputs == EmptyEntries(r.columns) && result == ""
      ensures !r.Parsed? ==> inputs == old(inputs) && result == old(result)
    {
      r := ParseFormula(formula, parse);
      Record(r);
    }

    /** The attributes assigned before the stage that failed, and the window
        when none did. */
    method Record(r: ParseResult)
      requires !windowOpen
      modifies this
      ensures Valid()
      ensures coefficients == if r.NoStar? || r.BadIntercept? || r.Parsed? then Some(r.coefficients) else old(coefficients)
      ensures columns == if r.BadIntercept? || r.Parsed? then Some(r.columns) else old(columns)
      ensures intercept == if r.Parsed? then Some(r.intercept) else old(intercept)
      ensures windowOpen <==> r.Parsed?
      ensures r.Parsed? ==> inputs == EmptyEntries(r.columns) && result == ""
      ensures !r.Parsed? ==> inputs == old(inputs) && result == old(result)
    {
      if r.Parsed? {
        BuildWindow(r.coefficients, r.columns, r.intercept);
      } else {
        if r.NoStar? || r.BadIntercept? {
          coefficients := Some(r.coefficients);
        }
        if r.BadIntercept? {
          columns := Some(r.columns);
        }
      }
    }

    /** The part of `predictions` after a successful parse: the attributes,
        then an entry per column (the loop at lines 79-97) and an empty result. */
    method BuildWindow(cs: seq<real>, cols: seq<string>, b: real)
      modifies this
      ensures Valid() && windowOpen
      ensures coefficients == Some(cs) && columns == Some(cols) && intercept == Some(b)
      ensures inputs == EmptyEntries(cols) && result == ""
    {
      coefficients := Some(cs);
      columns := Some(cols);
      intercept := Some(b);
      var entries := map[];
      var i := 0;
      while i < |cols|
        invariant 0 <= i <= |cols|
        invariant entries == EmptyEntries(cols[..i])
      {
        entries := entries[cols[i] := ""];
        assert cols[..i + 1][..i] == cols[..i];
        i := i + 1;
      }
      assert cols[..i] == cols;
      inputs := entries;
      result := "";
      windowOpen := true;
    }

    /** The user types into the entry of a column. */
    method SetInput(column: string, text: string)
      requires Valid() && windowOpen && column in inputs
      modifies this
      ensures Valid() && windowOpen
      ensures inputs == old(inputs)[column := text]
      ensures coefficients == old(coefficients) && columns == old(columns) && intercept == old(intercept) && result == old(result)
    {
      inputs := inputs[column := text];
    }

    /** The entry texts in column order. */
    function EntryTexts(): seq<string>
      reads this
      requires Valid() && windowOpen
    {
      var names, entries := columns.value, inputs;
      seq(|names|, i requires 0 <= i < |names| => entries[names[i]])
    }

    /** `calculate_prediction`: on success the result label gets the number
        and the result entry its four-decimal text; otherwise nothing changes. */
    method Calculate(parse: string -> Option<real>) returns (r: PredictOutcome)
      requires Valid() && windowOpen
      modifies this, panel
      ensures Valid() && windowOpen
      ensures r == Predict(old(coefficients.value), old(intercept.value), old(EntryTexts()), parse)
      ensures r.Predicted? ==> panel.labels == old(panel.labels).(prediction := Some(r.p)) && result == Format4(r.p)
      ensures !r.Predicted? ==> panel.labels == old(panel.labels) && result == old(result)
      ensures panel.controls == old(panel.controls) && panel.constantText == old(panel.constantText)
      ensures coefficients == old(coefficients) && columns == old(columns) && intercept == old(intercept) && inputs == old(inputs)
    {
      r := Predict(coefficients.value, intercept.value, EntryTexts(), parse);
      if r.Predicted? {
        panel.labels := panel.labels.(prediction := Some(r.p));
        result := Format4(r.p);
      }
    }

    /** The Close button destroys the window. */
    method Close()
      modifies this
      ensures !windowOpen && Valid()
      ensures coefficients == old(coefficients) && columns == old(columns) && intercept == old(intercept)
      ensures inputs == old(inputs) && result == old(result)
    {
      windowOpen := false;
    }
  }
}
