/** Choosing a reader by file extension and loading a table
    (`src/backend/read_file.py`). The readers themselves (pandas' CSV and Excel
    readers, the SQLite query) are a parameter: each either yields a table or
    fails with an exception that the reader catches, leaving the data unset. */
module ReadFile {
  import opened Values
  import opened Text
  import opened Tables

  datatype ReaderKind = Csv | Excel | Sql

  /** What `file_type` does with a path: no extension ("File format not
      found"), an extension it does not read ("Format not valid"), or a reader. */
  datatype Dispatch = NoFormat | Unsupported(extension: string) | Reader(kind: ReaderKind)

  /** The reader for a lower-cased extension. */
  function ReaderFor(extension: string): Option<ReaderKind> {
    if extension == "csv" then Some(Csv)
    else if extension == "xlsx" || extension == "xls" then Some(Excel)
    else if extension == "db" || extension == "sqlite" then Some(Sql)
    else None
  }

  /** The extension is the SECOND dot-separated segment of the whole path,
      lower-cased, not the text after the last dot. */
  function DispatchOf(path: string): Dispatch {
    var parts := Split(path, '.');
    if |parts| < 2 then NoFormat
    else
      var extension := Lower(parts[1]);
      match ReaderFor(extension)
      case Some(k) => Reader(k)
      case None => Unsupported(extension)
  }

  /** A path without a dot has no format; a path with one is judged by the text
      between its first dot and the next dot (or the end). */
  lemma DispatchSpec(path: string)
    ensures DispatchOf(path) == NoFormat <==> '.' !in path
    ensures '.' in path ==>
      var rest := path[FirstIndex(path, '.') + 1..];
      var segment := if '.' in rest then rest[..FirstIndex(rest, '.')] else rest;
      DispatchOf(path) == match ReaderFor(Lower(segment)) case Some(k) => Reader(k) case None => Unsupported(Lower(segment))
  {
    SplitHasTwo(path, '.');
    if '.' in path {
      SplitSecond(path, '.');
    }
  }

  /** For `stem.ext` with a single dot, the reader is chosen by `ext`, whatever its case. */
  lemma DispatchStemExt(stem: string, ext: string)
    requires '.' !in stem && '.' !in ext
    ensures DispatchOf(stem + "." + ext) == match ReaderFor(Lower(ext)) case Some(k) => Reader(k) case None => Unsupported(Lower(ext))
  {
    SplitAtSep(stem, ext, '.');
    SplitNoSep(ext, '.');
  }

  lemma DispatchUpperCase()
    ensures DispatchOf("data.CSV") == Reader(Csv)
  {
    DispatchStemExt("data", "CSV");
    assert Lower("CSV") == "csv";
  }

  lemma DispatchNoDot()
    ensures DispatchOf("housing") == NoFormat
  {
    DispatchSpec("housing");
  }

  /** For `a.b.c`, the reader is chosen by `b`: the text after the last dot is never consulted. */
  lemma DispatchThreeSegments(a: string, b: string, c: string)
    requires '.' !in a && '.' !in b && '.' !in c
    ensures DispatchOf(a + "." + b + "." + c) == match ReaderFor(Lower(b)) case Some(k) => Reader(k) case None => Unsupported(Lower(b))
  {
    assert a + "." + b + "." + c == a + ['.'] + (b + ['.'] + c);
    SplitAtSep(a, b + ['.'] + c, '.');
    SplitAtSep(b, c, '.');
  }

  /** A second dot in the name makes a readable file unreadable. */
  lemma DispatchTwoDots()
    ensures DispatchOf("sales.2024.csv") == Unsupported("2024")
  {
    var a, b, c := "sales", "2024", "csv";
    DispatchThreeSegments(a, b, c);
    assert a + "." + b + "." + c == "sales.2024.csv";
    assert Lower(b) == b;
    assert ReaderFor(b) == None;
  }

  /** So does a relative path starting with `./`. */
  lemma DispatchRelativePath()
    ensures DispatchOf("./data.csv") == Unsupported("/data")
  {
    var a, b, c := "", "/data", "csv";
    DispatchThreeSegments(a, b, c);
    assert a + "." + b + "." + c == "./data.csv";
    assert Lower(b) == b;
    assert ReaderFor(b) == None;
  }

  class DataImport {
    const file: string
    var data: Option<Table>

    constructor (path: string)
      ensures file == path && data == None
    {
      file := path;
      data := None;
    }

    /** `file_type`: runs the reader the extension selects. A reader that fails
        leaves `data` as it was; no reader runs without a known extension. */
    method FileType(read: (ReaderKind, string) -> Option<Table>) returns (d: Dispatch)
      modifies this
      ensures d == DispatchOf(file)
      ensures data == if d.Reader? && read(d.kind, file).Some? then read(d.kind, file) else old(data)
    {
      var parts := Split(file, '.');
      if |parts| < 2 {
        return NoFormat;
      }
      var extension := Lower(parts[1]);
      if extension == "csv" {
        d := Reader(Csv);
      } else if extension == "xlsx" || extension == "xls" {
        d := Reader(Excel);
      } else if extension == "db" || extension == "sqlite" {
        d := Reader(Sql);
      } else {
        return Unsupported(extension);
      }
      var loaded := read(d.kind, file);
      if loaded.Some? {
        data := loaded;
      }
    }

    /** `read_file`: dispatches, then returns the data, `None` when nothing was read. */
    method Read(read: (ReaderKind, string) -> Option<Table>) returns (r: Option<Table>)
      modifies this
      ensures r == data
      ensures data == if DispatchOf(file).Reader? && read(DispatchOf(file).kind, file).Some?
                      then read(DispatchOf(file).kind, file) else old(data)
    {
      var _ := FileType(read);
      r := data;
    }
  }
}
