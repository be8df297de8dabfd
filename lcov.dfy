/**
 * The LCOV tracefile reader of the coverage-report tool: the data it builds
 * and the record-by-record transition that specifies it.
 *
 * The reader handles the `SF:` (source file), `DA:` (line count), `FN:`
 * (function declaration) and `FNDA:` (function hit count) records, one per
 * line, and ignores every other line. Its state is the name of the current
 * file plus a dictionary from file name to that file's line counts and its
 * list of functions.
 *
 * The specification first reads each line into a `Record` and then folds the
 * records over the state. Reading a line is pure, so reading the fields of a
 * record that is then ignored (no current file) changes nothing: the fold
 * fails on exactly the lines where the tool raises.
 */
module Lcov {
  import opened Wrappers
  import opened PyStr

  /** One entry of a file's function list. */
  datatype FunctionRecord = FunctionRecord(name: string, line: int, hits: int)

  /** What the reader keeps per file: line number to execution count, and the functions in input order. */
  datatype FileData = FileData(coverage: map<int, int>, functions: seq<FunctionRecord>)

  const EmptyFile := FileData(map[], [])

  /**
   * The reader's result: the dictionary from file name to data, together with
   * its keys in insertion order (the order the report pages are generated in).
   */
  datatype Report = Report(files: map<string, FileData>, order: seq<string>)

  /** Why a parse fails: `int()` rejected a field, or the second field is missing. */
  datatype ParseError = InvalidInt(text: string) | MissingField

  /** The loop's state: the report so far and the current file, None before any `SF:`. */
  datatype ParseState = ParseState(report: Report, current: Option<string>)
  {
    ghost predicate Valid()
    {
      && Distinct(report.order)
      && (forall f :: f in report.files <==> f in report.order)
      && (current.Some? ==> current.value in report.files)
    }
  }

  const Initial := ParseState(Report(map[], []), None)

  ghost predicate Distinct(s: seq<string>)
  {
    forall i, j :: 0 <= i < j < |s| ==> s[i] != s[j]
  }

  /** Python truthiness of `current_file`: neither None nor the empty string. */
  predicate Truthy(current: Option<string>)
  {
    current.Some? && current.value != ""
  }

  // ---------------------------------------------------------------- reading one line

  /** One line of the tracefile, read: which record it is, and its fields or why they do not convert. */
  datatype Record =
    | SourceFile(name: string)
    | LineData(counts: Result<(int, int), ParseError>)
    | FunctionDecl(decl: Result<(int, string), ParseError>)
    | FunctionData(hits: Result<(int, string), ParseError>)
    | Unread

  /** The fields of a `DA:` body: the line number, then the execution count. */
  function DaFields(body: string): Result<(int, int), ParseError>
  {
    var parts := Split(body, ',');
    match ParseInt(parts[0])
    case None => Err(InvalidInt(parts[0]))
    case Some(n) =>
      if |parts| < 2 then Err(MissingField)
      else
        match ParseInt(parts[1])
        case None => Err(InvalidInt(parts[1]))
        case Some(c) => Ok((n, c))
  }

  /** The fields of an `FN:` or `FNDA:` body: a number, then the stripped function name. */
  function NumberAndName(body: string): Result<(int, string), ParseError>
  {
    var parts := Split(body, ',');
    match ParseInt(parts[0])
    case None => Err(InvalidInt(parts[0]))
    case Some(n) =>
      if |parts| < 2 then Err(MissingField)
      else Ok((n, Strip(parts[1])))
  }

  /** Reads a line by its prefix, tried in the tool's order; any other line is not read. */
  function ReadRecord(line: string): Record
  {
    if StartsWith(line, "SF:") then SourceFile(Strip(line[3..]))
    else if StartsWith(line, "DA:") then LineData(DaFields(line[3..]))
    else if StartsWith(line, "FN:") then FunctionDecl(NumberAndName(line[3..]))
    else if StartsWith(line, "FNDA:") then FunctionData(NumberAndName(line[5..]))
    else Unread
  }

  /** Every line, read. */
  function ReadAll(lines: seq<string>): (r: seq<Record>)
    ensures |r| == |lines|
    ensures forall i :: 0 <= i < |lines| ==> r[i] == ReadRecord(lines[i])
  {
    if lines == [] then [] else [ReadRecord(lines[0])] + ReadAll(lines[1..])
  }

  // ---------------------------------------------------------------- applying one record

  /** Index `k` is the first function of `fns` called `name`. */
  predicate FirstNamed(fns: seq<FunctionRecord>, name: string, k: int)
  {
    0 <= k < |fns| && fns[k].name == name && forall j :: 0 <= j < k ==> fns[j].name != name
  }

  /**
   * What an `FNDA:` record does to a function list: the first function called
   * `name` gets `hits`; nothing else changes, and nothing at all when no
   * function has that name.
   */
  function SetFirstHits(fns: seq<FunctionRecord>, name: string, hits: int): (r: seq<FunctionRecord>)
    ensures |r| == |fns|
    ensures forall i :: 0 <= i < |fns| ==> r[i].name == fns[i].name && r[i].line == fns[i].line
    ensures (forall i :: 0 <= i < |fns| ==> fns[i].name != name) ==> r == fns
    ensures forall k :: FirstNamed(fns, name, k) ==> r == fns[k := fns[k].(hits := hits)]
  {
    if fns == [] then []
    else if fns[0].name == name then
      var r := [fns[0].(hits := hits)] + fns[1..];
      assert r == fns[0 := fns[0].(hits := hits)];
      assert forall k :: FirstNamed(fns, name, k) ==> k == 0;
      r
    else
      var tail := fns[1..];
      var rest := SetFirstHits(tail, name, hits);
      var r := [fns[0]] + rest;
      assert forall k :: FirstNamed(fns, name, k) ==> r == fns[k := fns[k].(hits := hits)] by {
        forall k | FirstNamed(fns, name, k)
          ensures r == fns[k := fns[k].(hits := hits)]
        {
          assert FirstNamed(tail, name, k - 1);
          assert rest == tail[k - 1 := tail[k - 1].(hits := hits)];
        }
      }
      r
  }

  /** Whether a record is one of those that update the current file. */
  predicate ForCurrentFile(rec: Record)
  {
    rec.LineData? || rec.FunctionDecl? || rec.FunctionData?
  }

  /** A `DA:` record on the current file: the line's count is set, replacing any earlier one. */
  function SetCount(fd: FileData, counts: Result<(int, int), ParseError>): (r: Result<FileData, ParseError>)
    ensures counts.Err? ==> r == Err(counts.error)
    ensures counts.Ok? ==> r.Ok? && r.value.functions == fd.functions
    ensures counts.Ok? ==> r.value.coverage.Keys == fd.coverage.Keys + {counts.value.0}
    ensures counts.Ok? ==> r.value.coverage[counts.value.0] == counts.value.1
    ensures counts.Ok? ==> forall l :: l in fd.coverage && l != counts.value.0 ==> r.value.coverage[l] == fd.coverage[l]
  {
    match counts
    case Err(e) => Err(e)
    case Ok((n, c)) => Ok(fd.(coverage := fd.coverage[n := c]))
  }

  /** An `FN:` record on the current file: one function with no hits is appended. */
  function AddFunction(fd: FileData, decl: Result<(int, string), ParseError>): (r: Result<FileData, ParseError>)
    ensures decl.Err? ==> r == Err(decl.error)
    ensures decl.Ok? ==> r.Ok? && r.value.coverage == fd.coverage
    ensures decl.Ok? ==> |r.value.functions| == |fd.functions| + 1 && r.value.functions[..|fd.functions|] == fd.functions
    ensures decl.Ok? ==> r.value.functions[|fd.functions|] == FunctionRecord(decl.value.1, decl.value.0, 0)
  {
    match decl
    case Err(e) => Err(e)
    case Ok((n, name)) => Ok(fd.(functions := fd.functions + [FunctionRecord(name, n, 0)]))
  }

  /** An `FNDA:` record on the current file: the first function of that name gets the hits. */
  function SetHits(fd: FileData, hits: Result<(int, string), ParseError>): (r: Result<FileData, ParseError>)
    ensures hits.Err? ==> r == Err(hits.error)
    ensures hits.Ok? ==> r.Ok? && r.value.coverage == fd.coverage && |r.value.functions| == |fd.functions|
    ensures hits.Ok? ==> forall k :: FirstNamed(fd.functions, hits.value.1, k) ==>
      r.value.functions == fd.functions[k := fd.functions[k].(hits := hits.value.0)]
    ensures hits.Ok? && (forall i :: 0 <= i < |fd.functions| ==> fd.functions[i].name != hits.value.1) ==>
      r.value.functions == fd.functions
  {
    match hits
    case Err(e) => Err(e)
    case Ok((h, name)) => Ok(fd.(functions := SetFirstHits(fd.functions, name, h)))
  }

  /** A `DA:`, `FN:` or `FNDA:` record applied to the current file's data, or the error of its fields. */
  function ApplyToFile(fd: FileData, rec: Record): Result<FileData, ParseError>
    requires ForCurrentFile(rec)
  {
    match rec
    case LineData(counts) => SetCount(fd, counts)
    case FunctionDecl(decl) => AddFunction(fd, decl)
    case FunctionData(hits) => SetHits(fd, hits)
  }

  /** An `SF:` record: `name` becomes current and its entry starts over, empty. */
  function StartFile(rep: Report, name: string): (r: ParseState)
    ensures r.current == Some(name)
    ensures r.report.files.Keys == rep.files.Keys + {name} && r.report.files[name] == EmptyFile
    ensures forall f :: f in rep.files && f != name ==> r.report.files[f] == rep.files[f]
    ensures name in rep.files ==> r.report.order == rep.order
    ensures name !in rep.files ==> r.report.order == rep.order + [name]
    ensures ParseState(rep, None).Valid() ==> r.Valid()
  {
    assert name !in rep.files && ParseState(rep, None).Valid() ==> name !in rep.order;
    var order := if name in rep.files then rep.order else rep.order + [name];
    ParseState(Report(rep.files[name := EmptyFile], order), Some(name))
  }

  /** The current file's data. */
  function CurrentData(st: ParseState): FileData
    requires st.Valid() && st.current.Some?
  {
    st.report.files[st.current.value]
  }

  /** The state with the current file's data replaced by `fd`. */
  function WithCurrent(st: ParseState, fd: FileData): (r: ParseState)
    requires st.Valid() && st.current.Some?
    ensures r.Valid()
  {
    st.(report := st.report.(files := st.report.files[st.current.value := fd]))
  }

  /** One iteration of the tool's loop, on a line read as `rec`. */
  function Apply(st: ParseState, rec: Record): (r: Result<ParseState, ParseError>)
    requires st.Valid()
    ensures r.Ok? ==> r.value.Valid()
  {
    match rec
    case SourceFile(name) =>
      assert ParseState(st.report, None).Valid();
      Ok(StartFile(st.report, name))
    case Unread => Ok(st)
    case _ =>
      if !Truthy(st.current) then Ok(st)
      else
        match ApplyToFile(CurrentData(st), rec)
        case Err(e) => Err(e)
        case Ok(fd) => Ok(WithCurrent(st, fd))
  }

  /** One iteration of the tool's loop on one line of the tracefile. */
  function Step(st: ParseState, line: string): (r: Result<ParseState, ParseError>)
    requires st.Valid()
    ensures r.Ok? ==> r.value.Valid()
  {
    Apply(st, ReadRecord(line))
  }

  /** The loop over the remaining records; the first failing one aborts it. */
  function Run(st: ParseState, recs: seq<Record>): (r: Result<ParseState, ParseError>)
    requires st.Valid()
    ensures r.Ok? ==> r.value.Valid()
    decreases |recs|
  {
    if recs == [] then Ok(st)
    else
      match Apply(st, recs[0])
      case Err(e) => Err(e)
      case Ok(next) => Run(next, recs[1..])
  }

  /** Carries on with `recs` after a step, unless the step failed. */
  function Then(r: Result<ParseState, ParseError>, recs: seq<Record>): Result<ParseState, ParseError>
    requires r.Ok? ==> r.value.Valid()
  {
    match r
    case Err(e) => Err(e)
    case Ok(st) => Run(st, recs)
  }

  /** `parse_lcov(content)`: the report, or the error that aborted it. */
  function Parse(content: string): Result<Report, ParseError>
  {
    match Run(Initial, ReadAll(SplitLines(content)))
    case Err(e) => Err(e)
    case Ok(st) => Ok(st.report)
  }
}
