/**
 * `parse_lcov` as the tool runs it: a loop over the lines of the tracefile
 * that updates the current file name and the files dictionary in place, with
 * an inner search loop for `FNDA:` records.
 */
module LcovParser {
  import opened Wrappers
  import opened PyStr
  import opened Lcov

  /** The `FNDA:` inner loop: find the first function called `name`, set its hits, stop. */
  method MarkFirstHits(functions: seq<FunctionRecord>, name: string, hits: int)
    returns (updated: seq<FunctionRecord>)
    ensures updated == SetFirstHits(functions, name, hits)
  {
    updated := functions;
    var i := 0;
    while i < |updated|
      invariant 0 <= i <= |functions| && updated == functions
      invariant forall j :: 0 <= j < i ==> functions[j].name != name
    {
      if updated[i].name == name {
        assert FirstNamed(functions, name, i);
        updated := updated[i := updated[i].(hits := hits)];
        break;
      }
      i := i + 1;
    }
  }

  /** `files[current_file]["coverage"][line_num] = execution_count`, once both fields converted. */
  method RecordCount(files: map<string, FileData>, order: seq<string>, current: Option<string>,
                     fields: Result<(int, int), ParseError>)
    returns (r: Result<ParseState, ParseError>)
    requires ParseState(Report(files, order), current).Valid() && Truthy(current)
    ensures r == Apply(ParseState(Report(files, order), current), LineData(fields))
  {
    if fields.Err? {
      return Err(fields.error);
    }
    var (lineNum, count) := fields.value;
    var fd := files[current.value];
    var updated := fd.(coverage := fd.coverage[lineNum := count]);
    r := Ok(ParseState(Report(files[current.value := updated], order), current));
  }

  /** `files[current_file]["functions"].append(...)`: a new function with no hits, once the fields converted. */
  method RecordFunction(files: map<string, FileData>, order: seq<string>, current: Option<string>,
                        fields: Result<(int, string), ParseError>)
    returns (r: Result<ParseState, ParseError>)
    requires ParseState(Report(files, order), current).Valid() && Truthy(current)
    ensures r == Apply(ParseState(Report(files, order), current), FunctionDecl(fields))
  {
    if fields.Err? {
      return Err(fields.error);
    }
    var (lineNum, functionName) := fields.value;
    var fd := files[current.value];
    var updated := fd.(functions := fd.functions + [FunctionRecord(functionName, lineNum, 0)]);
    r := Ok(ParseState(Report(files[current.value := updated], order), current));
  }

  /** The search over the current file's functions for the one that gets the hits, once the fields converted. */
  method RecordHits(files: map<string, FileData>, order: seq<string>, current: Option<string>,
                    fields: Result<(int, string), ParseError>)
    returns (r: Result<ParseState, ParseError>)
    requires ParseState(Report(files, order), current).Valid() && Truthy(current)
    ensures r == Apply(ParseState(Report(files, order), current), FunctionData(fields))
  {
    if fields.Err? {
      return Err(fields.error);
    }
    var (hitCount, functionName) := fields.value;
    var fd := files[current.value];
    var functions := MarkFirstHits(fd.functions, functionName, hitCount);
    r := Ok(ParseState(Report(files[current.value := fd.(functions := functions)], order), current));
  }

  /**
   * One pass of the loop body: the record the line holds, applied to the
   * current file name and the files dictionary, or the error it raises.
   */
  method ParseLine(files: map<string, FileData>, order: seq<string>, current: Option<string>, line: string)
    returns (r: Result<ParseState, ParseError>)
    requires ParseState(Report(files, order), current).Valid()
    ensures r == Step(ParseState(Report(files, order), current), line)
  {
    if StartsWith(line, "SF:") {
      var name := Strip(line[3..]);
      var order := order;
      if name !in files {
        order := order + [name];
      }
      r := Ok(ParseState(Report(files[name := EmptyFile], order), Some(name)));
    } else if StartsWith(line, "DA:") && Truthy(current) {
      assert ReadRecord(line) == LineData(DaFields(line[3..]));
      r := RecordCount(files, order, current, DaFields(line[3..]));
    } else if StartsWith(line, "FN:") && Truthy(current) {
      assert ReadRecord(line) == FunctionDecl(NumberAndName(line[3..]));
      r := RecordFunction(files, order, current, NumberAndName(line[3..]));
    } else if StartsWith(line, "FNDA:") && Truthy(current) {
      assert ReadRecord(line) == FunctionData(NumberAndName(line[5..]));
      r := RecordHits(files, order, current, NumberAndName(line[5..]));
    } else {
      r := Ok(ParseState(Report(files, order), current));
    }
  }

  /** Reads a whole tracefile; the result is the report, or the error of the first malformed record. */
  method ParseLcov(content: string) returns (result: Result<Report, ParseError>)
    ensures result == Parse(content)
  {
    var files: map<string, FileData> := map[];
    var order: seq<string> := [];
    var current: Option<string> := None;
    var lines := SplitLines(content);
    ghost var recs := ReadAll(lines);
    var i := 0;
    while i < |lines|
      invariant 0 <= i <= |lines|
      invariant ParseState(Report(files, order), current).Valid()
      invariant Run(Initial, recs) == Run(ParseState(Report(files, order), current), recs[i..])
    {
      ghost var st := ParseState(Report(files, order), current);
      assert Run(st, recs[i..]) == Then(Apply(st, recs[i]), recs[i + 1..]) by {
        assert recs[i..][0] == recs[i] && recs[i..][1..] == recs[i + 1..];
      }
      var r := ParseLine(files, order, current, lines[i]);
      if r.Err? {
        return Err(r.error);
      }
      files, order, current := r.value.report.files, r.value.report.order, r.value.current;
      i := i + 1;
    }
    return Ok(Report(files, order));
  }
}
