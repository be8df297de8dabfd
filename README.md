# LCOV tracefile reader and report figures

A model of the coverage-report tool `tools/read_lcov.py`. The tool reads an LCOV
tracefile and writes one HTML page per source file plus an index page. Two
parts are modelled.

- **The reader, `parse_lcov`.** It scans the tracefile line by line and keeps
  two things: the name of the current source file, and a dictionary from file
  name to that file's line counts and function list. It acts on four records:
  - `SF:` starts a file;
  - `DA:` records a line's execution count;
  - `FN:` declares a function;
  - `FNDA:` records a function's hit count.

  Every other line is ignored. A `DA:`, `FN:` or `FNDA:` record is acted on
  only while the current file has a non-empty name. Such a record that is
  malformed then raises an exception, which ends the whole parse. Before the
  first `SF:`, or after an `SF:` whose name strips to "", these records are
  skipped, however malformed.
- **The figures each page is built from.** These are the total and maximum
  function hits, the number of covered functions, and the way each source
  line is shown: "N/A", or its count highlighted as zero, low or high hits.

The files:

- `wrappers.dfy`: `Option` and `Result`.
- `pystr.dfy`: the Python string built-ins the reader relies on, with definite
  meanings. These are `str.startswith()`, `str.strip()`, `str.split(",")`,
  `str.splitlines()` and base-10 `int()`, plus decimal rendering of integers
  for the round-trip lemmas. `int()` skips a different whitespace set from
  `str.strip()`: the ASCII separators U+001C to U+001F count as whitespace
  for `str.strip()` but make `int()` fail.
- `lcov.dfy`: the specification of the reader.
  - The data: `FunctionRecord`, `FileData`, `Report`, `ParseError`,
    `ParseState`.
  - `ReadRecord` reads one line as a `Record`.
  - `Apply` is one iteration of the loop.
  - `Run` folds the records over the state.
  - `Parse` is the whole reader.
- `lcov_parser.dfy`: `parse_lcov` as the tool runs it. It is a loop over the
  lines that updates the current file and the dictionary, with the inner
  search loop for `FNDA:`. Each method is proved equal to the specification.
- `lcov_props.dfy`: what the reader guarantees over whole inputs:
  - the keys of the result;
  - the records that are ignored;
  - what each record changes;
  - when a parse fails;
  - tracefiles written record by record, read back.
- `summary.dfy`: the figures of a file's page, and the per-line loop as a
  method.

The tool's exceptions are modelled as errors:

- A `ValueError` from `int()` becomes `InvalidInt(text)`.
- An `IndexError` on a missing second field becomes `MissingField`.

Python's dictionary keeps keys in insertion order, and the pages are generated
in that order. The model keeps that order too, as `Report.order`. A repeated
`SF:` keeps its key's place.

## Model

| member | source | states |
|---|---|---|
| PyStr.TrimStart | tools/read_lcov.py:15 | drops exactly the longest prefix of whitespace of the chosen kind: what is dropped is all whitespace, and what is left does not start with it |
| PyStr.TrimEnd | tools/read_lcov.py:15 | drops exactly the longest suffix of whitespace of the chosen kind: what is dropped is all whitespace, and what is left does not end with it |
| PyStr.IsSpace | tools/read_lcov.py:15 | the characters `str.strip()` removes; no ensures, StripAllSpaces and StripSkipsSeparator specify it |
| PyStr.IsIntSpace | tools/read_lcov.py:19 | the characters `int()` skips around a literal; no ensures, IntRejectsSeparator specifies it |
| PyStr.IsLineBreak | tools/read_lcov.py:13 | the characters `str.splitlines()` breaks lines at, with "\r\n" as one boundary; no ensures, FirstBreak, SplitLinesAfterBreak, SplitLinesAfterCrLf and SplitLinesAfterCr specify it |
| PyStr.StripBy | tools/read_lcov.py:15 | the result neither starts nor ends with whitespace of the chosen kind, and a string already so is unchanged |
| PyStr.Strip | tools/read_lcov.py:15 | `str.strip()`: the result neither starts nor ends with whitespace, and a string already so is unchanged |
| PyStr.StripIdempotent | tools/read_lcov.py:15 | stripping twice is stripping once |
| PyStr.StripAllSpaces | tools/read_lcov.py:99-101 | an all-whitespace line strips to "", so it is shown as "N/A" |
| PyStr.StripSkipsSeparator | tools/read_lcov.py:15 | `"\x1f5".strip()` is `"5"`: the separator U+001F counts as whitespace for `str.strip()` |
| PyStr.StartsWith | tools/read_lcov.py:14-27 | `str.startswith()`; no ensures, LcovProperties.TagPrefixes and LcovProperties.DiffersAt specify it |
| PyStr.Split | tools/read_lcov.py:18 | `split(",")` gives at least one part; no part contains a comma; joining the parts with commas gives the input back |
| PyStr.SplitAfterPart | tools/read_lcov.py:18 | a comma-free leading part comes off a split intact |
| PyStr.SplitWithoutSeparator | tools/read_lcov.py:18 | a comma-free string is one part |
| PyStr.SplitJoin | tools/read_lcov.py:18 | splitting a join of comma-free parts gives the parts back |
| PyStr.FirstBreak | tools/read_lcov.py:13 | the index of the first line boundary, or the length when there is none |
| PyStr.SplitLines | tools/read_lcov.py:13 | `splitlines()`: no line holds a line-boundary character; the exact lines are pinned down by SplitLinesLast, SplitLinesAfterBreak, SplitLinesAfterCrLf, SplitLinesAfterCr and SplitLinesJoinLines |
| PyStr.SplitLinesJoinLines | tools/read_lcov.py:13 | lines without boundaries, each written with a "\n", come back as the same lines |
| PyStr.FirstBreakAt | tools/read_lcov.py:13 | the first boundary of a joined text is the end of its first line |
| PyStr.SplitLinesLast | tools/read_lcov.py:13 | a text without line boundaries is one line, or no line when it is empty |
| PyStr.SplitLinesAfterBreak | tools/read_lcov.py:13 | a line ended by any boundary other than "\r" comes off intact, and the rest is split on its own |
| PyStr.SplitLinesAfterCrLf | tools/read_lcov.py:13 | a line ended by "\r\n" comes off intact: the pair is one boundary |
| PyStr.SplitLinesAfterCr | tools/read_lcov.py:13 | a line ended by a "\r" not followed by "\n" comes off intact |
| PyStr.DropUnderscores | tools/read_lcov.py:19 | removing `_` never lengthens a digit string and leaves one without `_` unchanged; DropUnderscoresRemovesAll and DropUnderscoresAt say which characters remain |
| PyStr.DropUnderscoresRemovesAll | tools/read_lcov.py:19 | no `_` is left, and every other character of the input is kept |
| PyStr.DropUnderscoresAppend | tools/read_lcov.py:19 | removing `_` from a concatenation removes it from each part |
| PyStr.DropLeadingUnderscore | tools/read_lcov.py:19 | a leading `_` is removed and the rest is treated alone |
| PyStr.DropUnderscoresAt | tools/read_lcov.py:19 | removing `_` from `a + "_" + b` gives the parts of `a` and `b` joined |
| PyStr.ShowNat | tools/read_lcov.py:19 | the decimal rendering is non-empty, all digits, and has the number as its value |
| PyStr.ShowIntPlain | tools/read_lcov.py:19 | a rendered integer holds no comma, whitespace or line boundary |
| PyStr.ParseIntShowInt | tools/read_lcov.py:19-20 | `int(str(n)) == n` for every integer |
| PyStr.ParseInt | tools/read_lcov.py:19-20 | base-10 `int()` on text, None where it raises `ValueError`; no ensures, ParseIntShowInt, ParseDigitGroup, UnderscoreBetweenDigits and IntRejectsSeparator specify it |
| PyStr.ParseDigitGroup | tools/read_lcov.py:19-20 | digits with single underscores between them are read as the value of the digits |
| PyStr.IsDigitGroup | tools/read_lcov.py:19-20 | the unsigned base-10 literal `int()` accepts: ASCII digits, starting and ending with a digit, with single underscores between them; no ensures, JoinWithUnderscore, JoinDirect and ParseDigitGroup specify it |
| PyStr.DecimalValue | tools/read_lcov.py:19-20 | the value of a digit string, most significant digit first; no ensures, ShowNat (its value is n) and ParseDigitGroup specify it |
| PyStr.ParseDigits | tools/read_lcov.py:19-20 | the value of an unsigned literal with its underscores dropped, or None when the text is not a digit group; no ensures, ParseDigitGroup and UnderscoreBetweenDigits specify it through ParseInt |
| PyStr.JoinWithUnderscore | tools/read_lcov.py:19-20 | two digit groups joined by one `_` form a digit group |
| PyStr.JoinDirect | tools/read_lcov.py:19-20 | two digit groups written together form a digit group |
| PyStr.UnderscoreBetweenDigits | tools/read_lcov.py:19-20 | `int(a + "_" + b)` succeeds and equals `int(a + b)` for digit groups `a` and `b` |
| PyStr.IntRejectsSeparator | tools/read_lcov.py:19-20 | `int("\x1f5")` fails, although `str.strip()` would skip the U+001F |
| Lcov.ReadAll | tools/read_lcov.py:13-14 | one record per line, the i-th being the i-th line read |
| Lcov.ReadRecord | tools/read_lcov.py:14-30 | which of the four branches a line takes, in the tool's order; no ensures, LcovProperties.TagPrefixes, LcovProperties.ReadTagged and LcovProperties.OtherByPrefix specify it |
| Lcov.DaFields | tools/read_lcov.py:18-20 | the `DA:` fields; no ensures, LcovProperties.DaFieldsFailIff and LcovProperties.DaFieldsReadsBack specify it |
| Lcov.NumberAndName | tools/read_lcov.py:23-25 | the `FN:`/`FNDA:` fields; no ensures, LcovProperties.NumberAndNameFailIff and LcovProperties.NumberAndNameReadsBack specify it |
| Lcov.SetFirstHits | tools/read_lcov.py:31-34 | the first function with the given name gets the hits; names, lines and length are unchanged; with no such function the list is unchanged |
| Lcov.Truthy | tools/read_lcov.py:17-27 | the `and current_file` test of lines 17, 22 and 27: the current name is neither None nor ""; no ensures, LcovProperties.IgnoredWithoutCurrent and LcovProperties.ApplyFailsIff specify it |
| Lcov.StartFile | tools/read_lcov.py:14-16 | `SF:name` makes `name` current with an empty entry; other entries and the key order stay, a new name is appended to the order; a well-formed state stays well formed |
| Lcov.SetCount | tools/read_lcov.py:17-21 | a `DA:` record sets one line's count and keeps every other count and the functions; bad fields give their error |
| Lcov.AddFunction | tools/read_lcov.py:22-26 | an `FN:` record appends one function with no hits and keeps the counts; bad fields give their error |
| Lcov.SetHits | tools/read_lcov.py:27-34 | an `FNDA:` record sets the hits of the first function of that name only, changes nothing when none has it, and keeps the counts; bad fields give their error |
| Lcov.Apply | tools/read_lcov.py:14-34 | one iteration keeps the state well formed: keys distinct, dictionary and key order agree, the current file has an entry |
| Lcov.Step | tools/read_lcov.py:14-34 | one line, read and applied, keeps the state well formed |
| Lcov.Run | tools/read_lcov.py:13-36 | the loop over all records keeps the state well formed |
| Lcov.Parse | tools/read_lcov.py:8-36 | the whole reader; no ensures, LcovParser.ParseLcov, LcovProperties.ParseKeys, LcovProperties.ErrorAbortsParse and LcovProperties.WrittenTracefile specify it |
| LcovParser.MarkFirstHits | tools/read_lcov.py:31-34 | the inner loop's result is `SetFirstHits`: the first function of that name gets the hits, then stop |
| LcovParser.RecordCount | tools/read_lcov.py:21 | the `DA:` update of the current file equals the specified step, error included |
| LcovParser.RecordFunction | tools/read_lcov.py:26 | the `FN:` append to the current file equals the specified step, error included |
| LcovParser.RecordHits | tools/read_lcov.py:31-34 | the `FNDA:` search-and-set equals the specified step, error included |
| LcovParser.ParseLine | tools/read_lcov.py:14-34 | one pass of the loop body, with its branch order and its `current_file` truthiness tests, equals `Step` |
| LcovParser.ParseLcov | tools/read_lcov.py:8-36 | the whole loop returns `Parse(content)`: the dictionary, or the error of the first malformed record |
| LcovProperties.TagPrefixes | tools/read_lcov.py:14-27 | a line starting with each tag is seen by that branch and no earlier one, and the body after the tag is what follows it |
| LcovProperties.DiffersAt | tools/read_lcov.py:14-27 | a line that differs from a tag at one position does not start with that tag |
| LcovProperties.ReadTagged | tools/read_lcov.py:14-30 | `SF:x` names `strip(x)`; `DA:x`, `FN:x` and `FNDA:x` are read from `x`; `FNDA:` never takes the `FN:` branch |
| LcovProperties.FunctionDataIsNotDecl | tools/read_lcov.py:22-28 | any line starting with "FNDA:" is read as function hits, never as a declaration |
| LcovProperties.OtherByPrefix | tools/read_lcov.py:14-34 | a line starting with none of `SF:`, `DA:`, `FN:`, `FNDA:` is not read, and from every well-formed state the step leaves the state as it was |
| LcovProperties.UnreadTags | tools/read_lcov.py:14-34 | `end_of_record`, `TN:`, `LF:`, `LH:`, `BRDA:`, `BRF:`, `BRH:`, `FNF:`, `FNH:` and `VER:` lines are ignored |
| LcovProperties.ReadAllAppend | tools/read_lcov.py:13 | reading a concatenation of lines reads each part |
| LcovProperties.RunAppend | tools/read_lcov.py:13-34 | running `a + b` runs `a`, then `b` unless `a` failed |
| LcovProperties.ErrorAbortsParse | tools/read_lcov.py:19-30 | a failing record ends the parse with its error, whatever follows |
| LcovProperties.ApplyShape | tools/read_lcov.py:14-34 | only `SF:` switches files or adds keys; any other record keeps the current file, the keys, their order and every other entry |
| LcovProperties.RecordNamesRead | tools/read_lcov.py:14-15 | the `SF:` records read from the lines carry the stripped names of the `SF:` lines |
| LcovProperties.AppendNew | tools/read_lcov.py:16 | dictionary insertion: the old keys come first and stay; every added key is a name that was not yet a key; the keys are the old ones plus the names, with no duplicates |
| LcovProperties.FirstIndex | tools/read_lcov.py:16 | the position of the first occurrence of a name |
| LcovProperties.FirstIndexTail | tools/read_lcov.py:16 | past a different first name, the first occurrence is one position further |
| LcovProperties.AppendNewOrder | tools/read_lcov.py:16 | the added keys come in the order of their names' first occurrence |
| LcovProperties.RunKeys | tools/read_lcov.py:14-16 | after any records, the keys are the old keys plus the `SF:` names, in order of first insertion |
| LcovProperties.ParseKeys | tools/read_lcov.py:8-36 | the result's keys are exactly the stripped `SF:` names, each once, in order of first appearance |
| LcovProperties.IgnoredWithoutCurrent | tools/read_lcov.py:17-27 | with no current file, or the current file "", records other than `SF:` change nothing and never fail, however malformed |
| LcovProperties.RecordsBeforeFirstSourceFile | tools/read_lcov.py:11-17 | lines before the first `SF:` line have no effect on the parse |
| LcovProperties.EmptyNameSourceFile | tools/read_lcov.py:15-17 | an `SF:` whose name strips to "" still creates an empty "" entry and makes it current, and the run up to the next `SF:` ends in exactly that state: everything after it is ignored |
| LcovProperties.UnreadIgnored | tools/read_lcov.py:13-34 | an ignored line can be dropped from anywhere without changing the result |
| LcovProperties.OnlyCurrentFileChanges | tools/read_lcov.py:17-34 | between two `SF:` records only the current file's entry changes |
| LcovProperties.SourceFileStep | tools/read_lcov.py:14-16 | `SF:` makes the name current and resets its entry; other entries stay; a new name is appended to the key order |
| LcovProperties.LineDataStep | tools/read_lcov.py:17-21 | `DA:n,c` sets line `n`'s count to `c` in the current file, and nothing else changes |
| LcovProperties.LineDataOverwrites | tools/read_lcov.py:21 | a second `DA:` for the same line cancels the first one's effect |
| LcovProperties.LaterLineDataWins | tools/read_lcov.py:21 | of two `DA:` records for one line, the later count is kept |
| LcovProperties.FunctionDeclStep | tools/read_lcov.py:22-26 | `FN:n,name` appends one function with no hits; duplicate names are kept |
| LcovProperties.FunctionDataStep | tools/read_lcov.py:27-34 | `FNDA:h,name` sets the hits of the first function with that name only, and changes nothing when there is none |
| LcovProperties.ApplyFailsIff | tools/read_lcov.py:17-30 | a record fails exactly when there is a current file and its fields do not convert; the error is theirs |
| LcovProperties.DaFieldsFailIff | tools/read_lcov.py:18-20 | `DA:` fields fail exactly when there are fewer than two, or either is not an integer |
| LcovProperties.NumberAndNameFailIff | tools/read_lcov.py:23-25 | `FN:`/`FNDA:` fields fail exactly when the name is missing or the number is not an integer |
| LcovProperties.SingleFieldFails | tools/read_lcov.py:18-25 | a body that is one well-formed number fails with the missing second field |
| LcovProperties.SplitThree | tools/read_lcov.py:18 | three comma-separated pieces split into the first two and the parts of the rest |
| LcovProperties.SplitTwo | tools/read_lcov.py:18 | two comma-separated comma-free pieces split into exactly the two |
| LcovProperties.DaIgnoresExtraFields | tools/read_lcov.py:18-20 | fields after the second comma of `DA:` are ignored |
| LcovProperties.NameIgnoresExtraFields | tools/read_lcov.py:23-25 | fields after the second comma of `FN:`/`FNDA:` are ignored |
| LcovProperties.SplitNumberAndText | tools/read_lcov.py:18 | a rendered number, a comma and comma-free text split into exactly the two |
| LcovProperties.NumberAndNameReadsBack | tools/read_lcov.py:23-25 | the body of a written `FN:`/`FNDA:` record gives back its number and stripped name |
| LcovProperties.DaFieldsReadsBack | tools/read_lcov.py:18-20 | the body of a written `DA:` record gives back its line and count |
| LcovProperties.DaLineReadsBack | tools/read_lcov.py:17-20 | a `DA:` record written from `(n, c)` reads back as `(n, c)` |
| LcovProperties.FnLineReadsBack | tools/read_lcov.py:22-25 | a written `FN:` record reads back as its line and stripped name |
| LcovProperties.FndaLineReadsBack | tools/read_lcov.py:27-30 | a written `FNDA:` record reads back as its hits and stripped name |
| LcovProperties.ApplyCountsLast | tools/read_lcov.py:21 | after a run of counts a line has a count exactly when it had one or some record names it, and the last record for it wins |
| LcovProperties.CountRecords | tools/read_lcov.py:17-21 | one `DA:` record per count, in order |
| LcovProperties.CountRecordsRun | tools/read_lcov.py:17-21 | a run of `DA:` records applies the counts in order to the current file only |
| LcovProperties.Declared | tools/read_lcov.py:26 | one function with no hits per declaration, in order |
| LcovProperties.DeclRecords | tools/read_lcov.py:22-26 | one `FN:` record per declaration, in order |
| LcovProperties.DeclRecordsRun | tools/read_lcov.py:22-26 | a run of `FN:` records appends the functions in order, duplicates included, to the current file only |
| LcovProperties.DaLines | tools/read_lcov.py:17 | one written `DA:` line per count, in order |
| LcovProperties.FnLines | tools/read_lcov.py:22 | one written `FN:` line per declaration, in order |
| LcovProperties.DaLineOneLine | tools/read_lcov.py:13 | a written `DA:` line holds no line boundary |
| LcovProperties.FnLineOneLine | tools/read_lcov.py:13 | a written `FN:` line with a one-line name holds no line boundary |
| LcovProperties.ReadDaLines | tools/read_lcov.py:17-20 | written `DA:` lines read back as their counts |
| LcovProperties.ReadFnLines | tools/read_lcov.py:22-25 | written `FN:` lines with plain names read back as their declarations |
| LcovProperties.DaLinesOneLine | tools/read_lcov.py:13 | no written `DA:` line holds a line boundary |
| LcovProperties.FnLinesOneLine | tools/read_lcov.py:13 | no written `FN:` line with a plain name holds a line boundary |
| LcovProperties.WrittenLinesOneLine | tools/read_lcov.py:13 | no line of a written tracefile holds a line boundary |
| LcovProperties.ReadWritten | tools/read_lcov.py:13-25 | the lines of a written tracefile are read as the records they were written from |
| LcovProperties.OneFile | tools/read_lcov.py:10-16 | the state with one file, current, holding the given data, is well formed |
| LcovProperties.CountsOnOneFile | tools/read_lcov.py:17-21 | `DA:` records on a fresh file give it exactly the counts, later winning |
| LcovProperties.DeclsOnOneFile | tools/read_lcov.py:22-26 | `FN:` records on a file without functions give it exactly the declared functions |
| LcovProperties.SourceFileFirst | tools/read_lcov.py:10-16 | from the start, `SF:name` gives the one empty, current file `name` |
| LcovProperties.RunWritten | tools/read_lcov.py:13-26 | `SF:`, then `DA:`, then `FN:` records give one file with those counts and functions |
| LcovProperties.WrittenTracefile | tools/read_lcov.py:8-36 | a written single-file tracefile parses to exactly one entry, whose counts are the `DA:` ones (the later record wins) and whose functions are the declared ones, in order, with no hits |
| Summary.MaxHits | tools/read_lcov.py:53 | 0 for no functions; otherwise an upper bound on every function's hits that some function attains |
| Summary.TotalHits | tools/read_lcov.py:52 | the sum of the hits; no ensures, Summary.TotalHitsAppend, Summary.MaxAtMostTotal, Summary.CoveredAtMostTotal and Summary.SetFirstHitsTotal specify it |
| Summary.CoveredFunctions | tools/read_lcov.py:56 | the number of functions with positive hits, at most the number of functions |
| Summary.TotalHitsAppend | tools/read_lcov.py:52 | the total hits of a concatenation is the sum of the totals |
| Summary.MaxAtMostTotal | tools/read_lcov.py:52-53 | with no negative hits, each function's hits, and so the maximum, lie between 0 and the total |
| Summary.CoveredAtMostTotal | tools/read_lcov.py:52-56 | with no negative hits, the covered count is at most the total hits |
| Summary.CoveredIffMaxPositive | tools/read_lcov.py:53-56 | some function is covered exactly when the maximum hits are positive |
| Summary.SetFirstHitsTotal | tools/read_lcov.py:31-34 | an `FNDA:` update moves the total by the new hits minus the old ones of that function |
| Summary.FreshlyDeclared | tools/read_lcov.py:26 | functions just declared give total, maximum and covered count all 0 |
| Summary.ClassifyLine | tools/read_lcov.py:99-106 | "N/A" exactly for stripped-empty, `end` or `--` lines; otherwise the line's count (0 if absent), zero hits exactly when 0, low exactly when below three tenths of the maximum, high otherwise |
| Summary.IsNotApplicable | tools/read_lcov.py:99-101 | the "N/A" test; no ensures, Summary.ClassifyLine and PyStr.StripAllSpaces specify it |
| Summary.HitClassOf | tools/read_lcov.py:106 | the highlight of a count; no ensures, Summary.ClassifyLine, Summary.HitClassMonotone and Summary.HitClassAntitone specify it |
| Summary.HitClassMonotone | tools/read_lcov.py:106 | among positive counts, more hits never give a lower highlight |
| Summary.HitClassAntitone | tools/read_lcov.py:106 | a larger maximum never gives a count a higher highlight |
| Summary.NoCoveredFunctionNoLowLine | tools/read_lcov.py:53-106 | with no covered function, no positive count is highlighted as low |
| Summary.ClassifySource | tools/read_lcov.py:98-109 | the per-line loop gives one view per source line, numbered from 1, each the specified view against the file's maximum hits |

## Left out

- The entity-component store of the repository is not modelled. Its files here, `jecs.d.ts`, `src/index.d.ts` and `lib/index.d.ts`, hold type declarations only, with no bodies to model.
- I/O is not modelled: creating the output directory, reading the tracefile and the source files, writing the pages, and the final message (lines 6, 38-44, 113-114, 135-136, 138-148). The source lines of a file are a parameter of `Summary.ClassifySource`.
- The HTML markup of the file pages and the index page is not modelled (lines 59-97, 102-103, 107-111, 118-124, 131-133). That includes the function table, its colours and its name-width figure (lines 85-92).
- `os.path.basename` and the page path (lines 48, 50, 127) are not modelled, as they are file-system naming only.
- The index page's per-file figures are covered only as far as `TotalHits` goes (line 128). Its function count (line 129) is the length of the list.
- The function coverage percentage (lines 57, 76) is floating-point output and is not modelled.
- Summary.HitClassOf: the threshold `count < max_hits * 0.3` is evaluated exactly, as `10 * count < 3 * maxHits`. The float product may round differently for very large hit counts. The `OverflowError` that the float conversion raises once `max_hits` reaches 2**1024 is not modelled either.
- PyStr.ParseInt: Python's `int()` also accepts non-ASCII decimal digits. Only ASCII digits, an optional sign, single underscores and surrounding `int()` whitespace are modelled. The limit of 4300 digits that Python 3.11 and later put on `int()` of a string is not modelled: longer literals are read.
- PyStr.IsLineBreak, PyStr.IsSpace and PyStr.IsIntSpace fix Python's line-boundary set (used by PyStr.SplitLines) and whitespace sets as character lists. No Unicode database is consulted.
- LcovParser.ParseLcov: the tool mutates nested dictionaries in place. The model replaces the current file's entry with an updated value, which has the same observable result, since no entry is shared.
- Lcov.Apply, Lcov.Step, Lcov.Run: their own contracts state only that the state stays well formed. What each record does is stated in the `LcovProperties` lemmas.
