/**
 * What the tracefile reader guarantees, stated over whole inputs: how a line
 * is read, which keys the result has, which records are ignored, what each
 * record changes, and when the parse fails.
 */
module LcovProperties {
  import opened Wrappers
  import opened PyStr
  import opened Lcov

  // ---------------------------------------------------------------- reading lines

  /** Which of the four tags a line that starts with one of them starts with. */
  lemma TagPrefixes(x: string)
    ensures var line := "SF:" + x; StartsWith(line, "SF:") && line[3..] == x
    ensures var line := "DA:" + x; !StartsWith(line, "SF:") && StartsWith(line, "DA:") && line[3..] == x
    ensures var line := "FN:" + x;
      !StartsWith(line, "SF:") && !StartsWith(line, "DA:") && StartsWith(line, "FN:") && line[3..] == x
    ensures var line := "FNDA:" + x;
      && !StartsWith(line, "SF:") && !StartsWith(line, "DA:") && !StartsWith(line, "FN:")
      && StartsWith(line, "FNDA:") && line[5..] == x
  {
    var sf, da, fn, fnda := "SF:" + x, "DA:" + x, "FN:" + x, "FNDA:" + x;
    assert sf[..3] == "SF:";
    assert da[..3] == "DA:" && da[0] == 'D';
    assert fn[..3] == "FN:" && fn[0] == 'F';
    assert fnda[..5] == "FNDA:" && fnda[0] == 'F' && fnda[2] == 'D';
    assert "SF:"[0] == 'S' && "DA:"[0] == 'D' && "FN:"[2] == ':';
  }

  /** Each of the four tags selects its record, whatever follows it; `FNDA:` never counts as `FN:`. */
  lemma ReadTagged(x: string)
    ensures ReadRecord("SF:" + x) == SourceFile(Strip(x))
    ensures ReadRecord("DA:" + x) == LineData(DaFields(x))
    ensures ReadRecord("FN:" + x) == FunctionDecl(NumberAndName(x))
    ensures ReadRecord("FNDA:" + x) == FunctionData(NumberAndName(x))
  {
    TagPrefixes(x);
  }

  /** A line starting with "FNDA:" is read as function hits, from the text after the tag. */
  lemma FunctionDataIsNotDecl(line: string)
    requires StartsWith(line, "FNDA:")
    ensures ReadRecord(line) == FunctionData(NumberAndName(line[5..]))
  {
    assert line == "FNDA:" + line[5..];
    ReadTagged(line[5..]);
  }

  /** A line that starts with none of "SF:", "DA:", "FN:", "FNDA:" is not read, and no state changes for it. */
  lemma OtherByPrefix(line: string)
    requires !StartsWith(line, "SF:") && !StartsWith(line, "DA:")
    requires !StartsWith(line, "FN:") && !StartsWith(line, "FNDA:")
    ensures ReadRecord(line) == Unread
    ensures forall st: ParseState :: st.Valid() ==> Step(st, line) == Ok(st)
  {
  }

  /** A line that differs from `prefix` at position `k` does not start with it. */
  lemma DiffersAt(line: string, prefix: string, k: nat)
    requires k < |prefix| && k < |line| && line[k] != prefix[k]
    ensures !StartsWith(line, prefix)
  {
    if |prefix| <= |line| {
      assert line[..|prefix|][k] == line[k];
    }
  }

  /**
   * `end_of_record` is not read (it does not close the current file), and
   * neither are the records the reader has no use for: test name, line,
   * function and branch totals, branch data, version.
   */
  lemma UnreadTags(tag: string, x: string)
    requires tag in ["TN:", "LF:", "LH:", "BRDA:", "BRF:", "BRH:", "FNF:", "FNH:", "VER:"]
    ensures ReadRecord("end_of_record") == Unread
    ensures ReadRecord(tag + x) == Unread
  {
    var line := tag + x;
    var eor := "end_of_record";
    DiffersAt(eor, "SF:", 0);
    DiffersAt(eor, "DA:", 0);
    DiffersAt(eor, "FN:", 0);
    DiffersAt(eor, "FNDA:", 0);
    OtherByPrefix(eor);
    assert line[0] == tag[0] && line[2] == tag[2];
    DiffersAt(line, "SF:", 0);
    DiffersAt(line, "DA:", 0);
    if tag[0] == 'F' {
      DiffersAt(line, "FN:", 2);
      DiffersAt(line, "FNDA:", 2);
    } else {
      DiffersAt(line, "FN:", 0);
      DiffersAt(line, "FNDA:", 0);
    }
    OtherByPrefix(line);
  }

  /** Reading the lines of `a + b` reads those of `a`, then those of `b`. */
  lemma ReadAllAppend(a: seq<string>, b: seq<string>)
    ensures ReadAll(a + b) == ReadAll(a) + ReadAll(b)
  {
  }

  // ---------------------------------------------------------------- composition

  /** Running `a + b` is running `a` and then, unless that failed, running `b`. */
  lemma {:induction false} RunAppend(st: ParseState, a: seq<Record>, b: seq<Record>)
    requires st.Valid()
    ensures Run(st, a + b) == Then(Run(st, a), b)
    decreases |a|
  {
    if a == [] {
      assert a + b == b;
    } else {
      assert (a + b)[0] == a[0] && (a + b)[1..] == a[1..] + b;
      match Apply(st, a[0])
      case Err(e) =>
      case Ok(next) => RunAppend(next, a[1..], b);
    }
  }

  /** A record that fails aborts the whole parse with its error, whatever follows. */
  lemma ErrorAbortsParse(st: ParseState, a: seq<Record>, rec: Record, b: seq<Record>)
    requires st.Valid() && Run(st, a).Ok?
    requires Apply(Run(st, a).value, rec).Err?
    ensures Run(st, a + [rec] + b) == Err(Apply(Run(st, a).value, rec).error)
  {
    var mid := Run(st, a).value;
    var tail := [rec] + b;
    RunAppend(st, a, tail);
    assert a + [rec] + b == a + tail;
    assert tail[0] == rec;
    assert Run(mid, tail) == Err(Apply(mid, rec).error);
  }

  /**
   * Only an `SF:` record switches files or adds a key; any other record that
   * succeeds keeps the current file, the keys and their order, and every
   * entry but the current file's.
   */
  lemma ApplyShape(st: ParseState, rec: Record)
    requires st.Valid() && Apply(st, rec).Ok?
    ensures var next := Apply(st, rec).value;
      if rec.SourceFile? then next == StartFile(st.report, rec.name)
      else
        && next.current == st.current
        && next.report.order == st.report.order
        && next.report.files.Keys == st.report.files.Keys
        && (forall f :: f in st.report.files && Some(f) != st.current ==> next.report.files[f] == st.report.files[f])
  {
  }

  // ---------------------------------------------------------------- keys of the result

  /** The stripped names after each `SF:` line, in input order, repetitions kept. */
  function SourceFileNames(lines: seq<string>): seq<string>
  {
    if lines == [] then []
    else (if StartsWith(lines[0], "SF:") then [Strip(lines[0][3..])] else []) + SourceFileNames(lines[1..])
  }

  /** The names of the `SF:` records, in order. */
  function RecordNames(recs: seq<Record>): seq<string>
  {
    if recs == [] then []
    else (if recs[0].SourceFile? then [recs[0].name] else []) + RecordNames(recs[1..])
  }

  /** The `SF:` records of the read lines carry the names of the `SF:` lines. */
  lemma {:induction false} RecordNamesRead(lines: seq<string>)
    ensures RecordNames(ReadAll(lines)) == SourceFileNames(lines)
  {
    if lines != [] {
      assert ReadAll(lines)[1..] == ReadAll(lines[1..]);
      RecordNamesRead(lines[1..]);
    }
  }

  /** The position of the first occurrence of `x` in `s`. */
  function FirstIndex(s: seq<string>, x: string): (k: nat)
    requires x in s
    ensures k < |s| && s[k] == x && x !in s[..k]
  {
    if s[0] == x then 0
    else
      var k := 1 + FirstIndex(s[1..], x);
      assert s[..k] == [s[0]] + s[1..][..k - 1];
      k
  }

  /**
   * `order` extended by the names not yet in it: each added key is a name
   * that was not in `order` (AppendNewOrder: in the order of their first
   * occurrence in `names`).
   */
  function AppendNew(order: seq<string>, names: seq<string>): (r: seq<string>)
    ensures forall x :: x in r <==> x in order || x in names
    ensures Distinct(order) ==> Distinct(r)
    ensures order <= r
    ensures forall i :: |order| <= i < |r| ==> r[i] !in order && r[i] in names
    decreases |names|
  {
    if names == [] then order
    else
      var next := if names[0] in order then order else order + [names[0]];
      var r := AppendNew(next, names[1..]);
      assert forall x :: x in names <==> x == names[0] || x in names[1..];
      r
  }

  /** Past a different first element, the first occurrence is one further on. */
  lemma FirstIndexTail(s: seq<string>, x: string)
    requires x in s && s[0] != x
    ensures x in s[1..] && FirstIndex(s, x) == 1 + FirstIndex(s[1..], x)
  {
  }

  /** The keys AppendNew adds come in the order of their first occurrence in `names`. */
  lemma {:induction false} AppendNewOrder(order: seq<string>, names: seq<string>, i: nat, j: nat)
    requires |order| <= i < j < |AppendNew(order, names)|
    ensures FirstIndex(names, AppendNew(order, names)[i]) < FirstIndex(names, AppendNew(order, names)[j])
    decreases |names|
  {
    var r := AppendNew(order, names);
    var next := if names[0] in order then order else order + [names[0]];
    var tail := names[1..];
    assert r == AppendNew(next, tail);
    assert next <= r && |next| <= |order| + 1;
    var x, y := r[i], r[j];
    assert x in names && y in names;
    assert y != names[0] by {
      if names[0] !in order {
        assert next[|order|] == names[0] && y !in next;
      }
    }
    FirstIndexTail(names, y);
    if i < |next| {
      assert x == next[i] == names[0];
    } else {
      assert x != names[0] by {
        if names[0] !in order {
          assert next[|order|] == names[0] && x !in next;
        }
      }
      FirstIndexTail(names, x);
      AppendNewOrder(next, tail, i, j);
    }
  }


  /**
   * After any records, the dictionary's keys are the old keys plus the names
   * of the `SF:` records, inserted at their first occurrence; a repeated name
   * keeps its place.
   */
  lemma {:induction false} RunKeys(st: ParseState, recs: seq<Record>)
    requires st.Valid() && Run(st, recs).Ok?
    ensures Run(st, recs).value.report.order == AppendNew(st.report.order, RecordNames(recs))
    ensures forall f :: f in Run(st, recs).value.report.files <==> f in st.report.files || f in RecordNames(recs)
    decreases |recs|
  {
    if recs != [] {
      var next := Apply(st, recs[0]).value;
      ApplyShape(st, recs[0]);
      RunKeys(next, recs[1..]);
      var names := RecordNames(recs);
      if recs[0].SourceFile? {
        assert names[0] == recs[0].name && names[1..] == RecordNames(recs[1..]);
      } else {
        assert names == RecordNames(recs[1..]);
      }
    }
  }

  /** The result's keys are exactly the `SF:` names, each once, in order of first appearance. */
  lemma ParseKeys(content: string)
    requires Parse(content).Ok?
    ensures var names := SourceFileNames(SplitLines(content));
      && Parse(content).value.order == AppendNew([], names)
      && (forall f :: f in Parse(content).value.files <==> f in names)
      && Distinct(Parse(content).value.order)
  {
    RunKeys(Initial, ReadAll(SplitLines(content)));
    RecordNamesRead(SplitLines(content));
  }

  // ---------------------------------------------------------------- ignored records

  /** No `SF:` record among `recs`. */
  predicate NoSourceFile(recs: seq<Record>)
  {
    forall i :: 0 <= i < |recs| ==> !recs[i].SourceFile?
  }

  /**
   * Without a current file (before any `SF:`, or after one whose name strips
   * to "") every record but an `SF:` leaves the state as it was, and none
   * fails, however malformed its fields.
   */
  lemma {:induction false} IgnoredWithoutCurrent(st: ParseState, recs: seq<Record>)
    requires st.Valid() && !Truthy(st.current)
    requires NoSourceFile(recs)
    ensures Run(st, recs) == Ok(st)
    decreases |recs|
  {
    if recs != [] {
      assert !recs[0].SourceFile?;
      assert Apply(st, recs[0]) == Ok(st);
      IgnoredWithoutCurrent(st, recs[1..]);
    }
  }

  /** Lines before the first `SF:` line change nothing: the parse is that of the rest. */
  lemma RecordsBeforeFirstSourceFile(a: seq<string>, b: seq<string>)
    requires forall i :: 0 <= i < |a| ==> !StartsWith(a[i], "SF:")
    ensures Run(Initial, ReadAll(a + b)) == Run(Initial, ReadAll(b))
  {
    var ra := ReadAll(a);
    assert NoSourceFile(ra) by {
      forall i | 0 <= i < |ra| ensures !ra[i].SourceFile? {
        assert ra[i] == ReadRecord(a[i]);
      }
    }
    IgnoredWithoutCurrent(Initial, ra);
    ReadAllAppend(a, b);
    RunAppend(Initial, ra, ReadAll(b));
  }

  /**
   * An `SF:` whose name strips to "" still creates the "" entry, empty, and
   * makes it current; the records after it, up to the next `SF:`, are ignored.
   */
  lemma EmptyNameSourceFile(st: ParseState, recs: seq<Record>)
    requires st.Valid()
    requires NoSourceFile(recs)
    ensures Run(st, [SourceFile("")] + recs) == Ok(StartFile(st.report, ""))
    ensures var r := Run(st, [SourceFile("")] + recs);
      && r.Ok?
      && r.value.current == Some("")
      && "" in r.value.report.files
      && r.value.report.files[""] == EmptyFile
  {
    var next := StartFile(st.report, "");
    assert Apply(st, SourceFile("")) == Ok(next);
    IgnoredWithoutCurrent(next, recs);
    assert ([SourceFile("")] + recs)[1..] == recs;
  }

  /** A line that was not read can be dropped from anywhere without effect. */
  lemma UnreadIgnored(st: ParseState, a: seq<Record>, b: seq<Record>)
    requires st.Valid()
    ensures Run(st, a + [Unread] + b) == Run(st, a + b)
  {
    RunAppend(st, a, [Unread] + b);
    RunAppend(st, a, b);
    assert a + [Unread] + b == a + ([Unread] + b);
    assert ([Unread] + b)[1..] == b;
  }

  /**
   * While no `SF:` record comes, records change only the current file's entry:
   * the current file, the keys, their order and every other entry stay.
   */
  lemma {:induction false} OnlyCurrentFileChanges(st: ParseState, recs: seq<Record>)
    requires st.Valid() && NoSourceFile(recs) && Run(st, recs).Ok?
    ensures Run(st, recs).value.current == st.current
    ensures Run(st, recs).value.report.order == st.report.order
    ensures Run(st, recs).value.report.files.Keys == st.report.files.Keys
    ensures forall f :: f in st.report.files && Some(f) != st.current ==>
      Run(st, recs).value.report.files[f] == st.report.files[f]
    decreases |recs|
  {
    if recs != [] {
      assert !recs[0].SourceFile?;
      var next := Apply(st, recs[0]).value;
      ApplyShape(st, recs[0]);
      OnlyCurrentFileChanges(next, recs[1..]);
    }
  }

  // ---------------------------------------------------------------- one record at a time

  /**
   * `SF:` makes the name current and resets its entry to no counts and no
   * functions; other entries are kept; a new name goes to the end of the key
   * order, a known one keeps its place. It never fails.
   */
  lemma SourceFileStep(st: ParseState, name: string)
    requires st.Valid()
    ensures var r := Apply(st, SourceFile(name));
      && r.Ok?
      && r.value.current == Some(name)
      && r.value.report.files.Keys == st.report.files.Keys + {name}
      && r.value.report.files[name] == EmptyFile
      && (forall f :: f in st.report.files && f != name ==> r.value.report.files[f] == st.report.files[f])
      && r.value.report.order == (if name in st.report.order then st.report.order else st.report.order + [name])
  {
  }

  /** The state differs from `st` only in the current file's entry, which is now `fd`. */
  ghost predicate OnlyCurrentIs(st: ParseState, st': ParseState, fd: FileData)
    requires st.Valid() && st.current.Some?
  {
    && st'.current == st.current
    && st'.report.order == st.report.order
    && st'.report.files == st.report.files[st.current.value := fd]
  }

  /** `DA:n,c` sets the count of line `n` of the current file to `c`, overwriting; nothing else changes. */
  lemma LineDataStep(st: ParseState, n: int, c: int)
    requires st.Valid() && Truthy(st.current)
    ensures Apply(st, LineData(Ok((n, c)))).Ok?
    ensures var fd := CurrentData(st);
      OnlyCurrentIs(st, Apply(st, LineData(Ok((n, c)))).value, FileData(fd.coverage[n := c], fd.functions))
  {
  }

  /** A second `DA:` record for the same line undoes the first one's effect. */
  lemma LineDataOverwrites(st: ParseState, n: int, c1: int, c2: int)
    requires st.Valid() && Truthy(st.current)
    ensures Apply(st, LineData(Ok((n, c1)))).Ok?
    ensures Apply(Apply(st, LineData(Ok((n, c1)))).value, LineData(Ok((n, c2)))) == Apply(st, LineData(Ok((n, c2))))
  {
    var cur := st.current.value;
    var fd := CurrentData(st);
    var first := fd.(coverage := fd.coverage[n := c1]);
    var last := fd.(coverage := fd.coverage[n := c2]);
    assert Apply(st, LineData(Ok((n, c1)))) == Ok(WithCurrent(st, first));
    UpdateTwice(fd.coverage, n, c1, c2);
    UpdateTwice(st.report.files, cur, first, last);
  }

  /** Of two `DA:` records for the same line in a row, the later count wins. */
  lemma LaterLineDataWins(st: ParseState, n: int, c1: int, c2: int)
    requires st.Valid() && Truthy(st.current)
    ensures Run(st, [LineData(Ok((n, c1))), LineData(Ok((n, c2)))]) == Apply(st, LineData(Ok((n, c2))))
  {
    LineDataOverwrites(st, n, c1, c2);
    LineDataStep(st, n, c2);
    var recs := [LineData(Ok((n, c1))), LineData(Ok((n, c2)))];
    var s1 := Apply(st, recs[0]).value;
    assert recs[1..] == [LineData(Ok((n, c2)))];
    assert Run(st, recs) == Run(s1, [LineData(Ok((n, c2)))]);
    var s2 := Apply(s1, LineData(Ok((n, c2)))).value;
    assert Run(s1, [LineData(Ok((n, c2)))]) == Run(s2, []);
  }

  /** `FN:n,name` appends one function with no hits to the current file; duplicates are kept. */
  lemma FunctionDeclStep(st: ParseState, n: int, name: string)
    requires st.Valid() && Truthy(st.current)
    ensures Apply(st, FunctionDecl(Ok((n, name)))).Ok?
    ensures var fd := CurrentData(st);
      OnlyCurrentIs(st, Apply(st, FunctionDecl(Ok((n, name)))).value,
                    FileData(fd.coverage, fd.functions + [FunctionRecord(name, n, 0)]))
  {
  }

  /**
   * `FNDA:h,name` sets the hits of the first function called `name` in the
   * current file; no other function and no other file changes, and when the
   * current file has no such function the state is unchanged.
   */
  lemma FunctionDataStep(st: ParseState, h: int, name: string)
    requires st.Valid() && Truthy(st.current)
    ensures Apply(st, FunctionData(Ok((h, name)))).Ok?
    ensures var fns := CurrentData(st).functions;
      forall k :: FirstNamed(fns, name, k) ==>
        OnlyCurrentIs(st, Apply(st, FunctionData(Ok((h, name)))).value,
                      CurrentData(st).(functions := fns[k := fns[k].(hits := h)]))
    ensures var fns := CurrentData(st).functions;
      (forall i :: 0 <= i < |fns| ==> fns[i].name != name) ==> Apply(st, FunctionData(Ok((h, name)))) == Ok(st)
  {
    var fns := CurrentData(st).functions;
    if forall i :: 0 <= i < |fns| ==> fns[i].name != name {
      assert CurrentData(st).(functions := fns) == CurrentData(st);
      assert st.report.files[st.current.value := CurrentData(st)] == st.report.files;
    }
  }

  // ---------------------------------------------------------------- failure

  /** The error of a record whose fields did not convert, if it is one. */
  function FieldError(rec: Record): Option<ParseError>
  {
    match rec
    case LineData(Err(e)) => Some(e)
    case FunctionDecl(Err(e)) => Some(e)
    case FunctionData(Err(e)) => Some(e)
    case _ => None
  }

  /**
   * A record fails exactly when there is a current file and it is a `DA:`,
   * `FN:` or `FNDA:` record whose fields do not convert; the error is theirs.
   */
  lemma ApplyFailsIff(st: ParseState, rec: Record)
    requires st.Valid()
    ensures Apply(st, rec).Err? <==> Truthy(st.current) && FieldError(rec).Some?
    ensures Apply(st, rec).Err? ==> Apply(st, rec).error == FieldError(rec).value
  {
  }

  /** The fields of a `DA:` record fail to convert exactly when one is missing or not an integer. */
  lemma DaFieldsFailIff(body: string)
    ensures var parts := Split(body, ',');
      DaFields(body).Err? <==> |parts| < 2 || ParseInt(parts[0]).None? || ParseInt(parts[1]).None?
  {
  }

  /** The fields of an `FN:` or `FNDA:` record fail exactly when the name is missing or the number is not an integer. */
  lemma NumberAndNameFailIff(body: string)
    ensures var parts := Split(body, ',');
      NumberAndName(body).Err? <==> |parts| < 2 || ParseInt(parts[0]).None?
  {
  }

  /** A record with a single, well-formed field fails with the missing second field. */
  lemma SingleFieldFails(n: int)
    ensures DaFields(ShowInt(n)) == Err(MissingField)
    ensures NumberAndName(ShowInt(n)) == Err(MissingField)
  {
    ShowIntPlain(n);
    SplitWithoutSeparator(ShowInt(n), ',');
    ParseIntShowInt(n);
  }

  // ---------------------------------------------------------------- fields

  /** Three comma-separated pieces split into the first two and the parts of the rest. */
  lemma SplitThree(p0: string, p1: string, rest: string)
    requires ',' !in p0 && ',' !in p1
    ensures Split(p0 + "," + p1 + "," + rest, ',') == [p0, p1] + Split(rest, ',')
  {
    var tail := p1 + "," + rest;
    SplitAfterPart(p1, ',', rest);
    assert tail == p1 + [','] + rest;
    SplitAfterPart(p0, ',', tail);
    assert p0 + "," + p1 + "," + rest == p0 + [','] + tail;
  }

  /** Two comma-separated pieces split into exactly the two. */
  lemma SplitTwo(p0: string, p1: string)
    requires ',' !in p0 && ',' !in p1
    ensures Split(p0 + "," + p1, ',') == [p0, p1]
  {
    SplitWithoutSeparator(p1, ',');
    SplitAfterPart(p0, ',', p1);
    assert p0 + "," + p1 == p0 + [','] + p1;
  }

  /** Fields after the second comma of a `DA:` record are ignored. */
  lemma DaIgnoresExtraFields(p0: string, p1: string, rest: string)
    requires ',' !in p0 && ',' !in p1
    ensures DaFields(p0 + "," + p1 + "," + rest) == DaFields(p0 + "," + p1)
  {
    SplitThree(p0, p1, rest);
    SplitTwo(p0, p1);
  }

  /** Fields after the second comma of an `FN:` or `FNDA:` record are ignored. */
  lemma NameIgnoresExtraFields(p0: string, p1: string, rest: string)
    requires ',' !in p0 && ',' !in p1
    ensures NumberAndName(p0 + "," + p1 + "," + rest) == NumberAndName(p0 + "," + p1)
  {
    SplitThree(p0, p1, rest);
    SplitTwo(p0, p1);
  }

  // ---------------------------------------------------------------- written records read back

  /** The `DA:` record an LCOV writer emits for line `n` hit `c` times. */
  function DaLine(n: int, c: int): string
  {
    "DA:" + ShowInt(n) + "," + ShowInt(c)
  }

  /** The `FN:` record for a function `name` declared at line `n`. */
  function FnLine(n: int, name: string): string
  {
    "FN:" + ShowInt(n) + "," + name
  }

  /** The `FNDA:` record for a function `name` entered `h` times. */
  function FndaLine(h: int, name: string): string
  {
    "FNDA:" + ShowInt(h) + "," + name
  }

  /** A number, a comma and a comma-free text split into the two. */
  lemma SplitNumberAndText(n: int, t: string)
    requires ',' !in t
    ensures Split(ShowInt(n) + "," + t, ',') == [ShowInt(n), t]
  {
    ShowIntPlain(n);
    SplitAfterPart(ShowInt(n), ',', t);
    assert ShowInt(n) + "," + t == ShowInt(n) + [','] + t;
    SplitWithoutSeparator(t, ',');
  }

  /** The body of a written `FN:` or `FNDA:` record gives back its number and stripped name. */
  lemma NumberAndNameReadsBack(n: int, t: string)
    requires ',' !in t
    ensures NumberAndName(ShowInt(n) + "," + t) == Ok((n, Strip(t)))
  {
    var parts := Split(ShowInt(n) + "," + t, ',');
    SplitNumberAndText(n, t);
    assert parts[0] == ShowInt(n) && parts[1] == t;
    ParseIntShowInt(n);
  }

  /** The body of a written `DA:` record gives back its line and count. */
  lemma DaFieldsReadsBack(n: int, c: int)
    ensures DaFields(ShowInt(n) + "," + ShowInt(c)) == Ok((n, c))
  {
    var parts := Split(ShowInt(n) + "," + ShowInt(c), ',');
    ShowIntPlain(c);
    SplitNumberAndText(n, ShowInt(c));
    assert parts[0] == ShowInt(n) && parts[1] == ShowInt(c);
    ParseIntShowInt(n);
    ParseIntShowInt(c);
  }

  /** A written `DA:` record reads back as its line and count. */
  lemma DaLineReadsBack(n: int, c: int)
    ensures ReadRecord(DaLine(n, c)) == LineData(Ok((n, c)))
  {
    var body := ShowInt(n) + "," + ShowInt(c);
    assert DaLine(n, c) == "DA:" + body;
    assert ReadRecord("DA:" + body) == LineData(DaFields(body)) by {
      ReadTagged(body);
    }
    assert DaFields(body) == Ok((n, c)) by {
      DaFieldsReadsBack(n, c);
    }
  }

  /** A written `FN:` record reads back as its line and stripped name. */
  lemma FnLineReadsBack(n: int, name: string)
    requires ',' !in name
    ensures ReadRecord(FnLine(n, name)) == FunctionDecl(Ok((n, Strip(name))))
  {
    var body := ShowInt(n) + "," + name;
    assert FnLine(n, name) == "FN:" + body;
    assert ReadRecord("FN:" + body) == FunctionDecl(NumberAndName(body)) by {
      ReadTagged(body);
    }
    assert NumberAndName(body) == Ok((n, Strip(name))) by {
      NumberAndNameReadsBack(n, name);
    }
  }

  /** A written `FNDA:` record reads back as its hit count and stripped name. */
  lemma FndaLineReadsBack(h: int, name: string)
    requires ',' !in name
    ensures ReadRecord(FndaLine(h, name)) == FunctionData(Ok((h, Strip(name))))
  {
    var body := ShowInt(h) + "," + name;
    assert FndaLine(h, name) == "FNDA:" + body;
    assert ReadRecord("FNDA:" + body) == FunctionData(NumberAndName(body)) by {
      ReadTagged(body);
    }
    assert NumberAndName(body) == Ok((h, Strip(name))) by {
      NumberAndNameReadsBack(h, name);
    }
  }

  // ---------------------------------------------------------------- runs of records

  /** The line counts a run of `DA:` records leaves on top of `cov`: later records win. */
  function ApplyCounts(cov: map<int, int>, counts: seq<(int, int)>): map<int, int>
    decreases |counts|
  {
    if counts == [] then cov else ApplyCounts(cov[counts[0].0 := counts[0].1], counts[1..])
  }

  /** The line `n` ends up with the count of the last record for it, or keeps its old count. */
  lemma {:induction false} ApplyCountsLast(cov: map<int, int>, counts: seq<(int, int)>, n: int)
    ensures n in ApplyCounts(cov, counts) <==> n in cov || exists i :: 0 <= i < |counts| && counts[i].0 == n
    ensures forall i ::
      (0 <= i < |counts| && counts[i].0 == n && (forall j :: i < j < |counts| ==> counts[j].0 != n))
      ==> ApplyCounts(cov, counts)[n] == counts[i].1
    ensures (forall i :: 0 <= i < |counts| ==> counts[i].0 != n) && n in cov ==> ApplyCounts(cov, counts)[n] == cov[n]
    decreases |counts|
  {
    if counts != [] {
      ApplyCountsLast(cov[counts[0].0 := counts[0].1], counts[1..], n);
      var tail := counts[1..];
      assert forall i :: 1 <= i < |counts| ==> counts[i] == tail[i - 1];
      if exists i :: 0 <= i < |counts| && counts[i].0 == n {
        var i :| 0 <= i < |counts| && counts[i].0 == n;
        if i > 0 {
          assert tail[i - 1].0 == n;
        }
      }
    }
  }

  /** The records a run of `DA:` lines is read as. */
  function CountRecords(counts: seq<(int, int)>): (r: seq<Record>)
    ensures |r| == |counts|
    ensures forall i :: 0 <= i < |r| ==> r[i] == LineData(Ok(counts[i]))
  {
    if counts == [] then [] else [LineData(Ok(counts[0]))] + CountRecords(counts[1..])
  }

  /** A run of `DA:` records sets the current file's counts one after another and touches nothing else. */
  lemma {:induction false} CountRecordsRun(st: ParseState, counts: seq<(int, int)>)
    requires st.Valid() && Truthy(st.current)
    ensures Run(st, CountRecords(counts)).Ok?
    ensures var fd := CurrentData(st);
      OnlyCurrentIs(st, Run(st, CountRecords(counts)).value, fd.(coverage := ApplyCounts(fd.coverage, counts)))
    decreases |counts|
  {
    var fd := CurrentData(st);
    if counts == [] {
      assert st.report.files[st.current.value := fd] == st.report.files;
    } else {
      var (n, c) := counts[0];
      LineDataStep(st, n, c);
      var next := Apply(st, LineData(Ok((n, c)))).value;
      assert CountRecords(counts)[1..] == CountRecords(counts[1..]);
      CountRecordsRun(next, counts[1..]);
      assert CurrentData(next) == fd.(coverage := fd.coverage[n := c]);
    }
  }

  /** The functions a run of `FN:` records declares, in input order, with no hits. */
  function Declared(decls: seq<(int, string)>): (r: seq<FunctionRecord>)
    ensures |r| == |decls|
    ensures forall i :: 0 <= i < |r| ==> r[i] == FunctionRecord(decls[i].1, decls[i].0, 0)
  {
    if decls == [] then [] else [FunctionRecord(decls[0].1, decls[0].0, 0)] + Declared(decls[1..])
  }

  /** The records a run of `FN:` lines is read as. */
  function DeclRecords(decls: seq<(int, string)>): (r: seq<Record>)
    ensures |r| == |decls|
    ensures forall i :: 0 <= i < |r| ==> r[i] == FunctionDecl(Ok(decls[i]))
  {
    if decls == [] then [] else [FunctionDecl(Ok(decls[0]))] + DeclRecords(decls[1..])
  }

  /** A run of `FN:` records appends one function per record, in order, duplicates included. */
  lemma {:induction false} DeclRecordsRun(st: ParseState, decls: seq<(int, string)>)
    requires st.Valid() && Truthy(st.current)
    ensures Run(st, DeclRecords(decls)).Ok?
    ensures var fd := CurrentData(st);
      OnlyCurrentIs(st, Run(st, DeclRecords(decls)).value, fd.(functions := fd.functions + Declared(decls)))
    decreases |decls|
  {
    var fd := CurrentData(st);
    if decls == [] {
      assert fd.functions + [] == fd.functions;
      assert st.report.files[st.current.value := fd] == st.report.files;
    } else {
      var (n, name) := decls[0];
      FunctionDeclStep(st, n, name);
      var next := Apply(st, FunctionDecl(Ok((n, name)))).value;
      assert DeclRecords(decls)[1..] == DeclRecords(decls[1..]);
      DeclRecordsRun(next, decls[1..]);
      assert CurrentData(next).functions == fd.functions + [FunctionRecord(name, n, 0)];
      assert Declared(decls) == [FunctionRecord(name, n, 0)] + Declared(decls[1..]);
      AppendAssoc(fd.functions, [FunctionRecord(name, n, 0)], Declared(decls[1..]));
    }
  }

  // ---------------------------------------------------------------- a whole written tracefile

  /** A name as a writer emits it: non-empty, already stripped, no comma, on one line. */
  predicate PlainName(name: string)
  {
    name != "" && Strip(name) == name && ',' !in name && OneLine(name)
  }

  /** The `DA:` records for `counts`, one per entry, in order. */
  function DaLines(counts: seq<(int, int)>): (r: seq<string>)
    ensures |r| == |counts|
    ensures forall i :: 0 <= i < |r| ==> r[i] == DaLine(counts[i].0, counts[i].1)
  {
    if counts == [] then [] else [DaLine(counts[0].0, counts[0].1)] + DaLines(counts[1..])
  }

  /** The `FN:` records for `decls`, one per entry, in order. */
  function FnLines(decls: seq<(int, string)>): (r: seq<string>)
    ensures |r| == |decls|
    ensures forall i :: 0 <= i < |r| ==> r[i] == FnLine(decls[i].0, decls[i].1)
  {
    if decls == [] then [] else [FnLine(decls[0].0, decls[0].1)] + FnLines(decls[1..])
  }

  lemma DaLineOneLine(n: int, c: int)
    ensures OneLine(DaLine(n, c))
  {
    ShowIntPlain(n);
    ShowIntPlain(c);
  }

  lemma FnLineOneLine(n: int, name: string)
    requires OneLine(name)
    ensures OneLine(FnLine(n, name))
  {
    ShowIntPlain(n);
  }

  /** Written `DA:` lines are read as their counts. */
  lemma ReadDaLines(counts: seq<(int, int)>)
    ensures ReadAll(DaLines(counts)) == CountRecords(counts)
  {
    forall i | 0 <= i < |counts|
      ensures ReadAll(DaLines(counts))[i] == CountRecords(counts)[i]
    {
      DaLineReadsBack(counts[i].0, counts[i].1);
    }
  }

  /** Written `FN:` lines with plain names are read as their declarations. */
  lemma {:induction false} ReadFnLines(decls: seq<(int, string)>)
    requires forall i :: 0 <= i < |decls| ==> PlainName(decls[i].1)
    ensures ReadAll(FnLines(decls)) == DeclRecords(decls)
    decreases |decls|
  {
    if decls != [] {
      FnLineReadsBack(decls[0].0, decls[0].1);
      ReadFnLines(decls[1..]);
      assert FnLines(decls)[1..] == FnLines(decls[1..]);
      assert ReadAll(FnLines(decls)) == [ReadRecord(FnLines(decls)[0])] + ReadAll(FnLines(decls)[1..]);
    }
  }

  lemma NoBreaksAppend(a: seq<string>, b: seq<string>)
    requires NoBreaks(a) && NoBreaks(b)
    ensures NoBreaks(a + b)
  {
    forall i | 0 <= i < |a + b|
      ensures OneLine((a + b)[i])
    {
      if i < |a| {
        assert (a + b)[i] == a[i];
      } else {
        assert (a + b)[i] == b[i - |a|];
      }
    }
  }

  lemma {:induction false} DaLinesOneLine(counts: seq<(int, int)>)
    ensures NoBreaks(DaLines(counts))
    decreases |counts|
  {
    if counts != [] {
      DaLineOneLine(counts[0].0, counts[0].1);
      DaLinesOneLine(counts[1..]);
      NoBreaksAppend([DaLine(counts[0].0, counts[0].1)], DaLines(counts[1..]));
    }
  }

  lemma {:induction false} FnLinesOneLine(decls: seq<(int, string)>)
    requires forall i :: 0 <= i < |decls| ==> PlainName(decls[i].1)
    ensures NoBreaks(FnLines(decls))
    decreases |decls|
  {
    if decls != [] {
      FnLineOneLine(decls[0].0, decls[0].1);
      FnLinesOneLine(decls[1..]);
      NoBreaksAppend([FnLine(decls[0].0, decls[0].1)], FnLines(decls[1..]));
    }
  }

  /** The lines of a written tracefile contain no line boundary. */
  lemma WrittenLinesOneLine(name: string, counts: seq<(int, int)>, decls: seq<(int, string)>)
    requires OneLine(name)
    requires forall i :: 0 <= i < |decls| ==> PlainName(decls[i].1)
    ensures NoBreaks(["SF:" + name] + DaLines(counts) + FnLines(decls))
  {
    assert NoBreaks(["SF:" + name]);
    DaLinesOneLine(counts);
    FnLinesOneLine(decls);
    NoBreaksAppend(["SF:" + name], DaLines(counts));
    NoBreaksAppend(["SF:" + name] + DaLines(counts), FnLines(decls));
  }

  /** The lines of a written tracefile are read as the records they were written from. */
  lemma ReadWritten(name: string, counts: seq<(int, int)>, decls: seq<(int, string)>)
    requires PlainName(name)
    requires forall i :: 0 <= i < |decls| ==> PlainName(decls[i].1)
    ensures ReadAll(SplitLines(JoinLines(["SF:" + name] + DaLines(counts) + FnLines(decls))))
         == [SourceFile(name)] + CountRecords(counts) + DeclRecords(decls)
  {
    var lines := ["SF:" + name] + DaLines(counts) + FnLines(decls);
    WrittenLinesOneLine(name, counts, decls);
    SplitLinesJoinLines(lines);
    ReadTagged(name);
    ReadDaLines(counts);
    ReadFnLines(decls);
    ReadAllAppend(["SF:" + name] + DaLines(counts), FnLines(decls));
    ReadAllAppend(["SF:" + name], DaLines(counts));
    assert ReadAll(["SF:" + name]) == [SourceFile(name)];
  }

  /** The one-file state with `fd` as the data of `name`, which is current. */
  function OneFile(name: string, fd: FileData): (st: ParseState)
    ensures st.Valid() && st.current == Some(name) && CurrentData(st) == fd
  {
    ParseState(Report(map[name := fd], [name]), Some(name))
  }

  /** `DA:` records on the single current file set its counts. */
  lemma CountsOnOneFile(name: string, counts: seq<(int, int)>)
    requires name != ""
    ensures Run(OneFile(name, EmptyFile), CountRecords(counts)) == Ok(OneFile(name, FileData(ApplyCounts(map[], counts), [])))
  {
    var st := OneFile(name, EmptyFile);
    CountRecordsRun(st, counts);
    var fd := FileData(ApplyCounts(map[], counts), []);
    assert map[name := EmptyFile][name := fd] == map[name := fd];
  }

  /** `FN:` records on the single current file, which has no functions yet, declare its functions. */
  lemma DeclsOnOneFile(name: string, cov: map<int, int>, decls: seq<(int, string)>)
    requires name != ""
    ensures Run(OneFile(name, FileData(cov, [])), DeclRecords(decls)) == Ok(OneFile(name, FileData(cov, Declared(decls))))
  {
    var fd := FileData(cov, []);
    var st := OneFile(name, fd);
    DeclRecordsRun(st, decls);
    var fd' := fd.(functions := fd.functions + Declared(decls));
    AppendEmpty(Declared(decls));
    assert fd' == FileData(cov, Declared(decls));
    UpdateTwice(map[], name, fd, fd');
  }

  /** From the start, an `SF:` record for `name` makes it the one, empty, current file. */
  lemma SourceFileFirst(name: string)
    ensures Run(Initial, [SourceFile(name)]) == Ok(OneFile(name, EmptyFile))
  {
    var empty: seq<string> := [];
    assert empty + [name] == [name];
    assert map[][name := EmptyFile] == map[name := EmptyFile];
    assert StartFile(Initial.report, name) == OneFile(name, EmptyFile);
    assert [SourceFile(name)][1..] == [];
  }

  /** One `SF:` record, then `DA:` records, then `FN:` records, run from the start. */
  lemma RunWritten(name: string, counts: seq<(int, int)>, decls: seq<(int, string)>)
    requires name != ""
    ensures Run(Initial, [SourceFile(name)] + CountRecords(counts) + DeclRecords(decls))
         == Ok(OneFile(name, FileData(ApplyCounts(map[], counts), Declared(decls))))
  {
    var sf, cr, dr := [SourceFile(name)], CountRecords(counts), DeclRecords(decls);
    SourceFileFirst(name);
    RunAppend(Initial, sf, cr);
    CountsOnOneFile(name, counts);
    var afterCounts := OneFile(name, FileData(ApplyCounts(map[], counts), []));
    assert Run(Initial, sf + cr) == Ok(afterCounts);
    RunAppend(Initial, sf + cr, dr);
    DeclsOnOneFile(name, ApplyCounts(map[], counts), decls);
    assert Run(Initial, sf + cr + dr) == Run(afterCounts, dr);
  }

  /**
   * A tracefile with one `SF:` record, then `DA:` records, then `FN:` records,
   * reads as one file whose counts are the `DA:` ones (later wins) and whose
   * functions are the declared ones, in order, with no hits.
   */
  lemma WrittenTracefile(name: string, counts: seq<(int, int)>, decls: seq<(int, string)>)
    requires PlainName(name)
    requires forall i :: 0 <= i < |decls| ==> PlainName(decls[i].1)
    ensures Parse(JoinLines(["SF:" + name] + DaLines(counts) + FnLines(decls)))
         == Ok(Report(map[name := FileData(ApplyCounts(map[], counts), Declared(decls))], [name]))
  {
    ReadWritten(name, counts, decls);
    RunWritten(name, counts, decls);
  }

  lemma UpdateTwice<K, V>(m: map<K, V>, k: K, v1: V, v2: V)
    ensures m[k := v1][k := v2] == m[k := v2]
  {
  }

  lemma AppendEmpty<T>(s: seq<T>)
    ensures [] + s == s
  {
  }

  lemma AppendAssoc<T>(a: seq<T>, b: seq<T>, c: seq<T>)
    ensures (a + b) + c == a + (b + c)
  {
  }
}
