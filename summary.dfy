/**
 * The figures a file's report page is built from: the total and maximum
 * function hits, the number of covered functions, and the category each
 * source line is shown in (not applicable, or its count with zero, low or
 * high hits). Only the data is modelled, not the markup.
 */
module Summary {
  import opened PyStr
  import opened Lcov

  // ---------------------------------------------------------------- function hits

  /** `sum(func["hits"] for func in functions)`. */
  function TotalHits(fns: seq<FunctionRecord>): int
  {
    if fns == [] then 0 else fns[0].hits + TotalHits(fns[1..])
  }

  /**
   * `max((func["hits"] for func in functions), default=0)`: 0 for no
   * functions, otherwise the largest hit count, which may be negative.
   */
  function MaxHits(fns: seq<FunctionRecord>): (r: int)
    ensures fns == [] ==> r == 0
    ensures forall i :: 0 <= i < |fns| ==> fns[i].hits <= r
    ensures fns != [] ==> exists i :: 0 <= i < |fns| && fns[i].hits == r
  {
    if fns == [] then 0
    else if |fns| == 1 then fns[0].hits
    else
      var rest := MaxHits(fns[1..]);
      assert forall i :: 1 <= i < |fns| ==> fns[i] == fns[1..][i - 1];
      if fns[0].hits >= rest then fns[0].hits
      else
        var k :| 0 <= k < |fns[1..]| && fns[1..][k].hits == rest;
        assert fns[k + 1].hits == rest;
        rest
  }

  /** The indices of the functions with at least one hit. */
  ghost function CoveredIndices(fns: seq<FunctionRecord>): set<int>
  {
    set i | 0 <= i < |fns| && fns[i].hits > 0
  }

  /** `sum(1 for func in functions if func["hits"] > 0)`: how many functions have a positive hit count. */
  function CoveredFunctions(fns: seq<FunctionRecord>): (r: nat)
    ensures r == |CoveredIndices(fns)|
    ensures r <= |fns|
  {
    if fns == [] then
      assert CoveredIndices(fns) == {};
      0
    else
      var init := fns[..|fns| - 1];
      var last := |fns| - 1;
      var rest := CoveredFunctions(init);
      assert forall i :: 0 <= i < last ==> fns[i] == init[i];
      assert CoveredIndices(fns) == CoveredIndices(init) + (if fns[last].hits > 0 then {last} else {});
      assert last !in CoveredIndices(init);
      rest + (if fns[last].hits > 0 then 1 else 0)
  }

  /** The total of a concatenation is the sum of the totals. */
  lemma {:induction false} TotalHitsAppend(a: seq<FunctionRecord>, b: seq<FunctionRecord>)
    ensures TotalHits(a + b) == TotalHits(a) + TotalHits(b)
    decreases |a|
  {
    if a == [] {
      assert a + b == b;
    } else {
      assert (a + b)[0] == a[0] && (a + b)[1..] == a[1..] + b;
      TotalHitsAppend(a[1..], b);
    }
  }

  /** With no negative hit count, every function's hits, and so the maximum, are at most the total. */
  lemma {:induction false} MaxAtMostTotal(fns: seq<FunctionRecord>)
    requires forall i :: 0 <= i < |fns| ==> fns[i].hits >= 0
    ensures forall i :: 0 <= i < |fns| ==> fns[i].hits <= TotalHits(fns)
    ensures 0 <= MaxHits(fns) <= TotalHits(fns)
    decreases |fns|
  {
    if fns != [] {
      var rest := fns[1..];
      MaxAtMostTotal(rest);
      assert forall i :: 1 <= i < |fns| ==> fns[i] == rest[i - 1];
    }
  }

  /** With no negative hit count, each covered function adds at least one hit: covered <= total. */
  lemma {:induction false} CoveredAtMostTotal(fns: seq<FunctionRecord>)
    requires forall i :: 0 <= i < |fns| ==> fns[i].hits >= 0
    ensures CoveredFunctions(fns) <= TotalHits(fns)
    decreases |fns|
  {
    if fns != [] {
      var init := fns[..|fns| - 1];
      CoveredAtMostTotal(init);
      assert fns == init + [fns[|fns| - 1]];
      TotalHitsAppend(init, [fns[|fns| - 1]]);
      assert TotalHits([fns[|fns| - 1]]) == fns[|fns| - 1].hits;
    }
  }

  /** Some function is covered exactly when the maximum hit count is positive. */
  lemma CoveredIffMaxPositive(fns: seq<FunctionRecord>)
    ensures CoveredFunctions(fns) > 0 <==> MaxHits(fns) > 0
  {
    if MaxHits(fns) > 0 {
      var k :| 0 <= k < |fns| && fns[k].hits == MaxHits(fns);
      assert k in CoveredIndices(fns);
    } else {
      assert CoveredIndices(fns) == {};
    }
  }

  /** An `FNDA:` record moves the total by the difference between the new and the old hits of its function. */
  lemma {:induction false} SetFirstHitsTotal(fns: seq<FunctionRecord>, name: string, h: int, k: int)
    requires FirstNamed(fns, name, k)
    ensures TotalHits(SetFirstHits(fns, name, h)) == TotalHits(fns) - fns[k].hits + h
    decreases |fns|
  {
    if fns[0].name == name {
      assert k == 0;
      assert SetFirstHits(fns, name, h)[1..] == fns[1..];
    } else {
      assert FirstNamed(fns[1..], name, k - 1);
      SetFirstHitsTotal(fns[1..], name, h, k - 1);
      assert SetFirstHits(fns, name, h)[1..] == SetFirstHits(fns[1..], name, h);
    }
  }

  /** Functions just declared by `FN:` records have no hits: nothing is covered and both figures are 0. */
  lemma {:induction false} FreshlyDeclared(fns: seq<FunctionRecord>)
    requires forall i :: 0 <= i < |fns| ==> fns[i].hits == 0
    ensures TotalHits(fns) == 0 && MaxHits(fns) == 0 && CoveredFunctions(fns) == 0
    decreases |fns|
  {
    if fns != [] {
      FreshlyDeclared(fns[1..]);
      assert CoveredIndices(fns) == {};
    }
  }

  // ---------------------------------------------------------------- source lines

  /** How a counted line is highlighted. */
  datatype HitClass = ZeroHits | LowHits | HighHits

  /** What a source line of the page shows: "N/A", or its count and highlight. */
  datatype LineView = NotApplicable | Counted(count: int, cls: HitClass)

  /** A line is not counted when its stripped text is empty or starts with `end` or `--`. */
  predicate IsNotApplicable(text: string)
  {
    var t := Strip(text);
    t == "" || StartsWith(t, "end") || StartsWith(t, "--")
  }

  /**
   * The highlight of a count against the file's maximum function hits:
   * zero, below three tenths of the maximum, or at least that.
   */
  function HitClassOf(count: int, maxHits: int): HitClass
  {
    if count == 0 then ZeroHits
    else if 10 * count < 3 * maxHits then LowHits
    else HighHits
  }

  /** The view of line `lineNo` (counted from 1) with text `text`; a line without a count shows 0. */
  function ClassifyLine(text: string, lineNo: int, coverage: map<int, int>, maxHits: int): (v: LineView)
    ensures v.NotApplicable? <==> IsNotApplicable(text)
    ensures v.Counted? ==> v.count == (if lineNo in coverage then coverage[lineNo] else 0)
    ensures v.Counted? ==> (v.cls == ZeroHits <==> v.count == 0)
    ensures v.Counted? ==> (v.cls == LowHits <==> v.count != 0 && 10 * v.count < 3 * maxHits)
    ensures v.Counted? ==> (v.cls == HighHits <==> v.count != 0 && 10 * v.count >= 3 * maxHits)
  {
    if IsNotApplicable(text) then NotApplicable
    else
      var count := if lineNo in coverage then coverage[lineNo] else 0;
      Counted(count, HitClassOf(count, maxHits))
  }

  /** The order of the highlights, from fewest hits to most. */
  function Rank(c: HitClass): nat
  {
    match c
    case ZeroHits => 0
    case LowHits => 1
    case HighHits => 2
  }

  /** Among positive counts, more hits never give a lower highlight. */
  lemma HitClassMonotone(c1: int, c2: int, maxHits: int)
    requires 0 < c1 <= c2
    ensures Rank(HitClassOf(c1, maxHits)) <= Rank(HitClassOf(c2, maxHits))
  {
  }

  /** A larger maximum never gives a count a higher highlight. */
  lemma HitClassAntitone(count: int, m1: int, m2: int)
    requires m1 <= m2
    ensures Rank(HitClassOf(count, m2)) <= Rank(HitClassOf(count, m1))
  {
  }

  /**
   * When no function has a positive hit count (in particular when the file
   * has no functions) the maximum is at most 0, so no positive count is low.
   */
  lemma NoCoveredFunctionNoLowLine(fns: seq<FunctionRecord>, count: int)
    requires CoveredFunctions(fns) == 0 && count > 0
    ensures HitClassOf(count, MaxHits(fns)) == HighHits
  {
    CoveredIffMaxPositive(fns);
  }

  /**
   * The page's per-line loop, without the markup: one view per source line,
   * numbered from 1, against the file's maximum function hits.
   */
  method ClassifySource(source: seq<string>, coverage: map<int, int>, functions: seq<FunctionRecord>)
    returns (views: seq<LineView>)
    ensures |views| == |source|
    ensures forall i :: 0 <= i < |source| ==>
      views[i] == ClassifyLine(source[i], i + 1, coverage, MaxHits(functions))
  {
    var maxHits := MaxHits(functions);
    views := [];
    for i := 0 to |source|
      invariant |views| == i
      invariant forall j :: 0 <= j < i ==> views[j] == ClassifyLine(source[j], j + 1, coverage, maxHits)
    {
      views := views + [ClassifyLine(source[i], i + 1, coverage, maxHits)];
    }
  }
}
