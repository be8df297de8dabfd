/**
 * The Python string built-ins the tracefile parser relies on, given definite
 * meanings: `str.strip()`, `str.split(",")`, `str.splitlines()`, `int()` on a
 * decimal literal, and decimal rendering of an integer (for round trips).
 */
module PyStr {
  import opened Wrappers

  /** The characters `str.isspace()` accepts, and so the ones `str.strip()` removes. */
  predicate IsSpace(c: char)
  {
    || ('\t' <= c <= '\r')              // tab, line feed, vertical tab, form feed, carriage return
    || ('\U{1C}' <= c <= '\U{1F}')      // file, group, record and unit separators
    || c == ' ' || c == '\U{85}' || c == '\U{A0}' || c == '\U{1680}'
    || ('\U{2000}' <= c <= '\U{200A}')
    || c == '\U{2028}' || c == '\U{2029}' || c == '\U{202F}' || c == '\U{205F}' || c == '\U{3000}'
  }

  /** The characters `str.splitlines()` treats as line boundaries (with "\r\n" as one). */
  predicate IsLineBreak(c: char)
  {
    || ('\n' <= c <= '\r')
    || ('\U{1C}' <= c <= '\U{1E}')
    || c == '\U{85}' || c == '\U{2028}' || c == '\U{2029}'
  }

  predicate IsDigit(c: char)
  {
    '0' <= c <= '9'
  }

  /** `s.startswith(prefix)`. */
  predicate StartsWith(s: string, prefix: string)
  {
    |prefix| <= |s| && s[..|prefix|] == prefix
  }

  /**
   * The characters `int()` skips around a literal: those of `str.isspace()`
   * except the ASCII separators U+001C to U+001F, which `int()` rejects.
   */
  predicate IsIntSpace(c: char)
  {
    IsSpace(c) && !('\U{1C}' <= c <= '\U{1F}')
  }

  /** Which whitespace a strip skips: that of `str.strip()` or that of `int()`. */
  datatype Blanks = StrBlanks | IntBlanks

  /** `c` is whitespace of the kind `blanks`. */
  predicate IsBlank(c: char, blanks: Blanks)
  {
    if blanks == StrBlanks then IsSpace(c) else IsIntSpace(c)
  }

  // ---------------------------------------------------------------- strip

  /** Drops the longest prefix of characters that are whitespace of the kind `blanks`. */
  function TrimStart(s: string, blanks: Blanks): (r: string)
    ensures |r| <= |s| && r == s[|s| - |r|..]
    ensures forall k :: 0 <= k < |s| - |r| ==> IsBlank(s[k], blanks)
    ensures r == [] || !IsBlank(r[0], blanks)
  {
    if |s| > 0 && IsBlank(s[0], blanks) then TrimStart(s[1..], blanks) else s
  }

  /** Drops the longest suffix of characters that are whitespace of the kind `blanks`. */
  function TrimEnd(s: string, blanks: Blanks): (r: string)
    ensures |r| <= |s| && r == s[..|r|]
    ensures forall k :: |r| <= k < |s| ==> IsBlank(s[k], blanks)
    ensures r == [] || !IsBlank(r[|r| - 1], blanks)
  {
    if |s| > 0 && IsBlank(s[|s| - 1], blanks) then TrimEnd(s[..|s| - 1], blanks) else s
  }

  /** `s` without its leading and trailing whitespace of the kind `blanks`. */
  function StripBy(s: string, blanks: Blanks): (r: string)
    ensures |r| <= |s|
    ensures r == [] || (!IsBlank(r[0], blanks) && !IsBlank(r[|r| - 1], blanks))
    ensures (s == [] || (!IsBlank(s[0], blanks) && !IsBlank(s[|s| - 1], blanks))) ==> r == s
  {
    TrimEnd(TrimStart(s, blanks), blanks)
  }

  /** `s.strip()`: `s` without its leading and trailing whitespace. */
  function Strip(s: string): (r: string)
    ensures |r| <= |s|
    ensures r == [] || (!IsSpace(r[0]) && !IsSpace(r[|r| - 1]))
    ensures (s == [] || (!IsSpace(s[0]) && !IsSpace(s[|s| - 1]))) ==> r == s
  {
    StripBy(s, StrBlanks)
  }

  /** Stripping is idempotent. */
  lemma StripIdempotent(s: string)
    ensures Strip(Strip(s)) == Strip(s)
  {
  }

  /** A string made only of whitespace strips to the empty string. */
  lemma {:induction false} StripAllSpaces(s: string)
    requires forall k :: 0 <= k < |s| ==> IsSpace(s[k])
    ensures Strip(s) == ""
  {
    if |s| > 0 {
      assert TrimStart(s, StrBlanks) == TrimStart(s[1..], StrBlanks);
      StripAllSpaces(s[1..]);
    }
  }

  // ---------------------------------------------------------------- split on a separator

  /** The inverse of `Split`: the parts glued back together with `sep` between them. */
  function Join(parts: seq<string>, sep: char): string
    requires |parts| >= 1
  {
    if |parts| == 1 then parts[0] else parts[0] + [sep] + Join(parts[1..], sep)
  }

  /** `s.split(sep)`: always at least one part, none containing `sep`, and joining them gives `s` back. */
  function Split(s: string, sep: char): (r: seq<string>)
    ensures |r| >= 1
    ensures forall i :: 0 <= i < |r| ==> sep !in r[i]
    ensures Join(r, sep) == s
  {
    if |s| == 0 then [""]
    else
      var rest := Split(s[1..], sep);
      if s[0] == sep then
        assert Join([""] + rest, sep) == [sep] + Join(rest, sep) by {
          assert ([""] + rest)[1..] == rest;
        }
        [""] + rest
      else
        var r := [[s[0]] + rest[0]] + rest[1..];
        assert Join(r, sep) == [s[0]] + Join(rest, sep) by {
          if |rest| > 1 {
            assert r[1..] == rest[1..];
          }
        }
        r
  }

  /** A separator-free part comes off the front of a split intact. */
  lemma {:induction false} SplitAfterPart(p: string, sep: char, x: string)
    requires sep !in p
    ensures Split(p + [sep] + x, sep) == [p] + Split(x, sep)
  {
    if |p| == 0 {
      assert p + [sep] + x == [sep] + x;
      assert ([sep] + x)[1..] == x;
    } else {
      var s := p + [sep] + x;
      assert s[0] == p[0] && s[1..] == p[1..] + [sep] + x;
      SplitAfterPart(p[1..], sep, x);
      assert [p[0]] + p[1..] == p;
    }
  }

  /** A string without the separator is a single part. */
  lemma {:induction false} SplitWithoutSeparator(p: string, sep: char)
    requires sep !in p
    ensures Split(p, sep) == [p]
  {
    if |p| > 0 {
      SplitWithoutSeparator(p[1..], sep);
      assert [p[0]] + p[1..] == p;
    }
  }

  /** Splitting a join of separator-free parts gives the parts back. */
  lemma {:induction false} SplitJoin(parts: seq<string>, sep: char)
    requires |parts| >= 1
    requires forall i :: 0 <= i < |parts| ==> sep !in parts[i]
    ensures Split(Join(parts, sep), sep) == parts
  {
    if |parts| == 1 {
      SplitWithoutSeparator(parts[0], sep);
    } else {
      SplitJoin(parts[1..], sep);
      SplitAfterPart(parts[0], sep, Join(parts[1..], sep));
      assert [parts[0]] + parts[1..] == parts;
    }
  }

  // ---------------------------------------------------------------- splitlines

  /** Text on one line: no line boundary in it. */
  predicate OneLine(t: string)
  {
    forall j :: 0 <= j < |t| ==> !IsLineBreak(t[j])
  }

  /** No line contains a line boundary. */
  predicate NoBreaks(lines: seq<string>)
  {
    forall i :: 0 <= i < |lines| ==> OneLine(lines[i])
  }

  /** Index of the first line boundary in `s`, or `|s|` when there is none. */
  function FirstBreak(s: string): (k: nat)
    ensures k <= |s|
    ensures forall j :: 0 <= j < k ==> !IsLineBreak(s[j])
    ensures k < |s| ==> IsLineBreak(s[k])
  {
    if |s| == 0 || IsLineBreak(s[0]) then 0 else 1 + FirstBreak(s[1..])
  }

  /**
   * `s.splitlines()`: the lines of `s` without their terminators; a final
   * terminator does not start an empty last line, and "\r\n" ends one line.
   */
  function SplitLines(s: string): (r: seq<string>)
    ensures NoBreaks(r)
    decreases |s|
  {
    if |s| == 0 then []
    else
      var k := FirstBreak(s);
      if k == |s| then [s]
      else
        var next := if s[k] == '\r' && k + 1 < |s| && s[k + 1] == '\n' then k + 2 else k + 1;
        assert OneLine(s[..k]);
        [s[..k]] + SplitLines(s[next..])
  }

  /** Lines each followed by "\n": the text `SplitLines` undoes. */
  function JoinLines(lines: seq<string>): string
  {
    if lines == [] then "" else lines[0] + "\n" + JoinLines(lines[1..])
  }

  /** `splitlines` recovers break-free lines written one per "\n"-terminated line. */
  lemma {:induction false} SplitLinesJoinLines(lines: seq<string>)
    requires NoBreaks(lines)
    ensures SplitLines(JoinLines(lines)) == lines
  {
    if lines != [] {
      var l, tail := lines[0], lines[1..];
      var rest := JoinLines(tail);
      var s := l + ("\n" + rest);
      assert JoinLines(lines) == s;
      assert OneLine(lines[0]);
      FirstBreakAt(l, "\n" + rest);
      assert s[|l|] == '\n';
      assert s[..|l|] == l;
      assert s[|l| + 1..] == rest;
      assert SplitLines(s) == [l] + SplitLines(rest);
      assert NoBreaks(tail) by {
        assert forall i :: 0 <= i < |tail| ==> tail[i] == lines[i + 1];
      }
      SplitLinesJoinLines(tail);
      assert [l] + tail == lines;
    }
  }

  /** The last line: text without a boundary is one line, or none when it is empty. */
  lemma SplitLinesLast(l: string)
    requires OneLine(l)
    ensures SplitLines(l) == (if l == "" then [] else [l])
  {
  }

  /** A boundary other than "\r" ends the line before it. */
  lemma SplitLinesAfterBreak(l: string, b: char, rest: string)
    requires OneLine(l) && IsLineBreak(b) && b != '\r'
    ensures SplitLines(l + [b] + rest) == [l] + SplitLines(rest)
  {
    var s := l + ([b] + rest);
    assert l + [b] + rest == s;
    FirstBreakAt(l, [b] + rest);
    assert s[|l|] == b;
    assert s[..|l|] == l && s[|l| + 1..] == rest;
  }

  /** "\r\n" ends one line, not two. */
  lemma SplitLinesAfterCrLf(l: string, rest: string)
    requires OneLine(l)
    ensures SplitLines(l + "\r\n" + rest) == [l] + SplitLines(rest)
  {
    var s := l + ("\r\n" + rest);
    assert l + "\r\n" + rest == s;
    FirstBreakAt(l, "\r\n" + rest);
    assert s[|l|] == '\r' && s[|l| + 1] == '\n';
    assert s[..|l|] == l && s[|l| + 2..] == rest;
  }

  /** A "\r" not followed by "\n" ends a line by itself. */
  lemma SplitLinesAfterCr(l: string, rest: string)
    requires OneLine(l)
    requires rest == [] || rest[0] != '\n'
    ensures SplitLines(l + "\r" + rest) == [l] + SplitLines(rest)
  {
    var s := l + ("\r" + rest);
    assert l + "\r" + rest == s;
    FirstBreakAt(l, "\r" + rest);
    assert s[|l|] == '\r';
    assert |l| + 1 < |s| ==> s[|l| + 1] == rest[0];
    assert s[..|l|] == l && s[|l| + 1..] == rest;
  }

  /** The first boundary of `l + t` is that of `t` when `l` has none. */
  lemma {:induction false} FirstBreakAt(l: string, t: string)
    requires OneLine(l)
    requires |t| > 0 && IsLineBreak(t[0])
    ensures FirstBreak(l + t) == |l|
  {
    if |l| > 0 {
      assert (l + t)[1..] == l[1..] + t;
      FirstBreakAt(l[1..], t);
    }
  }

  // ---------------------------------------------------------------- int()

  /** ASCII digits with single underscores between them, as `int()` accepts in base 10. */
  predicate IsDigitGroup(t: string)
  {
    && |t| > 0
    && IsDigit(t[0]) && IsDigit(t[|t| - 1])
    && (forall i :: 0 <= i < |t| ==> IsDigit(t[i]) || t[i] == '_')
    && (forall i :: 0 <= i < |t| - 1 ==> t[i] == '_' ==> t[i + 1] != '_')
  }

  /** `t` with its underscores removed, the other characters kept in order. */
  function DropUnderscores(t: string): (r: string)
    ensures |r| <= |t|
    ensures '_' !in t ==> r == t
  {
    if t == [] then [] else (if t[0] == '_' then [] else [t[0]]) + DropUnderscores(t[1..])
  }

  /** No underscore is left, and every other character is kept. */
  lemma {:induction false} DropUnderscoresRemovesAll(t: string)
    ensures '_' !in DropUnderscores(t)
    ensures forall c :: c in t && c != '_' ==> c in DropUnderscores(t)
    decreases |t|
  {
    if t != [] {
      DropUnderscoresRemovesAll(t[1..]);
      assert forall c :: c in t ==> c == t[0] || c in t[1..];
    }
  }

  /** Removing underscores from a concatenation removes them from each part. */
  lemma {:induction false} DropUnderscoresAppend(a: string, b: string)
    ensures DropUnderscores(a + b) == DropUnderscores(a) + DropUnderscores(b)
    decreases |a|
  {
    if a == [] {
      assert a + b == b;
    } else {
      var head := if a[0] == '_' then [] else [a[0]];
      assert (a + b)[0] == a[0] && (a + b)[1..] == a[1..] + b;
      calc {
        DropUnderscores(a + b);
        head + DropUnderscores(a[1..] + b);
        { DropUnderscoresAppend(a[1..], b); }
        head + (DropUnderscores(a[1..]) + DropUnderscores(b));
        (head + DropUnderscores(a[1..])) + DropUnderscores(b);
        DropUnderscores(a) + DropUnderscores(b);
      }
    }
  }

  /** An underscore between two pieces is simply dropped. */
  lemma DropUnderscoresAt(a: string, b: string)
    ensures DropUnderscores(a + ['_'] + b) == DropUnderscores(a) + DropUnderscores(b)
  {
    var tail := ['_'] + b;
    assert a + ['_'] + b == a + tail;
    DropLeadingUnderscore(b);
    DropUnderscoresAppend(a, tail);
  }

  lemma DropLeadingUnderscore(b: string)
    ensures DropUnderscores(['_'] + b) == DropUnderscores(b)
  {
    var tail := ['_'] + b;
    assert tail[0] == '_' && tail[1..] == b;
  }

  /** The value of a string of decimal digits, most significant first. */
  function DecimalValue(ds: string): nat
  {
    if ds == [] then 0
    else
      var d := ds[|ds| - 1] as int - '0' as int;
      DecimalValue(ds[..|ds| - 1]) * 10 + (if 0 <= d <= 9 then d else 0)
  }

  /** The value of an unsigned literal, or None when `t` is not one. */
  function ParseDigits(t: string): Option<nat>
  {
    if IsDigitGroup(t) then Some(DecimalValue(DropUnderscores(t))) else None
  }

  /**
   * `int(s)` for base 10: surrounding `int()` whitespace is ignored, then an
   * optional sign and a digit group; None where Python raises ValueError.
   */
  function ParseInt(s: string): Option<int>
  {
    var t := StripBy(s, IntBlanks);
    if |t| > 0 && (t[0] == '+' || t[0] == '-') then
      match ParseDigits(t[1..])
      case None => None
      case Some(m) => var v: int := if t[0] == '-' then -(m as int) else m; Some(v)
    else
      match ParseDigits(t)
      case None => None
      case Some(m) => var v: int := m; Some(v)
  }

  function DigitChar(d: nat): char
    requires d < 10
  {
    ('0' as int + d) as char
  }

  /** Decimal rendering of a natural number, without leading zeros. */
  function ShowNat(n: nat): (r: string)
    ensures |r| > 0
    ensures forall i :: 0 <= i < |r| ==> IsDigit(r[i])
    ensures DecimalValue(r) == n
  {
    if n < 10 then [DigitChar(n)]
    else
      var r := ShowNat(n / 10) + [DigitChar(n % 10)];
      assert r[..|r| - 1] == ShowNat(n / 10);
      r
  }

  /** Decimal rendering of an integer, as `f"{n}"` produces it. */
  function ShowInt(n: int): (r: string)
  {
    if n < 0 then "-" + ShowNat(-n) else ShowNat(n)
  }

  /** A rendered integer contains neither commas, whitespace nor line boundaries. */
  lemma ShowIntPlain(n: int)
    ensures |ShowInt(n)| > 0
    ensures forall i :: 0 <= i < |ShowInt(n)| ==>
      ShowInt(n)[i] != ',' && !IsSpace(ShowInt(n)[i]) && !IsLineBreak(ShowInt(n)[i])
  {
  }

  /** `int(str(n)) == n`: parsing undoes rendering. */
  lemma ParseIntShowInt(n: int)
    ensures ParseInt(ShowInt(n)) == Some(n)
  {
    var s := ShowInt(n);
    ShowIntPlain(n);
    assert StripBy(s, IntBlanks) == s;
    var m: nat := if n < 0 then -n else n;
    var ds := ShowNat(m);
    assert '_' !in ds;
    assert IsDigitGroup(ds);
    if n < 0 {
      assert s[1..] == ds;
    }
  }

  /** A digit group is an unsigned literal with nothing to strip: `int()` gives its digits' value. */
  lemma ParseDigitGroup(t: string)
    requires IsDigitGroup(t)
    ensures ParseInt(t) == Some(DecimalValue(DropUnderscores(t)) as int)
  {
    assert !IsIntSpace(t[0]) && !IsIntSpace(t[|t| - 1]);
    assert StripBy(t, IntBlanks) == t;
    assert t[0] != '+' && t[0] != '-';
  }

  /** Two digit groups with one underscore between them form a digit group. */
  lemma JoinWithUnderscore(a: string, b: string)
    requires IsDigitGroup(a) && IsDigitGroup(b)
    ensures IsDigitGroup(a + "_" + b)
  {
    var u := a + "_" + b;
    assert forall i :: 0 <= i < |a| ==> u[i] == a[i];
    assert forall i :: 0 <= i < |b| ==> u[|a| + 1 + i] == b[i];
    assert u[|a|] == '_';
    forall i | 0 <= i < |u|
      ensures IsDigit(u[i]) || u[i] == '_'
    {
      if i > |a| {
        assert u[i] == b[i - |a| - 1];
      }
    }
    forall i | 0 <= i < |u| - 1 && u[i] == '_'
      ensures u[i + 1] != '_'
    {
      if i > |a| {
        assert u[i] == b[i - |a| - 1];
        assert u[i + 1] == b[i - |a|];
      } else if i == |a| {
        assert u[i + 1] == b[0];
      } else {
        assert u[i] == a[i];
        if i + 1 < |a| {
          assert u[i + 1] == a[i + 1];
        }
      }
    }
  }

  /** Two digit groups written one after the other form a digit group. */
  lemma JoinDirect(a: string, b: string)
    requires IsDigitGroup(a) && IsDigitGroup(b)
    ensures IsDigitGroup(a + b)
  {
    var v := a + b;
    assert forall i :: 0 <= i < |a| ==> v[i] == a[i];
    assert forall i :: 0 <= i < |b| ==> v[|a| + i] == b[i];
    forall i | 0 <= i < |v|
      ensures IsDigit(v[i]) || v[i] == '_'
    {
      if i >= |a| {
        assert v[i] == b[i - |a|];
      }
    }
    forall i | 0 <= i < |v| - 1 && v[i] == '_'
      ensures v[i + 1] != '_'
    {
      if i >= |a| {
        assert v[i] == b[i - |a|];
        assert v[i + 1] == b[i - |a| + 1];
      } else {
        assert v[i] == a[i];
        if i + 1 < |a| {
          assert v[i + 1] == a[i + 1];
        }
      }
    }
  }

  /** `int("1_000") == int("1000")`: one underscore between two digit groups does not change the value. */
  lemma UnderscoreBetweenDigits(a: string, b: string)
    requires IsDigitGroup(a) && IsDigitGroup(b)
    ensures ParseInt(a + "_" + b).Some?
    ensures ParseInt(a + "_" + b) == ParseInt(a + b)
  {
    JoinWithUnderscore(a, b);
    JoinDirect(a, b);
    ParseDigitGroup(a + "_" + b);
    ParseDigitGroup(a + b);
    assert a + "_" + b == a + ['_'] + b;
    DropUnderscoresAt(a, b);
    DropUnderscoresAppend(a, b);
  }

  /** `strip()` removes the unit separator U+001F. */
  lemma StripSkipsSeparator()
    ensures Strip("\U{1F}5") == "5"
  {
    var s, five := "\U{1F}5", "5";
    assert IsSpace(s[0]) && !IsSpace(five[0]);
    assert s[1..] == five;
    assert TrimStart(five, StrBlanks) == five;
    assert TrimStart(s, StrBlanks) == five;
    assert TrimEnd(five, StrBlanks) == five;
    assert StripBy(s, StrBlanks) == five;
  }

  /**
   * `int()` skips fewer characters than `strip()`: it rejects a literal
   * preceded by the unit separator U+001F.
   */
  lemma IntRejectsSeparator()
    ensures ParseInt("\U{1F}5") == None
  {
    var s := "\U{1F}5";
    assert !IsIntSpace(s[0]) && !IsIntSpace(s[1]);
    assert StripBy(s, IntBlanks) == s;
    assert !IsDigitGroup(s);
  }
}
