/** An optional value, for lookups that may find nothing. */
module Options {
  datatype Option<+T> = None | Some(value: T) {
    function Or(default: T): T { if Some? then value else default }
  }
}

/** The string operations of the Go standard library that the repository relies on.
    A string is a sequence of Unicode scalar values; Go compares the UTF-8 bytes,
    which orders valid strings exactly as their scalar values do. */
module Text {
  import opened Options

  /** Unicode White_Space, the set `strings.TrimSpace` removes. */
  predicate IsSpace(c: char) {
    || '\t' <= c <= '\r'
    || c in {' ', '\U{85}', '\U{A0}', '\U{1680}', '\U{2028}', '\U{2029}', '\U{202F}', '\U{205F}', '\U{3000}'}
    || '\U{2000}' <= c <= '\U{200A}'
  }

  predicate IsHyphen(c: char) { c == '-' }

  predicate IsDigit(c: char) { '0' <= c <= '9' }

  predicate IsLower(c: char) { 'a' <= c <= 'z' }

  predicate IsAlnum(c: char) { IsDigit(c) || IsLower(c) || 'A' <= c <= 'Z' }

  predicate All(s: string, p: char -> bool) { forall i :: 0 <= i < |s| ==> p(s[i]) }

  function TrimLeft(s: string, cut: char -> bool): (r: string)
    ensures |r| <= |s| && r == s[|s| - |r|..]
    ensures r != "" ==> !cut(r[0])
    ensures All(s[..|s| - |r|], cut)
  {
    if s != "" && cut(s[0]) then
      var r := TrimLeft(s[1..], cut);
      assert s[..|s| - |r|] == [s[0]] + s[1..][..|s[1..]| - |r|];
      r
    else s
  }

  function TrimRight(s: string, cut: char -> bool): (r: string)
    ensures |r| <= |s| && r == s[..|r|]
    ensures r != "" ==> !cut(r[|r| - 1])
    ensures All(s[|r|..], cut)
  {
    if s != "" && cut(s[|s| - 1]) then
      var r := TrimRight(s[..|s| - 1], cut);
      assert s[|r|..] == s[..|s| - 1][|r|..] + [s[|s| - 1]];
      r
    else s
  }

  function Trim(s: string, cut: char -> bool): (r: string)
    ensures |r| <= |s|
    ensures r != "" ==> !cut(r[0]) && !cut(r[|r| - 1])
    ensures |s| - |TrimLeft(s, cut)| + |r| <= |s|
    ensures r == s[|s| - |TrimLeft(s, cut)|..][..|r|]
  {
    TrimRight(TrimLeft(s, cut), cut)
  }

  lemma SliceAll(s: string, k: nat, n: nat, p: char -> bool)
    requires All(s, p) && k + n <= |s|
    ensures All(s[k..][..n], p)
  {
  }

  /** Trimming keeps every property all characters have. */
  lemma TrimAll(s: string, cut: char -> bool, p: char -> bool)
    requires All(s, p)
    ensures All(Trim(s, cut), p)
  {
    SliceAll(s, |s| - |TrimLeft(s, cut)|, |Trim(s, cut)|, p);
  }

  /** Trimming stops at characters that are not cut: a string with clean ends is a fixed point. */
  lemma TrimFixed(s: string, cut: char -> bool)
    requires s != "" ==> !cut(s[0]) && !cut(s[|s| - 1])
    ensures Trim(s, cut) == s
  {
  }

  /** A character to be cut in front makes no difference. */
  lemma TrimCut(c: char, s: string, cut: char -> bool)
    requires cut(c)
    ensures Trim([c] + s, cut) == Trim(s, cut)
  {
    assert ([c] + s)[1..] == s;
    assert TrimLeft([c] + s, cut) == TrimLeft(s, cut);
  }

  /** `strings.TrimSpace`. */
  function TrimSpace(s: string): string { Trim(s, IsSpace) }

  /** Drops the leading characters outside `keep`. */
  function SkipRun(s: string, keep: char -> bool): (r: string)
    ensures |r| <= |s|
    ensures r != "" ==> keep(r[0])
  {
    if s == "" || keep(s[0]) then s else SkipRun(s[1..], keep)
  }

  /** `regexp.ReplaceAllString(s, "-")` for a pattern `[^keep]+`: every maximal run of
      characters outside `keep` becomes one hyphen. */
  function Collapse(s: string, keep: char -> bool): (r: string)
    ensures forall i :: 0 <= i < |r| ==> keep(r[i]) || r[i] == '-'
    decreases |s|
  {
    if s == "" then ""
    else if keep(s[0]) then [s[0]] + Collapse(s[1..], keep)
    else "-" + Collapse(SkipRun(s[1..], keep), keep)
  }

  lemma {:induction false} CollapseFixed(s: string, keep: char -> bool)
    requires All(s, keep)
    ensures Collapse(s, keep) == s
  {
    if s != "" {
      assert All(s[1..], keep);
      CollapseFixed(s[1..], keep);
    }
  }

  /** The characters of `s` that satisfy `p`, in order. */
  function Filter(s: string, p: char -> bool): string {
    if s == "" then "" else (if p(s[0]) then [s[0]] else "") + Filter(s[1..], p)
  }

  lemma ConcatAssociative(a: string, b: string, c: string)
    ensures a + (b + c) == (a + b) + c
  {
  }

  lemma {:induction false} FilterConcat(a: string, b: string, p: char -> bool)
    ensures Filter(a + b, p) == Filter(a, p) + Filter(b, p)
  {
    if a == "" {
      assert a + b == b;
    } else {
      FilterConcat(a[1..], b, p);
      assert (a + b)[0] == a[0] && (a + b)[1..] == a[1..] + b;
      ConcatAssociative(if p(a[0]) then [a[0]] else "", Filter(a[1..], p), Filter(b, p));
    }
  }

  lemma {:induction false} FilterNone(s: string, p: char -> bool)
    requires forall i :: 0 <= i < |s| ==> !p(s[i])
    ensures Filter(s, p) == ""
  {
    if s != "" { FilterNone(s[1..], p); }
  }

  lemma {:induction false} SkipRunFilter(s: string, keep: char -> bool, p: char -> bool)
    requires forall c :: p(c) ==> keep(c)
    ensures Filter(SkipRun(s, keep), p) == Filter(s, p)
  {
    if s != "" && !keep(s[0]) { SkipRunFilter(s[1..], keep, p); }
  }

  /** Collapsing loses none of the characters it is to keep, and only moves hyphens. */
  lemma {:induction false} CollapseFilter(s: string, keep: char -> bool, p: char -> bool)
    requires (forall c :: p(c) ==> keep(c)) && !p('-')
    ensures Filter(Collapse(s, keep), p) == Filter(s, p)
    decreases |s|
  {
    if s == "" {
    } else if keep(s[0]) {
      CollapseFilter(s[1..], keep, p);
      assert ([s[0]] + Collapse(s[1..], keep))[1..] == Collapse(s[1..], keep);
    } else {
      var t := SkipRun(s[1..], keep);
      CollapseFilter(t, keep, p);
      SkipRunFilter(s[1..], keep, p);
      assert ("-" + Collapse(t, keep))[1..] == Collapse(t, keep);
    }
  }

  /** What trimming cuts off on each side. */
  lemma TrimParts(s: string, cut: char -> bool) returns (a: string, b: string)
    ensures s == a + (Trim(s, cut) + b) && All(a, cut) && All(b, cut)
  {
    var t := TrimLeft(s, cut);
    a, b := s[..|s| - |t|], t[|TrimRight(t, cut)|..];
    CutAt(s, |s| - |t|);
    CutAt(t, |TrimRight(t, cut)|);
  }

  lemma CutAt(s: string, k: nat)
    requires k <= |s|
    ensures s == s[..k] + s[k..]
  {
  }

  /** Trimming loses nothing but characters to be cut. */
  lemma TrimFilter(s: string, cut: char -> bool, p: char -> bool)
    requires forall c :: p(c) ==> !cut(c)
    ensures Filter(Trim(s, cut), p) == Filter(s, p)
  {
    var a, b := TrimParts(s, cut);
    FilterConcat(a, Trim(s, cut) + b, p);
    FilterConcat(Trim(s, cut), b, p);
    FilterNone(a, p);
    FilterNone(b, p);
  }

  /** Lexicographic order of strings, as Go's `<` and SQLite's BINARY collation have it. */
  predicate Less(a: string, b: string) {
    b != "" && (a == "" || a[0] < b[0] || (a[0] == b[0] && Less(a[1..], b[1..])))
  }

  lemma {:induction false} LessIrreflexive(a: string)
    ensures !Less(a, a)
  {
    if a != "" { LessIrreflexive(a[1..]); }
  }

  lemma {:induction false} LessTransitive(a: string, b: string, c: string)
    requires Less(a, b) && Less(b, c)
    ensures Less(a, c)
  {
    if a != "" && a[0] == b[0] == c[0] { LessTransitive(a[1..], b[1..], c[1..]); }
  }

  /** Two strings neither of which is below the other are equal. */
  lemma {:induction false} LessTotal(a: string, b: string)
    ensures Less(a, b) || Less(b, a) || a == b
  {
    if a != "" && b != "" && a[0] == b[0] {
      LessTotal(a[1..], b[1..]);
      assert a == [a[0]] + a[1..] && b == [b[0]] + b[1..];
    }
  }

  lemma {:induction false} LessAsymmetric(a: string, b: string)
    requires Less(a, b)
    ensures !Less(b, a)
  {
    if a != "" && a[0] == b[0] { LessAsymmetric(a[1..], b[1..]); }
  }

  /** Comparing concatenations whose first parts have one length compares the parts in turn. */
  lemma {:induction false} LessConcat(a: string, x: string, b: string, y: string)
    requires |a| == |b|
    ensures Less(a + x, b + y) <==> Less(a, b) || (a == b && Less(x, y))
  {
    if a == "" {
      assert a + x == x && b + y == y;
    } else {
      assert (a + x)[1..] == a[1..] + x && (b + y)[1..] == b[1..] + y;
      assert a == [a[0]] + a[1..] && b == [b[0]] + b[1..];
      LessConcat(a[1..], x, b[1..], y);
    }
  }

  /** The parts of `s` between occurrences of `sep`; never empty. */
  function Split(s: string, sep: char): (r: seq<string>)
    ensures |r| >= 1
    ensures forall i :: 0 <= i < |r| ==> sep !in r[i]
  {
    if s == "" then [""]
    else if s[0] == sep then [""] + Split(s[1..], sep)
    else
      var rest := Split(s[1..], sep);
      [[s[0]] + rest[0]] + rest[1..]
  }

  /** A separator ends the part before it. */
  lemma {:induction false} SplitAt(a: string, sep: char, b: string)
    requires sep !in a
    ensures Split(a + [sep] + b, sep) == [a] + Split(b, sep)
  {
    if a == "" {
      assert a + [sep] + b == [sep] + b;
    } else {
      var s := a + [sep] + b;
      assert s[1..] == a[1..] + [sep] + b;
      SplitAt(a[1..], sep, b);
      assert [s[0]] + a[1..] == a;
    }
  }

  /** `strings.Join` with a one-character separator. */
  function Join(parts: seq<string>, sep: char): string
    requires parts != []
  {
    if |parts| == 1 then parts[0] else parts[0] + [sep] + Join(parts[1..], sep)
  }

  lemma {:induction false} JoinSplit(s: string, sep: char)
    ensures Join(Split(s, sep), sep) == s
  {
    if s != "" {
      JoinSplit(s[1..], sep);
      var rest := Split(s[1..], sep);
      if s[0] == sep {
        assert Split(s, sep)[1..] == rest;
      } else {
        assert Split(s, sep)[1..] == rest[1..];
        assert Split(s, sep)[0] == [s[0]] + rest[0];
      }
      assert s == [s[0]] + s[1..];
    }
  }

  /** Parts without the separator are found again. */
  lemma {:induction false} SplitOfJoin(parts: seq<string>, sep: char)
    requires parts != [] && forall i :: 0 <= i < |parts| ==> sep !in parts[i]
    ensures Split(Join(parts, sep), sep) == parts
  {
    if |parts| == 1 {
      SplitNone(parts[0], sep);
    } else {
      SplitOfJoin(parts[1..], sep);
      SplitAt(parts[0], sep, Join(parts[1..], sep));
      assert parts == [parts[0]] + parts[1..];
    }
  }

  lemma {:induction false} SplitNone(a: string, sep: char)
    requires sep !in a
    ensures Split(a, sep) == [a]
  {
    if a != "" {
      SplitNone(a[1..], sep);
      assert [a[0]] + a[1..] == a;
    }
  }

  /** The lines of a text file, each ended by a newline. */
  function JoinLines(lines: seq<string>): string {
    if lines == [] then "" else lines[0] + "\n" + JoinLines(lines[1..])
  }

  lemma {:induction false} JoinLinesAppend(a: seq<string>, b: seq<string>)
    ensures JoinLines(a + b) == JoinLines(a) + JoinLines(b)
  {
    if a == [] {
      assert a + b == b;
    } else {
      assert (a + b)[1..] == a[1..] + b;
      JoinLinesAppend(a[1..], b);
    }
  }

  predicate OneLine(s: string) { '\n' !in s }

  /** Splitting at newlines undoes joining lines. */
  lemma {:induction false} SplitJoin(lines: seq<string>)
    requires forall i :: 0 <= i < |lines| ==> OneLine(lines[i])
    ensures Split(JoinLines(lines), '\n') == lines + [""]
  {
    if lines != [] {
      SplitJoin(lines[1..]);
      SplitAt(lines[0], '\n', JoinLines(lines[1..]));
      assert lines[0] + "\n" + JoinLines(lines[1..]) == lines[0] + ['\n'] + JoinLines(lines[1..]);
      assert lines == [lines[0]] + lines[1..];
    }
  }
}
