/**
 * The Python 2 string operations the bookkeeping code relies on, over
 * `string` = `seq<char>` (a Python 2 `str` is a byte string, so every
 * character class below is the ASCII one).
 */
module Text {

  // ---------------------------------------------------------------------
  // Whitespace, `str.split()`, `" ".join(...)` and `str.strip()`
  // ---------------------------------------------------------------------

  /** The six ASCII whitespace characters of `str.split()` and `\s`. */
  predicate IsSpace(c: char) {
    c == ' ' || (9 <= c as int <= 13)
  }

  /** A field produced by `str.split()`: non-empty, no whitespace. */
  predicate IsWord(w: string) {
    |w| > 0 && forall i :: 0 <= i < |w| ==> !IsSpace(w[i])
  }

  /** Length of the leading run of non-whitespace characters. */
  function RunLen(s: string): (n: nat)
    ensures n <= |s|
    ensures forall i :: 0 <= i < n ==> !IsSpace(s[i])
    ensures n < |s| ==> IsSpace(s[n])
  {
    if s == [] || IsSpace(s[0]) then 0 else 1 + RunLen(s[1..])
  }

  /** `s.split()`: the maximal runs of non-whitespace characters, in order. */
  function Words(s: string): (ws: seq<string>)
    ensures forall i :: 0 <= i < |ws| ==> IsWord(ws[i])
    decreases |s|
  {
    if s == [] then []
    else if IsSpace(s[0]) then Words(s[1..])
    else
      var n := RunLen(s);
      [s[..n]] + Words(s[n..])
  }

  /** `sep.join(ws)`. */
  function Join(ws: seq<string>, sep: string): string {
    if ws == [] then ""
    else if |ws| == 1 then ws[0]
    else ws[0] + sep + Join(ws[1..], sep)
  }

  /** `s.lstrip()`. */
  function LStrip(s: string): string {
    if s != [] && IsSpace(s[0]) then LStrip(s[1..]) else s
  }

  /** `s.rstrip()`. */
  function RStrip(s: string): string {
    if s != [] && IsSpace(s[|s| - 1]) then RStrip(s[..|s| - 1]) else s
  }

  /** `s.strip()`. */
  function Strip(s: string): string {
    RStrip(LStrip(s))
  }

  /** A comment as `" ".join(s.split())` leaves it: single spaces, no padding. */
  function Normalize(s: string): string {
    Join(Words(s), " ")
  }

  lemma {:induction false} WordsOfWord(w: string)
    requires IsWord(w)
    ensures Words(w) == [w]
  {
    assert RunLen(w) == |w| by { RunLenOfWord(w); }
    assert w[..|w|] == w;
    assert w[|w|..] == [];
    assert Words(w) == [w[..|w|]] + Words(w[|w|..]);
  }

  lemma {:induction false} RunLenOfWord(w: string)
    requires forall i :: 0 <= i < |w| ==> !IsSpace(w[i])
    ensures RunLen(w) == |w|
    decreases |w|
  {
    if w != [] {
      RunLenOfWord(w[1..]);
    }
  }

  /** A whitespace character separates the words on its two sides. */
  lemma {:induction false} WordsSep(a: string, c: char, b: string)
    requires IsSpace(c)
    ensures Words(a + [c] + b) == Words(a) + Words(b)
    decreases |a|
  {
    var s := a + [c] + b;
    if a == [] {
      assert s == [c] + b;
      assert s[1..] == b;
    } else if IsSpace(a[0]) {
      assert s[1..] == a[1..] + [c] + b;
      WordsSep(a[1..], c, b);
    } else {
      var n := RunLen(s);
      var m := RunLen(a);
      assert n == m by { RunLenPrefix(a, c, b); }
      assert s[..n] == a[..m];
      assert s[n..] == a[m..] + [c] + b;
      WordsSep(a[m..], c, b);
    }
  }

  lemma {:induction false} RunLenPrefix(a: string, c: char, b: string)
    requires IsSpace(c)
    ensures RunLen(a + [c] + b) == RunLen(a)
    decreases |a|
  {
    var s := a + [c] + b;
    if a != [] && !IsSpace(a[0]) {
      assert s[1..] == a[1..] + [c] + b;
      RunLenPrefix(a[1..], c, b);
    }
  }

  /** `" ".join(ws).split() == ws` for fields produced by `split()`. */
  lemma {:induction false} WordsOfJoin(ws: seq<string>)
    requires forall i :: 0 <= i < |ws| ==> IsWord(ws[i])
    ensures Words(Join(ws, " ")) == ws
  {
    if ws == [] {
    } else if |ws| == 1 {
      WordsOfWord(ws[0]);
    } else {
      WordsOfJoin(ws[1..]);
      WordsOfWord(ws[0]);
      assert Join(ws, " ") == ws[0] + [' '] + Join(ws[1..], " ");
      WordsSep(ws[0], ' ', Join(ws[1..], " "));
      assert ws == [ws[0]] + ws[1..];
    }
  }

  /** A join of words neither starts nor ends with whitespace, so `strip()` keeps it. */
  lemma {:induction false} StripJoinOfWords(ws: seq<string>)
    requires forall i :: 0 <= i < |ws| ==> IsWord(ws[i])
    ensures Strip(Join(ws, " ")) == Join(ws, " ")
  {
    var j := Join(ws, " ");
    if ws != [] {
      JoinEnds(ws);
    }
    assert LStrip(j) == j;
    assert RStrip(j) == j;
  }

  lemma {:induction false} JoinEnds(ws: seq<string>)
    requires ws != []
    requires forall i :: 0 <= i < |ws| ==> IsWord(ws[i])
    ensures |Join(ws, " ")| > 0
    ensures !IsSpace(Join(ws, " ")[0])
    ensures !IsSpace(Join(ws, " ")[|Join(ws, " ")| - 1])
  {
    if |ws| > 1 {
      JoinEnds(ws[1..]);
      var rest := Join(ws[1..], " ");
      assert Join(ws, " ") == ws[0] + " " + rest;
    }
  }

  /** Normalising twice changes nothing more. */
  lemma NormalizeIdempotent(s: string)
    ensures Normalize(Normalize(s)) == Normalize(s)
  {
    WordsOfJoin(Words(s));
  }

  /** Nothing but whitespace. */
  predicate AllSpace(s: string) {
    forall i :: 0 <= i < |s| ==> IsSpace(s[i])
  }

  /** `rstrip()` of all-whitespace text is empty. */
  lemma {:induction false} RStripOfSpace(s: string)
    requires AllSpace(s)
    ensures RStrip(s) == []
    decreases |s|
  {
    if s != [] {
      RStripOfSpace(s[..|s| - 1]);
    }
  }

  /** `lstrip()` of all-whitespace text is empty. */
  lemma {:induction false} LStripOfSpace(s: string)
    requires AllSpace(s)
    ensures LStrip(s) == []
    decreases |s|
  {
    if s != [] {
      LStripOfSpace(s[1..]);
    }
  }

  /** `(a + b).rstrip()`: the right part decides, unless it is all whitespace. */
  lemma {:induction false} RStripAppend(a: string, b: string)
    ensures RStrip(a + b) == if RStrip(b) == [] then RStrip(a) else a + RStrip(b)
    decreases |b|
  {
    if b != [] && IsSpace(b[|b| - 1]) {
      assert (a + b)[..|a + b| - 1] == a + b[..|b| - 1];
      RStripAppend(a, b[..|b| - 1]);
    } else if b == [] {
      assert a + b == a;
    }
  }

  /** `(a + b).lstrip()`: the left part decides, unless it is all whitespace. */
  lemma {:induction false} LStripAppend(a: string, b: string)
    ensures LStrip(a + b) == if LStrip(a) == [] then LStrip(b) else LStrip(a) + b
    decreases |a|
  {
    if a != [] && IsSpace(a[0]) {
      assert (a + b)[1..] == a[1..] + b;
      LStripAppend(a[1..], b);
    } else if a == [] {
      assert a + b == b;
    }
  }

  /** Trailing whitespace makes no difference to `strip()`. */
  lemma StripSpaceTail(a: string, b: string)
    requires AllSpace(b)
    ensures Strip(a + b) == Strip(a)
  {
    LStripAppend(a, b);
    LStripOfSpace(b);
    RStripOfSpace(b);
    RStripAppend(LStrip(a), b);
  }

  /** `s.rstrip()` is `s` without its trailing whitespace. */
  lemma {:induction false} RStripPrefix(s: string)
    ensures |RStrip(s)| <= |s| && s == RStrip(s) + s[|RStrip(s)|..]
    ensures AllSpace(s[|RStrip(s)|..])
    decreases |s|
  {
    if s != [] && IsSpace(s[|s| - 1]) {
      var t := s[..|s| - 1];
      RStripPrefix(t);
      var n := |RStrip(t)|;
      assert s[n..] == t[n..] + [s[|s| - 1]];
    }
  }

  // ---------------------------------------------------------------------
  // Prefixes, suffixes, substrings, `str.replace`, `str.split(c)`
  // ---------------------------------------------------------------------

  /** `s.startswith(p)`. */
  predicate StartsWith(s: string, p: string) {
    |p| <= |s| && s[..|p|] == p
  }

  /** `s.endswith(p)`. */
  predicate EndsWith(s: string, p: string) {
    |p| <= |s| && s[|s| - |p|..] == p
  }

  /** `p` occurs in `s` starting at index `i`. */
  predicate OccursAt(s: string, p: string, i: int) {
    0 <= i <= |s| - |p| && s[i..i + |p|] == p
  }

  /** `p in s`. */
  predicate Contains(s: string, p: string) {
    exists i :: 0 <= i <= |s| - |p| && OccursAt(s, p, i)
  }

  /** `s.replace(pat, rep)`: leftmost, non-overlapping occurrences, scanned left to right. */
  function Replace(s: string, pat: string, rep: string): string
    requires |pat| > 0
    decreases |s|
  {
    if |s| < |pat| then s
    else if s[..|pat|] == pat then rep + Replace(s[|pat|..], pat, rep)
    else [s[0]] + Replace(s[1..], pat, rep)
  }

  /** `replace` consumes a leading occurrence of the pattern. */
  lemma ReplaceLeading(pat: string, s: string, rep: string)
    requires |pat| > 0
    ensures Replace(pat + s, pat, rep) == rep + Replace(s, pat, rep)
  {
    assert (pat + s)[..|pat|] == pat;
    assert (pat + s)[|pat|..] == s;
  }

  /** A string in which `pat` never occurs is left alone by `replace`. */
  lemma {:induction false} ReplaceAbsent(s: string, pat: string, rep: string)
    requires |pat| > 0
    requires !Contains(s, pat)
    ensures Replace(s, pat, rep) == s
    decreases |s|
  {
    if |s| >= |pat| {
      assert s[0..0 + |pat|] == s[..|pat|];
      assert !OccursAt(s, pat, 0);
      assert !Contains(s[1..], pat) by {
        forall i | 0 <= i
          ensures !OccursAt(s[1..], pat, i)
        {
          if i <= |s[1..]| - |pat| {
            assert s[1..][i..i + |pat|] == s[i + 1..i + 1 + |pat|];
            assert !OccursAt(s, pat, i + 1);
          }
        }
      }
      ReplaceAbsent(s[1..], pat, rep);
    }
  }

  /** No occurrence of `pat` begins inside `x` when `x + t` is scanned. */
  predicate NoMatchStartsIn(x: string, t: string, pat: string) {
    forall i :: 0 <= i < |x| ==> !OccursAt(x + t, pat, i)
  }

  lemma NoMatchTail(x: string, t: string, pat: string)
    requires x != [] && NoMatchStartsIn(x, t, pat)
    ensures NoMatchStartsIn(x[1..], t, pat)
  {
    var s := x + t;
    assert s[1..] == x[1..] + t;
    forall i | 0 <= i < |x[1..]| ensures !OccursAt(x[1..] + t, pat, i) {
      assert !OccursAt(s, pat, i + 1);
      OccursShift(s, pat, i);
    }
  }

  /** An occurrence in the tail is an occurrence one position later in the whole. */
  lemma OccursShift(s: string, pat: string, i: int)
    requires s != [] && 0 <= i
    ensures OccursAt(s[1..], pat, i) <==> OccursAt(s, pat, i + 1)
  {
    if 0 <= i <= |s| - 1 - |pat| {
      assert s[1..][i..i + |pat|] == s[i + 1..i + 1 + |pat|];
    }
  }

  /** `replace` copies a prefix in which no occurrence of the pattern begins. */
  lemma {:induction false} ReplaceAfterClean(x: string, t: string, pat: string, rep: string)
    requires |pat| > 0
    requires NoMatchStartsIn(x, t, pat)
    ensures Replace(x + t, pat, rep) == x + Replace(t, pat, rep)
    decreases |x|
  {
    var s := x + t;
    if x == [] {
      assert s == t;
    } else if |s| < |pat| {
      assert Replace(t, pat, rep) == t;
    } else {
      assert s[..|pat|] != pat by {
        assert !OccursAt(s, pat, 0);
        assert s[0..0 + |pat|] == s[..|pat|];
      }
      ReplaceCopiesHead(s, pat, rep);
      assert s[1..] == x[1..] + t;
      NoMatchTail(x, t, pat);
      ReplaceAfterClean(x[1..], t, pat, rep);
      ConsAssoc(x, Replace(t, pat, rep));
    }
  }

  /** `replace` copies a first character that does not start the pattern. */
  lemma ReplaceCopiesHead(s: string, pat: string, rep: string)
    requires 0 < |pat| <= |s| && s[..|pat|] != pat
    ensures Replace(s, pat, rep) == [s[0]] + Replace(s[1..], pat, rep)
  {
  }

  lemma ConsAssoc(x: string, r: string)
    requires x != []
    ensures [x[0]] + (x[1..] + r) == x + r
  {
    assert x == [x[0]] + x[1..];
  }

  /**
   * No occurrence of `pat` straddles the boundary of `x + t` when `x` does not
   * contain it and `t[0]` matches no character of `pat` after the first.
   */
  lemma {:induction false} PatternClean(x: string, t: string, pat: string)
    requires |pat| > 0 && !Contains(x, pat)
    requires t != []
    requires forall j :: 1 <= j < |pat| ==> pat[j] != t[0]
    ensures NoMatchStartsIn(x, t, pat)
  {
    var s := x + t;
    forall i | 0 <= i < |x| ensures !OccursAt(s, pat, i) {
      if i + |pat| <= |x| {
        assert s[i..i + |pat|] == x[i..i + |pat|];
        assert !OccursAt(x, pat, i);
      } else if i + |pat| <= |s| {
        var j := |x| - i;
        assert s[i..i + |pat|][j] == t[0];
        assert pat[j] != t[0];
      }
    }
  }

  /** A pattern whose first character is absent from `s` does not occur in `s`. */
  lemma FirstCharAbsent(s: string, pat: string)
    requires |pat| > 0 && pat[0] !in s
    ensures !Contains(s, pat)
  {
    forall i | 0 <= i <= |s| - |pat| ensures !OccursAt(s, pat, i) {
      assert s[i..i + |pat|][0] == s[i];
    }
  }

  /**
   * Removing a leading `pat` from `pat + x + t`, where `pat` occurs neither in `x`
   * nor anywhere in `t` or across the seam, leaves `x + t`.
   */
  lemma ReplaceAround(pat: string, x: string, t: string)
    requires |pat| > 0 && !Contains(x, pat) && t != []
    requires t[0] !in pat[1..] && pat[0] !in t
    ensures Replace(pat + x + t, pat, []) == x + t
  {
    assert forall j :: 1 <= j < |pat| ==> pat[j] == pat[1..][j - 1];
    assert pat + x + t == pat + (x + t);
    ReplaceLeading(pat, x + t, []);
    PatternClean(x, t, pat);
    ReplaceAfterClean(x, t, pat, []);
    FirstCharAbsent(t, pat);
    ReplaceAbsent(t, pat, []);
  }

  /** Index of the first `c` in `s`, or `|s|` when there is none. */
  function Find(s: string, c: char): (k: nat)
    ensures k <= |s|
    ensures k < |s| ==> s[k] == c
    ensures forall i :: 0 <= i < k ==> s[i] != c
  {
    if s == [] then 0 else if s[0] == c then 0 else 1 + Find(s[1..], c)
  }

  /** Index of the last `c` in `s`, or -1 (`s.rfind(c)`). */
  function RFind(s: string, c: char): (k: int)
    ensures -1 <= k < |s|
    ensures k >= 0 ==> s[k] == c
    ensures forall i :: k < i < |s| ==> s[i] != c
  {
    if s == [] then -1
    else if s[|s| - 1] == c then |s| - 1
    else RFind(s[..|s| - 1], c)
  }

  /** `s.split(c)` for a one-character separator. */
  function Split(s: string, c: char): (parts: seq<string>)
    ensures |parts| >= 1
    ensures forall i :: 0 <= i < |parts| ==> c !in parts[i]
    decreases |s|
  {
    var k := Find(s, c);
    if k == |s| then [s] else [s[..k]] + Split(s[k + 1..], c)
  }

  /** `split` at the first separator: the text before it, then the split of the rest. */
  lemma SplitAtFirst(s: string, c: char)
    ensures Find(s, c) == |s| ==> Split(s, c) == [s]
    ensures Find(s, c) < |s| ==> Split(s, c)[1..] == Split(s[Find(s, c) + 1..], c)
  {
  }

  /** Joining the parts of `s.split(c)` with `c` gives `s` back. */
  lemma {:induction false} JoinSplit(s: string, c: char)
    ensures Join(Split(s, c), [c]) == s
    decreases |s|
  {
    var k := Find(s, c);
    if k < |s| {
      JoinSplit(s[k + 1..], c);
      var rest := Split(s[k + 1..], c);
      assert Split(s, c) == [s[..k]] + rest;
      assert Join(Split(s, c), [c]) == s[..k] + [c] + Join(rest, [c]);
      assert s == s[..k] + [c] + s[k + 1..];
    }
  }

  // ---------------------------------------------------------------------
  // Files as text: `writelines` and `readlines()`
  // ---------------------------------------------------------------------

  /** The file text after writing the strings one after another (`file.writelines`). */
  function Concat(ws: seq<string>): string {
    if ws == [] then [] else ws[0] + Concat(ws[1..])
  }

  /** A line as `readlines()` returns it before the end of the file: one '\n', at its end. */
  predicate IsFileLine(w: string) {
    w != [] && w[|w| - 1] == '\n' && '\n' !in w[..|w| - 1]
  }

  /**
   * `file.readlines()` (and iterating over a file): the text cut after each
   * '\n'; a last piece without one is kept as it is.
   */
  function FileLines(s: string): (lines: seq<string>)
    ensures Concat(lines) == s
    ensures forall i :: 0 <= i < |lines| - 1 ==> IsFileLine(lines[i])
    ensures forall i :: 0 <= i < |lines| ==> lines[i] != [] && '\n' !in lines[i][..|lines[i]| - 1]
    decreases |s|
  {
    if s == [] then []
    else
      var k := Find(s, '\n');
      CutAtNewline(s, k);
      if k == |s| then [s]
      else [s[..k + 1]] + FileLines(s[k + 1..])
  }

  /** The piece `readlines()` cuts off at the first '\n' (or the whole text without one). */
  lemma CutAtNewline(s: string, k: nat)
    requires s != [] && k == Find(s, '\n')
    ensures k == |s| ==> '\n' !in s[..|s| - 1]
    ensures k < |s| ==> IsFileLine(s[..k + 1]) && s[..k + 1] + s[k + 1..] == s
  {
    if k < |s| {
      LineBeforeNewline(s, k);
    } else {
      NoNewlineBeforeLast(s);
    }
  }

  lemma LineBeforeNewline(s: string, k: nat)
    requires k < |s| && s[k] == '\n' && forall i :: 0 <= i < k ==> s[i] != '\n'
    ensures IsFileLine(s[..k + 1]) && s[..k + 1] + s[k + 1..] == s
  {
    var line := s[..k + 1];
    assert line[..k] == s[..k];
    assert forall i :: 0 <= i < k ==> line[..k][i] != '\n';
  }

  lemma NoNewlineBeforeLast(s: string)
    requires s != [] && forall i :: 0 <= i < |s| ==> s[i] != '\n'
    ensures '\n' !in s[..|s| - 1]
  {
    assert forall i :: 0 <= i < |s| - 1 ==> s[..|s| - 1][i] == s[i];
  }

  /** The first '\n' of `w + r`, for a file line `w`, is the one that ends `w`. */
  lemma FindLineEnd(w: string, r: string)
    requires IsFileLine(w)
    ensures Find(w + r, '\n') == |w| - 1
  {
    var s := w + r;
    assert s[|w| - 1] == '\n';
    forall i | 0 <= i < |w| - 1 ensures s[i] != '\n' {
      assert s[i] == w[..|w| - 1][i];
    }
  }

  /** Reading back what `writelines` wrote gives the written strings, when each is one line. */
  lemma {:induction false} FileLinesOfConcat(ws: seq<string>)
    requires forall i :: 0 <= i < |ws| ==> IsFileLine(ws[i])
    ensures FileLines(Concat(ws)) == ws
    decreases |ws|
  {
    if ws != [] {
      var w, rest := ws[0], Concat(ws[1..]);
      assert Concat(ws) == w + rest;
      FindLineEnd(w, rest);
      assert (w + rest)[..|w|] == w && (w + rest)[|w|..] == rest;
      FileLinesOfConcat(ws[1..]);
      assert ws == [w] + ws[1..];
    }
  }

  // ---------------------------------------------------------------------
  // ASCII case mapping (`str.upper()` / `str.lower()` on a byte string)
  // ---------------------------------------------------------------------

  function UpperChar(c: char): char {
    if 'a' <= c <= 'z' then (c as int - 32) as char else c
  }

  function LowerChar(c: char): char {
    if 'A' <= c <= 'Z' then (c as int + 32) as char else c
  }

  function Upper(s: string): (r: string)
    ensures |r| == |s| && forall i :: 0 <= i < |s| ==> r[i] == UpperChar(s[i])
  {
    if s == [] then [] else [UpperChar(s[0])] + Upper(s[1..])
  }

  function Lower(s: string): (r: string)
    ensures |r| == |s| && forall i :: 0 <= i < |s| ==> r[i] == LowerChar(s[i])
  {
    if s == [] then [] else [LowerChar(s[0])] + Lower(s[1..])
  }

  // ---------------------------------------------------------------------
  // `sorted(...)` on strings: byte-wise lexicographic order
  // ---------------------------------------------------------------------

  /** `a <= b` for Python strings. */
  predicate Le(a: string, b: string) {
    a == [] || (b != [] && (a[0] < b[0] || (a[0] == b[0] && Le(a[1..], b[1..]))))
  }

  lemma {:induction false} LeTotal(a: string, b: string)
    ensures Le(a, b) || Le(b, a)
  {
    if a != [] && b != [] && a[0] == b[0] {
      LeTotal(a[1..], b[1..]);
    }
  }

  lemma {:induction false} LeTrans(a: string, b: string, c: string)
    requires Le(a, b) && Le(b, c)
    ensures Le(a, c)
  {
    if a != [] && a[0] == b[0] && b[0] == c[0] {
      LeTrans(a[1..], b[1..], c[1..]);
    }
  }

  predicate Sorted(s: seq<string>) {
    forall i, j :: 0 <= i < j < |s| ==> Le(s[i], s[j])
  }

  /** A lower bound of a sorted list can go in front of it. */
  lemma ConsSorted(b: string, t: seq<string>)
    requires Sorted(t)
    requires forall y :: y in t ==> Le(b, y)
    ensures Sorted([b] + t)
  {
    var u := [b] + t;
    forall i, j | 0 <= i < j < |u| ensures Le(u[i], u[j]) {
      assert u[j] == t[j - 1];
      if i > 0 {
        assert u[i] == t[i - 1];
      } else {
        assert t[j - 1] in t;
      }
    }
  }

  /** A bound of every element of a sorted list, and of `x`, bounds the list with `x` added. */
  lemma InsertedBound(x: string, b: string, rest: seq<string>, t: seq<string>)
    requires Le(b, x)
    requires forall j :: 0 <= j < |rest| ==> Le(b, rest[j])
    requires multiset(t) == multiset(rest) + multiset{x}
    ensures forall y :: y in t ==> Le(b, y)
  {
    forall y | y in t ensures Le(b, y) {
      assert y in multiset(t);
      if y != x {
        assert y in multiset(rest);
        var j :| 0 <= j < |rest| && rest[j] == y;
      }
    }
  }

  function Insert(x: string, s: seq<string>): (r: seq<string>)
    requires Sorted(s)
    ensures Sorted(r)
    ensures multiset(r) == multiset(s) + multiset{x}
  {
    if s == [] then [x]
    else if Le(x, s[0]) then
      assert forall y :: y in s ==> Le(x, y) by {
        forall y | y in s ensures Le(x, y) {
          var j :| 0 <= j < |s| && s[j] == y;
          if j > 0 { LeTrans(x, s[0], s[j]); }
        }
      }
      ConsSorted(x, s);
      [x] + s
    else
      LeTotal(x, s[0]);
      var rest := s[1..];
      assert s == [s[0]] + rest;
      assert forall j :: 0 <= j < |rest| ==> Le(s[0], rest[j]) by {
        forall j | 0 <= j < |rest| ensures Le(s[0], rest[j]) {
          assert rest[j] == s[j + 1];
        }
      }
      var t := Insert(x, rest);
      InsertedBound(x, s[0], rest, t);
      ConsSorted(s[0], t);
      [s[0]] + t
  }

  /** `sorted(s)`: an ordered permutation of `s`. */
  function Sort(s: seq<string>): (r: seq<string>)
    ensures Sorted(r)
    ensures multiset(r) == multiset(s)
  {
    if s == [] then []
    else
      assert s == [s[0]] + s[1..];
      Insert(s[0], Sort(s[1..]))
  }

  /** Sorting keeps the length and the elements. */
  lemma SortKeeps(s: seq<string>)
    ensures |Sort(s)| == |s|
    ensures forall x :: x in Sort(s) <==> x in s
  {
    var r := Sort(s);
    assert |multiset(r)| == |multiset(s)|;
    forall x ensures x in r <==> x in s {
      assert x in r <==> x in multiset(r);
      assert x in s <==> x in multiset(s);
    }
  }
}
