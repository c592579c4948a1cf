/**
 * The small string and path helpers of datman/utils.py: extension handling,
 * shell escaping, path splitting, subject-type and file-name classification.
 */
module PathUtils {
  import opened Base
  import opened Text
  import opened OsPath

  // ---------------------------------------------------------------------
  // splitext / get_extension
  // ---------------------------------------------------------------------

  /** `utils.splitext`: like `os.path.splitext`, but '.nii.gz' and '.mnc.gz' stay whole. */
  function Splitext(path: string): (r: (string, string))
    ensures r.0 + r.1 == path
    ensures EndsWith(path, ".nii.gz") ==> r.1 == ".nii.gz"
    ensures !EndsWith(path, ".nii.gz") && EndsWith(path, ".mnc.gz") ==> r.1 == ".mnc.gz"
  {
    if EndsWith(path, ".nii.gz") then (path[..|path| - 7], path[|path| - 7..])
    else if EndsWith(path, ".mnc.gz") then (path[..|path| - 7], path[|path| - 7..])
    else PosixSplitext(path)
  }

  /** Why the helper exists: `os.path.splitext` would cut a NIfTI name at '.gz' only. */
  lemma {:induction false} SplitextKeepsDoubleExtension(stem: string)
    requires |stem| > 0 && stem[0] != '.' && '/' !in stem
    ensures Splitext(stem + ".nii.gz") == (stem, ".nii.gz")
    ensures PosixSplitext(stem + ".nii.gz") == (stem + ".nii", ".gz")
  {
    var p := stem + ".nii.gz";
    assert EndsWith(p, ".nii.gz") by { assert p[|p| - 7..] == ".nii.gz"; }
    assert p[..|p| - 7] == stem;
    assert '/' !in stem + ".nii" by {
      forall i | 0 <= i < |stem + ".nii"| ensures (stem + ".nii")[i] != '/' {
        if i < |stem| { assert (stem + ".nii")[i] == stem[i]; }
      }
    }
    SplitextOfStem(stem + ".nii", ".gz");
    assert stem + ".nii" + ".gz" == p;
  }

  /** `utils.get_extension`: '.tar.gz' and '.nii.gz' whole, otherwise `os.path.splitext`'s. */
  function GetExtension(path: string): (r: string)
    ensures EndsWith(path, r)
    ensures r == "" || r[0] == '.'
    ensures EndsWith(path, ".tar.gz") ==> r == ".tar.gz"
    ensures !EndsWith(path, ".tar.gz") && EndsWith(path, ".nii.gz") ==> r == ".nii.gz"
  {
    if EndsWith(path, ".tar.gz") then ".tar.gz"
    else if EndsWith(path, ".nii.gz") then ".nii.gz"
    else
      var (root, ext) := PosixSplitext(path);
      assert path[|path| - |ext|..] == ext;
      ext
  }

  // ---------------------------------------------------------------------
  // _escape_shell_chars
  // ---------------------------------------------------------------------

  predicate IsShellSpecial(c: char) {
    c == '(' || c == ';' || c == ')'
  }

  /** `utils._escape_shell_chars`: three successive `replace` calls. */
  function EscapeShellChars(arg: string): string {
    Replace(Replace(Replace(arg, "(", "\\("), ";", "\\;"), ")", "\\)")
  }

  /** The per-character reading of the escape: a backslash goes before each '(', ';', ')'. */
  function Escaped(s: string): string {
    if s == [] then [] else EscapeChar(s[0]) + Escaped(s[1..])
  }

  function EscapeChar(c: char): string {
    if IsShellSpecial(c) then ['\\', c] else [c]
  }

  /** Removes the backslash in front of each '(', ';', ')'. */
  function Unescape(t: string): string {
    if |t| >= 2 && t[0] == '\\' && IsShellSpecial(t[1]) then [t[1]] + Unescape(t[2..])
    else if t == [] then []
    else [t[0]] + Unescape(t[1..])
  }

  /** A single-character `replace` works character by character. */
  lemma {:induction false} ReplaceCharAppend(a: string, b: string, c: char, rep: string)
    ensures Replace(a + b, [c], rep) == Replace(a, [c], rep) + Replace(b, [c], rep)
    decreases |a|
  {
    if a != [] {
      assert (a + b)[1..] == a[1..] + b;
      assert (a + b)[..1] == a[..1];
      ReplaceCharAppend(a[1..], b, c, rep);
    } else {
      assert a + b == b;
    }
  }

  /** The three chained replacements escape each character on its own. */
  lemma {:induction false} EscapeIsPerCharacter(s: string)
    ensures EscapeShellChars(s) == Escaped(s)
    decreases |s|
  {
    if s != [] {
      assert "(" == ['('] && ";" == [';'] && ")" == [')'];
      var h, t := [s[0]], s[1..];
      assert s == h + t;
      ReplaceCharAppend(h, t, '(', "\\(");
      var r1h, r1t := Replace(h, "(", "\\("), Replace(t, "(", "\\(");
      ReplaceCharAppend(r1h, r1t, ';', "\\;");
      var r2h, r2t := Replace(r1h, ";", "\\;"), Replace(r1t, ";", "\\;");
      ReplaceCharAppend(r2h, r2t, ')', "\\)");
      EscapeIsPerCharacter(t);
      EscapeOneChar(s[0]);
    }
  }

  /** A single-character `replace` on a single character. */
  lemma ReplaceOneChar(c: char, p: char, rep: string)
    ensures Replace([c], [p], rep) == if c == p then rep else [c]
  {
    assert [c][..1] == [c] && [c][1..] == [];
    assert Replace([], [p], rep) == [];
    if c == p {
      assert rep + [] == rep;
    } else {
      assert [c] + [] == [c];
    }
  }

  /** On a single character, the three replacements give its escape. */
  lemma EscapeOneChar(c: char)
    ensures EscapeShellChars([c]) == EscapeChar(c)
  {
    assert "(" == ['('] && ";" == [';'] && ")" == [')'];
    ReplaceOneChar(c, '(', "\\(");
    if c == '(' {
      ReplaceCharAppend("\\", "(", ';', "\\;");
      ReplaceOneChar('\\', ';', "\\;");
      ReplaceOneChar('(', ';', "\\;");
      ReplaceCharAppend("\\", "(", ')', "\\)");
      ReplaceOneChar('\\', ')', "\\)");
      ReplaceOneChar('(', ')', "\\)");
    } else {
      ReplaceOneChar(c, ';', "\\;");
      if c == ';' {
        ReplaceCharAppend("\\", ";", ')', "\\)");
        ReplaceOneChar('\\', ')', "\\)");
        ReplaceOneChar(';', ')', "\\)");
      } else {
        ReplaceOneChar(c, ')', "\\)");
      }
    }
  }

  lemma EscapedHead(s: string)
    ensures Escaped(s) == [] || !IsShellSpecial(Escaped(s)[0])
  {
  }

  /** Escaping loses nothing: unescaping gives the argument back. */
  lemma {:induction false} UnescapeEscape(s: string)
    ensures Unescape(EscapeShellChars(s)) == s
    decreases |s|
  {
    EscapeIsPerCharacter(s);
    if s != [] {
      var rest := Escaped(s[1..]);
      UnescapeEscape(s[1..]);
      EscapeIsPerCharacter(s[1..]);
      EscapedHead(s[1..]);
      var e := EscapeChar(s[0]) + rest;
      assert Escaped(s) == e;
      if IsShellSpecial(s[0]) {
        assert e[2..] == rest;
      } else {
        assert e[1..] == rest;
        assert |e| >= 2 ==> e[1] == rest[0];
      }
    }
  }

  // ---------------------------------------------------------------------
  // split_path
  // ---------------------------------------------------------------------

  /** What `split_path` returns: the tails `os.path.split` peels off, until one is empty. */
  function PathComponents(p: string): seq<string>
    decreases |p|
  {
    var r := PosixSplit(p);
    if r.1 == "" then [] else PathComponents(r.0) + [r.1]
  }

  /** A path component: non-empty, no separator. */
  predicate IsComponent(c: string) {
    c != "" && '/' !in c
  }

  predicate AllComponents(cs: seq<string>) {
    forall i :: 0 <= i < |cs| ==> IsComponent(cs[i])
  }

  /** One turn of the `split_path` loop: the peeled tail is a component. */
  lemma SplitStep(d: string, parts: seq<string>)
    requires PosixSplit(d).1 != ""
    requires AllComponents(parts)
    ensures AllComponents([PosixSplit(d).1] + parts)
    ensures PathComponents(d) + parts == PathComponents(PosixSplit(d).0) + ([PosixSplit(d).1] + parts)
  {
    var r := PosixSplit(d);
    assert PathComponents(d) == PathComponents(r.0) + [r.1];
    PrependComponent(PathComponents(r.0), r.1, parts);
  }

  /** Moving a component from the end of the prefix to the front of the parts. */
  lemma PrependComponent(pre: seq<string>, c: string, parts: seq<string>)
    requires IsComponent(c) && AllComponents(parts)
    ensures AllComponents([c] + parts)
    ensures (pre + [c]) + parts == pre + ([c] + parts)
  {
    var cs := [c] + parts;
    forall i | 0 <= i < |cs| ensures IsComponent(cs[i]) {
      if i > 0 { assert cs[i] == parts[i - 1]; }
    }
  }

  /** `utils.split_path`, with its `while True` loop. */
  method SplitPath(path: string) returns (parts: seq<string>)
    ensures parts == PathComponents(path)
    ensures AllComponents(parts)
  {
    var dirname := path;
    parts := [];
    while true
      invariant PathComponents(path) == PathComponents(dirname) + parts
      invariant AllComponents(parts)
      decreases |dirname|
    {
      var r := PosixSplit(dirname);
      if r.1 != "" {
        SplitStep(dirname, parts);
        parts := [r.1] + parts;
        dirname := r.0;
      } else {
        break;
      }
    }
  }

  lemma SplitOfComponent(c: string)
    requires IsComponent(c)
    ensures PosixSplit(c) == ("", c)
  {
    assert RFind(c, '/') == -1;
  }

  lemma SplitOfSlashed(q: string, last: string)
    requires q != [] && q[|q| - 1] != '/'
    requires IsComponent(last)
    ensures PosixSplit(q + "/" + last) == (q, last)
  {
    var p := q + "/" + last;
    assert RFind(p, '/') == |q| by {
      assert p[|q|] == '/';
      forall i | |q| < i < |p| ensures p[i] != '/' {
        assert p[i] == last[i - |q| - 1];
      }
    }
    assert p[..|q| + 1] == q + "/";
    assert p[|q| + 1..] == last;
    var h := q + "/";
    NotAllSlashes(h, |q| - 1);
    assert h[..|h| - 1] == q;
    assert RStripSlash(h) == RStripSlash(q) == q;
    assert PosixSplit(p) == (RStripSlash(h), last);
  }

  lemma ComponentsUnfold(p: string, head: string, tail: string)
    requires PosixSplit(p) == (head, tail) && tail != ""
    ensures PathComponents(p) == PathComponents(head) + [tail]
  {
  }

  lemma ComponentsOfBare(p: string)
    requires PosixSplit(p).1 == ""
    ensures PathComponents(p) == []
  {
  }

  lemma AllComponentsInit(comps: seq<string>)
    requires comps != [] && AllComponents(comps)
    ensures AllComponents(comps[..|comps| - 1]) && IsComponent(comps[|comps| - 1])
  {
    var init := comps[..|comps| - 1];
    forall i | 0 <= i < |init| ensures IsComponent(init[i]) { assert init[i] == comps[i]; }
  }

  /** A relative path with no empty component splits back into its components. */
  lemma {:induction false} SplitPathOfJoin(comps: seq<string>)
    requires AllComponents(comps)
    ensures PathComponents(Join(comps, "/")) == comps
    decreases |comps|
  {
    if comps == [] {
      ComponentsOfBare(Join(comps, "/"));
    } else {
      var n := |comps|;
      var init, last := comps[..n - 1], comps[n - 1];
      assert comps == init + [last];
      AllComponentsInit(comps);
      JoinSnoc(init, last, "/");
      if init == [] {
        SplitOfComponent(last);
        ComponentsOfBare(PosixSplit(last).0);
        ComponentsUnfold(last, PosixSplit(last).0, last);
      } else {
        var q := Join(init, "/");
        JoinEndsNonSlash(init);
        SplitOfSlashed(q, last);
        ComponentsUnfold(q + "/" + last, q, last);
        SplitPathOfJoin(init);
      }
    }
  }

  lemma {:induction false} JoinSnoc(init: seq<string>, last: string, sep: string)
    ensures Join(init + [last], sep) == if init == [] then last else Join(init, sep) + sep + last
    decreases |init|
  {
    if |init| >= 1 {
      assert (init + [last])[1..] == init[1..] + [last];
      JoinSnoc(init[1..], last, sep);
    }
  }

  lemma {:induction false} JoinEndsNonSlash(comps: seq<string>)
    requires comps != []
    requires AllComponents(comps)
    ensures |Join(comps, "/")| > 0 && Join(comps, "/")[|Join(comps, "/")| - 1] != '/'
  {
    assert IsComponent(comps[|comps| - 1]);
    if |comps| > 1 {
      assert AllComponents(comps[1..]) by {
        forall i | 0 <= i < |comps[1..]| ensures IsComponent(comps[1..][i]) { assert comps[1..][i] == comps[i + 1]; }
      }
      JoinEndsNonSlash(comps[1..]);
    }
  }

  /** A trailing slash ends the split at once: `split_path('a/b/')` is empty. */
  lemma SplitPathTrailingSlash(p: string)
    ensures PathComponents(p + "/") == []
  {
    var q := p + "/";
    assert RFind(q, '/') == |p|;
  }

  // ---------------------------------------------------------------------
  // subject_type
  // ---------------------------------------------------------------------

  datatype SubjectKind = Phantom | HumanPhantom | Subject

  predicate IsAsciiDigits(s: string) {
    |s| > 0 && forall i :: 0 <= i < |s| ==> '0' <= s[i] <= '9'
  }

  /** How `subject_type` reads the third '_'-separated field of a name. */
  function ClassifySubjectField(f: string): Option<SubjectKind> {
    if f == "PHA" then Some(Phantom)
    else if f == "" then None                 // f[0] raises IndexError, caught
    else if f[0] == 'P' then Some(HumanPhantom)
    else if IsAsciiDigits(f) && |f| == 4 then Some(Subject)
    else None
  }

  /** `utils.subject_type`; None also for names with fewer than three fields (IndexError). */
  function SubjectType(subject: string): (r: Option<SubjectKind>)
    ensures |Split(subject, '_')| < 3 ==> r == None
    ensures r == Some(Phantom) <==> |Split(subject, '_')| >= 3 && Split(subject, '_')[2] == "PHA"
    ensures r == Some(HumanPhantom) <==>
      (|Split(subject, '_')| >= 3 && Split(subject, '_')[2] != "PHA" &&
       Split(subject, '_')[2] != "" && Split(subject, '_')[2][0] == 'P')
    ensures r == Some(Subject) <==>
      (|Split(subject, '_')| >= 3 && |Split(subject, '_')[2]| == 4 && IsAsciiDigits(Split(subject, '_')[2]))
  {
    var fields := Split(subject, '_');
    if |fields| < 3 then None else ClassifySubjectField(fields[2])
  }

  lemma {:induction false} SplitOfJoin(parts: seq<string>, c: char)
    requires parts != []
    requires forall i :: 0 <= i < |parts| ==> c !in parts[i]
    ensures Split(Join(parts, [c]), c) == parts
    decreases |parts|
  {
    if |parts| == 1 {
      assert c !in parts[0];
      assert Find(parts[0], c) == |parts[0]|;
    } else {
      var rest := Join(parts[1..], [c]);
      assert Join(parts, [c]) == parts[0] + [c] + rest;
      assert c !in parts[0];
      SplitCons(parts[0], c, rest);
      SplitOfJoin(parts[1..], c);
      assert parts == [parts[0]] + parts[1..];
    }
  }

  /** Splitting `p + [c] + r`, for a `p` without `c`, yields `p` and then the split of `r`. */
  lemma SplitCons(p: string, c: char, r: string)
    requires c !in p
    ensures Split(p + [c] + r, c) == [p] + Split(r, c)
  {
    FindAfterPart(p, c, r);
  }

  /** The first `c` of `p + [c] + r`, for a `p` without one, is the one after `p`. */
  lemma FindAfterPart(p: string, c: char, r: string)
    requires c !in p
    ensures Find(p + [c] + r, c) == |p|
    ensures (p + [c] + r)[..|p|] == p && (p + [c] + r)[|p| + 1..] == r
  {
    var s := p + [c] + r;
    assert s[|p|] == c;
    forall i | 0 <= i < |p| ensures s[i] != c {
      assert s[i] == p[i];
    }
  }

  /** Only the subject field of `<study>_<site>_<subject>...` decides the kind. */
  lemma SubjectTypeOfFields(fields: seq<string>)
    requires |fields| >= 3
    requires forall i :: 0 <= i < |fields| ==> '_' !in fields[i]
    ensures SubjectType(Join(fields, "_")) == ClassifySubjectField(fields[2])
  {
    assert "_" == ['_'];
    SplitOfJoin(fields, '_');
  }

  // ---------------------------------------------------------------------
  // nifti_basename / filter_niftis / is_named_like_a_dicom
  // ---------------------------------------------------------------------

  /** What `nifti_basename` and the ENIGMA completion check both do to a name. */
  function StripNiftiExt(name: string): string {
    Replace(Replace(name, ".nii", ""), ".gz", "")
  }

  /** `utils.nifti_basename`: the basename with every '.nii' and then every '.gz' removed. */
  function NiftiBasename(fpath: string): (r: string)
    ensures '/' !in r
  {
    var b := Basename(fpath);
    ReplaceKeepsCharOut(b, ".nii", "", '/');
    ReplaceKeepsCharOut(Replace(b, ".nii", ""), ".gz", "", '/');
    StripNiftiExt(b)
  }

  lemma {:induction false} ReplaceKeepsCharOut(s: string, pat: string, rep: string, c: char)
    requires |pat| > 0 && c !in s && c !in rep
    ensures c !in Replace(s, pat, rep)
    decreases |s|
  {
    if |s| >= |pat| {
      if s[..|pat|] == pat {
        ReplaceKeepsCharOut(s[|pat|..], pat, rep, c);
      } else {
        ReplaceKeepsCharOut(s[1..], pat, rep, c);
      }
    }
  }

  /** A stem that mentions neither '.nii' nor '.gz' comes back whole from a '.nii.gz' name. */
  lemma StripNiftiExtOfStem(stem: string)
    requires !Contains(stem, ".nii") && !Contains(stem, ".gz")
    ensures StripNiftiExt(stem + ".nii.gz") == stem
    ensures StripNiftiExt(stem + ".nii") == stem
  {
    PatternClean(stem, ".nii.gz", ".nii");
    ReplaceAfterClean(stem, ".nii.gz", ".nii", "");
    assert Replace(".nii.gz", ".nii", "") == ".gz" by {
      assert ".nii.gz"[..4] == ".nii";
      assert ".nii.gz"[4..] == ".gz";
    }
    PatternClean(stem, ".gz", ".gz");
    ReplaceAfterClean(stem, ".gz", ".gz", "");
    assert Replace(".gz", ".gz", "") == "" by { assert ".gz"[..3] == ".gz"; }
    PatternClean(stem, ".nii", ".nii");
    ReplaceAfterClean(stem, ".nii", ".nii", "");
    assert Replace(".nii", ".nii", "") == "" by { assert ".nii"[..4] == ".nii"; }
    ReplaceAbsent(stem, ".gz", "");
  }

  /**
   * `nifti_basename` of `<dir>/<stem>.nii.gz` or `<dir>/<stem>.nii` is the stem,
   * for a non-empty stem without '/', '.nii' or '.gz'.
   */
  lemma NiftiBasenameOfJoin(dir: string, stem: string)
    requires stem != [] && '/' !in stem && !Contains(stem, ".nii") && !Contains(stem, ".gz")
    ensures NiftiBasename(PathJoin(dir, stem + ".nii.gz")) == stem
    ensures NiftiBasename(PathJoin(dir, stem + ".nii")) == stem
  {
    NiftiNameNoSlash(stem, ".nii.gz");
    NiftiNameNoSlash(stem, ".nii");
    BasenameOfJoin(dir, stem + ".nii.gz");
    BasenameOfJoin(dir, stem + ".nii");
    StripNiftiExtOfStem(stem);
  }

  lemma NiftiNameNoSlash(stem: string, ext: string)
    requires stem != [] && '/' !in stem && '/' !in ext
    ensures (stem + ext) != [] && (stem + ext)[0] != '/' && '/' !in stem + ext
  {
  }

  /** The `filter_niftis` test: the text after the first dot is 'nii' or 'nii.gz'. */
  predicate HasNiftiExtension(x: string) {
    var after := Join(Split(x, '.')[1..], ".");
    after == "nii.gz" || after == "nii"
  }

  /** `utils.filter_niftis`: the NIfTI names, in their original order. */
  function FilterNiftis(candidates: seq<string>): (r: seq<string>)
    ensures forall x :: x in r <==> x in candidates && HasNiftiExtension(x)
    ensures |r| <= |candidates|
  {
    if candidates == [] then []
    else if HasNiftiExtension(candidates[0]) then [candidates[0]] + FilterNiftis(candidates[1..])
    else FilterNiftis(candidates[1..])
  }

  /** Everything after the first '.', or nothing when there is no dot. */
  function AfterFirstDot(x: string): string {
    var k := Find(x, '.');
    if k < |x| then x[k + 1..] else []
  }

  lemma AfterFirstDotJoin(x: string)
    ensures Join(Split(x, '.')[1..], ".") == AfterFirstDot(x)
  {
    if Find(x, '.') < |x| {
      JoinTailFound(x);
    } else {
      SplitAtFirst(x, '.');
      assert Split(x, '.')[1..] == [];
    }
  }

  /** With a dot present, the parts after the first, joined again, are the text after that dot. */
  lemma JoinTailFound(x: string)
    requires Find(x, '.') < |x|
    ensures Join(Split(x, '.')[1..], ".") == x[Find(x, '.') + 1..]
  {
    JoinTailAt(x, '.');
    assert "." == ['.'];
  }

  /** The parts after the first `c`, joined again with `c`, are the text after that `c`. */
  lemma JoinTailAt(x: string, c: char)
    requires Find(x, c) < |x|
    ensures Join(Split(x, c)[1..], [c]) == x[Find(x, c) + 1..]
  {
    var t := x[Find(x, c) + 1..];
    SplitAtFirst(x, c);
    JoinSplit(t, c);
  }

  /** A dot-free base, a dot, then `ext`: the text after the first dot is `ext`. */
  lemma AfterFirstDotOfName(base: string, ext: string)
    requires '.' !in base
    ensures AfterFirstDot(base + ("." + ext)) == ext
  {
    var x := base + ("." + ext);
    assert x[|base|] == '.';
    assert Find(x, '.') == |base| by {
      forall i | 0 <= i < |base| ensures x[i] != '.' { assert x[i] == base[i]; }
    }
    assert x[|base| + 1..] == ext;
  }

  /** A text is what precedes its first `c`, that `c`, and the rest. */
  lemma AroundFirst(x: string, k: nat, c: char)
    requires k < |x| && x[k] == c
    requires forall i :: 0 <= i < k ==> x[i] != c
    ensures c !in x[..k]
    ensures x == x[..k] + ([c] + x[k + 1..])
  {
    assert x[k..] == [c] + x[k + 1..];
    assert x == x[..k] + x[k..];
  }

  /** A name is its text before the first dot, the dot, and the text after it. */
  lemma NameAroundFirstDot(x: string)
    requires Find(x, '.') < |x|
    ensures '.' !in x[..Find(x, '.')]
    ensures x == x[..Find(x, '.')] + ("." + AfterFirstDot(x))
  {
    assert "." == ['.'];
    var k := Find(x, '.');
    AroundFirst(x, k, '.');
  }

  lemma NiftiExtShape()
    ensures ".nii" == "." + "nii" && ".nii.gz" == "." + "nii.gz"
  {
  }

  /** `filter_niftis` keeps exactly the names `<dot-free base>.nii` and `<dot-free base>.nii.gz`. */
  lemma NiftiExtensionMeaning(x: string)
    ensures HasNiftiExtension(x) <==>
      (exists base :: '.' !in base && (x == base + ".nii" || x == base + ".nii.gz"))
  {
    AfterFirstDotJoin(x);
    NiftiExtShape();
    if HasNiftiExtension(x) {
      NameAroundFirstDot(x);
      var base := x[..Find(x, '.')];
      assert x == base + ".nii" || x == base + ".nii.gz";
    }
    if exists base :: '.' !in base && (x == base + ".nii" || x == base + ".nii.gz") {
      var base :| '.' !in base && (x == base + ".nii" || x == base + ".nii.gz");
      if x == base + ".nii" {
        AfterFirstDotOfName(base, "nii");
      } else {
        AfterFirstDotOfName(base, "nii.gz");
      }
    }
  }

  /** `utils.is_named_like_a_dicom`: the lower-cased name ends in 'dcm' or 'img'. */
  function IsNamedLikeADicom(path: string): (r: bool)
    ensures r <==> (|path| >= 3 &&
      (Lower(path[|path| - 3..]) == "dcm" || Lower(path[|path| - 3..]) == "img"))
  {
    var low := Lower(path);
    assert |path| >= 3 ==> low[|low| - 3..] == Lower(path[|path| - 3..]);
    EndsWith(low, "dcm") || EndsWith(low, "img")
  }
}
