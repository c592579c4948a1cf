/**
 * The POSIX `os.path` functions the bookkeeping code calls: `join` (two
 * arguments), `basename`, `split` and `splitext`.
 */
module OsPath {
  import opened Text

  /** `os.path.join(a, b)`: an absolute `b` wins; no doubled separator after a trailing '/'. */
  function PathJoin(a: string, b: string): (r: string)
    ensures StartsWith(b, "/") ==> r == b
    ensures !StartsWith(b, "/") ==> EndsWith(r, b) && StartsWith(r, a)
  {
    if StartsWith(b, "/") then b
    else if a == "" || EndsWith(a, "/") then a + b
    else a + "/" + b
  }

  /** `os.path.basename(p)`: everything after the last '/'. */
  function Basename(p: string): (r: string)
    ensures '/' !in r
    ensures EndsWith(p, r)
  {
    p[RFind(p, '/') + 1..]
  }

  /** `s.rstrip('/')`. */
  function RStripSlash(s: string): (r: string)
    ensures |r| <= |s| && r == s[..|r|]
    ensures r == [] || r[|r| - 1] != '/'
  {
    if s != [] && s[|s| - 1] == '/' then RStripSlash(s[..|s| - 1]) else s
  }

  predicate AllSlashes(s: string) {
    s == [] || (s[0] == '/' && AllSlashes(s[1..]))
  }

  lemma {:induction false} NotAllSlashes(s: string, i: int)
    requires 0 <= i < |s| && s[i] != '/'
    ensures !AllSlashes(s)
  {
    if i > 0 {
      NotAllSlashes(s[1..], i - 1);
    }
  }

  /** `os.path.split(p)`: (head, tail); trailing slashes go off a head that is not all slashes. */
  function PosixSplit(p: string): (r: (string, string))
    ensures '/' !in r.1
    ensures r.1 != "" ==> |r.0| < |p| && EndsWith(p, r.1)
  {
    var i := RFind(p, '/') + 1;
    var head, tail := p[..i], p[i..];
    (if head != "" && !AllSlashes(head) then RStripSlash(head) else head, tail)
  }

  /** `os.path.splitext(p)`: split before the last '.', unless that dot only follows dots in the basename. */
  function PosixSplitext(p: string): (r: (string, string))
    ensures r.0 + r.1 == p
    ensures r.1 == "" || (r.1[0] == '.' && '/' !in r.1)
  {
    var sep := RFind(p, '/');
    var dot := RFind(p, '.');
    if dot > sep && exists i :: sep + 1 <= i < dot && p[i] != '.' then
      assert p[..dot] + p[dot..] == p;
      (p[..dot], p[dot..])
    else (p, "")
  }

  /**
   * A name with a real stem and a one-dot extension splits back into the two:
   * `splitext(stem + ext) == (stem, ext)`.
   */
  lemma {:induction false} SplitextOfStem(stem: string, ext: string)
    requires |stem| > 0 && stem[0] != '.' && '/' !in stem
    requires |ext| > 0 && ext[0] == '.' && '.' !in ext[1..] && '/' !in ext
    ensures PosixSplitext(stem + ext) == (stem, ext)
  {
    var p := stem + ext;
    assert forall i :: 0 <= i < |p| ==> p[i] != '/' by {
      forall i | 0 <= i < |p| ensures p[i] != '/' {
        if i < |stem| { assert p[i] == stem[i]; } else { assert p[i] == ext[i - |stem|]; }
      }
    }
    assert RFind(p, '/') == -1;
    var dot := RFind(p, '.');
    assert p[|stem|] == '.';
    assert dot >= |stem|;
    assert dot == |stem|;
    assert p[0] == stem[0];
    assert p[..dot] == stem;
    assert p[dot..] == ext;
  }

  /** The last '/' of `x + b` is the end of `x` when `b` has none. */
  lemma {:induction false} RFindAfter(x: string, b: string)
    requires x == [] || x[|x| - 1] == '/'
    requires '/' !in b
    ensures RFind(x + b, '/') == |x| - 1
    decreases |b|
  {
    if b != [] {
      var p := x + b;
      assert p[..|p| - 1] == x + b[..|b| - 1];
      RFindAfter(x, b[..|b| - 1]);
    } else {
      assert x + b == x;
    }
  }

  /** `os.path.join` puts a relative, slash-free name last. */
  lemma BasenameOfJoin(a: string, b: string)
    requires b != "" && '/' !in b
    ensures Basename(PathJoin(a, b)) == b
  {
    assert !StartsWith(b, "/") by { assert b[0] != '/'; }
    var x := if a == "" || EndsWith(a, "/") then a else a + "/";
    assert PathJoin(a, b) == x + b;
    RFindAfter(x, b);
    assert (x + b)[|x|..] == b;
  }
}
