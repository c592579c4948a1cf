/**
 * The blacklist file (`blacklist.csv`) of datman/utils.py: a header line, then
 * one line per excluded scan, `<scan name> <reason>`, read by `_parse_blacklist`
 * and rewritten in full by `update_blacklist`.
 */
module Blacklist {
  import opened Base
  import opened Text
  import opened ScanId
  import opened Metadata

  // ---------------------------------------------------------------------
  // `re.split(',|\s', s)`
  // ---------------------------------------------------------------------

  /** A character the pattern `,|\s` matches. */
  predicate IsSep(c: char) {
    c == ',' || IsSpace(c)
  }

  predicate NoSep(s: string) {
    forall i :: 0 <= i < |s| ==> !IsSep(s[i])
  }

  /** Index of the first separator in `s`, or `|s|` when there is none. */
  function FirstSep(s: string): (k: nat)
    ensures k <= |s|
    ensures k < |s| ==> IsSep(s[k])
    ensures forall i :: 0 <= i < k ==> !IsSep(s[i])
  {
    if s == [] || IsSep(s[0]) then 0 else 1 + FirstSep(s[1..])
  }

  /** `re.split(',|\s', s)`: cut at every separator, keeping empty pieces. */
  function SplitSeps(s: string): (r: seq<string>)
    ensures |r| > 0
    ensures forall i :: 0 <= i < |r| ==> NoSep(r[i])
    decreases |s|
  {
    var k := FirstSep(s);
    if k == |s| then [s] else [s[..k]] + SplitSeps(s[k + 1..])
  }

  /** `s` with every separator turned into a space. */
  function SepsToSpaces(s: string): string {
    seq(|s|, i requires 0 <= i < |s| => if IsSep(s[i]) then ' ' else s[i])
  }

  /**
   * Splitting and joining with single spaces turns every separator into a
   * space and changes nothing else: commas in a reason do not survive a read.
   */
  lemma {:induction false} JoinSplitSeps(s: string)
    ensures Join(SplitSeps(s), " ") == SepsToSpaces(s)
    decreases |s|
  {
    var k := FirstSep(s);
    if k == |s| {
      assert SepsToSpaces(s) == s;
    } else {
      var rest := s[k + 1..];
      JoinSplitSeps(rest);
      var parts := SplitSeps(rest);
      assert Join([s[..k]] + parts, " ") == s[..k] + " " + Join(parts, " ");
      SepsToSpacesAt(s, k);
    }
  }

  /** Mapping the separators of `s` around a separator at index `k`. */
  lemma SepsToSpacesAt(s: string, k: int)
    requires 0 <= k < |s| && IsSep(s[k]) && NoSep(s[..k])
    ensures SepsToSpaces(s) == s[..k] + " " + SepsToSpaces(s[k + 1..])
  {
    var r := s[..k] + " " + SepsToSpaces(s[k + 1..]);
    assert |r| == |s|;
    forall i | 0 <= i < |s| ensures SepsToSpaces(s)[i] == r[i] {
      if i < k {
        assert s[..k][i] == s[i];
      } else if i > k {
        assert r[i] == SepsToSpaces(s[k + 1..])[i - k - 1];
      }
    }
  }

  /** A separator after a separator-free name cuts exactly there. */
  lemma SplitSepsAfterName(name: string, c: char, rest: string)
    requires NoSep(name) && IsSep(c)
    ensures SplitSeps(name + [c] + rest) == [name] + SplitSeps(rest)
  {
    var s := name + [c] + rest;
    assert FirstSep(s) == |name| by {
      assert s[|name|] == c;
      assert forall i :: 0 <= i < |name| ==> s[i] == name[i];
    }
    assert s[..|name|] == name;
    assert s[|name| + 1..] == rest;
  }

  lemma SplitSepsOfName(name: string)
    requires NoSep(name)
    ensures SplitSeps(name) == [name]
  {
    assert FirstSep(name) == |name|;
  }

  // ---------------------------------------------------------------------
  // One line
  // ---------------------------------------------------------------------

  /** The fields of a line: `re.split(',|\s', line.strip())`. */
  function Fields(line: string): (fields: seq<string>)
    ensures fields != []
  {
    SplitSeps(Strip(line))
  }

  /** The reason of a line: `" ".join(fields[1:]).strip()`. */
  function Reason(fields: seq<string>): string
    requires fields != []
  {
    Strip(Join(fields[1..], " "))
  }

  /**
   * What a line contributes: nothing when its first field is not a scan file
   * name, nothing for the `series` header, otherwise the name and the reason.
   */
  function ScanEntry(naming: Naming, line: string): (e: Option<(string, string)>)
    ensures e.Some? ==> naming.parseFilename(e.value.0).Some? && e.value.0 != "series"
  {
    var fields := Fields(line);
    var name := fields[0];
    if naming.parseFilename(name).None? then None
    else if name == "series" then None
    else Some((name, Reason(fields)))
  }

  /** `subject` is not given (empty), or the name starts with it. */
  predicate InSubject(name: string, subject: string) {
    subject == "" || StartsWith(name, subject)
  }

  // ---------------------------------------------------------------------
  // Reading: reference definitions and `_parse_blacklist`
  // ---------------------------------------------------------------------

  /** The dict `_parse_blacklist` builds for a subject prefix (`""` = all scans), first line wins. */
  function ScanEntries(naming: Naming, lines: seq<string>, subject: string): (m: map<string, string>)
    ensures forall k :: k in m ==>
      naming.parseFilename(k).Some? && k != "series" && InSubject(k, subject)
    decreases |lines|
  {
    if lines == [] then map[]
    else
      var m := ScanEntries(naming, lines[..|lines| - 1], subject);
      match ScanEntry(naming, lines[|lines| - 1])
      case None => m
      case Some(e) => if !InSubject(e.0, subject) || e.0 in m then m else m[e.0 := e.1]
  }

  /** The reason on the first line counted for `scan`, if any. */
  function ScanLookup(naming: Naming, lines: seq<string>, scan: string): Option<string>
    decreases |lines|
  {
    if lines == [] then None
    else
      var found := ScanLookup(naming, lines[..|lines| - 1], scan);
      if found.Some? then found
      else match ScanEntry(naming, lines[|lines| - 1])
        case Some(e) => if e.0 == scan then Some(e.1) else None
        case None => None
  }

  /** Reading one more line: it adds its scan unless filtered out or already read. */
  lemma ScanEntriesSnoc(naming: Naming, lines: seq<string>, l: string, subject: string)
    ensures ScanEntries(naming, lines + [l], subject) ==
      match ScanEntry(naming, l)
      case None => ScanEntries(naming, lines, subject)
      case Some(e) =>
        if !InSubject(e.0, subject) || e.0 in ScanEntries(naming, lines, subject) then ScanEntries(naming, lines, subject)
        else ScanEntries(naming, lines, subject)[e.0 := e.1]
  {
    assert (lines + [l])[..|lines|] == lines;
  }

  /** Reading one more line: a scan not yet found is found when the line is counted for it. */
  lemma ScanLookupSnoc(naming: Naming, lines: seq<string>, l: string, scan: string)
    ensures ScanLookup(naming, lines + [l], scan) ==
      if ScanLookup(naming, lines, scan).Some? then ScanLookup(naming, lines, scan)
      else match ScanEntry(naming, l)
        case Some(e) => if e.0 == scan then Some(e.1) else None
        case None => None
  {
    assert (lines + [l])[..|lines|] == lines;
  }

  /**
   * `utils._parse_blacklist(blacklist, scan, subject)`. An empty `scan` or
   * `subject` stands for one that is not given. With a scan the result is that
   * scan's reason, or None; otherwise the dict.
   */
  method ParseBlacklist(naming: Naming, lines: seq<string>, scan: string, subject: string) returns (r: Parsed)
    ensures scan != "" ==> r == One(ScanLookup(naming, lines, scan))
    ensures scan == "" ==> r == All(ScanEntries(naming, lines, subject))
  {
    var entries: map<string, string> := map[];   // None in scan mode
    var i := 0;
    while i < |lines|
      invariant 0 <= i <= |lines|
      invariant scan == "" ==> entries == ScanEntries(naming, lines[..i], subject)
      invariant scan != "" ==> entries == map[] && ScanLookup(naming, lines[..i], scan) == None
    {
      assert lines[..i + 1] == lines[..i] + [lines[i]];
      ScanEntriesSnoc(naming, lines[..i], lines[i], subject);
      ScanLookupSnoc(naming, lines[..i], lines[i], scan);
      var fields := Fields(lines[i]);
      var name := fields[0];
      if naming.parseFilename(name).Some? {
        var comment := Reason(fields);
        if name != "series" {
          if scan != "" {
            if name == scan {
              assert ScanEntry(naming, lines[i]) == Some((name, comment));
              assert ScanLookup(naming, lines[..i + 1], scan) == Some(comment);
              ScanLookupPrefix(naming, lines, i + 1, scan);
              return One(Some(comment));
            }
          } else if subject == "" || StartsWith(name, subject) {
            if !(|entries| > 0 && name in entries) {
              entries := entries[name := comment];
            }
          }
        }
      }
      i := i + 1;
    }
    assert lines[..i] == lines;
    if scan != "" {
      return One(None);
    }
    return All(entries);
  }

  /** Once found, the reason for a scan does not change with later lines. */
  lemma {:induction false} ScanLookupPrefix(naming: Naming, lines: seq<string>, j: int, scan: string)
    requires 0 <= j <= |lines| && ScanLookup(naming, lines[..j], scan).Some?
    ensures ScanLookup(naming, lines, scan) == ScanLookup(naming, lines[..j], scan)
    decreases |lines|
  {
    if j < |lines| {
      var init := lines[..|lines| - 1];
      assert init[..j] == lines[..j];
      ScanLookupPrefix(naming, init, j, scan);
    } else {
      assert lines[..j] == lines;
    }
  }

  /** The two modes agree: the single-scan answer is that scan's entry in the full dict. */
  lemma {:induction false} ScanLookupIsEntry(naming: Naming, lines: seq<string>, scan: string)
    ensures ScanLookup(naming, lines, scan) ==
      if scan in ScanEntries(naming, lines, "") then Some(ScanEntries(naming, lines, "")[scan]) else None
    decreases |lines|
  {
    if lines != [] {
      ScanLookupIsEntry(naming, lines[..|lines| - 1], scan);
    }
  }

  /** A scan is in the dict exactly when some line is counted for it. */
  lemma {:induction false} ScanEntriesKeys(naming: Naming, lines: seq<string>, subject: string, k: string)
    ensures k in ScanEntries(naming, lines, subject) <==>
      InSubject(k, subject) &&
      exists i :: 0 <= i < |lines| && ScanEntry(naming, lines[i]).Some? && ScanEntry(naming, lines[i]).value.0 == k
    decreases |lines|
  {
    if lines != [] {
      var init, l := lines[..|lines| - 1], lines[|lines| - 1];
      assert lines == init + [l];
      ScanEntriesKeys(naming, init, subject, k);
      ScanEntriesSnoc(naming, init, l, subject);
      if k in ScanEntries(naming, lines, subject) {
        if k in ScanEntries(naming, init, subject) {
          var i :| 0 <= i < |init| && ScanEntry(naming, init[i]).Some? && ScanEntry(naming, init[i]).value.0 == k;
          assert init[i] == lines[i];
        } else {
          assert ScanEntry(naming, lines[|lines| - 1]).Some?;
        }
      } else if InSubject(k, subject) {
        forall i | 0 <= i < |lines|
          ensures !(ScanEntry(naming, lines[i]).Some? && ScanEntry(naming, lines[i]).value.0 == k)
        {
          if i < |init| {
            assert init[i] == lines[i];
          }
        }
      }
    }
  }

  /** Later duplicates are ignored: the first counted line for a scan gives its reason. */
  lemma {:induction false} FirstScanLineWins(naming: Naming, lines: seq<string>, subject: string, i: int)
    requires 0 <= i < |lines| && ScanEntry(naming, lines[i]).Some?
    requires InSubject(ScanEntry(naming, lines[i]).value.0, subject)
    requires forall j :: 0 <= j < i ==>
      ScanEntry(naming, lines[j]).None? || ScanEntry(naming, lines[j]).value.0 != ScanEntry(naming, lines[i]).value.0
    ensures ScanEntry(naming, lines[i]).value.0 in ScanEntries(naming, lines, subject)
    ensures ScanEntries(naming, lines, subject)[ScanEntry(naming, lines[i]).value.0] == ScanEntry(naming, lines[i]).value.1
    decreases |lines|
  {
    var e := ScanEntry(naming, lines[i]).value;
    var init, l := lines[..|lines| - 1], lines[|lines| - 1];
    assert lines == init + [l];
    ScanEntriesSnoc(naming, init, l, subject);
    if i < |lines| - 1 {
      assert init[i] == lines[i];
      assert forall j :: 0 <= j < i ==> init[j] == lines[j];
      FirstScanLineWins(naming, init, subject, i);
    } else {
      assert e.0 !in ScanEntries(naming, init, subject) by {
        ScanEntriesKeys(naming, init, subject, e.0);
        assert forall j :: 0 <= j < |init| ==> init[j] == lines[j];
      }
    }
  }

  /** The full dict cut down to the names that start with `subject`. */
  function Restrict(m: map<string, string>, subject: string): map<string, string> {
    map k | k in m && InSubject(k, subject) :: m[k]
  }

  /** The subject filter keeps exactly the full dict's entries for that subject's scans. */
  lemma {:induction false} SubjectFilterRestricts(naming: Naming, lines: seq<string>, subject: string)
    ensures ScanEntries(naming, lines, subject) == Restrict(ScanEntries(naming, lines, ""), subject)
    decreases |lines|
  {
    if lines != [] {
      SubjectFilterRestricts(naming, lines[..|lines| - 1], subject);
    }
  }

  /** A line that contributes nothing can be dropped from the front. */
  lemma {:induction false} ScanEntriesSkipFirst(naming: Naming, lines: seq<string>, subject: string)
    requires lines != [] && ScanEntry(naming, lines[0]).None?
    ensures ScanEntries(naming, lines, subject) == ScanEntries(naming, lines[1..], subject)
    decreases |lines|
  {
    if |lines| > 1 {
      var init := lines[..|lines| - 1];
      assert init[0] == lines[0];
      ScanEntriesSkipFirst(naming, init, subject);
      assert init[1..] == lines[1..][..|lines[1..]| - 1];
    } else {
      assert lines[1..] == [];
      assert lines[..0] == [];
    }
  }

  // ---------------------------------------------------------------------
  // Writing: `update_blacklist` (file branch)
  // ---------------------------------------------------------------------

  /** The first line `update_blacklist` writes. */
  const Header: string := "series\treason\n"

  /** The line `update_blacklist` writes for a scan. */
  function ReasonLine(scan: string, reason: string): string {
    scan + " " + reason + "\n"
  }

  /** Every delta key is a scan file name. */
  predicate ScanDeltaOk(naming: Naming, items: map<string, string>) {
    forall k {:trigger naming.parseFilename(k)} :: k in items ==> naming.parseFilename(k).Some?
  }

  /** The delta keys in `done` applied to the prior dict; empty reasons are skipped. */
  function ScanMergedSoFar(prior: map<string, string>, items: map<string, string>, done: set<string>): map<string, string> {
    prior + map k | k in done && k in items && items[k] != "" :: items[k]
  }

  /** The prior dict with every delta entry that has a reason written over it. */
  function ScanMerged(prior: map<string, string>, items: map<string, string>): map<string, string> {
    ScanMergedSoFar(prior, items, items.Keys)
  }

  /**
   * An entry with an empty reason leaves the prior dict as it was for that scan;
   * any other delta entry wins; scans not in the delta keep their old reason.
   */
  lemma ScanMergedEntries(prior: map<string, string>, items: map<string, string>, k: string)
    ensures k in ScanMerged(prior, items) <==> k in prior || (k in items && items[k] != "")
    ensures k in items && items[k] != "" ==> ScanMerged(prior, items)[k] == items[k]
    ensures (k !in items || items[k] == "") && k in prior ==> ScanMerged(prior, items)[k] == prior[k]
  {
  }

  lemma ScanMergedSoFarAdd(prior: map<string, string>, items: map<string, string>, done: set<string>, k: string)
    requires k in items
    ensures ScanMergedSoFar(prior, items, done + {k}) ==
      if items[k] != "" then ScanMergedSoFar(prior, items, done)[k := items[k]]
      else ScanMergedSoFar(prior, items, done)
  {
  }

  /** The merge loop of `update_blacklist`. */
  method MergeBlacklist(naming: Naming, prior: map<string, string>, items: map<string, string>)
      returns (r: Result<map<string, string>, MetaError>)
    ensures r.Ok? <==> ScanDeltaOk(naming, items)
    ensures r.Ok? ==> r.value == ScanMerged(prior, items)
    ensures r.Err? ==>
      r.error.InvalidScanName? && r.error.name in items && naming.parseFilename(r.error.name).None?
  {
    var rest := items.Keys;
    var done: set<string> := {};
    var merged := prior;
    assert ScanMergedSoFar(prior, items, {}) == prior;
    while rest != {}
      invariant done + rest == items.Keys && done !! rest
      invariant forall k {:trigger naming.parseFilename(k)} :: k in done ==> naming.parseFilename(k).Some?
      invariant merged == ScanMergedSoFar(prior, items, done)
      decreases rest
    {
      var k :| k in rest;
      if naming.parseFilename(k).None? {
        assert !ScanDeltaOk(naming, items) by { assert k in items; }
        return Err(InvalidScanName(k));
      }
      ScanMergedSoFarAdd(prior, items, done, k);
      if items[k] != "" {
        merged := merged[k := items[k]];
      }
      done := done + {k};
      rest := rest - {k};
    }
    assert done == items.Keys;
    return Ok(merged);
  }

  /**
   * `utils.update_blacklist(entries, path=...)` on the file backend: merge into
   * the dict read from `oldLines`, write the header and `sorted(lines)` with
   * `write_metadata`. The result is the new file contents.
   */
  method UpdateBlacklist(naming: Naming, delta: Delta, oldLines: seq<string>, retry: nat, outcomes: seq<bool>)
      returns (r: Result<seq<string>, MetaError>)
    requires retry <= |outcomes|
    ensures delta.NotDict? ==> r == Err(NotADict)
    ensures delta.Dict? && !ScanDeltaOk(naming, delta.items) ==> r.Err? && r.error.InvalidScanName?
    ensures delta.Dict? && ScanDeltaOk(naming, delta.items) ==> (r.Ok? <==> true in outcomes[..retry])
    ensures r.Ok? ==> delta.Dict? && BlacklistFrom(r.value, ScanMerged(ScanEntries(naming, oldLines, ""), delta.items))
  {
    if delta.NotDict? {
      return Err(NotADict);
    }
    var current := ParseBlacklist(naming, oldLines, "", "");
    var merged := MergeBlacklist(naming, current.entries, delta.items);
    if merged.Err? {
      return Err(merged.error);
    }
    var lines := FormatLines(merged.value, ReasonLine);
    SortKeeps(lines);
    var written, _ := WriteMetadata([Header] + Sort(lines), retry, outcomes);
    assert ([Header] + Sort(lines))[1..] == Sort(lines);
    return written;
  }

  /** `out` is the file `update_blacklist` writes for the dict `d`: the header, then the sorted lines. */
  ghost predicate BlacklistFrom(out: seq<string>, d: map<string, string>) {
    |out| == |d| + 1 && out[0] == Header && Sorted(out[1..]) &&
    forall l :: l in out[1..] <==> ReasonWritten(d, l)
  }

  /** `l` is the line written for some scan of `d`. */
  ghost predicate ReasonWritten(d: map<string, string>, l: string) {
    exists k :: k in d && l == ReasonLine(k, d[k])
  }

  // ---------------------------------------------------------------------
  // Round trip: reading back what `update_blacklist` wrote
  // ---------------------------------------------------------------------

  /** A scan name that survives the trip through a blacklist line unchanged. */
  predicate WritableScan(naming: Naming, k: string) {
    |k| > 0 && NoSep(k) && k != "series" && naming.parseFilename(k).Some?
  }

  /** Stripping `name<c>text\n` leaves the name, then `c` and the text's non-blank part, if any. */
  lemma StripLine(name: string, c: char, text: string)
    requires |name| > 0 && NoSep(name) && IsSpace(c)
    ensures Strip(name + [c] + text + "\n") ==
      if RStrip(text) == [] then name else name + [c] + RStrip(text)
  {
    var head := name + [c];
    var nl := "\n";
    assert name + [c] + text + nl == head + (text + nl);
    assert !IsSpace(head[0]);
    LStripAppend(head, text + nl);
    RStripAppend(text, nl);
    RStripOfSpace(nl);
    RStripAppend(head, text + nl);
    RStripAppend(name, [c]);
    RStripOfSpace([c]);
    assert !IsSpace(name[|name| - 1]);
  }

  /** Trailing whitespace of a reason is lost to `strip()` in any case. */
  lemma ReasonOfRStrip(text: string)
    ensures Strip(SepsToSpaces(RStrip(text))) == Strip(SepsToSpaces(text))
  {
    var t := RStrip(text);
    RStripPrefix(text);
    var tail := text[|t|..];
    assert SepsToSpaces(text) == SepsToSpaces(t) + SepsToSpaces(tail);
    assert AllSpace(SepsToSpaces(tail));
    StripSpaceTail(SepsToSpaces(t), SepsToSpaces(tail));
  }

  /** The fields of `name<c>text\n` for a separator-free name and a whitespace `c`. */
  lemma LineFields(name: string, c: char, text: string)
    requires |name| > 0 && NoSep(name) && IsSpace(c)
    ensures Fields(name + [c] + text + "\n")[0] == name
    ensures Reason(Fields(name + [c] + text + "\n")) == Strip(SepsToSpaces(text))
  {
    var line := name + [c] + text + "\n";
    StripLine(name, c, text);
    ReasonOfRStrip(text);
    var t := RStrip(text);
    if t == [] {
      SplitSepsOfName(name);
      assert Fields(line) == [name];
      assert Reason(Fields(line)) == Strip("");
      assert SepsToSpaces(t) == [];
    } else {
      SplitSepsAfterName(name, c, t);
      JoinSplitSeps(t);
      assert Fields(line)[1..] == SplitSeps(t);
    }
  }

  /** Reading a written line gives back its scan and its reason, separators turned to spaces. */
  lemma ReasonLineEntry(naming: Naming, k: string, v: string)
    requires WritableScan(naming, k)
    ensures ScanEntry(naming, ReasonLine(k, v)) == Some((k, Strip(SepsToSpaces(v))))
  {
    assert ReasonLine(k, v) == k + [' '] + v + "\n";
    LineFields(k, ' ', v);
  }

  /** The header's first field and its separator, spelled out. */
  lemma HeaderShape()
    ensures Header == "series" + ['\t'] + "reason" + "\n"
    ensures NoSep("series") && IsSpace('\t')
  {
  }

  /** The header line is never read as an entry. */
  lemma HeaderSkipped(naming: Naming)
    ensures ScanEntry(naming, Header).None?
  {
    HeaderShape();
    LineFields("series", '\t', "reason");
  }

  /** Two written lines name the same scan only when they are for the same scan. */
  lemma ReasonLineInjective(naming: Naming, k1: string, v1: string, k2: string, v2: string)
    requires WritableScan(naming, k1) && WritableScan(naming, k2)
    requires ReasonLine(k1, v1) == ReasonLine(k2, v2)
    ensures k1 == k2
  {
    ReasonLineEntry(naming, k1, v1);
    ReasonLineEntry(naming, k2, v2);
  }

  /** The entries read from some written lines, for the scans of `d`. */
  ghost predicate ReadsBack(naming: Naming, d: map<string, string>, out: seq<string>) {
    var m := ScanEntries(naming, out, "");
    (forall k :: k in m <==> k in d && ReasonLine(k, d[k]) in out) &&
    (forall k :: k in m ==> m[k] == Strip(SepsToSpaces(d[k])))
  }

  /** Appending one more written line keeps the written lines readable. */
  lemma ReadsBackStep(naming: Naming, d: map<string, string>, init: seq<string>, k0: string)
    requires forall k :: k in d ==> WritableScan(naming, k)
    requires k0 in d && ReadsBack(naming, d, init)
    ensures ReadsBack(naming, d, init + [ReasonLine(k0, d[k0])])
  {
    var line := ReasonLine(k0, d[k0]);
    ReasonLineEntry(naming, k0, d[k0]);
    ScanEntriesSnoc(naming, init, line, "");
    forall k | k in d && ReasonLine(k, d[k]) == line
      ensures k == k0
    {
      ReasonLineInjective(naming, k, d[k], k0, d[k0]);
    }
  }

  lemma {:induction false} EntriesOfReasonLines(naming: Naming, d: map<string, string>, out: seq<string>)
    requires forall k :: k in d ==> WritableScan(naming, k)
    requires forall i :: 0 <= i < |out| ==> ReasonWritten(d, out[i])
    ensures ReadsBack(naming, d, out)
    decreases |out|
  {
    if out != [] {
      var init, l := out[..|out| - 1], out[|out| - 1];
      assert out == init + [l];
      assert forall i :: 0 <= i < |init| ==> init[i] == out[i];
      EntriesOfReasonLines(naming, d, init);
      assert ReasonWritten(d, out[|out| - 1]);
      var k0 :| k0 in d && l == ReasonLine(k0, d[k0]);
      ReadsBackStep(naming, d, init, k0);
    }
  }

  /** A written line is one line of the file: scan and reason hold no '\n'. */
  lemma ReasonLineIsFileLine(k: string, v: string)
    requires |k| > 0 && NoSep(k) && '\n' !in v
    ensures IsFileLine(ReasonLine(k, v))
  {
    var l := ReasonLine(k, v);
    assert l[..|l| - 1] == k + " " + v;
    assert forall i :: 0 <= i < |k| ==> k[i] != '\n';
  }

  /**
   * What `update_blacklist` writes with `writelines` reads back, iterating
   * over the file, as the merged dict: the header is skipped and in each
   * reason every comma or whitespace character becomes one space, the ends
   * stripped. This holds provided every scan name is written unchanged and
   * no reason holds a '\n'.
   */
  lemma BlacklistRoundTrip(naming: Naming, d: map<string, string>, out: seq<string>)
    requires forall k :: k in d ==> WritableScan(naming, k) && '\n' !in d[k]
    requires BlacklistFrom(out, d)
    ensures FileLines(Concat(out)) == out
    ensures ScanEntries(naming, FileLines(Concat(out)), "") == map k | k in d :: Strip(SepsToSpaces(d[k]))
  {
    ReasonsAreFileLines(naming, d, out);
    FileLinesOfConcat(out);
    ReasonsReadBack(naming, d, out);
  }

  /** The header and each reason line `update_blacklist` writes are one line of the file each. */
  lemma ReasonsAreFileLines(naming: Naming, d: map<string, string>, out: seq<string>)
    requires forall k :: k in d ==> WritableScan(naming, k) && '\n' !in d[k]
    requires BlacklistFrom(out, d)
    ensures forall i :: 0 <= i < |out| ==> IsFileLine(out[i])
  {
    assert IsFileLine(Header) by { assert Header[..|Header| - 1] == "series\treason"; }
    forall i | 0 < i < |out| ensures IsFileLine(out[i]) {
      assert out[i] == out[1..][i - 1] && out[i] in out[1..];
      var k :| k in d && out[i] == ReasonLine(k, d[k]);
      ReasonLineIsFileLine(k, d[k]);
    }
  }

  /** The written lines, taken as lines, read back as the merged dict. */
  lemma ReasonsReadBack(naming: Naming, d: map<string, string>, out: seq<string>)
    requires forall k :: k in d ==> WritableScan(naming, k)
    requires BlacklistFrom(out, d)
    ensures ScanEntries(naming, out, "") == map k | k in d :: Strip(SepsToSpaces(d[k]))
  {
    HeaderSkipped(naming);
    ScanEntriesSkipFirst(naming, out, "");
    var body := out[1..];
    forall i | 0 <= i < |body| ensures ReasonWritten(d, body[i]) {
      assert body[i] in body;
    }
    EntriesOfReasonLines(naming, d, body);
    forall k | k in d ensures ReasonLine(k, d[k]) in body {
      assert ReasonWritten(d, ReasonLine(k, d[k]));
    }
    ReadsBackAll(naming, d, body);
  }

  /** When every scan's line is present, reading back gives every scan. */
  lemma ReadsBackAll(naming: Naming, d: map<string, string>, body: seq<string>)
    requires ReadsBack(naming, d, body)
    requires forall k :: k in d ==> ReasonLine(k, d[k]) in body
    ensures ScanEntries(naming, body, "") == map k | k in d :: Strip(SepsToSpaces(d[k]))
  {
  }
}
