/**
 * The QC checklist file (`checklist.csv`) of datman/utils.py: one line per
 * subject, `qc_<subject>.html <comment>`, read by `_parse_checklist` and
 * rewritten in full by `update_checklist`.
 */
module Checklist {
  import opened Base
  import opened Text
  import opened OsPath
  import opened ScanId
  import opened Metadata

  // ---------------------------------------------------------------------
  // One line
  // ---------------------------------------------------------------------

  /** The subject a line names: its first field without 'qc_' and without extension. */
  function LineId(fields: seq<string>): string
    requires fields != []
  {
    PosixSplitext(Replace(fields[0], "qc_", "")).0
  }

  /** The comment of a line: the remaining fields joined by single spaces. */
  function LineComment(fields: seq<string>): string
    requires fields != []
  {
    Strip(Join(fields[1..], " "))
  }

  /** What a line contributes: nothing when blank or when its subject does not parse. */
  function LineEntry(naming: Naming, line: string): (e: Option<(string, string)>)
    ensures e.Some? ==> naming.parse(e.value.0).Some?
  {
    var fields := Words(line);
    if fields == [] then None
    else
      var id := LineId(fields);
      if naming.parse(id).None? then None else Some((id, LineComment(fields)))
  }

  // ---------------------------------------------------------------------
  // Reading: reference definitions and `_parse_checklist`
  // ---------------------------------------------------------------------

  /** The dict `_parse_checklist` builds: every counted subject, first line wins. */
  function Entries(naming: Naming, lines: seq<string>): (m: map<string, string>)
    ensures forall k :: k in m ==> naming.parse(k).Some?
    decreases |lines|
  {
    if lines == [] then map[]
    else
      var m := Entries(naming, lines[..|lines| - 1]);
      match LineEntry(naming, lines[|lines| - 1])
      case None => m
      case Some(e) => if e.0 in m then m else m[e.0 := e.1]
  }

  /** The comment of the first line counted for `subject`, if any. */
  function Lookup(naming: Naming, lines: seq<string>, subject: string): Option<string>
    decreases |lines|
  {
    if lines == [] then None
    else
      var found := Lookup(naming, lines[..|lines| - 1], subject);
      if found.Some? then found
      else match LineEntry(naming, lines[|lines| - 1])
        case Some(e) => if e.0 == subject then Some(e.1) else None
        case None => None
  }

  /** Reading one more line: it adds its subject unless that subject was already read. */
  lemma EntriesSnoc(naming: Naming, lines: seq<string>, l: string)
    ensures Entries(naming, lines + [l]) ==
      match LineEntry(naming, l)
      case None => Entries(naming, lines)
      case Some(e) => if e.0 in Entries(naming, lines) then Entries(naming, lines) else Entries(naming, lines)[e.0 := e.1]
  {
    assert (lines + [l])[..|lines|] == lines;
  }

  /** Reading one more line: a subject not yet found is found when the line is counted for it. */
  lemma LookupSnoc(naming: Naming, lines: seq<string>, l: string, subject: string)
    ensures Lookup(naming, lines + [l], subject) ==
      if Lookup(naming, lines, subject).Some? then Lookup(naming, lines, subject)
      else match LineEntry(naming, l)
        case Some(e) => if e.0 == subject then Some(e.1) else None
        case None => None
  {
    assert (lines + [l])[..|lines|] == lines;
  }

  /** One more line, stated over its fields: a counted subject is added unless already read. */
  lemma EntriesStep(naming: Naming, seen: seq<string>, l: string, fields: seq<string>)
    requires fields == Words(l)
    ensures fields == [] || naming.parse(LineId(fields)).None? ==>
      Entries(naming, seen + [l]) == Entries(naming, seen)
    ensures fields != [] && naming.parse(LineId(fields)).Some? ==>
      Entries(naming, seen + [l]) ==
        if LineId(fields) in Entries(naming, seen) then Entries(naming, seen)
        else Entries(naming, seen)[LineId(fields) := LineComment(fields)]
  {
    EntriesSnoc(naming, seen, l);
  }

  /** One more line, stated over its fields: a subject not yet found is found on its first counted line. */
  lemma LookupStep(naming: Naming, seen: seq<string>, l: string, fields: seq<string>, subject: string)
    requires fields == Words(l) && Lookup(naming, seen, subject) == None
    ensures fields == [] || naming.parse(LineId(fields)).None? || LineId(fields) != subject ==>
      Lookup(naming, seen + [l], subject) == None
    ensures fields != [] && naming.parse(LineId(fields)).Some? && LineId(fields) == subject ==>
      Lookup(naming, seen + [l], subject) == Some(LineComment(fields))
  {
    LookupSnoc(naming, seen, l, subject);
  }

  /** What `_parse_checklist` holds after the lines `seen`, a subject not yet found. */
  predicate ReadSoFar(naming: Naming, seen: seq<string>, subject: string, entries: map<string, string>) {
    if subject == "" then entries == Entries(naming, seen)
    else entries == map[] && Lookup(naming, seen, subject) == None
  }

  /** A line the loop passes over (`continue`) leaves what was read unchanged. */
  lemma SkipLine(naming: Naming, seen: seq<string>, l: string, fields: seq<string>, subject: string,
                 entries: map<string, string>)
    requires ReadSoFar(naming, seen, subject, entries) && fields == Words(l)
    requires fields == [] || naming.parse(LineId(fields)).None? ||
      (|entries| > 0 && LineId(fields) in entries) || (subject != "" && LineId(fields) != subject)
    ensures ReadSoFar(naming, seen + [l], subject, entries)
  {
    if subject == "" {
      EntriesStep(naming, seen, l, fields);
    } else {
      LookupStep(naming, seen, l, fields, subject);
    }
  }

  /** A counted line for a new subject adds it, in the mode that reads every subject. */
  lemma AddLine(naming: Naming, seen: seq<string>, l: string, fields: seq<string>, entries: map<string, string>)
    requires ReadSoFar(naming, seen, "", entries) && fields == Words(l)
    requires fields != [] && naming.parse(LineId(fields)).Some? && LineId(fields) !in entries
    ensures ReadSoFar(naming, seen + [l], "", entries[LineId(fields) := LineComment(fields)])
  {
    EntriesStep(naming, seen, l, fields);
  }

  /**
   * One turn of the `_parse_checklist` loop: the entries after the line, or
   * the comment found for `subject` (the early `return comment`).
   */
  method ReadLine(naming: Naming, ghost seen: seq<string>, l: string, subject: string, entries: map<string, string>)
      returns (next: map<string, string>, found: Option<string>)
    requires ReadSoFar(naming, seen, subject, entries)
    ensures found.None? ==> ReadSoFar(naming, seen + [l], subject, next)
    ensures found.Some? ==> subject != "" && Lookup(naming, seen + [l], subject) == found
  {
    next, found := entries, None;
    var fields := Words(l);
    if fields == [] {
      SkipLine(naming, seen, l, fields, subject, entries);
      return;
    }
    var subid := LineId(fields);
    if naming.parse(subid).None? || (|entries| > 0 && subid in entries) {
      SkipLine(naming, seen, l, fields, subject, entries);
      return;
    }
    var comment := LineComment(fields);
    if subject != "" {
      if subid != subject {
        SkipLine(naming, seen, l, fields, subject, entries);
        return;
      }
      LookupStep(naming, seen, l, fields, subject);
      return entries, Some(comment);
    }
    AddLine(naming, seen, l, fields, entries);
    next := entries[subid := comment];
  }

  /**
   * `utils._parse_checklist(checklist, subject)`. `subject == ""` stands for a
   * subject that is not given (None and '' are both false in `if subject:`).
   */
  method ParseChecklist(naming: Naming, lines: seq<string>, subject: string) returns (r: Parsed)
    ensures subject == "" ==> r == All(Entries(naming, lines))
    ensures subject != "" ==> r == One(Lookup(naming, lines, subject))
  {
    var entries: map<string, string> := map[];   // stays empty (None) in subject mode
    var i := 0;
    while i < |lines|
      invariant 0 <= i <= |lines|
      invariant ReadSoFar(naming, lines[..i], subject, entries)
    {
      var next, found := ReadLine(naming, lines[..i], lines[i], subject, entries);
      assert lines[..i + 1] == lines[..i] + [lines[i]];
      if found.Some? {
        LookupPrefix(naming, lines, i + 1, subject);
        return One(found);
      }
      entries := next;
      i := i + 1;
    }
    assert lines[..i] == lines;
    if subject != "" {
      return One(None);
    }
    return All(entries);
  }

  /** Once found, the answer for a subject does not change with later lines. */
  lemma {:induction false} LookupPrefix(naming: Naming, lines: seq<string>, j: int, subject: string)
    requires 0 <= j <= |lines| && Lookup(naming, lines[..j], subject).Some?
    ensures Lookup(naming, lines, subject) == Lookup(naming, lines[..j], subject)
    decreases |lines|
  {
    if j < |lines| {
      var init := lines[..|lines| - 1];
      assert init[..j] == lines[..j];
      LookupPrefix(naming, init, j, subject);
    } else {
      assert lines[..j] == lines;
    }
  }

  /** The two modes agree: the single-subject answer is that subject's dict entry. */
  lemma {:induction false} LookupIsEntry(naming: Naming, lines: seq<string>, subject: string)
    ensures Lookup(naming, lines, subject) ==
      if subject in Entries(naming, lines) then Some(Entries(naming, lines)[subject]) else None
    decreases |lines|
  {
    if lines != [] {
      LookupIsEntry(naming, lines[..|lines| - 1], subject);
    }
  }

  /** A subject is in the dict exactly when some line is counted for it. */
  lemma {:induction false} EntriesKeys(naming: Naming, lines: seq<string>, k: string)
    ensures k in Entries(naming, lines) <==>
      exists i :: 0 <= i < |lines| && LineEntry(naming, lines[i]).Some? && LineEntry(naming, lines[i]).value.0 == k
    decreases |lines|
  {
    if lines != [] {
      var init, l := lines[..|lines| - 1], lines[|lines| - 1];
      assert lines == init + [l];
      EntriesKeys(naming, init, k);
      EntriesSnoc(naming, init, l);
      if k in Entries(naming, lines) {
        if k in Entries(naming, init) {
          var i :| 0 <= i < |init| && LineEntry(naming, init[i]).Some? && LineEntry(naming, init[i]).value.0 == k;
          assert init[i] == lines[i];
        } else {
          assert LineEntry(naming, lines[|lines| - 1]).Some?;
        }
      } else {
        forall i | 0 <= i < |lines|
          ensures !(LineEntry(naming, lines[i]).Some? && LineEntry(naming, lines[i]).value.0 == k)
        {
          if i < |init| {
            assert init[i] == lines[i];
          }
        }
      }
    }
  }

  /** Later duplicates are ignored: the first counted line for a subject gives its comment. */
  lemma {:induction false} FirstLineWins(naming: Naming, lines: seq<string>, i: int)
    requires 0 <= i < |lines| && LineEntry(naming, lines[i]).Some?
    requires forall j :: 0 <= j < i ==>
      LineEntry(naming, lines[j]).None? || LineEntry(naming, lines[j]).value.0 != LineEntry(naming, lines[i]).value.0
    ensures LineEntry(naming, lines[i]).value.0 in Entries(naming, lines)
    ensures Entries(naming, lines)[LineEntry(naming, lines[i]).value.0] == LineEntry(naming, lines[i]).value.1
    decreases |lines|
  {
    var e := LineEntry(naming, lines[i]).value;
    var init, l := lines[..|lines| - 1], lines[|lines| - 1];
    assert lines == init + [l];
    EntriesSnoc(naming, init, l);
    if i < |lines| - 1 {
      assert init[i] == lines[i];
      assert forall j :: 0 <= j < i ==> init[j] == lines[j];
      FirstLineWins(naming, init, i);
    } else {
      assert e.0 !in Entries(naming, init) by {
        EntriesKeys(naming, init, e.0);
        assert forall j :: 0 <= j < |init| ==> init[j] == lines[j];
      }
    }
  }

  // ---------------------------------------------------------------------
  // Writing: `update_checklist` (file branch)
  // ---------------------------------------------------------------------

  /** The line `update_checklist` writes for a subject. */
  function ChecklistLine(subject: string, comment: string): string {
    "qc_" + subject + ".html " + comment + "\n"
  }

  /** Every delta key parses, and its subject-with-timepoint form is itself a key. */
  predicate DeltaOk(naming: Naming, items: map<string, string>) {
    forall k {:trigger naming.parse(k)} :: k in items ==>
      naming.parse(k).Some? && naming.parse(k).value.withTimepoint in items
  }

  /** The keys the merge writes: each parsed key in its subject-with-timepoint form. */
  function Normalised(naming: Naming, keys: set<string>): set<string> {
    set k | k in keys && naming.parse(k).Some? :: naming.parse(k).value.withTimepoint
  }

  /** The delta keys processed so far, applied to the prior dict. */
  function MergedSoFar(naming: Naming, prior: map<string, string>, items: map<string, string>, done: set<string>): map<string, string> {
    prior + map n | n in Normalised(naming, done) && n in items :: items[n]
  }

  /** The prior dict with every normalised delta key set to the delta's value for it. */
  function Merged(naming: Naming, prior: map<string, string>, items: map<string, string>): map<string, string> {
    MergedSoFar(naming, prior, items, items.Keys)
  }

  /** Adding one parsed key to the processed ones adds its normalised form. */
  lemma NormalisedAdd(naming: Naming, done: set<string>, k: string)
    requires naming.parse(k).Some?
    ensures Normalised(naming, done + {k}) == Normalised(naming, done) + {naming.parse(k).value.withTimepoint}
  {
  }

  lemma MergedSoFarNone(naming: Naming, prior: map<string, string>, items: map<string, string>)
    ensures MergedSoFar(naming, prior, items, {}) == prior
  {
    assert Normalised(naming, {}) == {};
  }

  lemma MergedSoFarAdd(naming: Naming, prior: map<string, string>, items: map<string, string>, done: set<string>, k: string)
    requires naming.parse(k).Some? && naming.parse(k).value.withTimepoint in items
    ensures MergedSoFar(naming, prior, items, done + {k}) ==
      MergedSoFar(naming, prior, items, done)[naming.parse(k).value.withTimepoint := items[naming.parse(k).value.withTimepoint]]
  {
    NormalisedAdd(naming, done, k);
  }

  /** An error the merge raises names a key that does not parse, or a normalised key that is missing. */
  predicate MergeError(naming: Naming, items: map<string, string>, e: MetaError) {
    match e
    case InvalidSubject(k) => k in items && naming.parse(k).None?
    case MissingKey(n) => n !in items
    case _ => false
  }

  /** The delta keys in `ks` parse, and each one's subject-with-timepoint form is a key. */
  predicate KeysOk(naming: Naming, items: map<string, string>, ks: set<string>) {
    forall k {:trigger naming.parse(k)} :: k in ks ==>
      naming.parse(k).Some? && naming.parse(k).value.withTimepoint in items
  }

  /** The merge loop of `update_checklist`: `old[ident.with_timepoint] = entries[ident.with_timepoint]`. */
  method MergeChecklist(naming: Naming, prior: map<string, string>, items: map<string, string>)
      returns (r: Result<map<string, string>, MetaError>)
    ensures r.Ok? <==> DeltaOk(naming, items)
    ensures r.Ok? ==> r.value == Merged(naming, prior, items)
    ensures r.Err? ==> MergeError(naming, items, r.error)
  {
    var rest := items.Keys;
    var done: set<string> := {};
    var merged := prior;
    MergedSoFarNone(naming, prior, items);
    while rest != {}
      invariant done + rest == items.Keys && done !! rest
      invariant KeysOk(naming, items, done)
      invariant merged == MergedSoFar(naming, prior, items, done)
      decreases rest
    {
      var k :| k in rest;
      var parsed := naming.parse(k);
      if parsed.None? {
        assert !DeltaOk(naming, items) by { assert k in items; }
        return Err(InvalidSubject(k));
      }
      var subject := parsed.value.withTimepoint;
      if subject !in items {
        assert !DeltaOk(naming, items) by { assert k in items; }
        return Err(MissingKey(subject));
      }
      MergedSoFarAdd(naming, prior, items, done, k);
      merged := merged[subject := items[subject]];
      done := done + {k};
      rest := rest - {k};
    }
    assert done == items.Keys;
    assert DeltaOk(naming, items);
    return Ok(merged);
  }

  /** With delta keys already in subject-with-timepoint form, the delta overrides the old dict. */
  lemma MergedOverrides(naming: Naming, prior: map<string, string>, items: map<string, string>)
    requires forall k :: k in items ==> naming.parse(k).Some? && naming.parse(k).value.withTimepoint == k
    ensures Merged(naming, prior, items) == prior + items
  {
    assert Normalised(naming, items.Keys) == items.Keys;
  }

  /**
   * `utils.update_checklist(entries, path=...)` on the file backend: merge into the
   * dict read from `oldLines`, write `sorted(lines)` with `write_metadata`.
   * The result is the new file contents.
   */
  method UpdateChecklist(naming: Naming, delta: Delta, oldLines: seq<string>, retry: nat, outcomes: seq<bool>)
      returns (r: Result<seq<string>, MetaError>)
    requires retry <= |outcomes|
    ensures delta.NotDict? ==> r == Err(NotADict)
    ensures delta.Dict? && !DeltaOk(naming, delta.items) ==> r.Err? && r.error != WriteFailed
    ensures delta.Dict? && DeltaOk(naming, delta.items) ==> (r.Ok? <==> true in outcomes[..retry])
    ensures r.Ok? ==> delta.Dict? && WrittenFrom(r.value, Merged(naming, Entries(naming, oldLines), delta.items))
  {
    if delta.NotDict? {
      return Err(NotADict);
    }
    var current := ParseChecklist(naming, oldLines, "");
    var merged := MergeChecklist(naming, current.entries, delta.items);
    if merged.Err? {
      return Err(merged.error);
    }
    var lines := FormatLines(merged.value, ChecklistLine);
    SortKeeps(lines);
    var written, _ := WriteMetadata(Sort(lines), retry, outcomes);
    return written;
  }

  /** `out` is the sorted file `update_checklist` writes for the dict `d`. */
  ghost predicate WrittenFrom(out: seq<string>, d: map<string, string>) {
    Sorted(out) && |out| == |d| && forall l :: l in out <==> WrittenLine(d, l)
  }

  /** `l` is the line written for some subject of `d`. */
  ghost predicate WrittenLine(d: map<string, string>, l: string) {
    exists k :: k in d && l == ChecklistLine(k, d[k])
  }

  // ---------------------------------------------------------------------
  // Round trip: reading back what `update_checklist` wrote
  // ---------------------------------------------------------------------

  /** A subject that survives the trip through a checklist line unchanged. */
  predicate WritableSubject(naming: Naming, k: string) {
    IsWord(k) && k[0] != '.' && '/' !in k && !Contains(k, "qc_") && naming.parse(k).Some?
  }

  /** The fields of a written line: the file name, then the comment's words. */
  lemma ChecklistLineFields(k: string, v: string)
    requires IsWord(k)
    ensures Words(ChecklistLine(k, v)) == ["qc_" + k + ".html"] + Words(v)
  {
    var name := "qc_" + k + ".html";
    assert IsWord(name) by {
      forall i | 0 <= i < |name| ensures !IsSpace(name[i]) {
        if 3 <= i < 3 + |k| { assert name[i] == k[i - 3]; }
      }
    }
    assert ChecklistLine(k, v) == name + [' '] + (v + ['\n'] + []);
    WordsSep(name, ' ', v + ['\n'] + []);
    WordsSep(v, '\n', []);
    assert v + ['\n'] + [] == v + ['\n'];
    WordsOfWord(name);
  }

  /** Dropping the "qc_" prefix from a written file name leaves the subject and ".html". */
  lemma ChecklistNameStrip(k: string)
    requires |k| > 0 && !Contains(k, "qc_")
    ensures Replace("qc_" + k + ".html", "qc_", "") == k + ".html"
  {
    QcHtmlApart();
    ReplaceAround("qc_", k, ".html");
  }

  /** Neither literal of the file name can start an occurrence of the "qc_" prefix. */
  lemma QcHtmlApart()
    ensures ".html"[0] !in "qc_"[1..] && "qc_"[0] !in ".html"
    ensures |".html"| > 0 && ".html"[0] == '.' && '.' !in ".html"[1..] && '/' !in ".html"
  {
  }

  /** The id of a written line's file name is the subject it was written for. */
  lemma ChecklistNameId(k: string)
    requires |k| > 0 && k[0] != '.' && '/' !in k && !Contains(k, "qc_")
    ensures PosixSplitext(Replace("qc_" + k + ".html", "qc_", "")).0 == k
  {
    ChecklistNameStrip(k);
    QcHtmlApart();
    SplitextOfStem(k, ".html");
  }

  /** Reading a written line gives back its subject and its comment, whitespace normalised. */
  lemma LineEntryOfChecklistLine(naming: Naming, k: string, v: string)
    requires WritableSubject(naming, k)
    ensures LineEntry(naming, ChecklistLine(k, v)) == Some((k, Normalize(v)))
  {
    ChecklistLineFields(k, v);
    ChecklistNameId(k);
    var fields := Words(ChecklistLine(k, v));
    assert fields[1..] == Words(v);
    StripJoinOfWords(Words(v));
    assert LineComment(fields) == Normalize(v);
    assert LineId(fields) == k;
  }

  /** Two written lines name the same subject only when they are for the same subject. */
  lemma ChecklistLineInjective(naming: Naming, k1: string, v1: string, k2: string, v2: string)
    requires WritableSubject(naming, k1) && WritableSubject(naming, k2)
    requires ChecklistLine(k1, v1) == ChecklistLine(k2, v2)
    ensures k1 == k2
  {
    LineEntryOfChecklistLine(naming, k1, v1);
    LineEntryOfChecklistLine(naming, k2, v2);
  }

  lemma {:induction false} EntriesOfWrittenLines(naming: Naming, d: map<string, string>, out: seq<string>)
    requires forall k :: k in d ==> WritableSubject(naming, k)
    requires forall i :: 0 <= i < |out| ==> WrittenLine(d, out[i])
    ensures forall k :: k in Entries(naming, out) <==> k in d && ChecklistLine(k, d[k]) in out
    ensures forall k :: k in Entries(naming, out) ==> Entries(naming, out)[k] == Normalize(d[k])
    decreases |out|
  {
    if out != [] {
      var init, l := out[..|out| - 1], out[|out| - 1];
      assert out == init + [l];
      assert forall i :: 0 <= i < |init| ==> init[i] == out[i];
      EntriesOfWrittenLines(naming, d, init);
      assert WrittenLine(d, out[|out| - 1]);
      var k0 :| k0 in d && l == ChecklistLine(k0, d[k0]);
      LineEntryOfChecklistLine(naming, k0, d[k0]);
      forall k | k in d && ChecklistLine(k, d[k]) == ChecklistLine(k0, d[k0])
        ensures k == k0
      {
        ChecklistLineInjective(naming, k, d[k], k0, d[k0]);
      }
      EntriesSnoc(naming, init, l);
      WrittenEntriesStep(d, init, k0, Entries(naming, init), Entries(naming, out));
    }
  }

  /** One more written line adds its subject, unless that subject was already read. */
  lemma WrittenEntriesStep(d: map<string, string>, init: seq<string>, k0: string,
                           m0: map<string, string>, m: map<string, string>)
    requires k0 in d
    requires forall k :: k in m0 <==> k in d && ChecklistLine(k, d[k]) in init
    requires forall k :: k in m0 ==> m0[k] == Normalize(d[k])
    requires m == if k0 in m0 then m0 else m0[k0 := Normalize(d[k0])]
    requires forall k :: k in d && ChecklistLine(k, d[k]) == ChecklistLine(k0, d[k0]) ==> k == k0
    ensures forall k :: k in m <==> k in d && ChecklistLine(k, d[k]) in init + [ChecklistLine(k0, d[k0])]
    ensures forall k :: k in m ==> m[k] == Normalize(d[k])
  {
  }

  /** A written line is one line of the file: subject and comment hold no '\n'. */
  lemma ChecklistLineIsFileLine(k: string, v: string)
    requires IsWord(k) && '\n' !in v
    ensures IsFileLine(ChecklistLine(k, v))
  {
    var l := ChecklistLine(k, v);
    assert l[..|l| - 1] == "qc_" + k + ".html " + v;
    assert forall i :: 0 <= i < |k| ==> k[i] != '\n';
  }

  /**
   * What `update_checklist` writes with `writelines` reads back, with
   * `readlines()`, as the merged dict, comments whitespace-normalised,
   * provided every subject is written unchanged and no comment holds a '\n'.
   */
  lemma ChecklistRoundTrip(naming: Naming, d: map<string, string>, out: seq<string>)
    requires forall k :: k in d ==> WritableSubject(naming, k) && '\n' !in d[k]
    requires WrittenFrom(out, d)
    ensures FileLines(Concat(out)) == out
    ensures Entries(naming, FileLines(Concat(out))) == map k | k in d :: Normalize(d[k])
  {
    WrittenAreFileLines(naming, d, out);
    FileLinesOfConcat(out);
    WrittenReadBack(naming, d, out);
  }

  /** Each string `update_checklist` writes is one line of the file. */
  lemma WrittenAreFileLines(naming: Naming, d: map<string, string>, out: seq<string>)
    requires forall k :: k in d ==> WritableSubject(naming, k) && '\n' !in d[k]
    requires WrittenFrom(out, d)
    ensures forall i :: 0 <= i < |out| ==> IsFileLine(out[i])
  {
    forall i | 0 <= i < |out| ensures IsFileLine(out[i]) {
      assert out[i] in out;
      var k :| k in d && out[i] == ChecklistLine(k, d[k]);
      ChecklistLineIsFileLine(k, d[k]);
    }
  }

  /** The written lines, taken as lines, read back as the merged dict. */
  lemma WrittenReadBack(naming: Naming, d: map<string, string>, out: seq<string>)
    requires forall k :: k in d ==> WritableSubject(naming, k)
    requires WrittenFrom(out, d)
    ensures Entries(naming, out) == map k | k in d :: Normalize(d[k])
  {
    forall i | 0 <= i < |out| ensures WrittenLine(d, out[i]) {
      assert out[i] in out;
    }
    EntriesOfWrittenLines(naming, d, out);
    forall k | k in d ensures ChecklistLine(k, d[k]) in out {
      assert WrittenLine(d, ChecklistLine(k, d[k]));
    }
  }
}
