/**
 * The batch selection of bin/dm-proc-enigma.py: which rows of the ENIGMA-DTI
 * checklist become command lines, the completion sentinel that makes a rerun
 * skip finished subjects, the submission rule, and the run scripts written for
 * the chosen options. The filesystem test, the clock and the queue are inputs
 * or recorded events.
 */
module Enigma {
  import opened Base
  import opened Text
  import opened OsPath
  import opened PathUtils

  // ---------------------------------------------------------------------
  // The completion sentinel (`subject_previously_completed`)
  // ---------------------------------------------------------------------

  const SentinelSuffix := "skel_ROIout_avg.csv"

  /** `<output_dir>/<subid>/ROI/<FA_img without '.nii' and '.gz'>skel_ROIout_avg.csv`. */
  function SentinelPath(outputDir: string, subid: string, faImg: string): string {
    PathJoin(PathJoin(PathJoin(outputDir, subid), "ROI"), StripNiftiExt(faImg) + SentinelSuffix)
  }

  /** `subject_previously_completed`: the sentinel exists (`isFile` is `os.path.isfile`). */
  predicate PreviouslyCompleted(isFile: string -> bool, outputDir: string, subid: string, faImg: string) {
    isFile(SentinelPath(outputDir, subid, faImg))
  }

  /**
   * The sentinel of an FA map `<stem>.nii.gz` is the file
   * `<stem>skel_ROIout_avg.csv` inside the subject's ROI folder.
   */
  lemma SentinelName(outputDir: string, subid: string, stem: string)
    requires !Contains(stem, ".nii") && !Contains(stem, ".gz") && '/' !in stem
    ensures Basename(SentinelPath(outputDir, subid, stem + ".nii.gz")) == stem + SentinelSuffix
    ensures SentinelPath(outputDir, subid, stem + ".nii.gz") ==
      PathJoin(PathJoin(PathJoin(outputDir, subid), "ROI"), stem + SentinelSuffix)
  {
    StripNiftiExtOfStem(stem);
    SentinelSuffixShape();
    BasenameOfJoin(PathJoin(PathJoin(outputDir, subid), "ROI"), stem + SentinelSuffix);
  }

  lemma SentinelSuffixShape()
    ensures SentinelSuffix != "" && '/' !in SentinelSuffix
  {
  }

  // ---------------------------------------------------------------------
  // The per-row loop of `main` (lines 176-232)
  // ---------------------------------------------------------------------

  /** A row of ENIGMA-DTI-checklist.csv; `faNii` is None where pandas holds a null. */
  datatype Row = Row(id: string, faNii: Option<string>, dateRan: Option<string>,
                     qcRator: string, qcRating: string, notes: string)

  /** The three tests a row passes to produce a command line; `filter` "" is no filter. */
  predicate Emits(filter: string, isFile: string -> bool, outputDir: string, r: Row) {
    (filter == "" || Contains(r.id, filter)) &&
    r.faNii.Some? &&
    !PreviouslyCompleted(isFile, outputDir, r.id, r.faNii.value)
  }

  /** `bash -l <run_dir>/run_engimadti.sh <output_dir>/<subid> <input_dir>/<subid>/<FA_nii>`. */
  function CommandLine(runDir: string, outputDir: string, inputDir: string, r: Row): string
    requires r.faNii.Some?
  {
    "bash -l " + runDir + "/run_engimadti.sh " + PathJoin(outputDir, r.id) + " " +
      PathJoin(PathJoin(inputDir, r.id), r.faNii.value) + "\n"
  }

  /** The positions of the true flags, in order. */
  function Indices(flags: seq<bool>): seq<nat>
    decreases |flags|
  {
    if flags == [] then []
    else Indices(flags[..|flags| - 1]) + (if flags[|flags| - 1] then [|flags| - 1] else [])
  }

  /** `Indices` lists, in increasing order, exactly the positions of the true flags. */
  lemma {:induction false} IndicesMembers(flags: seq<bool>)
    ensures var ix := Indices(flags);
      (forall k :: 0 <= k < |ix| ==> ix[k] < |flags|) &&
      (forall k, m :: 0 <= k < m < |ix| ==> ix[k] < ix[m]) &&
      (forall i :: 0 <= i < |flags| ==> (i in ix <==> flags[i]))
    decreases |flags|
  {
    if flags != [] {
      var n := |flags| - 1;
      var init := flags[..n];
      IndicesMembers(init);
      assert forall i :: 0 <= i < n ==> init[i] == flags[i];
    }
  }

  /** Which rows pass the three tests. */
  function EmitFlags(filter: string, isFile: string -> bool, outputDir: string, rows: seq<Row>): (f: seq<bool>)
    ensures |f| == |rows|
  {
    seq(|rows|, i requires 0 <= i < |rows| => Emits(filter, isFile, outputDir, rows[i]))
  }

  /** The indices of the rows that emit a line, in checklist order. */
  function Selection(filter: string, isFile: string -> bool, outputDir: string, rows: seq<Row>): seq<nat> {
    Indices(EmitFlags(filter, isFile, outputDir, rows))
  }

  /** The selection lists, in increasing order, exactly the rows that pass the three tests. */
  lemma SelectionMembers(filter: string, isFile: string -> bool, outputDir: string, rows: seq<Row>)
    ensures var sel := Selection(filter, isFile, outputDir, rows);
      (forall k :: 0 <= k < |sel| ==> sel[k] < |rows|) &&
      (forall k, m :: 0 <= k < m < |sel| ==> sel[k] < sel[m]) &&
      (forall i :: 0 <= i < |rows| ==> (i in sel <==> Emits(filter, isFile, outputDir, rows[i])))
  {
    IndicesMembers(EmitFlags(filter, isFile, outputDir, rows));
  }

  /** Nothing is selected exactly when no row passes the tests. */
  lemma SelectionEmpty(filter: string, isFile: string -> bool, outputDir: string, rows: seq<Row>)
    ensures Selection(filter, isFile, outputDir, rows) == [] <==>
      forall i :: 0 <= i < |rows| ==> !Emits(filter, isFile, outputDir, rows[i])
  {
    var sel := Selection(filter, isFile, outputDir, rows);
    SelectionMembers(filter, isFile, outputDir, rows);
    if sel != [] {
      assert sel[0] in sel;
    }
  }

  /** The selection of a checklist extends that of its rows but the last. */
  lemma SelectionLast(filter: string, isFile: string -> bool, outputDir: string, rows: seq<Row>)
    requires rows != []
    ensures Selection(filter, isFile, outputDir, rows) ==
      Selection(filter, isFile, outputDir, rows[..|rows| - 1]) +
        (if Emits(filter, isFile, outputDir, rows[|rows| - 1]) then [|rows| - 1] else [])
  {
    var f := EmitFlags(filter, isFile, outputDir, rows);
    assert f[..|rows| - 1] == EmitFlags(filter, isFile, outputDir, rows[..|rows| - 1]);
  }

  /** The lines the loop writes to commands.txt, in row order. */
  function Commands(filter: string, isFile: string -> bool, runDir: string, outputDir: string, inputDir: string,
                    rows: seq<Row>): seq<string>
    decreases |rows|
  {
    if rows == [] then []
    else
      var last := rows[|rows| - 1];
      Commands(filter, isFile, runDir, outputDir, inputDir, rows[..|rows| - 1]) +
        (if Emits(filter, isFile, outputDir, last) then [CommandLine(runDir, outputDir, inputDir, last)] else [])
  }

  lemma CommandsSnoc(filter: string, isFile: string -> bool, runDir: string, outputDir: string, inputDir: string,
                     rows: seq<Row>, i: nat)
    requires i < |rows|
    ensures Commands(filter, isFile, runDir, outputDir, inputDir, rows[..i + 1]) ==
      Commands(filter, isFile, runDir, outputDir, inputDir, rows[..i]) +
        (if Emits(filter, isFile, outputDir, rows[i]) then [CommandLine(runDir, outputDir, inputDir, rows[i])] else [])
  {
    assert rows[..i + 1][..i] == rows[..i];
    assert rows[..i + 1][i] == rows[i];
  }

  /**
   * The k-th command line is the one for the k-th selected row: one line per
   * row that passes the tests, in checklist order.
   */
  lemma {:induction false} CommandsOfSelection(filter: string, isFile: string -> bool, runDir: string,
                                               outputDir: string, inputDir: string, rows: seq<Row>)
    ensures var sel := Selection(filter, isFile, outputDir, rows);
      var lines := Commands(filter, isFile, runDir, outputDir, inputDir, rows);
      |lines| == |sel| &&
      forall k :: 0 <= k < |sel| ==>
        sel[k] < |rows| && rows[sel[k]].faNii.Some? &&
        lines[k] == CommandLine(runDir, outputDir, inputDir, rows[sel[k]])
    decreases |rows|
  {
    if rows != [] {
      var init, last := rows[..|rows| - 1], rows[|rows| - 1];
      assert rows == init + [last];
      CommandsOfSelection(filter, isFile, runDir, outputDir, inputDir, init);
      SelectionLast(filter, isFile, outputDir, rows);
      var emits := Emits(filter, isFile, outputDir, last);
      var line := if emits then CommandLine(runDir, outputDir, inputDir, last) else "";
      assert Commands(filter, isFile, runDir, outputDir, inputDir, rows) ==
        Commands(filter, isFile, runDir, outputDir, inputDir, init) + (if emits then [line] else []);
      PairedSnoc(runDir, outputDir, inputDir, init, last, Selection(filter, isFile, outputDir, init),
                 Commands(filter, isFile, runDir, outputDir, inputDir, init), emits, line);
    }
  }

  /** Step of `CommandsOfSelection`: one more row keeps selection and lines paired. */
  lemma PairedSnoc(runDir: string, outputDir: string, inputDir: string, init: seq<Row>, last: Row,
                   sel0: seq<nat>, lines0: seq<string>, emits: bool, line: string)
    requires |lines0| == |sel0|
    requires forall k :: 0 <= k < |sel0| ==>
      sel0[k] < |init| && init[sel0[k]].faNii.Some? &&
      lines0[k] == CommandLine(runDir, outputDir, inputDir, init[sel0[k]])
    requires emits ==> last.faNii.Some? && line == CommandLine(runDir, outputDir, inputDir, last)
    ensures var rows, sel, lines := init + [last], sel0 + (if emits then [|init|] else []),
        lines0 + (if emits then [line] else []);
      |lines| == |sel| &&
      forall k :: 0 <= k < |sel| ==>
        sel[k] < |rows| && rows[sel[k]].faNii.Some? &&
        lines[k] == CommandLine(runDir, outputDir, inputDir, rows[sel[k]])
  {
    var rows, sel, lines := init + [last], sel0 + (if emits then [|init|] else []),
      lines0 + (if emits then [line] else []);
    forall k | 0 <= k < |sel|
      ensures sel[k] < |rows| && rows[sel[k]].faNii.Some? &&
        lines[k] == CommandLine(runDir, outputDir, inputDir, rows[sel[k]])
    {
      if k < |sel0| {
        assert sel[k] == sel0[k] && lines[k] == lines0[k] && rows[sel0[k]] == init[sel0[k]];
      } else {
        assert sel[k] == |init| && lines[k] == line && rows[|init|] == last;
      }
    }
  }

  /** `submit_edti` ends true exactly when some row passes the three tests. */
  lemma SubmitsIffSelected(filter: string, isFile: string -> bool, runDir: string, outputDir: string, inputDir: string,
                           rows: seq<Row>)
    ensures Commands(filter, isFile, runDir, outputDir, inputDir, rows) != [] <==>
      exists i :: 0 <= i < |rows| && Emits(filter, isFile, outputDir, rows[i])
  {
    CommandsOfSelection(filter, isFile, runDir, outputDir, inputDir, rows);
    SelectionEmpty(filter, isFile, outputDir, rows);
  }

  /** A row after the loop: stamped with today when it emitted a line. */
  function StampRow(filter: string, isFile: string -> bool, outputDir: string, today: string, r: Row): Row {
    if Emits(filter, isFile, outputDir, r) then r.(dateRan := Some(today)) else r
  }

  /** Every row after a run, in order. */
  function Stamped(filter: string, isFile: string -> bool, outputDir: string, rows: seq<Row>, today: string): seq<Row>
    decreases |rows|
  {
    if rows == [] then []
    else Stamped(filter, isFile, outputDir, rows[..|rows| - 1], today) +
         [StampRow(filter, isFile, outputDir, today, rows[|rows| - 1])]
  }

  /**
   * `date_ran` is set to today exactly on the rows that emitted a line; no
   * other field and no other row changes.
   */
  lemma StampedRows(filter: string, isFile: string -> bool, outputDir: string, rows: seq<Row>, today: string)
    ensures var after := Stamped(filter, isFile, outputDir, rows, today);
      |after| == |rows| &&
      forall i :: 0 <= i < |rows| ==>
        after[i].(dateRan := rows[i].dateRan) == rows[i] &&
        (Emits(filter, isFile, outputDir, rows[i]) ==> after[i].dateRan == Some(today)) &&
        (!Emits(filter, isFile, outputDir, rows[i]) ==> after[i] == rows[i])
  {
    StampedAt(filter, isFile, outputDir, rows, today);
  }

  /** Row `i` after the run is row `i` before it, stamped or not. */
  lemma {:induction false} StampedAt(filter: string, isFile: string -> bool, outputDir: string, rows: seq<Row>, today: string)
    ensures |Stamped(filter, isFile, outputDir, rows, today)| == |rows|
    ensures forall i :: 0 <= i < |rows| ==>
      Stamped(filter, isFile, outputDir, rows, today)[i] == StampRow(filter, isFile, outputDir, today, rows[i])
    decreases |rows|
  {
    if rows != [] {
      var init, last := rows[..|rows| - 1], rows[|rows| - 1];
      assert rows == init + [last];
      StampedAt(filter, isFile, outputDir, init, today);
      StampedStep(filter, isFile, outputDir, today, init, last, Stamped(filter, isFile, outputDir, init, today));
    }
  }

  /** Step of `StampedAt`: stamping one more row keeps the rows paired. */
  lemma StampedStep(filter: string, isFile: string -> bool, outputDir: string, today: string,
                    init: seq<Row>, last: Row, prev: seq<Row>)
    requires |prev| == |init|
    requires forall i :: 0 <= i < |init| ==> prev[i] == StampRow(filter, isFile, outputDir, today, init[i])
    ensures var rows, after := init + [last], prev + [StampRow(filter, isFile, outputDir, today, last)];
      |after| == |rows| &&
      forall i :: 0 <= i < |rows| ==> after[i] == StampRow(filter, isFile, outputDir, today, rows[i])
  {
    var rows, after := init + [last], prev + [StampRow(filter, isFile, outputDir, today, last)];
    forall i | 0 <= i < |rows| ensures after[i] == StampRow(filter, isFile, outputDir, today, rows[i]) {
      if i < |init| {
        assert after[i] == prev[i] && rows[i] == init[i];
      }
    }
  }

  lemma StampedSnoc(filter: string, isFile: string -> bool, outputDir: string, rows: seq<Row>, today: string, i: nat)
    requires i < |rows|
    ensures Stamped(filter, isFile, outputDir, rows[..i + 1], today) ==
      Stamped(filter, isFile, outputDir, rows[..i], today) + [StampRow(filter, isFile, outputDir, today, rows[i])]
  {
    assert rows[..i + 1][..i] == rows[..i];
    assert rows[..i + 1][i] == rows[i];
  }

  /**
   * The `for` loop over the checklist: the command lines in row order, the
   * rows stamped in place, and `submit_edti`.
   */
  method WriteCommands(checklist: array<Row>, filter: string, isFile: string -> bool,
                       runDir: string, outputDir: string, inputDir: string, today: string)
      returns (lines: seq<string>, submit: bool)
    modifies checklist
    ensures lines == Commands(filter, isFile, runDir, outputDir, inputDir, old(checklist[..]))
    ensures checklist[..] == Stamped(filter, isFile, outputDir, old(checklist[..]), today)
    ensures submit <==> |lines| > 0
  {
    ghost var rows := checklist[..];
    lines, submit := [], false;
    for i := 0 to checklist.Length
      invariant checklist[i..] == rows[i..]
      invariant checklist[..i] == Stamped(filter, isFile, outputDir, rows[..i], today)
      invariant lines == Commands(filter, isFile, runDir, outputDir, inputDir, rows[..i])
      invariant submit <==> |lines| > 0
    {
      CommandsSnoc(filter, isFile, runDir, outputDir, inputDir, rows, i);
      StampedSnoc(filter, isFile, outputDir, rows, today, i);
      assert checklist[i] == checklist[i..][0] == rows[i];
      var r := checklist[i];
      // the three `continue` tests of the loop, in order
      if Emits(filter, isFile, outputDir, r) {
        lines := lines + [CommandLine(runDir, outputDir, inputDir, r)];
        checklist[i] := r.(dateRan := Some(today));
        submit := true;
      }
      assert checklist[..i + 1] == checklist[..i] + [checklist[i]];
    }
    assert rows[..checklist.Length] == rows;
    assert checklist[..] == checklist[..checklist.Length];
  }

  /**
   * Once the sentinels of the rows that ran exist (and no file went away), a
   * second run over the stamped checklist selects nothing.
   */
  lemma RerunSelectsNothing(filter: string, isFile: string -> bool, isFileAfter: string -> bool,
                            outputDir: string, rows: seq<Row>, today: string)
    requires forall p :: isFile(p) ==> isFileAfter(p)
    requires forall i :: 0 <= i < |rows| && Emits(filter, isFile, outputDir, rows[i]) ==>
      isFileAfter(SentinelPath(outputDir, rows[i].id, rows[i].faNii.value))
    ensures Selection(filter, isFileAfter, outputDir, Stamped(filter, isFile, outputDir, rows, today)) == []
  {
    var after := Stamped(filter, isFile, outputDir, rows, today);
    StampedRows(filter, isFile, outputDir, rows, today);
    forall i | 0 <= i < |after| ensures !Emits(filter, isFileAfter, outputDir, after[i]) {
      assert after[i].id == rows[i].id && after[i].faNii == rows[i].faNii;
    }
    SelectionEmpty(filter, isFileAfter, outputDir, after);
  }

  // ---------------------------------------------------------------------
  // Submission (`main`, lines 171-232)
  // ---------------------------------------------------------------------

  /** `edti<STUDY_TAG>_<%Y%m%d-%H%M%S>`; the time stamp is an input. */
  function JobPrefix(studyTag: string, stamp: string): string {
    "edti" + studyTag + "_" + stamp
  }

  /** What `main` does to the outside world, in order; `dryRun` is passed on to `utils.run`. */
  datatype Event =
    | SubmitBatch(job: string, commands: seq<string>, dryRun: bool)
    | SubmitPost(job: string, afterok: string, command: string, dryRun: bool)
    | WriteChecklist(rows: seq<Row>)

  datatype Options = Options(subjectFilter: string, postOnly: bool, dryRun: bool, studyTag: string)

  /** `echo bash -l <run_dir>/concatresults.sh`, piped to the post job. */
  function PostCommand(runDir: string): string {
    "echo bash -l " + runDir + "/concatresults.sh"
  }

  /**
   * `main` from the job prefix on: the loop (skipped with `--post-only`), the
   * batch and post submissions, and the checklist write-back.
   */
  method RunMain(checklist: array<Row>, opts: Options, isFile: string -> bool, stamp: string,
                 outputDir: string, inputDir: string, today: string) returns (events: seq<Event>)
    modifies checklist
    ensures opts.postOnly ==> checklist[..] == old(checklist[..])
    ensures !opts.postOnly ==>
      checklist[..] == Stamped(opts.subjectFilter, isFile, outputDir, old(checklist[..]), today)
    ensures var prefix := JobPrefix(opts.studyTag, stamp);
      var runDir := PathJoin(outputDir, "bin");
      var lines := Commands(opts.subjectFilter, isFile, runDir, outputDir, inputDir, old(checklist[..]));
      events ==
        (if !opts.postOnly && lines != [] then
          [SubmitBatch(prefix, lines, opts.dryRun), SubmitPost(prefix + "_post", prefix, PostCommand(runDir), opts.dryRun)]
         else []) +
        (if opts.dryRun then [] else [WriteChecklist(checklist[..])])
  {
    ghost var rows := checklist[..];
    var runDir := PathJoin(outputDir, "bin");
    var prefix := JobPrefix(opts.studyTag, stamp);
    ghost var expected := Commands(opts.subjectFilter, isFile, runDir, outputDir, inputDir, rows);
    var submit := false;
    events := [];
    if !opts.postOnly {
      var lines;
      lines, submit := WriteCommands(checklist, opts.subjectFilter, isFile, runDir, outputDir, inputDir, today);
      assert lines == expected && (submit <==> expected != []);
      if submit {
        events := events + [SubmitBatch(prefix, lines, opts.dryRun)];
      }
    }
    assert submit <==> !opts.postOnly && expected != [];
    if submit {
      events := events + [SubmitPost(prefix + "_post", prefix, PostCommand(runDir), opts.dryRun)];
    }
    ghost var submitted := events;
    assert submitted == if submit then
      [SubmitBatch(prefix, expected, opts.dryRun), SubmitPost(prefix + "_post", prefix, PostCommand(runDir), opts.dryRun)]
      else [];
    if !opts.dryRun {
      events := events + [WriteChecklist(checklist[..])];
    }
    assert events == submitted + (if opts.dryRun then [] else [WriteChecklist(checklist[..])]);
  }

  // ---------------------------------------------------------------------
  // `write_run_script`
  // ---------------------------------------------------------------------

  /** The three writes every run script starts with. */
  const Preamble: seq<string> := [
    "#!/bin/bash\n\n",
    "## this script was created by dm-proc-engima.py\n\n",
    "## Prints loaded modules to the log\nmodule list\n\n"]

  function Quoted(s: string): string {
    "\"" + s + "\""
  }

  /** The concatenation script and the shell variable holding the output directory. */
  const ConcatScript := "dm-proc-enigma-concat.py"
  const OutDir := "${OUTDIR}"

  /** The results file of one measure, quoted for the shell. */
  function ResultsFile(measure: string): string {
    Quoted(OutDir + "/enigmaDTI-" + measure + "-results.csv")
  }

  /**
   * The concatenation call as the source writes it: the adjacent literals
   * leave no space between the quoted measure and the results file.
   */
  function ConcatCallAsWritten(measure: string): string {
    "\n" + ConcatScript + " " + OutDir + " " + Quoted(measure) + ResultsFile(measure) + "\n"
  }

  /**
   * The concatenation call as evidently intended, with the measure and the
   * results file as separate arguments. The run scripts below write the
   * call as written; this one only states what the fix would give.
   */
  function ConcatCall(measure: string): string {
    "\n" + ConcatScript + " " + OutDir + " " + Quoted(measure) + " " + ResultsFile(measure) + "\n"
  }

  /** The option flags, in the order the two generated commands pass them. */
  function Flags(calcMd: bool, calcAll: bool): seq<string> {
    (if calcMd then ["--calc-MD "] else []) + (if calcAll then ["--calc-all "] else [])
  }

  /** The writes of `run_engimadti.sh` after the preamble. */
  function DoIndWrites(calcMd: bool, calcAll: bool): seq<string> {
    ["OUTDIR=${1}\n", "FAMAP=${2}\n", "\ndoInd-enigma-dti.py "] + Flags(calcMd, calcAll) + ["${OUTDIR} ${FAMAP} \n"]
  }

  /** The measures whose results `concatresults.sh` gathers. */
  function Measures(calcMd: bool, calcAll: bool): seq<string> {
    ["FA"] + (if calcMd || calcAll then ["MD"] else []) + (if calcAll then ["AD", "RD"] else [])
  }

  function ConcatCalls(measures: seq<string>): (r: seq<string>)
    ensures |r| == |measures|
    ensures forall i :: 0 <= i < |measures| ==> r[i] == ConcatCallAsWritten(measures[i])
  {
    if measures == [] then [] else [ConcatCallAsWritten(measures[0])] + ConcatCalls(measures[1..])
  }

  /** The writes of `concatresults.sh` after the preamble. */
  function ConcatWrites(outputDir: string, calcMd: bool, calcAll: bool): seq<string> {
    ["OUTDIR=" + outputDir + " \n"] + ConcatCalls(Measures(calcMd, calcAll)) +
      ["\ndm-qc-enigma.py "] + Flags(calcMd, calcAll) + ["${OUTDIR} \n"]
  }

  /** The option flags a generated command line receives after `prefix`. */
  method WriteFlags(prefix: seq<string>, calcMd: bool, calcAll: bool) returns (writes: seq<string>)
    ensures writes == prefix + Flags(calcMd, calcAll)
  {
    writes := prefix;
    if calcMd { writes := writes + ["--calc-MD "]; }
    if calcAll { writes := writes + ["--calc-all "]; }
  }

  /** The `doInd` step: the per-subject ENIGMA-DTI call on `${OUTDIR}` and `${FAMAP}`. */
  method WriteDoInd(calcMd: bool, calcAll: bool) returns (writes: seq<string>)
    ensures writes == DoIndWrites(calcMd, calcAll)
  {
    writes := WriteFlags(["OUTDIR=${1}\n", "FAMAP=${2}\n", "\ndoInd-enigma-dti.py "], calcMd, calcAll);
    writes := writes + ["${OUTDIR} ${FAMAP} \n"];
  }

  /** The concatenation calls for the chosen measures, one branch of the source at a time. */
  lemma ConcatCallsOfMeasures(calcMd: bool, calcAll: bool)
    ensures ConcatCalls(Measures(calcMd, calcAll)) ==
      [ConcatCallAsWritten("FA")] + (if calcMd || calcAll then [ConcatCallAsWritten("MD")] else []) +
        (if calcAll then [ConcatCallAsWritten("AD"), ConcatCallAsWritten("RD")] else [])
  {
    var ms := Measures(calcMd, calcAll);
    var expected := [ConcatCallAsWritten("FA")] + (if calcMd || calcAll then [ConcatCallAsWritten("MD")] else []) +
      (if calcAll then [ConcatCallAsWritten("AD"), ConcatCallAsWritten("RD")] else []);
    assert |ConcatCalls(ms)| == |expected|;
    forall i | 0 <= i < |expected| ensures ConcatCalls(ms)[i] == expected[i] {
    }
  }

  /** The `concat` step: one concatenation per computed measure, then the QC call. */
  method WriteConcat(outputDir: string, calcMd: bool, calcAll: bool) returns (writes: seq<string>)
    ensures writes == ConcatWrites(outputDir, calcMd, calcAll)
  {
    var calls := [ConcatCallAsWritten("FA")];
    if calcMd || calcAll {
      calls := calls + [ConcatCallAsWritten("MD")];
    }
    if calcAll {
      calls := calls + [ConcatCallAsWritten("AD"), ConcatCallAsWritten("RD")];
    }
    ConcatCallsOfMeasures(calcMd, calcAll);
    assert calls == ConcatCalls(Measures(calcMd, calcAll));
    writes := WriteFlags(["OUTDIR=" + outputDir + " \n"] + calls + ["\ndm-qc-enigma.py "], calcMd, calcAll);
    writes := writes + ["${OUTDIR} \n"];
  }

  /**
   * `write_run_script(filename, output_dir, CALC_MD, CALC_ALL)`: the writes to
   * the file, in order. A name other than the two scripts leaves ENGIMASTEP
   * unassigned, so the call fails (`ok` false) after the preamble.
   */
  method WriteRunScript(filename: string, outputDir: string, calcMd: bool, calcAll: bool)
      returns (writes: seq<string>, ok: bool)
    ensures ok <==> Basename(filename) == "run_engimadti.sh" || Basename(filename) == "concatresults.sh"
    ensures !ok ==> writes == Preamble
    ensures ok && Basename(filename) == "run_engimadti.sh" ==> writes == Preamble + DoIndWrites(calcMd, calcAll)
    ensures ok && Basename(filename) == "concatresults.sh" ==> writes == Preamble + ConcatWrites(outputDir, calcMd, calcAll)
  {
    var bname := Basename(filename);
    if bname == "run_engimadti.sh" {
      var body := WriteDoInd(calcMd, calcAll);
      return Preamble + body, true;
    } else if bname == "concatresults.sh" {
      var body := WriteConcat(outputDir, calcMd, calcAll);
      return Preamble + body, true;
    }
    return Preamble, false;
  }

  // ---------------------------------------------------------------------
  // What the generated scripts say
  // ---------------------------------------------------------------------

  /** Where the measure sits inside a concatenation call. */
  const MeasureAt := |"\n" + ConcatScript + " " + OutDir + " \""|

  lemma ConcatCallAsWrittenShape(measure: string)
    ensures |ConcatCallAsWritten(measure)| == 2 * |measure| + 73
    ensures ConcatCallAsWritten(measure)[0] == '\n'
    ensures MeasureAt == 37
    ensures ConcatCallAsWritten(measure)[MeasureAt..MeasureAt + |measure|] == measure
  {
    var c := ConcatCallAsWritten(measure);
    var head := "\n" + ConcatScript + " " + OutDir + " \"";
    assert c == head + measure + ("\"" + ResultsFile(measure) + "\n");
  }

  /** Different measures give different concatenation calls. */
  lemma ConcatCallInjective(a: string, b: string)
    requires ConcatCallAsWritten(a) == ConcatCallAsWritten(b)
    ensures a == b
  {
    ConcatCallAsWrittenShape(a);
    ConcatCallAsWrittenShape(b);
  }

  /** A concatenation call is none of the other lines of `concatresults.sh`. */
  lemma ConcatCallNotOther(outputDir: string, measure: string)
    ensures ConcatCallAsWritten(measure) != "OUTDIR=" + outputDir + " \n"
    ensures ConcatCallAsWritten(measure) != "\ndm-qc-enigma.py "
    ensures ConcatCallAsWritten(measure) !in Flags(true, true)
    ensures ConcatCallAsWritten(measure) != "${OUTDIR} \n"
  {
    ConcatCallAsWrittenShape(measure);
    assert ("OUTDIR=" + outputDir + " \n")[0] == 'O';
  }

  /** A call appears among the concatenations exactly when its measure is listed. */
  lemma {:induction false} InConcatCalls(measures: seq<string>, m: string)
    ensures ConcatCallAsWritten(m) in ConcatCalls(measures) <==> m in measures
  {
    var r := ConcatCalls(measures);
    if m in measures {
      var i :| 0 <= i < |measures| && measures[i] == m;
      assert r[i] == ConcatCallAsWritten(m);
    }
    if ConcatCallAsWritten(m) in r {
      var i :| 0 <= i < |r| && r[i] == ConcatCallAsWritten(m);
      ConcatCallInjective(measures[i], m);
    }
  }

  /**
   * `concatresults.sh` gathers FA always, MD under `--calc-MD` or
   * `--calc-all`, and AD and RD under `--calc-all` only.
   */
  lemma ConcatScriptMeasures(outputDir: string, calcMd: bool, calcAll: bool, m: string)
    ensures ConcatCallAsWritten(m) in ConcatWrites(outputDir, calcMd, calcAll) <==>
      m == "FA" || (m == "MD" && (calcMd || calcAll)) || ((m == "AD" || m == "RD") && calcAll)
  {
    InConcatWrites(outputDir, calcMd, calcAll, m);
    InMeasures(calcMd, calcAll, m);
  }

  /** A concatenation line is in the script exactly when its measure is chosen. */
  lemma InConcatWrites(outputDir: string, calcMd: bool, calcAll: bool, m: string)
    ensures ConcatCallAsWritten(m) in ConcatWrites(outputDir, calcMd, calcAll) <==> m in Measures(calcMd, calcAll)
  {
    var w := ConcatWrites(outputDir, calcMd, calcAll);
    var ms := Measures(calcMd, calcAll);
    var tail := ["\ndm-qc-enigma.py "] + Flags(calcMd, calcAll) + ["${OUTDIR} \n"];
    assert w == ["OUTDIR=" + outputDir + " \n"] + ConcatCalls(ms) + tail;
    ConcatCallNotOther(outputDir, m);
    InConcatCalls(ms, m);
    assert ConcatCallAsWritten(m) !in tail;
  }

  /** The chosen measures: FA always, MD with either option, AD and RD with `--calc-all`. */
  lemma InMeasures(calcMd: bool, calcAll: bool, m: string)
    ensures m in Measures(calcMd, calcAll) <==>
      m == "FA" || (m == "MD" && (calcMd || calcAll)) || ((m == "AD" || m == "RD") && calcAll)
  {
  }

  /** No option flag is a concatenation call. */
  lemma {:induction false} FlagsNotConcatCalls(measures: seq<string>)
    ensures "--calc-MD " !in ConcatCalls(measures) && "--calc-all " !in ConcatCalls(measures)
  {
    forall i | 0 <= i < |measures| ensures |ConcatCalls(measures)[i]| >= 73 {
      ConcatCallAsWrittenShape(measures[i]);
    }
  }

  /** The flags of `run_engimadti.sh` say exactly which options were chosen. */
  lemma DoIndFlags(calcMd: bool, calcAll: bool)
    ensures "--calc-MD " in DoIndWrites(calcMd, calcAll) <==> calcMd
    ensures "--calc-all " in DoIndWrites(calcMd, calcAll) <==> calcAll
  {
    assert DoIndWrites(calcMd, calcAll) ==
      ["OUTDIR=${1}\n", "FAMAP=${2}\n", "\ndoInd-enigma-dti.py "] + Flags(calcMd, calcAll) + ["${OUTDIR} ${FAMAP} \n"];
  }

  /** The QC call of `concatresults.sh` receives exactly the chosen options. */
  lemma ConcatFlags(outputDir: string, calcMd: bool, calcAll: bool)
    ensures "--calc-MD " in ConcatWrites(outputDir, calcMd, calcAll) <==> calcMd
    ensures "--calc-all " in ConcatWrites(outputDir, calcMd, calcAll) <==> calcAll
  {
    var calls := ConcatCalls(Measures(calcMd, calcAll));
    FlagsNotConcatCalls(Measures(calcMd, calcAll));
    var head := "OUTDIR=" + outputDir + " \n";
    assert head[0] == 'O';
    assert ConcatWrites(outputDir, calcMd, calcAll) ==
      [head] + calls + ["\ndm-qc-enigma.py "] + Flags(calcMd, calcAll) + ["${OUTDIR} \n"];
  }

  // ---------------------------------------------------------------------
  // The arguments the concatenation script receives
  // ---------------------------------------------------------------------

  /** The literal words of a concatenation call. */
  lemma CallLiteralWords()
    ensures IsWord(ConcatScript) && IsWord(OutDir) && IsSpace('\n')
  {
  }

  /** The literal parts of a results file name. */
  lemma ResultsLiteralWords()
    ensures IsWord("/enigmaDTI-") && IsWord("-results.csv")
  {
  }

  /** A word is still a word with another word appended. */
  lemma WordAppend(a: string, b: string)
    requires IsWord(a) && IsWord(b)
    ensures IsWord(a + b)
  {
    assert forall i :: 0 <= i < |b| ==> (a + b)[|a| + i] == b[i];
  }

  /** Quoting a word gives a word. */
  lemma QuotedWord(w: string)
    requires IsWord(w)
    ensures IsWord(Quoted(w))
  {
    var quote := "\"";
    assert IsWord(quote);
    WordAppend(quote, w);
    WordAppend(quote + w, quote);
  }

  /** The quoted measure and its results file are shell words when the measure is one. */
  lemma ConcatWordsFacts(measure: string)
    requires IsWord(measure)
    ensures IsWord(Quoted(measure)) && IsWord(ResultsFile(measure))
    ensures IsWord(Quoted(measure) + ResultsFile(measure))
  {
    CallLiteralWords();
    ResultsLiteralWords();
    QuotedWord(measure);
    WordAppend(OutDir, "/enigmaDTI-");
    WordAppend(OutDir + "/enigmaDTI-", measure);
    WordAppend(OutDir + "/enigmaDTI-" + measure, "-results.csv");
    QuotedWord(OutDir + "/enigmaDTI-" + measure + "-results.csv");
    WordAppend(Quoted(measure), ResultsFile(measure));
  }

  /** Surrounding a string with one whitespace character on each side leaves its words alone. */
  lemma WordsBetween(c: char, s: string)
    requires IsSpace(c)
    ensures Words([c] + s + [c]) == Words(s)
  {
    WordsSep([], c, s + [c] + []);
    WordsSep(s, c, []);
    assert [c] + s + [c] == [] + [c] + (s + [c] + []);
  }

  /** A line of words between newlines splits back into those words. */
  lemma WordsOfLine(ws: seq<string>)
    requires forall i :: 0 <= i < |ws| ==> IsWord(ws[i])
    ensures Words("\n" + Join(ws, " ") + "\n") == ws
  {
    CallLiteralWords();
    WordsBetween('\n', Join(ws, " "));
    WordsOfJoin(ws);
  }

  lemma Join3(a: string, b: string, c: string)
    ensures Join([a, b, c], " ") == a + " " + b + " " + c
  {
    assert [a, b, c][1..] == [b, c];
    assert [b, c][1..] == [c];
    assert Join([b, c], " ") == b + " " + c;
    assert a + " " + (b + " " + c) == a + " " + b + " " + c;
  }

  lemma Join4(a: string, b: string, c: string, d: string)
    ensures Join([a, b, c, d], " ") == a + " " + b + " " + c + " " + d
  {
    assert [a, b, c, d][1..] == [b, c, d];
    Join3(b, c, d);
    assert a + " " + (b + " " + c + " " + d) == a + " " + b + " " + c + " " + d;
  }

  /**
   * Re-association, one step at a time: asserting the re-associated line in
   * one go leaves the solver too much to search (it runs out of resource).
   */
  lemma Assoc(p: string, q: string, r: string)
    ensures p + (q + r) == p + q + r
  {
  }

  /** A line of three words, as the shell splits it. */
  lemma WordsOfThreeLine(a: string, b: string, c: string)
    requires IsWord(a) && IsWord(b) && IsWord(c)
    ensures Words("\n" + a + " " + b + " " + c + "\n") == [a, b, c]
  {
    Join3(a, b, c);
    Assoc("\n", a + " " + b + " ", c);
    Assoc("\n", a + " " + b, " ");
    Assoc("\n", a + " ", b);
    Assoc("\n", a, " ");
    assert "\n" + Join([a, b, c], " ") == "\n" + a + " " + b + " " + c;
    WordsOfLine([a, b, c]);
  }

  /** A line of four words, as the shell splits it. */
  lemma WordsOfFourLine(a: string, b: string, c: string, d: string)
    requires IsWord(a) && IsWord(b) && IsWord(c) && IsWord(d)
    ensures Words("\n" + a + " " + b + " " + c + " " + d + "\n") == [a, b, c, d]
  {
    Join4(a, b, c, d);
    Assoc("\n", a + " " + b + " " + c + " ", d);
    Assoc("\n", a + " " + b + " " + c, " ");
    Assoc("\n", a + " " + b + " ", c);
    Assoc("\n", a + " " + b, " ");
    Assoc("\n", a + " ", b);
    Assoc("\n", a, " ");
    assert "\n" + Join([a, b, c, d], " ") == "\n" + a + " " + b + " " + c + " " + d;
    WordsOfLine([a, b, c, d]);
  }

  /**
   * As written, the shell sees the quoted measure and the results file as one
   * word, so the concatenation script receives two arguments after the
   * command name instead of three.
   */
  lemma ConcatCallAsWrittenMerges(measure: string)
    requires IsWord(measure)
    ensures Words(ConcatCallAsWritten(measure)) ==
      [ConcatScript, OutDir, Quoted(measure) + ResultsFile(measure)]
  {
    ConcatWordsFacts(measure);
    CallLiteralWords();
    assert ConcatCallAsWritten(measure) ==
      "\n" + ConcatScript + " " + OutDir + " " + (Quoted(measure) + ResultsFile(measure)) + "\n";
    WordsOfThreeLine(ConcatScript, OutDir, Quoted(measure) + ResultsFile(measure));
  }

  /** The corrected call passes the output directory, the measure and the results file. */
  lemma ConcatCallArgs(measure: string)
    requires IsWord(measure)
    ensures Words(ConcatCall(measure)) ==
      [ConcatScript, OutDir, Quoted(measure), ResultsFile(measure)]
  {
    ConcatWordsFacts(measure);
    CallLiteralWords();
    WordsOfFourLine(ConcatScript, OutDir, Quoted(measure), ResultsFile(measure));
  }
}
