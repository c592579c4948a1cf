/**
 * The study-level readers of datman/utils.py built on the two metadata files:
 * `get_subject_metadata`, which pairs every QC'd subject with its blacklisted
 * scans, and `validate_subject_id`, which checks an id against the study's
 * configured study codes and sites.
 */
module Subjects {
  import opened Base
  import opened ScanId
  import opened Metadata
  import Checklist
  import Blacklist

  // ---------------------------------------------------------------------
  // `get_subject_metadata`
  // ---------------------------------------------------------------------

  /** The scan file `e` belongs to the subject-with-timepoint `s`. */
  predicate Belongs(naming: Naming, e: string, s: string) {
    naming.parseFilename(e).Some? && naming.parseFilename(e).value.ident.withTimepoint == s
  }

  /** No name appears twice in the list. */
  predicate NoDuplicates(l: seq<string>) {
    forall i, j :: 0 <= i < j < |l| ==> l[i] != l[j]
  }

  /** The list for `s` holds exactly the names of `scans` that belong to `s`, once each. */
  ghost predicate ListedFor(naming: Naming, qc: map<string, seq<string>>, scans: set<string>, s: string)
    requires s in qc
  {
    NoDuplicates(qc[s]) && forall e :: e in qc[s] <==> e in scans && Belongs(naming, e, s)
  }

  /** The subjects of the checklist dict that have a comment (the name of whoever signed off QC, or a note). */
  function Reviewed(checklist: map<string, string>): set<string> {
    set s | s in checklist && checklist[s] != ""
  }

  /**
   * The loop of `get_subject_metadata` over the blacklist dict: each entry
   * that parses is appended to its subject's list when that subject is a key;
   * malformed and orphan entries are dropped.
   */
  method CollectBlacklisted(naming: Naming, checklist: map<string, string>, blacklist: map<string, string>)
      returns (qc: map<string, seq<string>>)
    ensures qc.Keys == Reviewed(checklist)
    ensures forall s :: s in qc ==> ListedFor(naming, qc, blacklist.Keys, s)
  {
    qc := map s | s in Reviewed(checklist) :: [];
    var rest := blacklist.Keys;
    var done: set<string> := {};
    while rest != {}
      invariant done + rest == blacklist.Keys && done !! rest
      invariant qc.Keys == Reviewed(checklist)
      invariant forall s :: s in qc ==> ListedFor(naming, qc, done, s)
      decreases rest
    {
      var e :| e in rest;
      var parsed := naming.parseFilename(e);
      if parsed.Some? {
        var subid := parsed.value.ident.withTimepoint;
        if subid in qc {
          AppendKeepsListed(naming, qc, done, subid, e);
          qc := qc[subid := qc[subid] + [e]];
        }
      }
      done := done + {e};
      rest := rest - {e};
    }
  }

  /** Appending a new name of the subject keeps every list exact for the names seen so far. */
  lemma AppendKeepsListed(naming: Naming, qc: map<string, seq<string>>, done: set<string>, subid: string, e: string)
    requires subid in qc && e !in done && Belongs(naming, e, subid)
    requires forall s :: s in qc ==> ListedFor(naming, qc, done, s)
    ensures forall s :: s in qc ==> ListedFor(naming, qc[subid := qc[subid] + [e]], done + {e}, s)
  {
    var qc' := qc[subid := qc[subid] + [e]];
    forall s | s in qc ensures ListedFor(naming, qc', done + {e}, s) {
      assert ListedFor(naming, qc, done, s);
      if s == subid {
        assert e !in qc[s];
        assert forall x :: x in qc'[s] <==> x in qc[s] || x == e;
      } else {
        assert !Belongs(naming, e, s);
      }
    }
  }

  /**
   * `utils.get_subject_metadata(config, study)` on the file backend. Without a
   * config or a study the files cannot be located; otherwise both files are
   * read in full (`checklistLines`, `blacklistLines`) and combined.
   */
  method GetSubjectMetadata(naming: Naming, hasConfig: bool, study: string,
                            checklistLines: seq<string>, blacklistLines: seq<string>)
      returns (r: Result<map<string, seq<string>>, MetaError>)
    ensures r.Err? <==> !hasConfig && study == ""
    ensures r.Err? ==> r.error == NoStudy
    ensures r.Ok? ==> r.value.Keys == Reviewed(Checklist.Entries(naming, checklistLines))
    ensures r.Ok? ==> forall s :: s in r.value ==>
      ListedFor(naming, r.value, Blacklist.ScanEntries(naming, blacklistLines, "").Keys, s)
  {
    if !hasConfig && study == "" {
      return Err(NoStudy);
    }
    var checklist := Checklist.ParseChecklist(naming, checklistLines, "");
    var blacklist := Blacklist.ParseBlacklist(naming, blacklistLines, "", "");
    var qc := CollectBlacklisted(naming, checklist.entries, blacklist.entries);
    return Ok(qc);
  }

  /**
   * Every well-formed blacklist entry of a reviewed subject is listed under that
   * subject and no other; entries that are malformed or whose subject has no
   * comment are listed nowhere.
   */
  lemma ListedExactlyOnce(naming: Naming, qc: map<string, seq<string>>, scans: set<string>, e: string, s: string)
    requires forall t :: t in qc ==> ListedFor(naming, qc, scans, t)
    requires s in qc
    ensures e in qc[s] <==> e in scans && Belongs(naming, e, s)
    ensures e in qc[s] ==> forall t :: t in qc && t != s ==> e !in qc[t]
  {
    assert ListedFor(naming, qc, scans, s);
    if e in qc[s] {
      forall t | t in qc && t != s ensures e !in qc[t] {
        assert ListedFor(naming, qc, scans, t);
      }
    }
  }

  // ---------------------------------------------------------------------
  // `validate_subject_id`
  // ---------------------------------------------------------------------

  /** The three `RuntimeError`s of `validate_subject_id`. */
  datatype IdError =
    | NotConvention(id: string)                           // "does not match datman convention"
    | UnknownStudy(id: string, study: string)             // "has undefined study code"
    | UnknownSite(id: string, site: string, study: string) // "has undefined site ... for study"

  /**
   * `utils.validate_subject_id(subject_id, config)`; `studyTags` is
   * `config.get_study_tags()`, a study code's list of sites.
   */
  function ValidateSubjectId(naming: Naming, subjectId: string, studyTags: map<string, seq<string>>): (r: Result<Ident, IdError>)
    ensures r.Ok? <==> (naming.parse(subjectId).Some? &&
      naming.parse(subjectId).value.study in studyTags &&
      naming.parse(subjectId).value.site in studyTags[naming.parse(subjectId).value.study])
    ensures r.Ok? ==> r.value == naming.parse(subjectId).value
    ensures r.Err? ==> r.error.id == subjectId
    ensures (r.Err? && r.error.NotConvention?) <==> naming.parse(subjectId).None?
    ensures (r.Err? && r.error.UnknownStudy?) <==>
      (naming.parse(subjectId).Some? && naming.parse(subjectId).value.study !in studyTags)
    ensures r.Err? && !r.error.NotConvention? ==>
      r.error.study == naming.parse(subjectId).value.study
  {
    match naming.parse(subjectId)
    case None => Err(NotConvention(subjectId))
    case Some(ident) =>
      if ident.study !in studyTags then Err(UnknownStudy(subjectId, ident.study))
      else if ident.site !in studyTags[ident.study] then Err(UnknownSite(subjectId, ident.site, ident.study))
      else Ok(ident)
  }
}
