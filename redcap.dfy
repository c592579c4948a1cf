/**
 * bin/dm_redcap_scan_completed.py: which REDCap "Scan Completed" records are
 * taken, how a record's subject field becomes a datman session id, and what
 * each record asks of the dashboard. The HTTP requests, the token file and the
 * dashboard's session and REDCap calls are inputs.
 */
module Redcap {
  import opened Base
  import opened Text
  import opened ScanId

  /** One record of the flat JSON export: field name to value. */
  type Record = map<string, string>

  // ---------------------------------------------------------------------
  // The completed-instrument filter of `main`
  // ---------------------------------------------------------------------

  /** `REDCAP_STATUS_VALUE` as configured: one value or a list of them. */
  datatype StatusValue = One(value: string) | Many(values: seq<string>)

  /** `status_val` after `main` wraps a scalar into a one-element list. */
  function StatusList(sv: StatusValue): (l: seq<string>)
    ensures forall x :: x in l <==> (sv.One? && x == sv.value) || (sv.Many? && x in sv.values)
  {
    match sv
    case One(v) => [v]
    case Many(vs) => vs
  }

  /**
   * Reading a record for the filter raises `KeyError` when the date field is
   * missing, or when the date is set and the status field is missing (`and`
   * short-circuits past the status otherwise).
   */
  predicate FilterReads(dateField: string, statusField: string, item: Record) {
    dateField in item && (item[dateField] != "" ==> statusField in item)
  }

  /** A record whose date is set and whose status is one of the accepted values. */
  predicate Completed(dateField: string, statusField: string, statuses: seq<string>, item: Record)
    requires FilterReads(dateField, statusField, item)
  {
    item[dateField] != "" && item[statusField] in statuses
  }

  /** The records the filter keeps, in their order, when every record can be read. */
  function Kept(dateField: string, statusField: string, statuses: seq<string>, items: seq<Record>): seq<Record>
    requires forall k :: 0 <= k < |items| ==> FilterReads(dateField, statusField, items[k])
  {
    if items == [] then []
    else
      var n := |items| - 1;
      Kept(dateField, statusField, statuses, items[..n]) +
        (if Completed(dateField, statusField, statuses, items[n]) then [items[n]] else [])
  }

  /** The first record the filter cannot read, if any. */
  function FirstUnreadable(dateField: string, statusField: string, items: seq<Record>): (r: Option<nat>)
    ensures r.Some? ==> (r.value < |items| && !FilterReads(dateField, statusField, items[r.value]) &&
      forall k :: 0 <= k < r.value ==> FilterReads(dateField, statusField, items[k]))
    ensures r.None? <==> forall k :: 0 <= k < |items| ==> FilterReads(dateField, statusField, items[k])
  {
    if items == [] then None
    else if !FilterReads(dateField, statusField, items[0]) then Some(0)
    else match FirstUnreadable(dateField, statusField, items[1..])
      case None => None
      case Some(k) => Some(k + 1)
  }

  /**
   * The loop of `main` that builds `project_records`. A record it cannot read
   * ends the run with the `KeyError`, reported as the record's position.
   */
  method FilterRecords(items: seq<Record>, dateField: string, statusField: string, statusVal: StatusValue)
      returns (r: Result<seq<Record>, nat>)
    ensures r.Err? <==> FirstUnreadable(dateField, statusField, items).Some?
    ensures r.Err? ==> r.error == FirstUnreadable(dateField, statusField, items).value
    ensures r.Ok? ==> r.value == Kept(dateField, statusField, StatusList(statusVal), items)
  {
    var statuses := StatusList(statusVal);
    var kept: seq<Record> := [];
    for i := 0 to |items|
      invariant forall k :: 0 <= k < i ==> FilterReads(dateField, statusField, items[k])
      invariant kept == Kept(dateField, statusField, statuses, items[..i])
    {
      var item := items[i];
      if !FilterReads(dateField, statusField, item) {
        return Err(i);
      }
      assert items[..i + 1][..i] == items[..i];
      if !(item[dateField] != "" && item[statusField] in statuses) {
        continue;
      }
      kept := kept + [item];
    }
    assert items[..|items|] == items;
    return Ok(kept);
  }

  /** The filter splits over a concatenation: kept records stay in input order. */
  lemma {:induction false} KeptAppend(dateField: string, statusField: string, statuses: seq<string>, a: seq<Record>, b: seq<Record>)
    requires forall k :: 0 <= k < |a| ==> FilterReads(dateField, statusField, a[k])
    requires forall k :: 0 <= k < |b| ==> FilterReads(dateField, statusField, b[k])
    ensures forall k :: 0 <= k < |a + b| ==> FilterReads(dateField, statusField, (a + b)[k])
    ensures Kept(dateField, statusField, statuses, a + b) ==
      Kept(dateField, statusField, statuses, a) + Kept(dateField, statusField, statuses, b)
    decreases |b|
  {
    assert forall k :: 0 <= k < |a + b| ==> FilterReads(dateField, statusField, (a + b)[k]) by {
      forall k | 0 <= k < |a + b| ensures FilterReads(dateField, statusField, (a + b)[k]) {
        if k < |a| { assert (a + b)[k] == a[k]; } else { assert (a + b)[k] == b[k - |a|]; }
      }
    }
    if b != [] {
      var n := |b| - 1;
      KeptAppend(dateField, statusField, statuses, a, b[..n]);
      assert (a + b)[..|a + b| - 1] == a + b[..n];
      assert (a + b)[|a + b| - 1] == b[n];
    } else {
      assert a + b == a;
    }
  }

  /** A record is kept exactly when it is in the input and completed. */
  lemma {:induction false} KeptMembers(dateField: string, statusField: string, statuses: seq<string>, items: seq<Record>)
    requires forall k :: 0 <= k < |items| ==> FilterReads(dateField, statusField, items[k])
    ensures forall x :: x in Kept(dateField, statusField, statuses, items) <==>
      x in items && Completed(dateField, statusField, statuses, x)
    ensures |Kept(dateField, statusField, statuses, items)| <= |items|
    decreases |items|
  {
    if items != [] {
      var n := |items| - 1;
      var init := items[..n];
      KeptMembers(dateField, statusField, statuses, init);
      assert items == init + [items[n]];
      forall x ensures x in items <==> x in init || x == items[n] {
      }
    }
  }

  /**
   * With a single configured status, the wrap makes the test an equality; the
   * unwrapped `in` on a string would have been a substring test.
   */
  lemma CompletedWithOneStatus(dateField: string, statusField: string, v: string, item: Record)
    requires FilterReads(dateField, statusField, item)
    ensures Completed(dateField, statusField, StatusList(One(v)), item) <==>
      item[dateField] != "" && item[statusField] == v
  {
  }

  // ---------------------------------------------------------------------
  // `add_session_redcap`
  // ---------------------------------------------------------------------

  /** The configuration keys `main` passes down, and the REDCap event map. */
  datatype Fields = Fields(subject: string, date: string, comments: string, eventKey: map<string, int>)

  /** The project-level arguments of `session.add_redcap`. */
  datatype Project = Project(project: string, url: string, instrument: string, version: string)

  /** The arguments of one `session.add_redcap` call. */
  datatype RedcapEntry = RedcapEntry(recordId: string, project: Project, date: string, comment: string, eventId: int)

  /** What handling one record amounts to. */
  datatype Outcome =
    | Crash(key: string)                     // a `KeyError` outside any `try`: the run stops
    | InvalidSession(subjectId: string)      // the id does not parse: skipped, no dashboard call
    | SessionFailed(ident: Ident)            // `get_session` raised `DashboardException`
    | RedcapFailed(ident: Ident)             // a lookup or `add_redcap` raised; swallowed
    | Added(ident: Ident, entry: RedcapEntry)

  /**
   * The session id tried for a subject field: upper-cased, with `_01` appended
   * when the upper-cased value is not already a scan id.
   */
  function SubjectId(naming: Naming, raw: string): (id: string)
    ensures |id| >= |raw| && id[..|raw|] == Upper(raw)
    ensures id == Upper(raw) <==> naming.isScanId(Upper(raw))
    ensures id != Upper(raw) ==> id[|raw|..] == "_01"
  {
    var upper := Upper(raw);
    if naming.isScanId(upper) then upper else upper + "_01"
  }

  /** `Upper` is idempotent. */
  lemma {:induction false} UpperIdempotent(s: string)
    ensures Upper(Upper(s)) == Upper(s)
  {
    assert forall i :: 0 <= i < |s| ==> UpperChar(UpperChar(s[i])) == UpperChar(s[i]);
  }

  /** A subject field already normalised to a scan id is left as it is. */
  lemma SubjectIdStable(naming: Naming, raw: string)
    requires naming.isScanId(Upper(raw))
    ensures SubjectId(naming, SubjectId(naming, raw)) == SubjectId(naming, raw)
  {
    UpperIdempotent(raw);
  }

  /** The session id holds no lower-case letter. */
  lemma SubjectIdUpperCase(naming: Naming, raw: string)
    ensures forall i :: 0 <= i < |SubjectId(naming, raw)| ==> !('a' <= SubjectId(naming, raw)[i] <= 'z')
  {
    var id := SubjectId(naming, raw);
    forall i | 0 <= i < |id| ensures !('a' <= id[i] <= 'z') {
      if i < |raw| {
        assert id[i] == id[..|raw|][i] == UpperChar(raw[i]);
      } else {
        assert id[|raw|..] == "_01";
        assert id[i] == id[|raw|..][i - |raw|];
      }
    }
  }

  /**
   * `add_session_redcap(record, ...)`. `getSession(ident, date)` is whether
   * `dashboard.get_session(ident, date=date, create=True)` returned a session;
   * `addRedcap(ident, entry)` is whether `session.add_redcap` returned normally.
   */
  function HandleRecord(naming: Naming, fields: Fields, project: Project,
                        getSession: (Ident, string) -> bool, addRedcap: (Ident, RedcapEntry) -> bool,
                        record: Record): (o: Outcome)
    ensures o.Crash? <==> ("record_id" !in record || fields.subject !in record ||
      (naming.parse(SubjectId(naming, record[fields.subject])).Some? && fields.date !in record))
    ensures o.InvalidSession? <==> ("record_id" in record && fields.subject in record &&
      naming.parse(SubjectId(naming, record[fields.subject])).None?)
    ensures o.InvalidSession? ==> o.subjectId == SubjectId(naming, record[fields.subject])
    ensures (o.SessionFailed? || o.RedcapFailed? || o.Added?) ==>
      fields.subject in record && fields.date in record &&
      naming.parse(SubjectId(naming, record[fields.subject])) == Some(o.ident)
    ensures o.SessionFailed? <==> !o.Crash? && !o.InvalidSession? && !getSession(o.ident, record[fields.date])
    ensures o.Added? ==>
      o.entry.recordId == record["record_id"] && o.entry.project == project &&
      o.entry.date == record[fields.date] &&
      fields.comments in record && o.entry.comment == record[fields.comments] &&
      "redcap_event_name" in record && record["redcap_event_name"] in fields.eventKey &&
      o.entry.eventId == fields.eventKey[record["redcap_event_name"]] &&
      getSession(o.ident, o.entry.date) && addRedcap(o.ident, o.entry)
    ensures o.RedcapFailed? ==> getSession(o.ident, record[fields.date])
  {
    if "record_id" !in record then Crash("record_id")
    else if fields.subject !in record then Crash(fields.subject)
    else
      var subjectId := SubjectId(naming, record[fields.subject]);
      match naming.parse(subjectId)
      case None => InvalidSession(subjectId)
      case Some(ident) =>
        if fields.date !in record then Crash(fields.date)
        else
          var date := record[fields.date];
          if !getSession(ident, date) then SessionFailed(ident)
          else if fields.comments !in record || "redcap_event_name" !in record ||
                  record["redcap_event_name"] !in fields.eventKey then RedcapFailed(ident)
          else
            var entry := RedcapEntry(record["record_id"], project, date, record[fields.comments],
                                     fields.eventKey[record["redcap_event_name"]]);
            if addRedcap(ident, entry) then Added(ident, entry) else RedcapFailed(ident)
  }

  // ---------------------------------------------------------------------
  // The record loop of `main`
  // ---------------------------------------------------------------------

  /** The outcomes of the kept records, in order, up to and including the first crash. */
  function Outcomes(naming: Naming, fields: Fields, project: Project,
                    getSession: (Ident, string) -> bool, addRedcap: (Ident, RedcapEntry) -> bool,
                    records: seq<Record>): seq<Outcome>
  {
    if records == [] then []
    else
      var o := HandleRecord(naming, fields, project, getSession, addRedcap, records[0]);
      [o] + (if o.Crash? then [] else Outcomes(naming, fields, project, getSession, addRedcap, records[1..]))
  }

  /**
   * Every record is handled once, in order, and handling stops exactly at the
   * first record that crashes.
   */
  lemma {:induction false} OutcomesInOrder(naming: Naming, fields: Fields, project: Project,
                                           getSession: (Ident, string) -> bool, addRedcap: (Ident, RedcapEntry) -> bool,
                                           records: seq<Record>)
    ensures var os := Outcomes(naming, fields, project, getSession, addRedcap, records);
      |os| <= |records| &&
      (forall i :: 0 <= i < |os| ==> os[i] == HandleRecord(naming, fields, project, getSession, addRedcap, records[i])) &&
      (forall i :: 0 <= i < |os| - 1 ==> !os[i].Crash?) &&
      (|os| < |records| ==> os != [] && os[|os| - 1].Crash?)
    decreases |records|
  {
    if records != [] {
      var tail := records[1..];
      OutcomesInOrder(naming, fields, project, getSession, addRedcap, tail);
      var os := Outcomes(naming, fields, project, getSession, addRedcap, records);
      forall i | 1 <= i < |os| ensures os[i] == HandleRecord(naming, fields, project, getSession, addRedcap, records[i]) {
        assert records[i] == tail[i - 1];
      }
    }
  }

  /**
   * The loop `for record in project_records: add_session_redcap(...)`: the
   * outcomes so far; a crash ends it.
   */
  method HandleRecords(naming: Naming, fields: Fields, project: Project,
                       getSession: (Ident, string) -> bool, addRedcap: (Ident, RedcapEntry) -> bool,
                       records: seq<Record>)
      returns (outcomes: seq<Outcome>)
    ensures outcomes == Outcomes(naming, fields, project, getSession, addRedcap, records)
  {
    outcomes := [];
    var i := 0;
    while i < |records|
      invariant 0 <= i <= |records|
      invariant outcomes + Outcomes(naming, fields, project, getSession, addRedcap, records[i..]) ==
        Outcomes(naming, fields, project, getSession, addRedcap, records)
    {
      var o := HandleRecord(naming, fields, project, getSession, addRedcap, records[i]);
      assert records[i..][1..] == records[i + 1..];
      outcomes := outcomes + [o];
      if o.Crash? {
        return;
      }
      i := i + 1;
    }
  }

  /** `api_url.replace('/api/', '/')`: the project URL recorded with each entry. */
  function RedcapUrl(apiUrl: string): (url: string)
    ensures !Contains(apiUrl, "/api/") ==> url == apiUrl
  {
    ReplaceAbsentUrl(apiUrl);
    Replace(apiUrl, "/api/", "/")
  }

  lemma ReplaceAbsentUrl(apiUrl: string)
    ensures !Contains(apiUrl, "/api/") ==> Replace(apiUrl, "/api/", "/") == apiUrl
  {
    if !Contains(apiUrl, "/api/") {
      ReplaceAbsent(apiUrl, "/api/", "/");
    }
  }

  /** What a run of the script amounts to once the records have been fetched. */
  datatype Run = FilterCrash(position: nat) | Handled(outcomes: seq<Outcome>)

  /** `main` after the two HTTP requests: filter, then handle each kept record. */
  method RunScript(naming: Naming, fields: Fields, statusField: string, statusVal: StatusValue,
              projectId: string, apiUrl: string, instrument: string, version: string,
              getSession: (Ident, string) -> bool, addRedcap: (Ident, RedcapEntry) -> bool,
              response: seq<Record>)
      returns (run: Run)
    ensures run.FilterCrash? <==> FirstUnreadable(fields.date, statusField, response).Some?
    ensures run.FilterCrash? ==> FirstUnreadable(fields.date, statusField, response) == Some(run.position)
    ensures run.Handled? ==> (run.outcomes ==
      Outcomes(naming, fields, Project(projectId, RedcapUrl(apiUrl), instrument, version), getSession, addRedcap,
               Kept(fields.date, statusField, StatusList(statusVal), response)))
  {
    var project := Project(projectId, RedcapUrl(apiUrl), instrument, version);
    var kept := FilterRecords(response, fields.date, statusField, statusVal);
    if kept.Err? {
      return FilterCrash(kept.error);
    }
    var outcomes := HandleRecords(naming, fields, project, getSession, addRedcap, kept.value);
    return Handled(outcomes);
  }
}
