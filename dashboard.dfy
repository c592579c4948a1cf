/**
 * The find-or-create rules of datman/dashboard.py over the dashboard's
 * Session, Scan and Session_Scan tables. The tables are maps from row id to
 * row held by a `Dashboard` object; every `db.session.commit()` takes its
 * outcome from the `commits` input stream, and a failed commit leaves the
 * tables as they were before the call's pending changes.
 */
module Dashboard {
  import opened Base
  import opened ScanId

  // ---------------------------------------------------------------------
  // Rows and errors
  // ---------------------------------------------------------------------

  /** A calendar date, as `'%Y-%m-%d'` shows it. */
  datatype Day = Day(year: int, month: int, day: int)

  /** The `date` argument of `get_add_session`: none, text `strptime` rejects, or a date. */
  datatype DateArg = NoDate | Malformed(text: string) | OnDay(day: Day)

  datatype Session = Session(
    name: string,          // subject id with timepoint, no session number
    study: string,         // nickname of the owning study
    site: string,
    date: Option<Day>,
    isRepeated: bool,
    repeatCount: int,
    isPhantom: bool,
    clComment: string)     // checklist comment

  datatype Scan = Scan(
    name: string,              // `<ident>_<tag>_<series>`
    seriesNumber: string,
    scantype: string,          // name of the ScanType row
    description: string,
    repeatNumber: Option<int>,
    blComment: string)         // blacklist comment

  /** A Session_Scan row. */
  datatype Link = Link(sessionId: nat, scanId: nat, isPrimary: bool, scanName: string)

  /** The study row the dashboard object is bound to. */
  datatype Study = Study(nickname: string, sites: seq<string>, scantypes: set<string>)

  datatype DashError =
    | InvalidSessionName(session: string)
    | InvalidSite(site: string)
    | InvalidDate(text: string)
    | Unbound                     // the UnboundLocalError of a name the code never assigned
    | InvalidScanName(scan: string)
    | ScanNotUnique(scan: string)
    | NoSession                   // `get_add_session` returned None where a session is used
    | InvalidScantype(tag: string)
    | DbError                     // a failed commit, or the DashboardException `get_add_scan` raises
    | NoRepeat                    // `int(ident.session)` of a non-phantom without a session number
    | DanglingLink                // a primary link whose scan row is gone

  // ---------------------------------------------------------------------
  // Pure rules
  // ---------------------------------------------------------------------

  /** Whether the next commit succeeds; an exhausted stream means it does. */
  function CommitOk(commits: seq<bool>): bool {
    commits == [] || commits[0]
  }

  function CommitsAfter(commits: seq<bool>): seq<bool> {
    if commits == [] then [] else commits[1..]
  }

  /** `later` is what remains of the stream `earlier` after some commits. */
  ghost predicate IsSuffix(later: seq<bool>, earlier: seq<bool>) {
    |later| <= |earlier| && later == earlier[|earlier| - |later|..]
  }

  /** Taking one more outcome keeps a suffix of the stream. */
  lemma SuffixAfter(later: seq<bool>, earlier: seq<bool>)
    requires IsSuffix(later, earlier)
    ensures IsSuffix(CommitsAfter(later), earlier)
  {
    if later != [] {
      assert CommitsAfter(later) == earlier[|earlier| - |later| + 1..];
    }
  }

  /** The sessions of the study called `name`. */
  function SessionMatches(sessions: map<nat, Session>, study: string, name: string): set<nat> {
    set k | k in sessions && sessions[k].study == study && sessions[k].name == name
  }

  /**
   * The comment a stored row keeps after a check: a non-empty new comment
   * replaces the stored one; an empty one never clears it.
   */
  function SyncComment(found: string, stored: string): (r: string)
    ensures found != "" ==> r == found
    ensures found == "" ==> r == stored
  {
    if found != "" && found != stored then found else stored
  }

  /** The row `get_add_session` creates. */
  function NewSession(name: string, study: string, site: string, date: DateArg, phantom: bool): Session {
    Session(name, study, site, if date.OnDay? then Some(date.day) else None, false, 1, phantom, "")
  }

  /** An existing session after a call: a given date is stored, the checklist comment synced. */
  function Refreshed(row: Session, date: DateArg, comment: string): (r: Session)
    ensures date.OnDay? ==> r.date == Some(date.day)
    ensures !date.OnDay? ==> r.date == row.date
    ensures r.clComment == SyncComment(comment, row.clComment)
    ensures r.(date := row.date, clComment := row.clComment) == row
  {
    var dated := if date.OnDay? && row.date != Some(date.day) then row.(date := Some(date.day)) else row;
    if comment != "" && comment != dated.clComment then dated.(clComment := comment) else dated
  }

  lemma SingletonIs(s: set<nat>, x: nat)
    requires |s| == 1 && x in s
    ensures s == {x}
  {
    assert |s - {x}| == 0;
  }

  /** `'{}_{}_{}'.format(str(ident), tag, series)`: the name a scan row is stored under. */
  function ScanKey(f: ScanFile): string {
    f.ident.full + "_" + f.tag + "_" + f.series
  }

  /**
   * The rows of the join in `get_add_scan`: links of a session `session` of
   * the study whose scan is named `key` and, when the file name carries a
   * session number, has that repeat number.
   */
  function ScanMatches(sessions: map<nat, Session>, scans: map<nat, Scan>, links: map<nat, Link>,
                       study: string, session: string, key: string, repeat: Option<int>): set<nat> {
    set l | l in links && links[l].sessionId in sessions && links[l].scanId in scans &&
      sessions[links[l].sessionId].study == study && sessions[links[l].sessionId].name == session &&
      scans[links[l].scanId].name == key && (repeat.Some? ==> scans[links[l].scanId].repeatNumber == repeat)
  }

  /** The scan rows the links `ls` point at. */
  function ScansOf(links: map<nat, Link>, ls: set<nat>): set<nat>
    requires ls <= links.Keys
  {
    set l | l in ls :: links[l].scanId
  }

  /** `after` is `before` with one row written, and that row is the session `name` of `study`. */
  ghost predicate WroteSession(before: map<nat, Session>, after: map<nat, Session>, study: string, name: string) {
    exists k :: k in after && after[k].study == study && after[k].name == name && after == before[k := after[k]]
  }

  /** Only blacklist comments differ between the two scan tables. */
  ghost predicate CommentsOnly(before: map<nat, Scan>, after: map<nat, Scan>) {
    after.Keys == before.Keys && forall k :: k in after ==> after[k] == before[k].(blComment := after[k].blComment)
  }

  lemma SuffixTrans(a: seq<bool>, b: seq<bool>, c: seq<bool>)
    requires IsSuffix(a, b) && IsSuffix(b, c)
    ensures IsSuffix(a, c)
  {
    assert b[|b| - |a|..] == c[|c| - |a|..];
  }

  /** Without a date, a refresh only syncs the checklist comment. */
  lemma RefreshedNoDate(row: Session, comment: string)
    ensures Refreshed(row, NoDate, comment) == row.(clComment := SyncComment(comment, row.clComment))
  {
  }

  /** Only checklist comments differ between the two session tables. */
  ghost predicate SessionCommentsOnly(before: map<nat, Session>, after: map<nat, Session>) {
    after.Keys == before.Keys && forall k :: k in after ==> after[k] == before[k].(clComment := after[k].clComment)
  }

  lemma CommentsOnlyTrans(a: map<nat, Scan>, b: map<nat, Scan>, c: map<nat, Scan>)
    requires CommentsOnly(a, b) && CommentsOnly(b, c)
    ensures CommentsOnly(a, c)
  {
    forall k | k in c ensures c[k] == a[k].(blComment := c[k].blComment) {
      assert b[k] == a[k].(blComment := b[k].blComment);
    }
  }

  /**
   * `is_linked(link)`: a link that is not primary, or whose scan is a spiral
   * (scantype `SPRL`), is a link rather than a source scan of its session.
   */
  predicate IsLinked(link: Link, scans: map<nat, Scan>)
    requires link.isPrimary ==> link.scanId in scans
  {
    !link.isPrimary || scans[link.scanId].scantype == "SPRL"
  }

  /** The primary links of the session whose scan row is missing: `is_linked` fails on them. */
  function DanglingLinks(scans: map<nat, Scan>, links: map<nat, Link>, sid: nat): set<nat> {
    set l | l in links && links[l].sessionId == sid && links[l].isPrimary && links[l].scanId !in scans
  }

  /**
   * Lines 276-279 of `delete_extra_scans`: the session's links that are not
   * linked (`is_linked` false) and whose scan has the repeat number.
   */
  function SourceLinks(scans: map<nat, Scan>, links: map<nat, Link>, sid: nat, repeat: Option<int>): (r: set<nat>)
    ensures forall l :: l in r ==> l in links && links[l].scanId in scans
  {
    set l | l in links && links[l].sessionId == sid && links[l].scanId in scans &&
      !IsLinked(links[l], scans) && scans[links[l].scanId].repeatNumber == repeat
  }

  /**
   * What `is_linked` means for the selection: a link is a source of its
   * session exactly when it is primary and its scan exists, is not a spiral
   * and has the repeat number. Secondary links and spirals are never sources,
   * so `delete_extra_scans` never deletes them.
   */
  lemma SourceLinksExact(scans: map<nat, Scan>, links: map<nat, Link>, sid: nat, repeat: Option<int>, l: nat)
    ensures l in SourceLinks(scans, links, sid, repeat) <==>
      l in links && links[l].sessionId == sid && links[l].isPrimary && links[l].scanId in scans &&
      scans[links[l].scanId].scantype != "SPRL" && scans[links[l].scanId].repeatNumber == repeat
  {
  }

  /** `db_scans`: the names of the session's source scans with the repeat number. */
  function SourceNames(scans: map<nat, Scan>, links: map<nat, Link>, sid: nat, repeat: Option<int>): set<string> {
    set l | l in SourceLinks(scans, links, sid, repeat) :: scans[links[l].scanId].name
  }

  /** `extra_scans = set(db_scans) - set(scan_names)`. */
  function ExtraScans(scans: map<nat, Scan>, links: map<nat, Link>, sid: nat, repeat: Option<int>,
                      resolved: seq<string>): (r: set<string>)
    ensures forall n :: n in r <==> (n !in resolved &&
      exists l :: l in SourceLinks(scans, links, sid, repeat) && scans[links[l].scanId].name == n)
  {
    SourceNames(scans, links, sid, repeat) - set n | n in resolved
  }

  /** The source links of the session whose scan is named in `names`: the rows deleted for them. */
  function DoomedLinks(scans: map<nat, Scan>, links: map<nat, Link>, sid: nat, repeat: Option<int>,
                       names: set<string>): (r: set<nat>)
    ensures r <= SourceLinks(scans, links, sid, repeat)
  {
    set l | l in SourceLinks(scans, links, sid, repeat) && scans[links[l].scanId].name in names
  }

  /** A comment change leaves the session's source scans as they were. */
  lemma SourceLinksIgnoreComments(a: map<nat, Scan>, b: map<nat, Scan>, links: map<nat, Link>,
                                  sid: nat, repeat: Option<int>, names: set<string>, resolved: seq<string>)
    requires CommentsOnly(a, b)
    ensures SourceLinks(a, links, sid, repeat) == SourceLinks(b, links, sid, repeat)
    ensures DoomedLinks(a, links, sid, repeat, names) == DoomedLinks(b, links, sid, repeat, names)
    ensures ExtraScans(a, links, sid, repeat, resolved) == ExtraScans(b, links, sid, repeat, resolved)
    ensures DanglingLinks(a, links, sid) == DanglingLinks(b, links, sid)
  {
  }

  /** The scan names the list `names` can resolve to. */
  function ScanKeys(naming: Naming, names: seq<string>): set<string> {
    set i | 0 <= i < |names| && naming.parseFilename(names[i]).Some? :: ScanKey(naming.parseFilename(names[i]).value)
  }

  /** What `delete_extra_scans` found: the session, the names the list resolved to, the names deleted. */
  datatype Pruned = Pruned(session: nat, resolved: seq<string>, extra: set<string>)

  /** The repeat number `delete_extra_scans` keeps: None for a phantom, else the session number. */
  function Repeat(naming: Naming, session: string, ident: Ident): Option<Option<int>> {
    if naming.isPhantom(session) then Some(None)
    else if ident.session.None? then None    // `int(ident.session)` fails
    else Some(ident.session)
  }

  /** Deleting for a larger set of names deletes the union of the links. */
  lemma DoomedLinksAdd(scans: map<nat, Scan>, links: map<nat, Link>, sid: nat, repeat: Option<int>,
                       done: set<string>, n: string)
    ensures DoomedLinks(scans, links, sid, repeat, done + {n}) ==
      DoomedLinks(scans, links, sid, repeat, done) + DoomedLinks(scans, links, sid, repeat, {n})
  {
  }

  /** Removing the rows `a` and then `b` removes the rows `a + b`. */
  lemma RemoveTwice<V>(m: map<nat, V>, a: set<nat>, b: set<nat>)
    ensures m - a - b == m - (a + b)
  {
  }

  lemma CommentsOnlyRemove(a: map<nat, Scan>, b: map<nat, Scan>, gone: set<nat>)
    requires CommentsOnly(a, b)
    ensures CommentsOnly(a - gone, b - gone)
  {
  }

  /** Which scan rows a name matches does not depend on any comment. */
  lemma ScanMatchesIgnoreComments(s1: map<nat, Session>, s2: map<nat, Session>, a: map<nat, Scan>, b: map<nat, Scan>,
                                  links: map<nat, Link>, study: string, session: string, key: string, repeat: Option<int>)
    requires SessionCommentsOnly(s1, s2) && CommentsOnly(a, b)
    ensures ScanMatches(s1, a, links, study, session, key, repeat) == ScanMatches(s2, b, links, study, session, key, repeat)
  {
    forall l | l in links && links[l].sessionId in s1 && links[l].scanId in a
      ensures s1[links[l].sessionId].name == s2[links[l].sessionId].name &&
              s1[links[l].sessionId].study == s2[links[l].sessionId].study &&
              a[links[l].scanId].name == b[links[l].scanId].name &&
              a[links[l].scanId].repeatNumber == b[links[l].scanId].repeatNumber
    {
      assert s2[links[l].sessionId] == s1[links[l].sessionId].(clComment := s2[links[l].sessionId].clComment);
      assert b[links[l].scanId] == a[links[l].scanId].(blComment := b[links[l].scanId].blComment);
    }
  }

  /** The links between a session and a scan: the query of `get_add_session_scan_link`. */
  function LinksBetween(links: map<nat, Link>, sid: nat, scanId: nat): set<nat> {
    set l | l in links && links[l].sessionId == sid && links[l].scanId == scanId
  }

  // ---------------------------------------------------------------------
  // The dashboard object
  // ---------------------------------------------------------------------

  class Dashboard {
    const study: Study
    const naming: Naming
    /** The names in the ScanType table. */
    const scanTypes: set<string>
    /** `utils.check_checklist(session)`: the file's comment, or None where it raises ValueError. */
    const checkChecklist: string -> Option<string>
    /** `utils.check_blacklist(scan)`: the file's comment, or None where it raises ValueError. */
    const checkBlacklist: string -> Option<string>

    var sessions: map<nat, Session>
    var scans: map<nat, Scan>
    var links: map<nat, Link>
    /** The id the next new row receives. */
    var nextId: nat
    /** Outcomes of the coming commits, in order. */
    var commits: seq<bool>

    ghost predicate Valid()
      reads this
    {
      (forall k :: k in sessions ==> k < nextId) &&
      (forall k :: k in scans ==> k < nextId) &&
      (forall k :: k in links ==> k < nextId)
    }

    /** `dashboard(study)` once `set_study` has found the study row. */
    constructor(study: Study, naming: Naming, scanTypes: set<string>,
                checkChecklist: string -> Option<string>, checkBlacklist: string -> Option<string>,
                sessions: map<nat, Session>, scans: map<nat, Scan>, links: map<nat, Link>,
                nextId: nat, commits: seq<bool>)
      requires forall k :: k in sessions ==> k < nextId
      requires forall k :: k in scans ==> k < nextId
      requires forall k :: k in links ==> k < nextId
      ensures Valid()
      ensures this.study == study && this.naming == naming && this.scanTypes == scanTypes
      ensures this.checkChecklist == checkChecklist && this.checkBlacklist == checkBlacklist
      ensures this.sessions == sessions && this.scans == scans && this.links == links
      ensures this.nextId == nextId && this.commits == commits
    {
      this.study, this.naming, this.scanTypes := study, naming, scanTypes;
      this.checkChecklist, this.checkBlacklist := checkChecklist, checkBlacklist;
      this.sessions, this.scans, this.links := sessions, scans, links;
      this.nextId, this.commits := nextId, commits;
    }

    /** `db.session.commit()`: takes the next outcome. */
    method Commit() returns (ok: bool)
      modifies this`commits
      ensures ok == CommitOk(old(commits))
      ensures commits == CommitsAfter(old(commits))
    {
      ok := CommitOk(commits);
      commits := CommitsAfter(commits);
    }

    /** The arguments of `get_add_session` pass its three checks. */
    predicate SessionArgsOk(name: string, date: DateArg)
      reads this
    {
      naming.parse(name).Some? && naming.parse(name).value.site in study.sites && !date.Malformed?
    }

    /**
     * What `get_add_session(name, date, create)` answers on the current
     * tables: the first check that fails; None when nothing matches and
     * `create` is false; with several matches, None after a failed commit when
     * the checklist comment is empty, else the unbound-name error; otherwise
     * the unbound-name error when the checklist check raises, None when the
     * commit fails, and else the row found or the next id.
     */
    ghost function SessionOutcome(name: string, date: DateArg, create: bool): Result<Option<nat>, DashError>
      reads this
    {
      var parsed := naming.parse(name);
      var m := SessionMatches(sessions, study.nickname, name);
      var comment := checkChecklist(name);
      if parsed.None? then Err(InvalidSessionName(name))
      else if parsed.value.site !in study.sites then Err(InvalidSite(parsed.value.site))
      else if date.Malformed? then Err(InvalidDate(date.text))
      else if |m| == 0 && !create then Ok(None)
      else if |m| > 1 then (if comment == Some("") && !CommitOk(commits) then Ok(None) else Err(Unbound))
      else if comment.None? then Err(Unbound)
      else if !CommitOk(commits) then Ok(None)
      else if |m| == 0 then Ok(Some(nextId))
      else assert m != {}; var k :| k in m; Ok(Some(k))
    }

    /**
     * The name `get_add_scan(name)` finds on the given tables, when it finds
     * one before its commit: the name parses, exactly one row matches, and
     * the blacklist check does not raise. Exactly these names draw a commit.
     */
    function ResolvedKey(sessions0: map<nat, Session>, scans0: map<nat, Scan>, links0: map<nat, Link>,
                         name: string): Option<string> {
      var parsed := naming.parseFilename(name);
      if parsed.None? then None
      else
        var f := parsed.value;
        var m := ScanMatches(sessions0, scans0, links0, study.nickname, f.ident.withTimepoint, ScanKey(f), f.ident.session);
        if |m| != 1 || checkBlacklist(name).None? then None else Some(ScanKey(f))
    }

    /**
     * One turn of the loop over `scanlist` in `delete_extra_scans`: the names
     * it keeps (its row's name, when the lookup returns a row) and the
     * commit stream left after it.
     */
    function ResolveOne(sessions0: map<nat, Session>, scans0: map<nat, Scan>, links0: map<nat, Link>,
                        name: string, cs: seq<bool>): (seq<string>, seq<bool>) {
      var k := ResolvedKey(sessions0, scans0, links0, name);
      if k.None? then ([], cs)
      else if CommitOk(cs) then ([k.value], CommitsAfter(cs))
      else ([], CommitsAfter(cs))
    }

    /** The whole loop: the names `scan_names` collects and the commit stream left. */
    function Resolution(sessions0: map<nat, Session>, scans0: map<nat, Scan>, links0: map<nat, Link>,
                        names: seq<string>, cs: seq<bool>): (seq<string>, seq<bool>)
      decreases |names|
    {
      if names == [] then ([], cs)
      else
        var one := ResolveOne(sessions0, scans0, links0, names[0], cs);
        var rest := Resolution(sessions0, scans0, links0, names[1..], one.1);
        (one.0 + rest.0, rest.1)
    }

    /**
     * What the loop collects: only names some list entry resolves to and,
     * while every commit succeeds, every such name.
     */
    lemma {:induction false} ResolutionKeeps(sessions0: map<nat, Session>, scans0: map<nat, Scan>, links0: map<nat, Link>,
                                             names: seq<string>, cs: seq<bool>)
      ensures forall n :: n in Resolution(sessions0, scans0, links0, names, cs).0 ==>
        exists i :: 0 <= i < |names| && ResolvedKey(sessions0, scans0, links0, names[i]) == Some(n)
      ensures false !in cs ==> forall i :: 0 <= i < |names| && ResolvedKey(sessions0, scans0, links0, names[i]).Some? ==>
        ResolvedKey(sessions0, scans0, links0, names[i]).value in Resolution(sessions0, scans0, links0, names, cs).0
      decreases |names|
    {
      if names != [] {
        var one := ResolveOne(sessions0, scans0, links0, names[0], cs);
        ResolutionKeeps(sessions0, scans0, links0, names[1..], one.1);
        var whole := Resolution(sessions0, scans0, links0, names, cs).0;
        forall n | n in whole
          ensures exists i :: 0 <= i < |names| && ResolvedKey(sessions0, scans0, links0, names[i]) == Some(n)
        {
          if n !in one.0 {
            var j :| 0 <= j < |names[1..]| && ResolvedKey(sessions0, scans0, links0, names[1..][j]) == Some(n);
            assert names[1..][j] == names[j + 1];
          }
        }
        if false !in cs {
          assert false !in one.1 by {
            if cs != [] {
              assert forall j :: 0 <= j < |cs[1..]| ==> cs[1..][j] == cs[j + 1];
            }
          }
          forall i | 0 <= i < |names| && ResolvedKey(sessions0, scans0, links0, names[i]).Some?
            ensures ResolvedKey(sessions0, scans0, links0, names[i]).value in whole
          {
            if i > 0 {
              assert names[1..][i - 1] == names[i];
            }
          }
        }
      }
    }

    /**
     * Bounds of the loop: at most one name per entry, each one a name the
     * list can resolve to, and only commits drawn from the stream.
     */
    lemma {:induction false} ResolutionBounds(sessions0: map<nat, Session>, scans0: map<nat, Scan>, links0: map<nat, Link>,
                                              names: seq<string>, cs: seq<bool>)
      ensures |Resolution(sessions0, scans0, links0, names, cs).0| <= |names|
      ensures forall n :: n in Resolution(sessions0, scans0, links0, names, cs).0 ==> n in ScanKeys(naming, names)
      ensures IsSuffix(Resolution(sessions0, scans0, links0, names, cs).1, cs)
      decreases |names|
    {
      ResolutionKeeps(sessions0, scans0, links0, names, cs);
      forall n | n in Resolution(sessions0, scans0, links0, names, cs).0 ensures n in ScanKeys(naming, names) {
        var i :| 0 <= i < |names| && ResolvedKey(sessions0, scans0, links0, names[i]) == Some(n);
      }
      assert cs[|cs| - |cs|..] == cs;
      if names != [] {
        var one := ResolveOne(sessions0, scans0, links0, names[0], cs);
        ResolutionBounds(sessions0, scans0, links0, names[1..], one.1);
        SuffixAfter(cs, cs);
        SuffixTrans(Resolution(sessions0, scans0, links0, names[1..], one.1).1, one.1, cs);
      }
    }

    /** The loop over `names[i..]` is one turn on `names[i]`, then the loop over the rest. */
    lemma ResolutionStep(sessions0: map<nat, Session>, scans0: map<nat, Scan>, links0: map<nat, Link>,
                         names: seq<string>, i: nat, cs: seq<bool>)
      requires i < |names|
      ensures var one := ResolveOne(sessions0, scans0, links0, names[i], cs);
        var rest := Resolution(sessions0, scans0, links0, names[i + 1..], one.1);
        Resolution(sessions0, scans0, links0, names[i..], cs) == (one.0 + rest.0, rest.1)
    {
      assert names[i..][0] == names[i] && names[i..][1..] == names[i + 1..];
    }

    /** Comment changes do not change what the loop collects. */
    lemma {:induction false} ResolutionIgnoresComments(s1: map<nat, Session>, s2: map<nat, Session>,
                                                       a: map<nat, Scan>, b: map<nat, Scan>, links0: map<nat, Link>,
                                                       names: seq<string>, cs: seq<bool>)
      requires SessionCommentsOnly(s1, s2) && CommentsOnly(a, b)
      ensures Resolution(s1, a, links0, names, cs) == Resolution(s2, b, links0, names, cs)
      decreases |names|
    {
      if names != [] {
        var parsed := naming.parseFilename(names[0]);
        if parsed.Some? {
          var f := parsed.value;
          ScanMatchesIgnoreComments(s1, s2, a, b, links0, study.nickname, f.ident.withTimepoint, ScanKey(f), f.ident.session);
        }
        ResolutionIgnoresComments(s1, s2, a, b, links0, names[1..], ResolveOne(s1, a, links0, names[0], cs).1);
      }
    }

    /**
     * "Deletes scans not in scanlist": while every commit succeeds, a listed
     * name that the lookup finds is never among the extra scans.
     */
    lemma ListedNotExtra(sessions0: map<nat, Session>, scans0: map<nat, Scan>, links0: map<nat, Link>,
                         names: seq<string>, cs: seq<bool>, i: nat,
                         scans: map<nat, Scan>, links: map<nat, Link>, sid: nat, repeat: Option<int>)
      requires false !in cs && i < |names| && ResolvedKey(sessions0, scans0, links0, names[i]).Some?
      ensures ResolvedKey(sessions0, scans0, links0, names[i]).value !in
        ExtraScans(scans, links, sid, repeat, Resolution(sessions0, scans0, links0, names, cs).0)
    {
      ResolutionKeeps(sessions0, scans0, links0, names, cs);
    }

    /**
     * The tail of `get_add_session` when several sessions match: the code
     * never assigned `dashboard_session`, so reading it fails, unless the
     * failed commit returns None first.
     */
    method Ambiguous(name: string) returns (r: Result<Option<nat>, DashError>)
      modifies this`commits
      ensures r == if checkChecklist(name) == Some("") && !CommitOk(old(commits)) then Ok(None) else Err(Unbound)
      ensures commits == if checkChecklist(name) == Some("") then CommitsAfter(old(commits)) else old(commits)
    {
      var comment := checkChecklist(name);
      if comment.None? || comment.value != "" {
        return Err(Unbound);   // `cl_comment` unassigned, or `dashboard_session.cl_comment` read
      }
      var ok := Commit();
      if !ok {
        return Ok(None);
      }
      return Err(Unbound);
    }

    /**
     * The tail of `get_add_session`: the checklist comment is synced into the
     * row, and the row is committed under `id` (a new row takes `nextId`).
     */
    method StoreSession(name: string, id: nat, row: Session) returns (r: Result<Option<nat>, DashError>)
      requires Valid() && (id in sessions || id == nextId)
      modifies this`sessions, this`nextId, this`commits
      ensures Valid()
      ensures r.Err? <==> checkChecklist(name).None?
      ensures r.Err? ==> r.error == Unbound && commits == old(commits)
      ensures r.Ok? ==> commits == CommitsAfter(old(commits)) && (r.value.Some? <==> CommitOk(old(commits)))
      ensures !(r.Ok? && r.value.Some?) ==> sessions == old(sessions) && nextId == old(nextId)
      ensures r.Ok? && r.value.Some? ==>
        r.value.value == id &&
        sessions == old(sessions)[id := row.(clComment := SyncComment(checkChecklist(name).value, row.clComment))] &&
        nextId == if id == old(nextId) then id + 1 else old(nextId)
    {
      var comment := checkChecklist(name);
      if comment.None? {
        return Err(Unbound);   // `cl_comment` was never assigned
      }
      var row := row;
      if comment.value != "" && comment.value != row.clComment {
        row := row.(clComment := comment.value);
      }
      var ok := Commit();
      if !ok {
        return Ok(None);
      }
      sessions := sessions[id := row];
      if id == nextId {
        nextId := nextId + 1;
      }
      return Ok(Some(id));
    }

    /**
     * `dashboard.get_add_session(session_name, date, create)`. Returns the id
     * of the session row, or None (not found and `create` false, or the
     * commit failed).
     */
    method GetAddSession(name: string, date: DateArg, create: bool) returns (r: Result<Option<nat>, DashError>)
      requires Valid()
      modifies this`sessions, this`nextId, this`commits
      ensures Valid()
      // the three checks, in order
      ensures naming.parse(name).None? ==> r == Err(InvalidSessionName(name))
      ensures naming.parse(name).Some? && naming.parse(name).value.site !in study.sites ==>
        r == Err(InvalidSite(naming.parse(name).value.site))
      ensures naming.parse(name).Some? && naming.parse(name).value.site in study.sites && date.Malformed? ==>
        r == Err(InvalidDate(date.text))
      ensures !SessionArgsOk(name, date) ==> commits == old(commits)
      // the outcome by how many sessions match
      ensures SessionArgsOk(name, date) && |SessionMatches(old(sessions), study.nickname, name)| == 0 && !create ==>
        r == Ok(None) && commits == old(commits)
      ensures SessionArgsOk(name, date) && |SessionMatches(old(sessions), study.nickname, name)| > 1 ==>
        r == if checkChecklist(name) == Some("") && !CommitOk(old(commits)) then Ok(None) else Err(Unbound)
      ensures (SessionArgsOk(name, date) &&
               (|SessionMatches(old(sessions), study.nickname, name)| == 1 ||
                (|SessionMatches(old(sessions), study.nickname, name)| == 0 && create))) ==>
        (r.Err? <==> checkChecklist(name).None?) && (r.Err? ==> r.error == Unbound) &&
        (r.Ok? ==> (r.value.Some? <==> CommitOk(old(commits))))
      ensures r == old(SessionOutcome(name, date, create))
      ensures commits == old(commits) || commits == CommitsAfter(old(commits))
      ensures (SessionArgsOk(name, date) && checkChecklist(name).Some? && CommitOk(old(commits)) &&
        (|SessionMatches(old(sessions), study.nickname, name)| == 1 ||
         (|SessionMatches(old(sessions), study.nickname, name)| == 0 && create))) ==>
        r.Ok? && r.value.Some?
      // the new state
      ensures r.Ok? && r.value.Some? ==>
        SessionArgsOk(name, date) && checkChecklist(name).Some? && CommitOk(old(commits))
      ensures r.Ok? && r.value.Some? ==>
        r.value.value in sessions && sessions[r.value.value].name == name &&
        sessions[r.value.value].study == study.nickname
      ensures !(r.Ok? && r.value.Some?) ==> sessions == old(sessions) && nextId == old(nextId)
      ensures r.Ok? && r.value.Some? && r.value.value in old(sessions) ==>
        SessionMatches(old(sessions), study.nickname, name) == {r.value.value} &&
        sessions == old(sessions)[r.value.value := Refreshed(old(sessions)[r.value.value], date, checkChecklist(name).value)] &&
        nextId == old(nextId)
      ensures r.Ok? && r.value.Some? && r.value.value !in old(sessions) ==>
        create && SessionMatches(old(sessions), study.nickname, name) == {} &&
        r.value.value == old(nextId) && nextId == old(nextId) + 1 &&
        sessions == old(sessions)[r.value.value := Refreshed(
          NewSession(name, study.nickname, naming.parse(name).value.site, date, naming.isPhantom(name)),
          NoDate, checkChecklist(name).value)]
      ensures r.Ok? && r.value.Some? ==> commits == CommitsAfter(old(commits))
    {
      var parsed := naming.parse(name);
      if parsed.None? {
        return Err(InvalidSessionName(name));
      }
      var ident := parsed.value;
      if ident.site !in study.sites {
        return Err(InvalidSite(ident.site));
      }
      if date.Malformed? {
        return Err(InvalidDate(date.text));
      }
      var matches := SessionMatches(sessions, study.nickname, name);
      var id: nat, row: Session;
      if |matches| == 1 {
        id :| id in matches;
        SingletonIs(matches, id);
        row := sessions[id];
        if date.OnDay? && row.date != Some(date.day) {
          row := row.(date := Some(date.day));
        }
      } else if |matches| == 0 {
        if !create {
          return Ok(None);
        }
        id := nextId;
        row := NewSession(name, study.nickname, ident.site, date, naming.isPhantom(name));
      } else {
        r := Ambiguous(name);
        return;
      }
      r := StoreSession(name, id, row);
    }

    /**
     * The creating branch of `get_add_scan` up to the flush: the session is
     * found or created (its own commit), the tag's scantype checked, and the
     * new Scan row and its primary link built.
     */
    method CreateScan(f: ScanFile) returns (r: Result<(Scan, Link), DashError>)
      requires Valid()
      modifies this`sessions, this`nextId, this`commits
      ensures Valid()
      ensures sessions == old(sessions) || WroteSession(old(sessions), sessions, study.nickname, f.ident.withTimepoint)
      ensures f.tag !in scanTypes || f.tag !in study.scantypes ==> r.Err?
      ensures r.Ok? ==>
        f.tag in scanTypes && f.tag in study.scantypes &&
        r.value.0 == Scan(ScanKey(f), f.series, f.tag, f.description, f.ident.session, "") &&
        r.value.1 == Link(r.value.1.sessionId, nextId, true, ScanKey(f)) &&
        r.value.1.sessionId in sessions &&
        sessions[r.value.1.sessionId].name == f.ident.withTimepoint &&
        sessions[r.value.1.sessionId].study == study.nickname
      // each outcome by its cause, in the source's order
      ensures var s := old(SessionOutcome(f.ident.withTimepoint, NoDate, true));
        var tagOk := f.tag in scanTypes && f.tag in study.scantypes;
        (s.Err? ==> r == Err(s.error)) &&
        (s.Ok? && !tagOk ==> r == Err(InvalidScantype(f.tag))) &&
        (s == Ok(None) && tagOk ==> r == Err(NoSession)) &&
        (s.Ok? && s.value.Some? && tagOk ==> r.Ok? && r.value.1.sessionId == s.value.value)
      ensures r.Ok? ==> commits == CommitsAfter(old(commits))
    {
      var session := GetAddSession(f.ident.withTimepoint, NoDate, true);
      if session.Ok? && session.value.Some? {
        var k := session.value.value;
        assert sessions == old(sessions)[k := sessions[k]];
      }
      if session.Err? {
        return Err(session.error);
      }
      if f.tag !in scanTypes || f.tag !in study.scantypes {
        return Err(InvalidScantype(f.tag));
      }
      if session.value.None? {
        return Err(NoSession);   // `dashboard_session.id` on None
      }
      var key := ScanKey(f);
      return Ok((Scan(key, f.series, f.tag, f.description, f.ident.session, ""),
                 Link(session.value.value, nextId, true, key)));
    }

    /**
     * The tail of `get_add_scan`: the blacklist comment is synced into the
     * row, and the row (with the new link, if any) is committed.
     */
    method StoreScan(scanName: string, id: nat, row: Scan, link: Option<Link>) returns (r: Result<Option<nat>, DashError>)
      requires Valid()
      requires link.Some? ==> id == nextId
      requires link.None? ==> id in scans
      modifies this`scans, this`links, this`nextId, this`commits
      ensures Valid()
      ensures r.Err? ==> r.error == DbError && scans == old(scans) && links == old(links) && nextId == old(nextId)
      ensures r.Ok? ==>
        r == Ok(Some(id)) && checkBlacklist(scanName).Some? && CommitOk(old(commits)) &&
        scans == old(scans)[id := row.(blComment := SyncComment(checkBlacklist(scanName).value, row.blComment))]
      ensures r.Ok? && link.None? ==> links == old(links) && nextId == old(nextId)
      ensures r.Ok? && link.Some? ==> links == old(links)[id + 1 := link.value] && nextId == id + 2
      ensures r.Ok? ==> commits == CommitsAfter(old(commits))
      ensures r.Ok? <==> checkBlacklist(scanName).Some? && CommitOk(old(commits))
      ensures commits == if checkBlacklist(scanName).Some? then CommitsAfter(old(commits)) else old(commits)
    {
      var comment := checkBlacklist(scanName);
      if comment.None? {
        return Err(DbError);   // `bl_comment` unassigned inside the try
      }
      var row := row;
      if comment.value != "" && comment.value != row.blComment {
        row := row.(blComment := comment.value);
      }
      var ok := Commit();
      if !ok {
        return Err(DbError);
      }
      scans := scans[id := row];
      if link.Some? {
        links := links[id + 1 := link.value];
        nextId := nextId + 2;
      }
      return Ok(Some(id));
    }

    /**
     * The creating branch of `get_add_scan` for the parsed name `f`: the row
     * and its primary link are built, then stored with the blacklist comment.
     * It never answers None.
     */
    method AddScan(scanName: string, f: ScanFile) returns (r: Result<Option<nat>, DashError>)
      requires Valid()
      modifies this`sessions, this`scans, this`links, this`nextId, this`commits
      ensures Valid()
      ensures r.Ok? ==> r.value.Some? && r.value.value !in old(scans)
      ensures var s := old(SessionOutcome(f.ident.withTimepoint, NoDate, true));
        var tagOk := f.tag in scanTypes && f.tag in study.scantypes;
        (s.Err? ==> r == Err(s.error)) &&
        (s.Ok? && !tagOk ==> r == Err(InvalidScantype(f.tag))) &&
        (s == Ok(None) && tagOk ==> r == Err(NoSession)) &&
        (s.Ok? && s.value.Some? && tagOk ==>
          (r.Ok? <==> checkBlacklist(scanName).Some? && CommitOk(CommitsAfter(old(commits)))))
      ensures sessions == old(sessions) || WroteSession(old(sessions), sessions, study.nickname, f.ident.withTimepoint)
      ensures r.Err? ==> scans == old(scans) && links == old(links)
      ensures r.Ok? ==>
        var id := r.value.value;
        checkBlacklist(scanName).Some? &&
        f.tag in scanTypes && f.tag in study.scantypes &&
        scans == old(scans)[id := Scan(ScanKey(f), f.series, f.tag, f.description, f.ident.session,
                                       SyncComment(checkBlacklist(scanName).value, ""))] &&
        id + 1 in links && nextId == id + 2 &&
        links == old(links)[id + 1 := Link(links[id + 1].sessionId, id, true, ScanKey(f))] &&
        links[id + 1].sessionId in sessions &&
        sessions[links[id + 1].sessionId].name == f.ident.withTimepoint &&
        sessions[links[id + 1].sessionId].study == study.nickname
    {
      var made := CreateScan(f);
      if made.Err? {
        return Err(made.error);
      }
      r := StoreScan(scanName, nextId, made.value.0, Some(made.value.1));
    }

    /**
     * `dashboard.get_add_scan(scan_name, create)`. Returns the id of the scan
     * row, or None when no row matches and `create` is false.
     */
    method GetAddScan(scanName: string, create: bool) returns (r: Result<Option<nat>, DashError>)
      requires Valid()
      modifies this`sessions, this`scans, this`links, this`nextId, this`commits
      ensures Valid()
      ensures naming.parseFilename(scanName).None? ==>
        r == Err(InvalidScanName(scanName)) && commits == old(commits)
      ensures naming.parseFilename(scanName).Some? ==>
        var f := naming.parseFilename(scanName).value;
        var m := ScanMatches(old(sessions), old(scans), old(links), study.nickname,
                             f.ident.withTimepoint, ScanKey(f), f.ident.session);
        (|m| > 1 ==> r == Err(ScanNotUnique(scanName)) && commits == old(commits)) &&
        (|m| == 0 && !create ==> r == Ok(None) && commits == old(commits)) &&
        (|m| == 1 ==> r.Err? || (r.value.Some? && ScansOf(old(links), m) == {r.value.value})) &&
        (|m| == 1 ==> (r.Ok? <==> checkBlacklist(scanName).Some? && CommitOk(old(commits)))) &&
        (|m| == 1 ==> (r.Err? ==> r.error == DbError)) &&
        (|m| == 1 ==> commits == if checkBlacklist(scanName).Some? then CommitsAfter(old(commits)) else old(commits)) &&
        (r.Ok? && r.value.Some? ==> r.value.value in scans && scans[r.value.value].name == ScanKey(f))
      // creating never answers None; each failure is tied to its cause
      ensures naming.parseFilename(scanName).Some? ==>
        var f := naming.parseFilename(scanName).value;
        var m := ScanMatches(old(sessions), old(scans), old(links), study.nickname,
                             f.ident.withTimepoint, ScanKey(f), f.ident.session);
        var s := old(SessionOutcome(f.ident.withTimepoint, NoDate, true));
        var tagOk := f.tag in scanTypes && f.tag in study.scantypes;
        |m| == 0 && create ==>
          !(r.Ok? && r.value.None?) &&
          (s.Err? ==> r == Err(s.error)) &&
          (s.Ok? && !tagOk ==> r == Err(InvalidScantype(f.tag))) &&
          (s == Ok(None) && tagOk ==> r == Err(NoSession)) &&
          (s.Ok? && s.value.Some? && tagOk ==>
            (r.Ok? <==> checkBlacklist(scanName).Some? && CommitOk(CommitsAfter(old(commits)))))
      ensures !create ==> commits == old(commits) || commits == CommitsAfter(old(commits))
      // nothing is written but the scan's comment, unless a scan is created
      ensures !create || naming.parseFilename(scanName).None? ==>
        sessions == old(sessions) && links == old(links) && nextId == old(nextId) && CommentsOnly(old(scans), scans)
      ensures sessions == old(sessions) ||
        (create && naming.parseFilename(scanName).Some? &&
         WroteSession(old(sessions), sessions, study.nickname, naming.parseFilename(scanName).value.ident.withTimepoint))
      ensures !(r.Ok? && r.value.Some?) ==> scans == old(scans) && links == old(links)
      // a found scan: only its blacklist comment is synced
      ensures r.Ok? && r.value.Some? && r.value.value in old(scans) ==>
        checkBlacklist(scanName).Some? &&
        scans == old(scans)[r.value.value := old(scans)[r.value.value].(blComment :=
          SyncComment(checkBlacklist(scanName).value, old(scans)[r.value.value].blComment))] &&
        links == old(links) && sessions == old(sessions) && nextId == old(nextId)
      // a created scan: a new row, and a primary link to it named as the scan
      ensures r.Ok? && r.value.Some? && r.value.value !in old(scans) ==>
        var f := naming.parseFilename(scanName).value;
        var id := r.value.value;
        create && checkBlacklist(scanName).Some? &&
        f.tag in scanTypes && f.tag in study.scantypes &&
        scans == old(scans)[id := Scan(ScanKey(f), f.series, f.tag, f.description, f.ident.session,
                                       SyncComment(checkBlacklist(scanName).value, ""))] &&
        id + 1 in links && nextId == id + 2 &&
        links == old(links)[id + 1 := Link(links[id + 1].sessionId, id, true, ScanKey(f))] &&
        links[id + 1].sessionId in sessions &&
        sessions[links[id + 1].sessionId].name == f.ident.withTimepoint &&
        sessions[links[id + 1].sessionId].study == study.nickname
      ensures r.Ok? && r.value.Some? ==> commits == CommitsAfter(old(commits)) || create
    {
      var parsed := naming.parseFilename(scanName);
      if parsed.None? {
        return Err(InvalidScanName(scanName));
      }
      var f := parsed.value;
      var matches := ScanMatches(sessions, scans, links, study.nickname, f.ident.withTimepoint, ScanKey(f), f.ident.session);
      if |matches| > 1 {
        return Err(ScanNotUnique(scanName));
      }
      if |matches| == 1 {
        var l :| l in matches;
        SingletonIs(matches, l);
        var id := links[l].scanId;
        r := StoreScan(scanName, id, scans[id], None);
        return;
      }
      if !create {
        return Ok(None);
      }
      r := AddScan(scanName, f);
    }

    /**
     * One turn of the loop of `delete_extra_scans` over `scanlist`:
     * `get_add_scan(name)` is tried, and the name of the row it returns is
     * kept; a name that raises or finds nothing is skipped. `scans0` is any
     * table that differs from the current one only in comments.
     */
    method LookupScan(ghost scans0: map<nat, Scan>, name: string) returns (found: seq<string>)
      requires Valid() && CommentsOnly(scans0, scans)
      modifies this`sessions, this`scans, this`links, this`nextId, this`commits
      ensures Valid()
      ensures found == ResolveOne(old(sessions), scans0, old(links), name, old(commits)).0
      ensures commits == ResolveOne(old(sessions), scans0, old(links), name, old(commits)).1
      ensures sessions == old(sessions) && links == old(links) && nextId == old(nextId)
      ensures CommentsOnly(old(scans), scans)
    {
      ghost var parsed := naming.parseFilename(name);
      if parsed.Some? {
        ScanMatchesIgnoreComments(sessions, sessions, scans0, scans, links, study.nickname,
                                  parsed.value.ident.withTimepoint, ScanKey(parsed.value), parsed.value.ident.session);
      }
      var r := GetAddScan(name, false);
      found := [];
      if r.Ok? && r.value.Some? {
        found := [scans[r.value.value].name];
      }
    }

    /**
     * The loop of `delete_extra_scans` over `scanlist`: each name is looked up
     * with `get_add_scan(scan_name)`; the names of the rows found are kept and
     * every name that raises or finds nothing is skipped.
     */
    method ResolveScans(scanlist: seq<string>) returns (resolved: seq<string>)
      requires Valid()
      modifies this`sessions, this`scans, this`links, this`nextId, this`commits
      ensures Valid()
      ensures sessions == old(sessions) && links == old(links) && nextId == old(nextId)
      ensures CommentsOnly(old(scans), scans)
      ensures |resolved| <= |scanlist|
      ensures forall n :: n in resolved ==> n in ScanKeys(naming, scanlist)
      ensures IsSuffix(commits, old(commits))
      // exactly the names the loop's specification collects, and the stream it leaves
      ensures resolved == Resolution(old(sessions), old(scans), old(links), scanlist, old(commits)).0
      ensures commits == Resolution(old(sessions), old(scans), old(links), scanlist, old(commits)).1
    {
      resolved := [];
      for i := 0 to |scanlist|
        invariant Valid()
        invariant resolved + Resolution(old(sessions), old(scans), old(links), scanlist[i..], commits).0 ==
          Resolution(old(sessions), old(scans), old(links), scanlist, old(commits)).0
        invariant Resolution(old(sessions), old(scans), old(links), scanlist[i..], commits).1 ==
          Resolution(old(sessions), old(scans), old(links), scanlist, old(commits)).1
        invariant sessions == old(sessions) && links == old(links) && nextId == old(nextId)
        invariant CommentsOnly(old(scans), scans)
      {
        ghost var before := scans;
        ResolutionStep(old(sessions), old(scans), old(links), scanlist, i, commits);
        var found := LookupScan(old(scans), scanlist[i]);
        CommentsOnlyTrans(old(scans), before, scans);
        resolved := resolved + found;
      }
      assert scanlist[|scanlist|..] == [];
      ResolutionBounds(old(sessions), old(scans), old(links), scanlist, old(commits));
    }

    /**
     * The delete loop of `delete_extra_scans`: for each extra name, the source
     * scan of that name and its link to the session are removed.
     */
    method DeleteScans(sid: nat, repeat: Option<int>, extra: set<string>)
      requires Valid()
      modifies this`scans, this`links
      ensures Valid()
      ensures links == old(links) - DoomedLinks(old(scans), old(links), sid, repeat, extra)
      ensures scans == old(scans) - ScansOf(old(links), DoomedLinks(old(scans), old(links), sid, repeat, extra))
    {
      var scans0, links0 := scans, links;
      var todo, done := extra, {};
      while todo != {}
        invariant done + todo == extra && done !! todo
        invariant links == links0 - DoomedLinks(scans0, links0, sid, repeat, done)
        invariant scans == scans0 - ScansOf(links0, DoomedLinks(scans0, links0, sid, repeat, done))
        invariant scans.Keys <= scans0.Keys && links.Keys <= links0.Keys
        decreases todo
      {
        var n :| n in todo;
        var gone := DoomedLinks(scans0, links0, sid, repeat, {n});
        DoomedLinksAdd(scans0, links0, sid, repeat, done, n);
        RemoveTwice(links0, DoomedLinks(scans0, links0, sid, repeat, done), gone);
        RemoveTwice(scans0, ScansOf(links0, DoomedLinks(scans0, links0, sid, repeat, done)), ScansOf(links0, gone));
        assert ScansOf(links0, DoomedLinks(scans0, links0, sid, repeat, done + {n})) ==
          ScansOf(links0, DoomedLinks(scans0, links0, sid, repeat, done)) + ScansOf(links0, gone);
        links := links - gone;
        scans := scans - ScansOf(links0, gone);
        done, todo := done + {n}, todo - {n};
      }
    }

    /**
     * `get_add_session(name)` with its defaults, as `delete_extra_scans`
     * calls it: no date, nothing created, so only a checklist comment can
     * change.
     */
    method FindSession(name: string) returns (r: Result<Option<nat>, DashError>)
      requires Valid()
      modifies this`sessions, this`nextId, this`commits
      ensures Valid()
      ensures r == old(SessionOutcome(name, NoDate, false))
      ensures r.Ok? && r.value.Some? ==> SessionMatches(old(sessions), study.nickname, name) == {r.value.value}
      ensures nextId == old(nextId) && SessionCommentsOnly(old(sessions), sessions)
      ensures commits == old(commits) || commits == CommitsAfter(old(commits))
      ensures r.Ok? && r.value.Some? ==> commits == CommitsAfter(old(commits))
    {
      r := GetAddSession(name, NoDate, false);
      if r.Ok? && r.value.Some? {
        RefreshedNoDate(old(sessions)[r.value.value], checkChecklist(name).value);
      }
    }

    /**
     * The end of `delete_extra_scans` once the session row `sid` is known:
     * `is_linked` fails on a dangling primary link; otherwise the extra
     * names are computed, their rows deleted, and the deletions committed.
     */
    method PruneSession(sid: nat, repeat: Option<int>, resolved: seq<string>) returns (r: Result<set<string>, DashError>)
      requires Valid()
      modifies this`scans, this`links, this`commits
      ensures Valid()
      ensures DanglingLinks(old(scans), old(links), sid) != {} ==> r == Err(DanglingLink) && commits == old(commits)
      ensures DanglingLinks(old(scans), old(links), sid) == {} ==>
        (r.Ok? <==> CommitOk(old(commits))) && (r.Err? ==> r.error == DbError) &&
        commits == CommitsAfter(old(commits))
      ensures r.Err? ==> scans == old(scans) && links == old(links)
      ensures r.Ok? ==>
        var doomed := DoomedLinks(old(scans), old(links), sid, repeat, r.value);
        r.value == ExtraScans(old(scans), old(links), sid, repeat, resolved) &&
        links == old(links) - doomed && scans == old(scans) - ScansOf(old(links), doomed)
    {
      if DanglingLinks(scans, links, sid) != {} {
        return Err(DanglingLink);
      }
      var extra := ExtraScans(scans, links, sid, repeat, resolved);
      var scans0, links0 := scans, links;
      DeleteScans(sid, repeat, extra);
      var ok := Commit();
      if !ok {
        scans, links := scans0, links0;   // the deletions are not committed
        return Err(DbError);
      }
      return Ok(extra);
    }

    /**
     * `delete_extra_scans` after its `get_add_session` call answered
     * `session`: the scan list is resolved, then a missing session fails and
     * a found one is pruned. `pending` is the commit stream the final commit
     * draws from.
     */
    method ResolveAndPrune(session: Option<nat>, repeat: Option<int>, scanlist: seq<string>)
        returns (r: Result<Pruned, DashError>, ghost pending: seq<bool>)
      requires Valid()
      modifies this`sessions, this`scans, this`links, this`nextId, this`commits
      ensures Valid()
      ensures session.None? ==> r == Err(NoSession)
      ensures session.Some? && DanglingLinks(old(scans), old(links), session.value) != {} ==> r == Err(DanglingLink)
      ensures session.Some? && DanglingLinks(old(scans), old(links), session.value) == {} ==>
        (r.Ok? <==> CommitOk(pending)) && (r.Err? ==> r.error == DbError)
      ensures IsSuffix(pending, old(commits))
      ensures pending == Resolution(old(sessions), old(scans), old(links), scanlist, old(commits)).1
      ensures r.Ok? ==> r.value.resolved == Resolution(old(sessions), old(scans), old(links), scanlist, old(commits)).0
      ensures sessions == old(sessions) && nextId == old(nextId)
      ensures r.Err? ==> links == old(links) && CommentsOnly(old(scans), scans)
      ensures r.Ok? ==>
        var sid := r.value.session;
        var doomed := DoomedLinks(old(scans), old(links), sid, repeat, r.value.extra);
        session == Some(sid) &&
        DanglingLinks(old(scans), old(links), sid) == {} &&
        (forall n :: n in r.value.resolved ==> n in ScanKeys(naming, scanlist)) &&
        r.value.extra == ExtraScans(old(scans), old(links), sid, repeat, r.value.resolved) &&
        links == old(links) - doomed &&
        CommentsOnly(old(scans) - ScansOf(old(links), doomed), scans)
    {
      var resolved := ResolveScans(scanlist);
      pending := commits;
      if session.None? {
        r := Err(NoSession);   // `db_session.scans` on None
        return;
      }
      var sid := session.value;
      var scans1 := scans;
      SourceLinksIgnoreComments(old(scans), scans1, links, sid, repeat, {}, resolved);
      var pruned := PruneSession(sid, repeat, resolved);
      if pruned.Err? {
        r := Err(pruned.error);
        return;
      }
      SourceLinksIgnoreComments(old(scans), scans1, old(links), sid, repeat, pruned.value, resolved);
      CommentsOnlyRemove(old(scans), scans1, ScansOf(old(links), DoomedLinks(scans1, old(links), sid, repeat, pruned.value)));
      r := Ok(Pruned(sid, resolved, pruned.value));
    }

    /**
     * `delete_extra_scans` once the label is parsed: the session `name`
     * (subject id with timepoint) is looked up, the scan list resolved, and
     * the session's extra source scans with the repeat number deleted.
     * `pending` is the commit stream the final commit draws from.
     */
    method DeleteExtraScansOf(name: string, repeat: Option<int>, scanlist: seq<string>)
        returns (r: Result<Pruned, DashError>, ghost pending: seq<bool>)
      requires Valid()
      modifies this`sessions, this`scans, this`links, this`nextId, this`commits
      ensures Valid()
      ensures var s := old(SessionOutcome(name, NoDate, false));
        (s.Err? ==> r == Err(s.error)) &&
        (s == Ok(None) ==> r == Err(NoSession)) &&
        (s.Ok? && s.value.Some? && DanglingLinks(old(scans), old(links), s.value.value) != {} ==>
          r == Err(DanglingLink)) &&
        (s.Ok? && s.value.Some? && DanglingLinks(old(scans), old(links), s.value.value) == {} ==>
          (r.Ok? <==> CommitOk(pending)) && (r.Err? ==> r.error == DbError) &&
          (r.Ok? ==> r.value.session == s.value.value)) &&
        // the names kept are exactly those the loop's specification collects
        (s.Ok? && s.value.Some? ==>
          pending == Resolution(old(sessions), old(scans), old(links), scanlist, CommitsAfter(old(commits))).1 &&
          (r.Ok? ==> r.value.resolved == Resolution(old(sessions), old(scans), old(links), scanlist, CommitsAfter(old(commits))).0))
      ensures IsSuffix(pending, old(commits))
      ensures nextId == old(nextId) && SessionCommentsOnly(old(sessions), sessions)
      ensures r.Err? ==> links == old(links) && CommentsOnly(old(scans), scans)
      ensures r.Ok? ==>
        var sid := r.value.session;
        var doomed := DoomedLinks(old(scans), old(links), sid, repeat, r.value.extra);
        SessionMatches(old(sessions), study.nickname, name) == {sid} &&
        DanglingLinks(old(scans), old(links), sid) == {} &&
        (forall n :: n in r.value.resolved ==> n in ScanKeys(naming, scanlist)) &&
        r.value.extra == ExtraScans(old(scans), old(links), sid, repeat, r.value.resolved) &&
        links == old(links) - doomed &&
        CommentsOnly(old(scans) - ScansOf(old(links), doomed), scans)
    {
      pending := commits;
      assert commits[|commits| - |commits|..] == commits;
      var session := FindSession(name);
      if session.Err? {
        r := Err(session.error);
        return;
      }
      ghost var afterSession := commits;
      SuffixAfter(old(commits), old(commits));
      ResolutionIgnoresComments(old(sessions), sessions, old(scans), scans, links, scanlist, commits);
      r, pending := ResolveAndPrune(session.value, repeat, scanlist);
      SuffixTrans(pending, afterSession, old(commits));
    }

    /**
     * `dashboard.delete_extra_scans(session_label, scanlist)`: the source scans
     * of the session with its repeat number whose names the scan list does not
     * resolve to are deleted, with their links, in one commit. The result
     * reports the session row, the resolved names and the deleted names;
     * `pending` is the commit stream the final commit draws from.
     */
    method DeleteExtraScans(sessionLabel: string, scanlist: seq<string>)
        returns (r: Result<Pruned, DashError>, ghost pending: seq<bool>)
      requires Valid()
      modifies this`sessions, this`scans, this`links, this`nextId, this`commits
      ensures Valid()
      ensures naming.parse(sessionLabel).None? ==>
        r == Err(InvalidSessionName(sessionLabel)) && commits == old(commits)
      ensures naming.parse(sessionLabel).Some? && Repeat(naming, sessionLabel, naming.parse(sessionLabel).value).None? ==>
        r == Err(NoRepeat) && commits == old(commits)
      // each later outcome by its cause
      ensures naming.parse(sessionLabel).Some? && Repeat(naming, sessionLabel, naming.parse(sessionLabel).value).Some? ==>
        var s := old(SessionOutcome(naming.parse(sessionLabel).value.withTimepoint, NoDate, false));
        (s.Err? ==> r == Err(s.error)) &&
        (s == Ok(None) ==> r == Err(NoSession)) &&
        (s.Ok? && s.value.Some? && DanglingLinks(old(scans), old(links), s.value.value) != {} ==>
          r == Err(DanglingLink)) &&
        (s.Ok? && s.value.Some? && DanglingLinks(old(scans), old(links), s.value.value) == {} ==>
          (r.Ok? <==> CommitOk(pending)) && (r.Err? ==> r.error == DbError) &&
          (r.Ok? ==> r.value.session == s.value.value)) &&
        // the names kept are exactly those the loop's specification collects
        (s.Ok? && s.value.Some? ==>
          pending == Resolution(old(sessions), old(scans), old(links), scanlist, CommitsAfter(old(commits))).1 &&
          (r.Ok? ==> r.value.resolved == Resolution(old(sessions), old(scans), old(links), scanlist, CommitsAfter(old(commits))).0))
      ensures IsSuffix(pending, old(commits))
      // nothing else changes but comments
      ensures nextId == old(nextId) && sessions.Keys == old(sessions).Keys
      ensures SessionCommentsOnly(old(sessions), sessions)
      ensures r.Err? ==> links == old(links) && CommentsOnly(old(scans), scans)
      ensures r.Ok? ==>
        naming.parse(sessionLabel).Some? && Repeat(naming, sessionLabel, naming.parse(sessionLabel).value).Some?
      ensures r.Ok? ==>
        var ident := naming.parse(sessionLabel).value;
        var repeat := Repeat(naming, sessionLabel, ident).value;
        var sid := r.value.session;
        var doomed := DoomedLinks(old(scans), old(links), sid, repeat, r.value.extra);
        SessionMatches(old(sessions), study.nickname, ident.withTimepoint) == {sid} &&
        DanglingLinks(old(scans), old(links), sid) == {} &&
        (forall n :: n in r.value.resolved ==> n in ScanKeys(naming, scanlist)) &&
        r.value.extra == ExtraScans(old(scans), old(links), sid, repeat, r.value.resolved) &&
        links == old(links) - doomed &&
        CommentsOnly(old(scans) - ScansOf(old(links), doomed), scans)
    {
      pending := commits;
      assert commits[|commits| - |commits|..] == commits;
      var parsed := naming.parse(sessionLabel);
      if parsed.None? {
        r := Err(InvalidSessionName(sessionLabel));
        return;
      }
      var ident := parsed.value;
      var repeat := Repeat(naming, sessionLabel, ident);
      if repeat.None? {
        r := Err(NoRepeat);
        return;
      }
      r, pending := DeleteExtraScansOf(ident.withTimepoint, repeat.value, scanlist);
    }

    /**
     * `get_add_session_scan_link(target_session, scan, new_name, is_primary)`:
     * the link between the two rows when exactly one exists; otherwise a new,
     * non-primary link named `new_name` or, without one, after the scan. The
     * `is_primary` argument is never read.
     */
    method GetAddSessionScanLink(sid: nat, scanId: nat, newName: string, isPrimary: bool) returns (r: Result<nat, DashError>)
      requires Valid() && sid in sessions && scanId in scans
      modifies this`links, this`nextId, this`commits
      ensures Valid()
      ensures |LinksBetween(old(links), sid, scanId)| == 1 ==>
        r.Ok? && LinksBetween(old(links), sid, scanId) == {r.value} &&
        links == old(links) && nextId == old(nextId) && commits == old(commits)
      ensures |LinksBetween(old(links), sid, scanId)| != 1 ==> commits == CommitsAfter(old(commits))
      ensures |LinksBetween(old(links), sid, scanId)| != 1 && !CommitOk(old(commits)) ==>
        r == Err(DbError) && links == old(links) && nextId == old(nextId)
      ensures |LinksBetween(old(links), sid, scanId)| != 1 && CommitOk(old(commits)) ==>
        r == Ok(old(nextId)) && nextId == old(nextId) + 1 &&
        links == old(links)[r.value := Link(sid, scanId, false, if newName != "" then newName else scans[scanId].name)]
    {
      var matches := LinksBetween(links, sid, scanId);
      if |matches| == 1 {
        var l :| l in matches;
        SingletonIs(matches, l);
        return Ok(l);
      }
      var link := Link(sid, scanId, false, if newName != "" then newName else scans[scanId].name);
      var ok := Commit();
      if !ok {
        return Err(DbError);
      }
      links := links[nextId := link];
      nextId := nextId + 1;
      return Ok(nextId - 1);
    }
  }
}
