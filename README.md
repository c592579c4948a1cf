# datman bookkeeping, modelled in Dafny

This project models the deterministic bookkeeping of datman, a toolkit that manages
MRI study data. Four parts are modelled:

- **The metadata file store of `datman/utils.py`.** The QC checklist (`checklist.csv`,
  one `qc_<subject>.html <comment>` line per subject) and the blacklist (`blacklist.csv`,
  a `series\treason` header and then one `<scan> <reason>` line per excluded scan) are
  parsed and rewritten in full, sorted. Around them sit the bounded retry writer,
  the QC aggregation over both files, the study/site check of a subject id, and the small
  path and string helpers (`splitext`, `get_extension`, `_escape_shell_chars`,
  `split_path`, `subject_type`, `nifti_basename`, `filter_niftis`,
  `is_named_like_a_dicom`).
- **The find-or-create rules of `datman/dashboard.py`.** These cover the Session, Scan and
  Session_Scan tables. A `Dashboard` object holds the tables as maps from row id to row,
  and its methods change them the way the source's ORM calls do. The outcome of every
  `db.session.commit()` is taken from an input stream.
- **The ENIGMA-DTI batch selection of `bin/dm-proc-enigma.py`.** This covers which
  checklist rows become queue command lines, the completion sentinel that makes a rerun
  skip finished subjects, the stamping of `date_ran`, and when the batch and post jobs are
  submitted. It also covers the text of the two generated run scripts.
- **The REDCap import of `bin/dm_redcap_scan_completed.py`.** This covers which records
  count as completed, how the subject field becomes a session id, and what each record
  asks of the dashboard.

Files are sequences of lines. The filesystem test, the clock, commit outcomes, the queue
and the HTTP replies are inputs. The datman naming grammar (`datman.scanid`) is not part of
this model. Its entry points `parse`, `parse_filename`, `is_scanid` and `is_phantom` are
function-valued fields of `ScanId.Naming`, so every property holds whatever grammar is
configured. Python 2 strings are byte strings, so whitespace and case mapping are the
ASCII ones.

Modules: `Base` (Option, Result), `Text` (`split`, `join`, `strip`, `replace`, `upper`,
`sorted`), `OsPath` (`os.path`), `ScanId`, `PathUtils`, `Metadata`, `Checklist`,
`Blacklist`, `Subjects`, `Dashboard`, `Enigma`, `Redcap`.

## Model

| member | source | states |
|---|---|---|
| Text.Words | datman/utils.py:166 | `line.split()` yields only non-empty, whitespace-free fields |
| Text.WordsOfJoin | datman/utils.py:189 | splitting a single-space join of fields gives the fields back |
| Text.StripJoinOfWords | datman/utils.py:189 | `" ".join(fields).strip()` is the join itself: strip removes nothing |
| Text.NormalizeIdempotent | datman/utils.py:189 | re-reading a comment normalised to single spaces leaves it unchanged |
| Text.WordsSep | datman/utils.py:166 | a whitespace character splits the fields of the text on each side of it apart |
| Text.Split | datman/utils.py:663 | `s.split('_')` gives at least one part, and no part contains the separator |
| Text.JoinSplit | datman/utils.py:663 | joining the parts of `s.split(c)` with `c` gives `s` back |
| Text.FileLines | datman/utils.py:165 | `readlines()` cuts the file text after each newline: the lines concatenate back to the text, every line but the last ends in its only newline, and no line is empty |
| Text.FileLinesOfConcat | datman/utils.py:474-476 | reading back what `writelines` wrote gives the written strings whenever each is one line ending in its only newline |
| Text.Upper | bin/dm_redcap_scan_completed.py:70 | `str.upper()` maps each character on its own and keeps the length |
| Text.Lower | datman/utils.py:1149 | `str.lower()` maps each character on its own and keeps the length |
| Text.Sort | datman/utils.py:239 | `sorted(lines)` is ordered and is a permutation of its input |
| Text.SortKeeps | datman/utils.py:239 | sorting keeps the length and exactly the same elements |
| Text.ReplaceAbsent | datman/utils.py:898 | `replace` leaves a string without the pattern unchanged |
| Text.RFind | datman/utils.py:897 | the index of the last '/', or -1 when there is none |
| OsPath.PathJoin | bin/dm-proc-enigma.py:323-325 | `os.path.join(a, b)`: an absolute `b` wins; otherwise the result starts with `a` and ends with `b` |
| OsPath.Basename | datman/utils.py:897 | `os.path.basename`: a slash-free suffix of the path |
| OsPath.PosixSplit | datman/utils.py:923 | `os.path.split`: a slash-free tail that ends the path, and a strictly shorter head when the tail is non-empty |
| OsPath.PosixSplitext | datman/utils.py:873 | `os.path.splitext`: the two parts concatenate to the path, and the extension is empty or a slash-free text starting with '.' |
| OsPath.SplitextOfStem | datman/utils.py:170 | a name `stem + ext` with a one-dot extension splits back into `(stem, ext)` |
| PathUtils.Splitext | datman/utils.py:865-873 | `splitext` keeps `.nii.gz` and `.mnc.gz` whole; the parts concatenate to the path |
| PathUtils.SplitextKeepsDoubleExtension | datman/utils.py:865-873 | for `stem.nii.gz` the helper returns `(stem, .nii.gz)` where `os.path.splitext` returns `(stem.nii, .gz)` |
| PathUtils.GetExtension | datman/utils.py:516-529 | `get_extension` gives `.tar.gz`, then `.nii.gz`, else the `os.path` extension; always a suffix of the path |
| PathUtils.EscapeIsPerCharacter | datman/utils.py:805-817 | the three chained `replace` calls put a backslash before each '(', ';' and ')' |
| PathUtils.EscapedHead | datman/utils.py:805-817 | an escaped argument never starts with a bare special character |
| PathUtils.UnescapeEscape | datman/utils.py:805-817 | escaping loses nothing: removing the inserted backslashes gives the argument back |
| PathUtils.SplitPath | datman/utils.py:913-928 | the `while True` loop returns the components `os.path.split` peels off, each non-empty and slash-free |
| PathUtils.SplitStep | datman/utils.py:922-927 | one turn of the loop prepends a component and keeps the loop's invariant |
| PathUtils.SplitPathOfJoin | datman/utils.py:913-928 | a relative path of non-empty components splits back into those components |
| PathUtils.SplitPathTrailingSlash | datman/utils.py:913-928 | a path ending in '/' splits into no components at all |
| PathUtils.SubjectType | datman/utils.py:655-675 | `subject_type` is None with fewer than three fields; phantom iff the third field is `PHA`; humanphantom iff it is another field starting with `P`; subject iff it is four ASCII digits |
| PathUtils.SubjectTypeOfFields | datman/utils.py:662-672 | only the third `_`-separated field of a name decides its kind |
| PathUtils.NiftiBasename | datman/utils.py:893-900 | `nifti_basename` is slash-free |
| PathUtils.NiftiBasenameOfJoin | datman/utils.py:893-900 | the basename of `<dir>/<stem>.nii.gz` or `<dir>/<stem>.nii` without its extension is the stem, for a non-empty stem without '/', `.nii` or `.gz` |
| PathUtils.StripNiftiExtOfStem | datman/utils.py:898 | removing '.nii' and '.gz' from `stem.nii.gz` or `stem.nii` gives the stem back |
| PathUtils.FilterNiftis | datman/utils.py:903-910 | `filter_niftis` keeps exactly the candidates whose text after the first dot is `nii` or `nii.gz` |
| PathUtils.NiftiExtensionMeaning | datman/utils.py:907-908 | that test holds exactly for names `<dot-free base>.nii` and `<dot-free base>.nii.gz` |
| PathUtils.IsNamedLikeADicom | datman/utils.py:1147-1149 | true iff the lower-cased name ends in `dcm` or `img` |
| Metadata.FirstSuccess | datman/utils.py:469-480 | the index of the first successful write attempt, with all earlier attempts failed |
| Metadata.WriteMetadata | datman/utils.py:463-480 | at most `retry` attempts; fails with MetadataException exactly when every attempt fails; on success the file holds `lines` |
| Metadata.FormatLines | datman/utils.py:236-237 | one line per dict key, each formatted from that key and its value, and each line occurs as often as there are keys formatted to it |
| Checklist.LineEntry | datman/utils.py:165-189 | a line counts only when its id, derived from the first field, parses |
| Checklist.Entries | datman/utils.py:148-195 | every key of the parsed dict is a subject id that parses |
| Checklist.ReadLine | datman/utils.py:166-193 | one turn of the loop: a blank line, an unparsable ID, a repeated ID or (given a subject) another subject's line leaves the read-so-far state as the specification of the lines read so far; a matching line returns exactly the first comment for that subject |
| Checklist.ParseChecklist | datman/utils.py:148-195 | the loop builds the first-wins dict, or, given a subject, returns that subject's first comment or None |
| Checklist.LookupPrefix | datman/utils.py:187-191 | the early return: once a subject's comment is found, later lines do not change it |
| Checklist.LookupIsEntry | datman/utils.py:160-195 | the single-subject answer is the full dict's entry for that subject, or None |
| Checklist.EntriesKeys | datman/utils.py:165-193 | a subject is a key iff some line is counted for it |
| Checklist.FirstLineWins | datman/utils.py:182-185 | later duplicates are ignored: the first counted line gives the comment |
| Checklist.MergeChecklist | datman/utils.py:226-233 | the merge fails iff a key does not parse or its normalised form is not a key; otherwise it writes each normalised key's value over the old dict |
| Checklist.MergedOverrides | datman/utils.py:226-233 | with keys already normalised, the new entries override old ones and old keys not in the delta are kept |
| Checklist.UpdateChecklist | datman/utils.py:198-239 | a non-dict raises; an invalid key raises; otherwise the file is rewritten as the sorted lines of the merged dict, subject to the write attempts |
| Checklist.ChecklistLineFields | datman/utils.py:236 | a written line splits into the file name `qc_<id>.html` and the comment's words |
| Checklist.LineEntryOfChecklistLine | datman/utils.py:165-189 | reading a written line gives its subject and its whitespace-normalised comment; see also line 236 of the same file |
| Checklist.ChecklistLineInjective | datman/utils.py:236 | two written lines name the same subject only when written for the same subject |
| Checklist.EntriesOfWrittenLines | datman/utils.py:148-195 | the dict read from written lines holds exactly the subjects whose lines are present; see also line 236 of the same file |
| Checklist.ChecklistRoundTrip | datman/utils.py:148-195 | what `update_checklist` writes with `writelines` is re-read by `readlines()` as exactly the written lines, and parses back to the merged dict, comments whitespace-normalised, when no comment holds a newline and every subject id is one word with no whitespace, holds no `qc_`, parses as a subject id, holds no `/` and does not start with `.`; see also lines 236-239 and 474-476 of the same file |
| Blacklist.SplitSeps | datman/utils.py:378-380 | `re.split(',\|\s', s)` yields at least one piece, none holding a separator |
| Blacklist.JoinSplitSeps | datman/utils.py:376-389 | splitting on `,\|\s` and joining with spaces turns every comma and whitespace into a space: commas in reasons are lost |
| Blacklist.ScanEntry | datman/utils.py:380-392 | a line counts only when its first field is a scan file name other than the `series` header |
| Blacklist.ScanEntries | datman/utils.py:366-408 | every key of the parsed dict is a scan name that parses, is not `series`, and starts with the subject filter |
| Blacklist.ParseBlacklist | datman/utils.py:366-408 | the loop returns the scan's first reason or None when a scan is given, and otherwise the filtered first-wins dict |
| Blacklist.ScanLookupPrefix | datman/utils.py:394-397 | the early return: once a scan's reason is found, later lines do not change it |
| Blacklist.ScanLookupIsEntry | datman/utils.py:394-408 | the single-scan answer is the full dict's entry for that scan, or None |
| Blacklist.ScanEntriesKeys | datman/utils.py:379-406 | a scan is a key iff it matches the subject prefix and some line is counted for it |
| Blacklist.FirstScanLineWins | datman/utils.py:402-406 | later duplicates are ignored: the first counted line gives the reason |
| Blacklist.SubjectFilterRestricts | datman/utils.py:399-400 | the subject filter keeps exactly the full dict's entries whose names start with the subject |
| Blacklist.ScanMergedEntries | datman/utils.py:425-435 | an entry with an empty reason changes nothing; any other delta entry wins; scans not in the delta keep their reason |
| Blacklist.MergeBlacklist | datman/utils.py:425-435 | the merge fails iff some delta key is not a scan file name, naming that key; otherwise it gives the merged dict |
| Blacklist.UpdateBlacklist | datman/utils.py:411-440 | a non-dict raises; an invalid scan name raises; otherwise the file is the header and then the sorted lines of the merged dict |
| Blacklist.HeaderSkipped | datman/utils.py:391-392 | the header line written first is never read back as an entry; see also line 438 of the same file |
| Blacklist.ReasonLineEntry | datman/utils.py:380-389 | reading a written line gives its scan and its reason with separators turned to single spaces; see also line 437 of the same file |
| Blacklist.ReasonLineInjective | datman/utils.py:437 | two written lines name the same scan only when written for the same scan |
| Blacklist.BlacklistRoundTrip | datman/utils.py:366-408 | what `update_blacklist` writes with `writelines` is re-read line by line as exactly the written lines, and parses back to the merged dict: the header is skipped, and in each reason every comma or whitespace character becomes one space with the ends stripped, when no reason holds a newline and every scan name is non-empty, holds no comma or whitespace, is not `series` and parses as a scan file name; see also lines 437-440 and 474-476 of the same file |
| Subjects.CollectBlacklisted | datman/utils.py:493-511 | the keys are exactly the checklist subjects with a non-empty comment; each lists exactly its parsed blacklist entries, once each |
| Subjects.GetSubjectMetadata | datman/utils.py:483-513 | fails iff neither a config nor a study is given; otherwise the aggregation over both files |
| Subjects.ListedExactlyOnce | datman/utils.py:494-511 | an entry appears under its own subject and no other; orphan and malformed entries appear nowhere |
| Subjects.ValidateSubjectId | datman/utils.py:1043-1072 | success iff the id parses and its study and site are configured; the three failures are told apart and carry the id |
| Dashboard.SyncComment | datman/dashboard.py:117-119 | a non-empty comment from the file replaces the stored one; an empty one never clears it; see also lines 224-231 of the same file |
| Dashboard.Refreshed | datman/dashboard.py:72-92 | an existing session gets a given date and the synced comment, and nothing else changes; see also lines 117-119 of the same file |
| Dashboard.SourceLinksExact | datman/dashboard.py:312-321 | `is_linked` in the selection: a link is a source of the session iff it is primary and its scan exists, is not a spiral (`SPRL`) and has the repeat number, so secondary links and spirals are never deleted as extras |
| Dashboard.SourceLinks | datman/dashboard.py:276-279 | the selected links belong to the table and point at existing scan rows |
| Dashboard.ExtraScans | datman/dashboard.py:276-280 | a name is extra iff some unlinked source scan of the session with the repeat number has it and the scan list did not resolve to it |
| Dashboard.DoomedLinks | datman/dashboard.py:282-287 | the deleted links are among the session's source links |
| Dashboard.SourceLinksIgnoreComments | datman/dashboard.py:267-280 | syncing blacklist comments while resolving the list does not change which scans are extra |
| Dashboard.DoomedLinksAdd | datman/dashboard.py:282-287 | deleting name by name removes the union of the links for each name |
| Dashboard.Dashboard.constructor | datman/dashboard.py:23-34 | the dashboard bound to its study holds the given tables |
| Dashboard.Dashboard.Commit | datman/dashboard.py:124-130 | a commit consumes one outcome of the stream |
| Dashboard.Dashboard.GetAddSession | datman/dashboard.py:36-131 | the answer is exactly `SessionOutcome`. Invalid name, site and date raise, in that order. No match without `create` is None. With one match, or none and `create`, the result is the unbound-name error iff the checklist check raises, and otherwise a row iff the commit succeeds (None and no change when it fails). One match is refreshed with the date and comment; no match with `create` adds `NewSession`. Several matches give None only after a failed commit with an empty comment, else the unbound-name error |
| Dashboard.Dashboard.StoreSession | datman/dashboard.py:110-131 | the comment check fails unbound, or the synced row is committed, or None on a failed commit |
| Dashboard.Dashboard.Ambiguous | datman/dashboard.py:110-131 | with several matching sessions the result is None exactly when the checklist comment is empty and the commit fails, else the unbound-name error; a commit is drawn exactly when the comment is empty |
| Dashboard.Dashboard.GetAddScan | datman/dashboard.py:133-238 | a bad name raises; several matches raise 'Scan not unique'; none without `create` is None; one match succeeds iff the blacklist check and the commit do, fails only with the database error, draws a commit exactly when the blacklist check does not raise, and on success only syncs its blacklist comment; creating never gives None, fails with the session lookup's error, then 'Invalid scantype', then for a missing session, and otherwise succeeds iff the blacklist check and the second commit do, adding the row `<ident>_<tag>_<series>` with a primary link of that name |
| Dashboard.Dashboard.AddScan | datman/dashboard.py:172-238 | the creating branch: each failure is tied to its cause in the source's order, success needs the blacklist check and the commit after the session's, and a success adds the new row and its primary link |
| Dashboard.Dashboard.CreateScan | datman/dashboard.py:172-214 | an error of `get_add_session` is passed on; with a session answer, a tag outside the ScanType table or the study's scantypes raises 'Invalid scantype'; then a None session fails; a found or created session gives the new row and its primary link to that session |
| Dashboard.Dashboard.StoreScan | datman/dashboard.py:215-238 | succeeds iff the blacklist check does not raise and the commit succeeds, storing the row with its synced comment and the new link; otherwise it raises with nothing stored; a commit is drawn iff the blacklist check does not raise |
| Dashboard.Dashboard.ResolveScans | datman/dashboard.py:265-272 | the loop keeps exactly the names `Resolution` collects from the list against the tables as they were, in list order, and leaves exactly `Resolution`'s rest of the commit stream; it changes only blacklist comments |
| Dashboard.Dashboard.LookupScan | datman/dashboard.py:267-272 | one turn of the loop: `get_add_scan(scan_name)` without creation appends its row's name exactly when the name parses, matches one row, passes the blacklist check and its commit succeeds (`ResolveOne`), and draws a commit exactly when the check passes; a raise is swallowed |
| Dashboard.Dashboard.ResolutionKeeps | datman/dashboard.py:266-272 | every name the loop keeps is the key of some list entry that resolves; while every commit succeeds, every resolving entry's key is kept |
| Dashboard.Dashboard.ResolutionBounds | datman/dashboard.py:266-272 | the loop keeps at most one name per entry, each the key of a listed name, and draws commits only from the stream |
| Dashboard.Dashboard.ResolutionIgnoresComments | datman/dashboard.py:263-272 | syncing checklist comments during the session lookup does not change what the loop collects |
| Dashboard.ScanMatchesIgnoreComments | datman/dashboard.py:148-156 | the rows a scan lookup matches do not depend on checklist or blacklist comments |
| Dashboard.Dashboard.ListedNotExtra | datman/dashboard.py:266-279 | while every commit succeeds, a listed name that matches one row and passes the blacklist check is never among the extra scans |
| Dashboard.Dashboard.DeleteScans | datman/dashboard.py:282-287 | exactly the extra source links of the session and their scan rows are removed |
| Dashboard.Dashboard.FindSession | datman/dashboard.py:264 | `get_add_session(session_label)` answers `SessionOutcome` with no date and no creation, and changes only checklist comments |
| Dashboard.Dashboard.PruneSession | datman/dashboard.py:276-288 | a dangling primary link fails; otherwise the extra names are deleted with their links, and the result is Ok iff the final commit succeeds |
| Dashboard.Dashboard.ResolveAndPrune | datman/dashboard.py:265-288 | after the lookup: the list resolves to exactly `Resolution`'s names; a None session then fails; a found one is pruned of the scans outside those names as `PruneSession` states, its final commit drawn from the stream `Resolution` leaves |
| Dashboard.Dashboard.DeleteExtraScansOf | datman/dashboard.py:262-288 | the lookup's error or None, then a dangling link, then the final commit decide the outcome; after a found session the kept names are exactly `Resolution`'s over the stream after the lookup's commit, and on success the scans outside them are deleted |
| Dashboard.Dashboard.DeleteExtraScans | datman/dashboard.py:240-288 | a bad label and a missing repeat number fail first; then the lookup's error, a None session, a dangling link and the final commit decide the outcome, and it succeeds iff that commit does. After a found session the kept names are exactly `Resolution`'s over the stream after the lookup's commit. On success the session's unlinked scans with the repeat number whose names are not kept are deleted with their links; sessions and scans change only in their comments |
| Dashboard.Dashboard.GetAddSessionScanLink | datman/dashboard.py:323-343 | exactly one existing link is returned; otherwise a non-primary link named `new_name` or the scan's name is added and committed |
| Enigma.SentinelName | bin/dm-proc-enigma.py:322-328 | the sentinel of `<stem>.nii.gz` is `<output>/<subid>/ROI/<stem>skel_ROIout_avg.csv` |
| OsPath.BasenameOfJoin | bin/dm-proc-enigma.py:323-325 | `os.path.join` puts a slash-free name last |
| Enigma.SelectionMembers | bin/dm-proc-enigma.py:180-195 | the rows selected are exactly those that pass the subject filter, have an FA map and are not completed, in increasing order |
| Enigma.SelectionEmpty | bin/dm-proc-enigma.py:180-195 | nothing is selected iff no row passes the three tests |
| Enigma.CommandsOfSelection | bin/dm-proc-enigma.py:199-203 | the k-th command line is `bash -l <run_dir>/run_engimadti.sh <output>/<subid> <input>/<subid>/<FA>` for the k-th selected row |
| Enigma.SubmitsIffSelected | bin/dm-proc-enigma.py:172-210 | `submit_edti` ends true iff some row passes the three tests |
| Enigma.StampedRows | bin/dm-proc-enigma.py:206 | `date_ran` is set to today on exactly the rows that emitted a line; nothing else changes |
| Enigma.WriteCommands | bin/dm-proc-enigma.py:176-208 | the loop writes the command lines in row order, stamps the checklist in place, and sets `submit_edti` iff it wrote a line |
| Enigma.RerunSelectsNothing | bin/dm-proc-enigma.py:194 | once the rows that ran have their sentinels, a second run over the stamped checklist selects nothing; see also lines 322-328 of the same file |
| Enigma.RunMain | bin/dm-proc-enigma.py:171-232 | batch and post jobs (`afterok` the batch prefix) are submitted only when lines were written and not `--post-only`; the checklist is written back only when not a dry run |
| Enigma.WriteRunScript | bin/dm-proc-enigma.py:248-296 | the preamble, then the `doInd` or the `concat` body by the script's basename; any other name fails after the preamble |
| Enigma.WriteFlags | bin/dm-proc-enigma.py:271-272 | `--calc-MD ` then `--calc-all `, each written when its flag is set; see also lines 290-291 of the same file |
| Enigma.WriteDoInd | bin/dm-proc-enigma.py:266-273 | the `doInd` step's writes |
| Enigma.WriteConcat | bin/dm-proc-enigma.py:275-292 | the `concat` step's writes, with each concatenation line as the source writes it |
| Enigma.ConcatCallsOfMeasures | bin/dm-proc-enigma.py:278-287 | the concatenation lines written, as the source writes them, are those for the chosen measures, in order |
| Enigma.ConcatScriptMeasures | bin/dm-proc-enigma.py:278-287 | `concatresults.sh` gathers FA always, MD iff `CALC_MD` or `CALC_ALL`, and AD and RD iff `CALC_ALL` |
| Enigma.InConcatCalls | bin/dm-proc-enigma.py:278-287 | a measure's concatenation line, as the source writes it, is among the written lines iff the measure is chosen |
| Enigma.ConcatCallInjective | bin/dm-proc-enigma.py:278-287 | different measures give different concatenation lines as written (the measure sits at index 37 of a line of length 2m+73) |
| Enigma.DoIndFlags | bin/dm-proc-enigma.py:266-273 | `run_engimadti.sh` passes `--calc-MD` iff `CALC_MD` and `--calc-all` iff `CALC_ALL` |
| Enigma.ConcatFlags | bin/dm-proc-enigma.py:289-292 | the QC call of `concatresults.sh` passes `--calc-MD` iff `CALC_MD` and `--calc-all` iff `CALC_ALL` |
| Enigma.ConcatCallAsWrittenMerges | bin/dm-proc-enigma.py:278-279 | as written, the measure and the results file reach the shell as one word |
| Enigma.ConcatCallArgs | bin/dm-proc-enigma.py:278-279 | with the separating space, the script receives the output directory, the measure and the results file |
| Redcap.StatusList | bin/dm_redcap_scan_completed.py:155-157 | a scalar status is wrapped into a one-element list; a list is kept |
| Redcap.CompletedWithOneStatus | bin/dm_redcap_scan_completed.py:155-157 | with one configured status, the test is equality with it; see also line 166 of the same file |
| Redcap.FirstUnreadable | bin/dm_redcap_scan_completed.py:166 | the first record whose date or status lookup raises `KeyError` |
| Redcap.FilterRecords | bin/dm_redcap_scan_completed.py:163-168 | the loop fails at the first unreadable record; otherwise it keeps the completed records in input order |
| Redcap.KeptMembers | bin/dm_redcap_scan_completed.py:163-168 | a record is kept iff it is in the input, its date is non-empty and its status is accepted |
| Redcap.KeptAppend | bin/dm_redcap_scan_completed.py:163-168 | the filter distributes over concatenation, so kept records keep their input order |
| Redcap.SubjectId | bin/dm_redcap_scan_completed.py:70-73 | the id is the upper-cased field, with `_01` appended exactly when that is not a scan id |
| Redcap.SubjectIdStable | bin/dm_redcap_scan_completed.py:70-73 | an id that is already an upper-case scan id is left as it is |
| Redcap.SubjectIdUpperCase | bin/dm_redcap_scan_completed.py:70-73 | the normalised id holds no lower-case letter |
| Redcap.UpperIdempotent | bin/dm_redcap_scan_completed.py:70 | upper-casing twice is upper-casing once |
| Redcap.HandleRecord | bin/dm_redcap_scan_completed.py:68-100 | a missing record id, subject or date ends the run. An id that does not parse is skipped before any dashboard call. A REDCap entry is recorded only after a session is obtained, with `event_key[record['redcap_event_name']]` as its event id |
| Redcap.OutcomesInOrder | bin/dm_redcap_scan_completed.py:170-171 | each kept record is handled once, in order, and handling stops at the first crash |
| Redcap.HandleRecords | bin/dm_redcap_scan_completed.py:170-171 | the loop produces exactly those outcomes |
| Redcap.RedcapUrl | bin/dm_redcap_scan_completed.py:140 | a URL without `/api/` is kept as it is |
| Redcap.RunScript | bin/dm_redcap_scan_completed.py:155-171 | an unreadable record stops the run at its position; otherwise every kept record is handled in order |

## Left out

- The dashboard backends of the utils file store (`_fetch_checklist`, `_fetch_blacklist`, `_update_qc_reviewers`, `_update_scan_checklist`): they are ORM calls on classes outside this model. Only the file branch of the readers and updaters is modelled.
- `locate_metadata`, `read_checklist` and `read_blacklist`, which choose the file path and open it: a file is its list of lines. `GetSubjectMetadata` keeps only their "no config and no study" error.
- Metadata.WriteMetadata: the random sleep between attempts is not modelled. Each attempt's success is an input.
- Metadata.FormatLines: states which lines occur and how often, not their order, because a Python 2 dict has no specified iteration order. The lines are sorted before anything is written.
- Redundant `.encode('utf-8')` calls, and anything a non-ASCII byte would change: strings are sequences of characters with ASCII whitespace and case.
- DICOM and archive readers, process and queue helpers, filesystem and environment helpers, and XNAT credentials: they are I/O outside the bookkeeping.
- Dashboard.Dashboard.constructor: `set_study` and the "Study not set" branches are not modelled. A dashboard object is always bound to a found study.
- SQLAlchemy mechanics: query building, `flush`, and the rollback of pending changes. A failed commit leaves the tables as they were before the call's pending changes, and the session that `get_add_scan` creates through `get_add_session` stays committed.
- `datman.utils.check_checklist` and `check_blacklist` are not part of this model. Their results are the `checkChecklist` and `checkBlacklist` fields, with None where they raise `ValueError`.
- Dashboard.Dashboard.GetAddSession: dates are compared as calendar days (`Day`) rather than as `strftime('%Y-%m-%d')` strings. The two agree from the year 1900 on. For an existing session, a given or stored date before 1900 makes Python 2's `strftime` raise `ValueError`, which only `except TypeError` surrounds (datman/dashboard.py:76-84), so the source fails where the model refreshes the row. That error is not modelled.
- Dashboard.Dashboard.DeleteExtraScans: deletes, for each extra name, the session's own source row of that name and its link. The source looks the name up again with `Scan.query...first()` over the whole Scan table (datman/dashboard.py:283). The two agree only when scan names are unique across the whole table. `get_add_scan` enforces uniqueness only within a session's join, so a same-named row of another session could be the one the source deletes. The source also deletes only the first link between the looked-up scan and the session (`.first()`, datman/dashboard.py:284-286), while the model removes every such link of that name.
- `get_scantype` and `delete_session` are not modelled. The ScanType table is the `scanTypes` set.
- Enigma: building the subject list and the checklist (`dm.proc.load_checklist`, `add_new_subjects_to_checklist`, `find_images`) is not part of this model. Neither are pandas I/O, `makedirs`, `os.chdir`, `make_temp_directory`, the qbatch command builders, `check_runsh`/`write_run_scripts`, `os.chmod` and `sys.exit`. The checklist is an array of rows, and submissions and the checklist write-back are events.
- Enigma.RunMain: the job time stamp and today's date are inputs rather than readings of the clock. The `NO_POST` option is parsed by the source but never read, so it is not modelled.
- Redcap: `read_token`, `get_records` and `get_version` are HTTP and file I/O. The record list, the version and the configuration are inputs, as are docopt and the logging setup.
- Redcap.HandleRecord: `dashboard.get_session` and `session.add_redcap` are not defined in `datman/dashboard.py` of this snapshot. Whether each call returns normally is an input. Other exceptions from `get_session` are not modelled.
- Redcap.HandleRecord: the `try`/`except` around the `_01` suffix has no failing branch, because `is_scanid` returns a boolean. It is modelled as the plain suffix rule.
- Checklist.ChecklistRoundTrip: requires comments without a newline. A comment holding one, such as `ok\nqc_S2.html bad`, is re-read by `readlines()` as two lines, and the second adds an entry for `S2`. It also requires each subject id `k` to be one non-empty word without whitespace, to hold no `qc_`, to parse as a subject id, to hold no `/` and not to start with `.`. The source forces the first three: a line is split on whitespace (datman/utils.py:166), every `qc_` is removed from the file name on reading (datman/utils.py:171), and ids that do not parse are skipped (datman/utils.py:175-180). The last two only make the proof simple: `os.path.splitext` on `<k>.html` gives back `k` for most such names as well, and the model does not say for which.
- Blacklist.BlacklistRoundTrip: requires reasons without a newline, for the same reason: iterating over the file splits such a reason into extra lines. It also requires each scan name to be non-empty, to hold no comma or whitespace, not to be `series` and to parse as a scan file name. The source forces all four: a line is split at every comma and whitespace character (datman/utils.py:378-380), names that do not parse are skipped (datman/utils.py:381-387), and a `series` entry is taken for the header and skipped (datman/utils.py:391-392).
- Every field of a REDCap record is a string. The date counts as set when non-empty.

## Findings

| source | as written | input that shows it | evidently intended | confidence | as-written member | corrected member |
|---|---|---|---|---|---|---|
| bin/dm-proc-enigma.py:278-287 | each concatenation line is two adjacent string literals, `'... ${OUTDIR} "FA"' '"${OUTDIR}/enigmaDTI-FA-results.csv"\n'`, with no space between the quoted measure and the results file | any measure, e.g. `FA`: the line splits into the words `dm-proc-enigma-concat.py`, `${OUTDIR}` and `"FA""${OUTDIR}/enigmaDTI-FA-results.csv"` | the measure and the results file as two separate arguments | medium, not executed | Enigma.ConcatCallAsWritten, Enigma.ConcatCallAsWrittenMerges | Enigma.ConcatCall, Enigma.ConcatCallArgs |

The model of `write_run_script` (`Enigma.WriteConcat`, `Enigma.WriteRunScript`) writes these lines as the source does. `Enigma.ConcatCall` only states what the fix would write.
