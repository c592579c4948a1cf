/**
 * The datman naming convention, as the rest of the model sees it.
 *
 * The grammar itself (module `datman.scanid`) is not part of this model: its
 * four entry points are carried as function-valued fields of `Naming`, so every
 * property proved elsewhere holds for whichever grammar is configured.
 */
module ScanId {
  import opened Base

  /** A parsed session/subject identifier. */
  datatype Ident = Ident(
    study: string,          // study code (`ident.study`)
    site: string,           // site code (`ident.site`)
    session: Option<int>,   // `int(ident.session)` when the session field is present
    full: string,           // `str(ident)`
    withTimepoint: string)  // `ident.get_full_subjectid_with_timepoint()`

  /** A parsed scan file name: `parse_filename` returns (ident, tag, series, description). */
  datatype ScanFile = ScanFile(ident: Ident, tag: string, series: string, description: string)

  datatype Naming = Naming(
    parse: string -> Option<Ident>,             // `scanid.parse`; None = ParseException
    parseFilename: string -> Option<ScanFile>,  // `scanid.parse_filename`; None = ParseException
    isScanId: string -> bool,                   // `scanid.is_scanid`
    isPhantom: string -> bool)                  // `scanid.is_phantom`
}
