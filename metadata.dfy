/**
 * What the checklist and blacklist updaters of datman/utils.py share: their
 * errors, their argument, the list comprehension that turns the merged dict
 * into lines, and the bounded retry writer `write_metadata`.
 */
module Metadata {
  import opened Base

  /** The `MetadataException`s (and the one `KeyError`) the file updaters raise. */
  datatype MetaError =
    | NotADict                      // the entries argument is not a dict
    | InvalidSubject(id: string)    // a checklist key `scanid.parse` rejects
    | MissingKey(key: string)       // KeyError: a normalised checklist key is not itself a key
    | InvalidScanName(name: string) // a blacklist key `scanid.parse_filename` rejects
    | WriteFailed                   // every write attempt failed
    | NoStudy                       // neither a config nor a study name to locate the files

  /** The `entries` argument of the updaters: a dict, or any other value. */
  datatype Delta = Dict(items: map<string, string>) | NotDict

  /** What the file parsers return: the whole dict, or the one comment asked for (None when absent). */
  datatype Parsed = All(entries: map<string, string>) | One(comment: Option<string>)

  /** `write_metadata`'s default `retry`. */
  const DefaultRetry: nat := 3

  /** Index of the first successful attempt among the first `n`, or `n` when all fail. */
  function FirstSuccess(outcomes: seq<bool>, n: nat): (k: nat)
    requires n <= |outcomes|
    ensures k <= n
    ensures k < n ==> outcomes[k]
    ensures forall i :: 0 <= i < k ==> !outcomes[i]
  {
    if n == 0 then 0
    else if outcomes[0] then 0
    else 1 + FirstSuccess(outcomes[1..], n - 1)
  }

  /**
   * `utils.write_metadata(lines, path, retry)`: tries to overwrite the file, and on
   * failure calls itself with one retry fewer; with no retries left it raises.
   * `outcomes[i]` is whether the i-th attempt to open and write the file succeeds.
   * The result is the new file contents, or the error.
   */
  method WriteMetadata(lines: seq<string>, retry: nat, outcomes: seq<bool>)
      returns (r: Result<seq<string>, MetaError>, attempts: nat)
    requires retry <= |outcomes|
    ensures r.Ok? <==> true in outcomes[..retry]
    ensures r.Ok? ==> r.value == lines
    ensures r.Err? ==> r.error == WriteFailed
    ensures attempts <= retry
    ensures attempts == if r.Ok? then FirstSuccess(outcomes, retry) + 1 else retry
    decreases retry
  {
    if retry == 0 {
      return Err(WriteFailed), 0;
    }
    if outcomes[0] {
      return Ok(lines), 1;
    }
    var rest, n := WriteMetadata(lines, retry - 1, outcomes[1..]);
    assert outcomes[..retry] == [outcomes[0]] + outcomes[1..][..retry - 1];
    r, attempts := rest, n + 1;
  }

  /** The keys among `ks` whose formatted line is `l`. */
  ghost function KeysFormattedAs(d: map<string, string>, fmt: (string, string) -> string,
                                 ks: set<string>, l: string): set<string> {
    set k | k in ks && k in d && fmt(k, d[k]) == l
  }

  /** Adding one more key adds it to the keys of its own line only. */
  lemma KeysFormattedAsAdd(d: map<string, string>, fmt: (string, string) -> string,
                           ks: set<string>, k: string, l: string)
    requires k in d && k !in ks
    ensures |KeysFormattedAs(d, fmt, ks + {k}, l)| ==
      |KeysFormattedAs(d, fmt, ks, l)| + (if fmt(k, d[k]) == l then 1 else 0)
  {
    if fmt(k, d[k]) == l {
      assert KeysFormattedAs(d, fmt, ks + {k}, l) == KeysFormattedAs(d, fmt, ks, l) + {k};
    } else {
      assert KeysFormattedAs(d, fmt, ks + {k}, l) == KeysFormattedAs(d, fmt, ks, l);
    }
  }

  /**
   * The comprehension `[fmt(k, d[k]) for k in d]`: one line per key, in the
   * dict's iteration order (any order; callers sort the result). Each line
   * occurs as often as there are keys formatted to it.
   */
  method FormatLines(d: map<string, string>, fmt: (string, string) -> string)
      returns (lines: seq<string>)
    ensures |lines| == |d|
    ensures forall l :: l in lines <==> exists k :: k in d && l == fmt(k, d[k])
    ensures forall l :: multiset(lines)[l] == |KeysFormattedAs(d, fmt, d.Keys, l)|
  {
    var rest := d.Keys;
    ghost var done: set<string> := {};
    lines := [];
    while rest != {}
      invariant rest <= d.Keys && done == d.Keys - rest
      invariant |lines| + |rest| == |d.Keys|
      invariant forall l :: l in lines <==> exists k :: k in d && k !in rest && l == fmt(k, d[k])
      invariant forall l :: multiset(lines)[l] == |KeysFormattedAs(d, fmt, done, l)|
      decreases |rest|
    {
      var k :| k in rest;
      forall l ensures multiset(lines + [fmt(k, d[k])])[l] == |KeysFormattedAs(d, fmt, done + {k}, l)| {
        KeysFormattedAsAdd(d, fmt, done, k, l);
      }
      lines := lines + [fmt(k, d[k])];
      rest := rest - {k};
      done := done + {k};
    }
    assert done == d.Keys;
  }
}
