/** The three report formats (`export_csv`, `export_md`, `export_default`),
    the Releases link derived from a homepage, and the `report` dispatch. */
module Exporters {
  import opened Types
  import opened Strings

  const CSV_HEADER := "name,version,homepage,summary,license"
  const MD_HEADER_1 := "| Pod | Installed ver. | Last ver. | swift_versions | swift_version | License | Releases | Summary |"
  const MD_HEADER_2 := "| --- | -------------- | --------- | -------------- | ------------- | ------- | -------- | ------- |"
  const GITHUB := "github.com"

  /** `pod[:license][:type]` interpolated: nil prints as nothing. */
  function LicenseText(r: Record): string
  {
    OrEmpty(r.license.licenseType)
  }

  lemma JoinCons(x: string, rest: seq<string>, sep: string)
    requires |rest| >= 1
    ensures JoinWith([x] + rest, sep) == x + sep + JoinWith(rest, sep)
  {
    assert ([x] + rest)[1..] == rest;
  }

  // ---------------------------------------------------------------- CSV

  /** One CSV body row: summary and license type wrapped in quotes, nothing escaped. */
  function CsvRow(r: Record): string
  {
    r.name + "," + r.specificVersion + "," + r.homepage + ",\"" + r.summary + "\",\"" + LicenseText(r) + "\""
  }

  /** The five fields of a CSV row as a reader would cut them. */
  function CsvFields(r: Record): seq<string>
  {
    [r.name, r.specificVersion, r.homepage, "\"" + r.summary + "\"", "\"" + LicenseText(r) + "\""]
  }

  lemma CsvRowIsJoin(r: Record)
    ensures CsvRow(r) == JoinWith(CsvFields(r), ",")
  {
    var f := CsvFields(r);
    JoinCons(f[3], [f[4]], ",");
    JoinCons(f[2], [f[3], f[4]], ",");
    JoinCons(f[1], [f[2], f[3], f[4]], ",");
    JoinCons(f[0], [f[1], f[2], f[3], f[4]], ",");
    assert f == [f[0]] + [f[1], f[2], f[3], f[4]];
  }

  /** When no field holds a comma, cutting a row at its commas gives back
      exactly its five fields, in header order. */
  lemma CsvRowRoundTrip(r: Record)
    requires forall i :: 0 <= i < |CsvFields(r)| ==> ',' !in CsvFields(r)[i]
    ensures Split(CsvRow(r), ',') == CsvFields(r)
  {
    CsvRowIsJoin(r);
    SplitJoin(CsvFields(r), ',');
  }

  /** Nothing is escaped: a comma in the summary splits it across two
      fields, and the row reads as six fields instead of five. */
  lemma CsvCommaInSummary(r: Record, a: string, b: string)
    requires r.summary == a + "," + b
    requires ',' !in r.name && ',' !in r.specificVersion && ',' !in r.homepage
    requires ',' !in a && ',' !in b && ',' !in LicenseText(r)
    ensures Split(CsvRow(r), ',') == [r.name, r.specificVersion, r.homepage, "\"" + a, b + "\"", "\"" + LicenseText(r) + "\""]
    ensures |Split(CsvRow(r), ',')| == 6
  {
    var parts := [r.name, r.specificVersion, r.homepage, "\"" + a, b + "\"", "\"" + LicenseText(r) + "\""];
    JoinCons(parts[4], [parts[5]], ",");
    JoinCons(parts[3], [parts[4], parts[5]], ",");
    JoinCons(parts[2], [parts[3], parts[4], parts[5]], ",");
    JoinCons(parts[1], [parts[2], parts[3], parts[4], parts[5]], ",");
    JoinCons(parts[0], [parts[1], parts[2], parts[3], parts[4], parts[5]], ",");
    assert parts == [parts[0]] + [parts[1], parts[2], parts[3], parts[4], parts[5]];
    assert CsvRow(r) == JoinWith(parts, ",");
    forall i | 0 <= i < |parts|
      ensures ',' !in parts[i]
    {
      if i == 3 { assert parts[3] == ['"'] + a; }
      if i == 4 { assert parts[4] == b + ['"']; }
      if i == 5 { assert parts[5] == ['"'] + LicenseText(r) + ['"']; }
    }
    SplitJoin(parts, ',');
  }

  /** A record for pod A, installed at 1.0, MIT-licensed, prints as `A,1.0,h,"s","MIT"`. */
  lemma CsvExample(version: Version, requirement: string)
    ensures CsvRow(Record("A", version, "h", "s", License(Some("MIT")), [], None, "1.0", requirement))
         == "A,1.0,h,\"s\",\"MIT\""
  {
  }

  /** The events `export_csv` produces: the header, then one row per record. */
  function CsvOutput(records: seq<Record>): seq<Event>
  {
    [Console(CSV_HEADER)] + seq(|records|, i requires 0 <= i < |records| => Console(CsvRow(records[i])))
  }

  /** `export_csv`: print the header, then each record's row. */
  method ExportCsv(records: seq<Record>) returns (events: seq<Event>)
    ensures events == CsvOutput(records)
  {
    events := [Console(CSV_HEADER)];
    var i := 0;
    while i < |records|
      invariant 0 <= i <= |records|
      invariant |events| == i + 1 && events[0] == Console(CSV_HEADER)
      invariant forall k :: 0 <= k < i ==> events[k + 1] == Console(CsvRow(records[k]))
    {
      events := events + [Console(CsvRow(records[i]))];
      i := i + 1;
    }
  }

  // ----------------------------------------------------------- Releases

  /** `File.join(url, "releases")`: one `/` between the two, not doubled when
      `url` already ends with one. */
  function ReleasesPath(url: string): string
  {
    if |url| > 0 && url[|url| - 1] == '/' then url + "releases" else url + "/releases"
  }

  /** `md_release_url`: nil unless the homepage mentions github.com, else a
      Markdown link to the releases page. */
  function ReleaseUrl(url: string): (link: Option<string>)
    ensures link.None? <==> !Contains(url, GITHUB)
    ensures link.Some? ==> link.value == "[Releases](" + ReleasesPath(url) + ")"
  {
    if !Includes(url, GITHUB) then None
    else Some("[Releases](" + ReleasesPath(url) + ")")
  }

  /** A trailing `/` on a homepage changes neither whether there is a link
      nor the link itself. */
  lemma ReleaseUrlTrailingSlash(url: string)
    requires |url| == 0 || url[|url| - 1] != '/'
    ensures ReleaseUrl(url + "/") == ReleaseUrl(url)
  {
    var u := url + "/";
    assert ReleasesPath(u) == ReleasesPath(url);
    if Contains(u, GITHUB) {
      var i :| OccursAt(u, GITHUB, i);
      assert u[i..i + |GITHUB|] == url[i..i + |GITHUB|];
      assert OccursAt(url, GITHUB, i);
    }
    if Contains(url, GITHUB) {
      var i :| OccursAt(url, GITHUB, i);
      assert u[i..i + |GITHUB|] == url[i..i + |GITHUB|];
      assert OccursAt(u, GITHUB, i);
    }
  }

  /** A GitHub repository page gets a link to its releases page, with or
      without a trailing `/` on the homepage. */
  lemma ReleaseUrlGithub(url: string, owner: string, repo: string)
    requires url == "https://github.com/" + owner + "/" + repo
    requires |repo| > 0 && repo[|repo| - 1] != '/'
    ensures ReleaseUrl(url) == Some("[Releases](" + (url + "/releases") + ")")
    ensures ReleaseUrl(url + "/") == Some("[Releases](" + (url + "/releases") + ")")
  {
    assert url[8..18] == GITHUB;
    assert OccursAt(url, GITHUB, 8);
    assert url[|url| - 1] == repo[|repo| - 1];
    assert ReleasesPath(url) == url + "/releases";
    ReleaseUrlTrailingSlash(url);
  }

  /** A homepage off GitHub gets no Releases link. */
  lemma ReleaseUrlElsewhere()
    ensures ReleaseUrl("https://example.com") == None
  {
    NotContainsFirst("https://example.com", GITHUB);
  }

  // ----------------------------------------------------------- Markdown

  /** Ruby's `inspect` of a string: quoted, with `"` and `\` escaped, and
      `#` escaped where it would start an interpolation. */
  function Quote(s: string): string
  {
    "\"" + Escape(s) + "\""
  }

  /** Whether `String#inspect` puts a backslash before `s[i]`. */
  predicate NeedsEscape(s: string, i: nat)
    requires i < |s|
  {
    s[i] == '"' || s[i] == '\\' ||
    (s[i] == '#' && i + 1 < |s| && (s[i + 1] == '{' || s[i + 1] == '$' || s[i + 1] == '@'))
  }

  function Escape(s: string): string
  {
    if |s| == 0 then ""
    else (if NeedsEscape(s, 0) then ['\\', s[0]] else [s[0]]) + Escape(s[1..])
  }

  /** A string with nothing to escape is printed unchanged between the quotes. */
  lemma {:induction false} EscapePlain(s: string)
    requires forall i :: 0 <= i < |s| ==> !NeedsEscape(s, i)
    ensures Escape(s) == s
    decreases |s|
  {
    if |s| > 0 {
      assert forall i :: 0 <= i < |s| - 1 ==> s[1..][i] == s[i + 1];
      forall i | 0 <= i < |s[1..]|
        ensures !NeedsEscape(s[1..], i)
      {
        assert !NeedsEscape(s, i + 1);
      }
      EscapePlain(s[1..]);
    }
  }

  /** Reading an escaped string back: a backslash stands for the character after it. */
  function Unescape(t: string): string
  {
    if |t| >= 2 && t[0] == '\\' then [t[1]] + Unescape(t[2..])
    else if |t| > 0 then [t[0]] + Unescape(t[1..])
    else ""
  }

  /** Escaping loses nothing: reading the escaped text back gives the string. */
  lemma {:induction false} EscapeRoundTrip(s: string)
    ensures Unescape(Escape(s)) == s
    decreases |s|
  {
    if |s| > 0 {
      EscapeRoundTrip(s[1..]);
      var t := Escape(s);
      if NeedsEscape(s, 0) {
        assert t == ['\\', s[0]] + Escape(s[1..]);
        assert t[2..] == Escape(s[1..]);
      } else {
        assert t == [s[0]] + Escape(s[1..]);
        assert t[1..] == Escape(s[1..]);
      }
    }
  }

  /** An array of strings interpolated into a string (`Array#to_s`):
      `["5.0", "5.1"]`, or `[]` when empty. */
  function Inspect(xs: seq<string>): string
  {
    "[" + JoinWith(seq(|xs|, i requires 0 <= i < |xs| => Quote(xs[i])), ", ") + "]"
  }

  /** Version strings have nothing to escape, so each one is listed in
      quotes, separated by `, `, between brackets. */
  lemma InspectPlain(xs: seq<string>)
    requires forall k, i :: 0 <= k < |xs| && 0 <= i < |xs[k]| ==> !NeedsEscape(xs[k], i)
    ensures Inspect(xs) == "[" + JoinWith(seq(|xs|, k requires 0 <= k < |xs| => "\"" + xs[k] + "\""), ", ") + "]"
  {
    forall k | 0 <= k < |xs|
      ensures Quote(xs[k]) == "\"" + xs[k] + "\""
    {
      EscapePlain(xs[k]);
    }
    assert seq(|xs|, k requires 0 <= k < |xs| => Quote(xs[k]))
        == seq(|xs|, k requires 0 <= k < |xs| => "\"" + xs[k] + "\"");
  }

  /** The pieces of a Markdown body row between its `|` separators: an
      empty piece before the first `|`, then the eight cells, each padded
      with one space on either side except the last, which has no closing `|`. */
  function MdPieces(r: Record): seq<string>
  {
    ["", " [" + r.name + "](" + r.homepage + ") ", " " + r.specificVersion + " ", " " + r.version.text + " ",
     " " + Inspect(r.swiftVersions) + " ", " " + VersionText(r.swiftVersion) + " ", " " + LicenseText(r) + " ",
     " " + OrEmpty(ReleaseUrl(r.homepage)) + " ", " " + r.summary]
  }

  /** One Markdown body row:
      `| [name](homepage) | installed | latest | swift_versions | swift_version | license | releases | summary`. */
  function MdRow(r: Record): string
  {
    JoinWith(MdPieces(r), "|")
  }

  /** When no cell holds a `|`, a row has exactly the header's eight
      columns: pod link, installed version, latest version, swift_versions,
      swift_version, license, releases link and summary, in that order. */
  lemma MdRowColumns(r: Record)
    requires forall i :: 0 <= i < |MdPieces(r)| ==> '|' !in MdPieces(r)[i]
    ensures Split(MdRow(r), '|') == MdPieces(r)
    ensures |Split(MdRow(r), '|')| == 9
  {
    SplitJoin(MdPieces(r), '|');
  }

  /** The table `export_md` writes: the two header lines, then one row per record. */
  function MdTable(records: seq<Record>): (lines: seq<string>)
  {
    [MD_HEADER_1, MD_HEADER_2] + seq(|records|, i requires 0 <= i < |records| => MdRow(records[i]))
  }

  /** Every line written to the file at `path`, each followed by a newline. */
  function FileEvents(lines: seq<string>, path: string): seq<Event>
  {
    seq(|lines|, i requires 0 <= i < |lines| => FileWrite(path, lines[i] + "\n"))
  }

  /** Every line printed to the console. */
  function ConsoleEvents(lines: seq<string>): seq<Event>
  {
    seq(|lines|, i requires 0 <= i < |lines| => Console(lines[i]))
  }

  /** The events `export_md` produces for the file at `path`: the table
      written to the file, then the table printed. */
  function MdOutput(records: seq<Record>, path: string): seq<Event>
  {
    FileEvents(MdTable(records), path) + ConsoleEvents(MdTable(records))
  }

  /** The file receives the whole table before the console receives any
      line, and both receive the same lines in the same order. */
  lemma MdOutputShape(records: seq<Record>, path: string)
    ensures var out := MdOutput(records, path); var n := |records| + 2;
      && |out| == 2 * n
      && (forall i, j :: 0 <= i < j < |out| && out[j].FileWrite? ==> out[i].FileWrite?)
      && (forall k :: 0 <= k < n ==> out[k] == FileWrite(path, MdTable(records)[k] + "\n") && out[n + k] == Console(MdTable(records)[k]))
      && out[0] == FileWrite(path, MD_HEADER_1 + "\n") && out[1] == FileWrite(path, MD_HEADER_2 + "\n")
      && out[n] == Console(MD_HEADER_1) && out[n + 1] == Console(MD_HEADER_2)
  {
  }

  /** The `File.open` block of `export_md`: the two header lines, then one
      row per record, each written with a newline. */
  method WriteMdFile(records: seq<Record>, path: string) returns (events: seq<Event>)
    ensures events == FileEvents(MdTable(records), path)
  {
    ghost var t := MdTable(records);
    events := [FileWrite(path, MD_HEADER_1 + "\n"), FileWrite(path, MD_HEADER_2 + "\n")];
    var i := 0;
    while i < |records|
      invariant 0 <= i <= |records|
      invariant |events| == i + 2
      invariant forall k :: 0 <= k < i + 2 ==> events[k] == FileWrite(path, t[k] + "\n")
    {
      events := events + [FileWrite(path, MdRow(records[i]) + "\n")];
      i := i + 1;
    }
  }

  /** The console half of `export_md`: the same lines, printed. */
  method PutsMd(records: seq<Record>) returns (events: seq<Event>)
    ensures events == ConsoleEvents(MdTable(records))
  {
    ghost var t := MdTable(records);
    events := [Console(MD_HEADER_1), Console(MD_HEADER_2)];
    var i := 0;
    while i < |records|
      invariant 0 <= i <= |records|
      invariant |events| == i + 2
      invariant forall k :: 0 <= k < i + 2 ==> events[k] == Console(t[k])
    {
      events := events + [Console(MdRow(records[i]))];
      i := i + 1;
    }
  }

  /** `export_md`: open the output file (which fails when no `--output`
      was given), write the table to it, then print the table. */
  method ExportMd(records: seq<Record>, output: Option<string>) returns (result: Result<seq<Event>>)
    ensures output.None? ==> result == Err(NoOutputFile)
    ensures output.Some? ==> result == Ok(MdOutput(records, output.value))
  {
    if output.None? {
      return Err(NoOutputFile);
    }
    var written := WriteMdFile(records, output.value);
    var printed := PutsMd(records);
    return Ok(written + printed);
  }

  // --------------------------------------------------------- Plain text

  /** The first line `export_default` prints for a record. */
  function Headline(r: Record): string
  {
    "- " + r.name + " (" + r.specificVersion + ") [" + LicenseText(r) + "]"
  }

  /** The second: the indented summary followed by a blank line. */
  function SummaryLine(r: Record): string
  {
    "  " + r.summary + "\n\n"
  }

  /** The events `export_default` produces. */
  function TextOutput(records: seq<Record>): seq<Event>
  {
    if |records| == 0 then []
    else
      var last := records[|records| - 1];
      TextOutput(records[..|records| - 1]) + [Console(Headline(last)), Console(SummaryLine(last))]
  }

  /** Exactly two console lines per record, in record order: the headline,
      then the summary. */
  lemma {:induction false} TextOutputShape(records: seq<Record>)
    ensures |TextOutput(records)| == 2 * |records|
    ensures forall k :: 0 <= k < |records| ==>
      TextOutput(records)[2 * k] == Console(Headline(records[k])) &&
      TextOutput(records)[2 * k + 1] == Console(SummaryLine(records[k]))
    decreases |records|
  {
    if |records| > 0 {
      var n := |records| - 1;
      TextOutputShape(records[..n]);
      forall k | 0 <= k < n
        ensures TextOutput(records)[2 * k] == Console(Headline(records[k]))
        ensures TextOutput(records)[2 * k + 1] == Console(SummaryLine(records[k]))
      {
        assert records[..n][k] == records[k];
      }
    }
  }

  /** `export_default`: two lines per record. */
  method ExportDefault(records: seq<Record>) returns (events: seq<Event>)
    ensures events == TextOutput(records)
  {
    events := [];
    var i := 0;
    while i < |records|
      invariant 0 <= i <= |records|
      invariant events == TextOutput(records[..i])
    {
      assert records[..i + 1][..i] == records[..i];
      events := events + [Console(Headline(records[i]))];
      events := events + [Console(SummaryLine(records[i]))];
      i := i + 1;
    }
    assert records[..|records|] == records;
  }

  // ----------------------------------------------------------- Dispatch

  /** What `report` produces: Markdown for `:md`, CSV for `:csv`, and the
      plain-text report for anything else. */
  function ReportOutput(records: seq<Record>, format: Format, output: Option<string>): Result<seq<Event>>
  {
    match format
    case Md => if output.Some? then Ok(MdOutput(records, output.value)) else Err(NoOutputFile)
    case Csv => Ok(CsvOutput(records))
    case _ => Ok(TextOutput(records))
  }

  /** With no record, each format emits only its fixed header lines. */
  lemma EmptyReport(path: string)
    ensures CsvOutput([]) == [Console(CSV_HEADER)]
    ensures TextOutput([]) == []
    ensures MdOutput([], path) == [FileWrite(path, MD_HEADER_1 + "\n"), FileWrite(path, MD_HEADER_2 + "\n"),
                                   Console(MD_HEADER_1), Console(MD_HEADER_2)]
  {
  }

  /** `report`: call the one exporter the format selects. */
  method Report(records: seq<Record>, format: Format, output: Option<string>) returns (result: Result<seq<Event>>)
    ensures format == Md ==> result == (if output.Some? then Ok(MdOutput(records, output.value)) else Err(NoOutputFile))
    ensures format == Csv ==> result == Ok(CsvOutput(records))
    ensures format != Md && format != Csv ==> result == Ok(TextOutput(records))
    ensures result == ReportOutput(records, format, output)
  {
    match format {
      case Md =>
        result := ExportMd(records, output);
      case Csv =>
        var events := ExportCsv(records);
        result := Ok(events);
      case _ =>
        var events := ExportDefault(records);
        result := Ok(events);
    }
  }
}
