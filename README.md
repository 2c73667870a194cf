# podfile-info report pipeline, in Dafny

This project models `pod podfile-info`, a CocoaPods plugin command. The command lists a project's
dependencies, looks each one up in the pod registry, and prints a report as plain text, CSV or a
Markdown table. The whole command is the class `Pod::Command::PodfileInfo` in
`lib/pod/command/podfile_info.rb`. The model follows it stage by stage:

- `Command`: the command object (`PodfileInfo`). Its constructor selects the format from the
  flags. `Run` picks the dependency source and drives the report. It is specified by
  `SelectSource` and `RunOutput`.
- `Listing`: `pods_from_podfile` (copy, `flatten!`, then `collect!` of Hash entries to their
  first key) and the lockfile branch of `run` (reverse lookup per entry with a per-entry fallback,
  then `flatten!`). These are loops over sequences, proved against `Flatten`, `PodfileListing`
  and `LockListing`.
- `Metadata`: `pods_info_hash`, a loop that looks each listed value up and appends a record for
  each hit. It is proved against the join function `Join`.
- `Exporters`: `export_csv`, `export_md`, `export_default`, `md_release_url` and the `report`
  dispatch.
- `Strings`: Ruby's `String#include?` (`Includes`, with the ghost predicate `Contains` as its
  meaning), plus a field splitter `Split` and a joiner `JoinWith` used to state what a row's columns are.
- `Types`: the values that flow between the stages.

Everything the report writes is modelled as one ordered trace of events, `seq<Event>`: the
"Pods used" banner and the exporter's output. `Console(line)` is a `UI.puts`.
`FileWrite(path, text)` is a write to the `--output` file. Because file and console writes sit
in one sequence, the model can state that the Markdown file is written completely before any
line of the table is printed. The debug output of lines 77, 86 and 88 is not in the trace (see
"Left out").

The collaborators are modelled as values in `Command.Environment`:

- the lockfile (`config.lockfile`), with the reverse lookup `dependencies_to_lock_pod_named` as a
  function that gives `None` when the lookup raises;
- the default Podfile (`config.podfile`);
- the Podfiles `Pod::Podfile.from_file` can load, as a map from path to Podfile (a missing path
  raises);
- the registry search `search_by_name`, as a function from a name to `Results(specs)` or `Raises`.

A value in a dependency list is an `Item`: a `Dep` (a CocoaPods `Dependency`), a `Hash`, a
nested `Arr`, a `Str` or `Nil`. Only a `Dep` has a `name`. For every other value,
`pod.name` raises inside the `rescue nil` of line 85, and the value is skipped.
`StringKeyedHashesDropped` shows what this means for the Hash normalization of line 78: a Hash
whose first key is a plain string is reduced to that string, and wherever it stands in the
Podfile it adds nothing to the report.

The Markdown table has 8 columns (line 144). There is no grouping of pods by source and no
column telling whether a pod was found.

Modelling choices:

- Markdown without `--output` is not excluded by a precondition. In the code,
  `File.open(nil, 'w')` raises after the "Pods used" banner was printed. The model keeps this as
  the error `NoOutputFile`, with the banner already in the trace.
- The banner of line 69 is guarded by `unless @info_in_md`, but nothing assigns
  `@info_in_md`, so it is nil and the banner is printed in every format.

Running the command twice on the same inputs gives the same report. `PodfileInfo.Run` is
specified as equal to `RunOutput`, which is a function of the options and the environment alone.

## Model

| member | source | states |
|---|---|---|
| `Command.PodfileInfo.constructor` | lib/pod/command/podfile_info.rb:24-37 | the format is CSV iff `--csv`, Markdown iff `--md` without `--csv`, text iff neither; output path and Podfile path are kept as given |
| `Command.SelectSource` | lib/pod/command/podfile_info.rb:40-67 | an explicit path loads that Podfile or fails with `PodfileNotFound`; no path and no lockfile uses the default Podfile or fails with `NoPodfile`; otherwise the lockfile listing; it fails exactly in those two cases |
| `Command.ExplicitPathFirst` | lib/pod/command/podfile_info.rb:40-42 | with an explicit path, the lockfile and the default Podfile do not affect the listing |
| `Command.LockfileBeforeDefaultPodfile` | lib/pod/command/podfile_info.rb:40-53 | with a lockfile and no path, neither the default Podfile nor the Podfiles on disk affect the listing |
| `Command.PodfileInfo.Run` | lib/pod/command/podfile_info.rb:39-71 | the run's outcome is the selected listing, then the "Pods used" banner, then the report of the joined records (`RunOutput`) |
| `Command.RunFailsOnlyOnConfig` | lib/pod/command/podfile_info.rb:39-71 | a run aborts iff no dependency source loads or Markdown is chosen without `--output`; a source failure prints nothing |
| `Command.RunWithoutMatches` | lib/pod/command/podfile_info.rb:84-99 | when the registry finds no listed dependency, the run still finishes and prints only the banner and the format's fixed header lines |
| `Command.StringKeyedHashesDropped` | lib/pod/command/podfile_info.rb:78-85 | inserting a Hash entry whose first key is a plain string anywhere among a Podfile's entries leaves the joined records unchanged |
| `Command.PodsInfo` | lib/pod/command/podfile_info.rb:102-105 | `pods_info` reports exactly the join of the listing with the registry, in the chosen format |
| `Listing.FlattenInPlace` | lib/pod/command/podfile_info.rb:53 | `flatten!` built element by element gives `Flatten` of the input, and the result holds no array |
| `Listing.FlattenAppend` | lib/pod/command/podfile_info.rb:53 | flattening distributes over concatenation, so order is kept |
| `Listing.FlattenIsFlat` | lib/pod/command/podfile_info.rb:76 | nested arrays at any depth are gone after `flatten!` |
| `Listing.FlattenOfFlat` | lib/pod/command/podfile_info.rb:76 | `flatten!` leaves an array without nested arrays unchanged |
| `Listing.FlattenIdempotent` | lib/pod/command/podfile_info.rb:76 | flattening twice equals flattening once |
| `Listing.Normalize` | lib/pod/command/podfile_info.rb:78 | the `collect!` block: a Hash becomes `keys.first` (nil when empty), anything else is kept; its effect is stated by `PodsFromPodfile` and `PodfileListingHash` |
| `Listing.PodfileListingAppend` | lib/pod/command/podfile_info.rb:74-78 | Podfile entries are listed independently and in order: the listing of `a + b` is the listing of `a` followed by that of `b` |
| `Listing.PodfileListingHash` | lib/pod/command/podfile_info.rb:78 | a Hash entry with at least one key is listed as exactly its first key |
| `Listing.PodsFromPodfile` | lib/pod/command/podfile_info.rb:73-79 | the result has the length and order of the flattened entries; a Hash becomes its first key (nil when empty); every other entry is unchanged |
| `Listing.Expand` | lib/pod/command/podfile_info.rb:46-51 | one lockfile entry before `flatten!`: the reverse lookup's dependencies as a nested array, or the entry itself when the lookup raises; stated by `LockListingSingle` |
| `Listing.LockfilePods` | lib/pod/command/podfile_info.rb:45-53 | the lockfile branch gives `LockListing` of the lockfile's entries |
| `Listing.LockListingAppend` | lib/pod/command/podfile_info.rb:46-53 | entries are expanded independently and in order: the listing of `a + b` is the listing of `a` followed by that of `b` |
| `Listing.LockListingSingle` | lib/pod/command/podfile_info.rb:46-52 | an entry contributes its reverse-lookup dependencies, or itself when the lookup raises, so one failing entry never aborts the listing |
| `Listing.LockListingDeps` | lib/pod/command/podfile_info.rb:46-53 | every element of the lockfile listing is a dependency |
| `Metadata.RecordKeepsSpec` | lib/pod/command/podfile_info.rb:89-95 | a record built from a spec gives back the spec's seven requested attributes unchanged (`swift_versions` element by element through `to_s`), and carries the dependency's `specific_version.to_s` and `requirement.to_s` |
| `Metadata.FirstSpec` | lib/pod/command/podfile_info.rb:85 | `search_by_name(name).first rescue nil`: the first spec found, nil for an empty result or a raised search; stated by `HitRescue` |
| `Metadata.Hit` | lib/pod/command/podfile_info.rb:85-97 | one iteration of the loop: a record for a dependency whose search finds a spec, nothing otherwise; stated by `HitRescue` |
| `Metadata.HitRescue` | lib/pod/command/podfile_info.rb:85-97 | a listed value yields a record iff it is a dependency and the search for its name returns at least one spec; the record is built from the first spec |
| `Metadata.PodsInfoHash` | lib/pod/command/podfile_info.rb:81-100 | the loop's records equal `Join` of the listing |
| `Metadata.JoinAppend` | lib/pod/command/podfile_info.rb:84-98 | the join of `a + b` is the join of `a` followed by the join of `b`, so input order is kept |
| `Metadata.JoinBound` | lib/pod/command/podfile_info.rb:84-99 | there are never more records than listed values |
| `Metadata.HitIndicesMatch` | lib/pod/command/podfile_info.rb:84-99 | there is one hit position per record, and record `k` is the hit of the listed value at the `k`-th hit position |
| `Metadata.HitIndicesIncrease` | lib/pod/command/podfile_info.rb:84-99 | the hit positions are valid positions of the listing, in strictly increasing order |
| `Metadata.HitIndicesCover` | lib/pod/command/podfile_info.rb:84-99 | every listed value whose lookup finds a spec has its position among the hit positions |
| `Metadata.JoinSelects` | lib/pod/command/podfile_info.rb:84-99 | record `k` is the hit of listed value `idx[k]`; the indices increase; every value whose lookup finds a spec is among them |
| `Metadata.JoinEmpty` | lib/pod/command/podfile_info.rb:84-99 | the join is empty iff no listed value is found; empty results, raised searches and nameless values all count as not found |
| `Exporters.ExportCsv` | lib/pod/command/podfile_info.rb:118-131 | the output is the CSV header followed by one row per record, in order |
| `Exporters.CsvRow` | lib/pod/command/podfile_info.rb:129 | the interpolated CSV row; its fields are stated by `CsvRowRoundTrip`, `CsvCommaInSummary` and `CsvExample` |
| `Exporters.CsvRowRoundTrip` | lib/pod/command/podfile_info.rb:129 | when no field holds a comma, cutting a row at its commas gives back the five fields name, installed version, homepage, quoted summary, quoted license type |
| `Exporters.CsvCommaInSummary` | lib/pod/command/podfile_info.rb:129 | nothing is escaped: a comma in the summary makes the row read as six fields |
| `Exporters.CsvExample` | lib/pod/command/podfile_info.rb:129 | pod A at 1.0 with homepage h, summary s and an MIT license prints `A,1.0,h,"s","MIT"` |
| `Strings.Includes` | lib/pod/command/podfile_info.rb:134 | `include?` is true iff the substring occurs at some position |
| `Exporters.ReleasesPath` | lib/pod/command/podfile_info.rb:137 | `File.join(url, "releases")`: exactly one `/` between the two parts; stated by `ReleaseUrlTrailingSlash` and `ReleaseUrlGithub` |
| `Exporters.ReleaseUrl` | lib/pod/command/podfile_info.rb:133-140 | no link iff the homepage does not contain `github.com`; otherwise `[Releases](` + `File.join(url, "releases")` + `)` |
| `Exporters.ReleaseUrlTrailingSlash` | lib/pod/command/podfile_info.rb:137 | a trailing `/` on the homepage changes neither whether there is a link nor the link, so `File.join` never doubles the separator |
| `Exporters.ReleaseUrlGithub` | lib/pod/command/podfile_info.rb:133-140 | `https://github.com/<owner>/<repo>`, with or without a trailing `/`, links to `https://github.com/<owner>/<repo>/releases` |
| `Exporters.ReleaseUrlElsewhere` | lib/pod/command/podfile_info.rb:134-136 | `https://example.com` gets no link |
| `Exporters.Quote` | lib/pod/command/podfile_info.rb:153 | `String#inspect` of one `swift_versions` element: the escaped text between double quotes; stated by `InspectPlain` |
| `Exporters.Escape` | lib/pod/command/podfile_info.rb:153 | the escaping `String#inspect` applies: a backslash before `"`, `\` and a `#` that starts `#{`, `#$` or `#@`; stated by `EscapePlain` and `EscapeRoundTrip` |
| `Exporters.EscapePlain` | lib/pod/command/podfile_info.rb:153 | a string with nothing to escape is unchanged |
| `Exporters.EscapeRoundTrip` | lib/pod/command/podfile_info.rb:153 | escaping loses nothing: reading the escaped text back, where a backslash stands for the character after it, gives the original string |
| `Exporters.Inspect` | lib/pod/command/podfile_info.rb:153 | `Array#to_s` of the `swift_versions` strings; stated by `InspectPlain` |
| `Exporters.InspectPlain` | lib/pod/command/podfile_info.rb:153 | for strings with nothing to escape, the array prints as each string in double quotes, separated by `, `, between brackets |
| `Exporters.MdPieces` | lib/pod/command/podfile_info.rb:153 | the cells of one Markdown row between its pipe characters, in header order; stated by `MdRowColumns` |
| `Exporters.MdRow` | lib/pod/command/podfile_info.rb:164 | the Markdown row printed for one record, the same text as the file row of line 153 without its newline; stated by `MdRowColumns` |
| `Exporters.MdRowColumns` | lib/pod/command/podfile_info.rb:153 | when no cell holds a pipe character, a row splits into exactly the header's eight cells, in header order, after an empty leading piece |
| `Exporters.MdOutputShape` | lib/pod/command/podfile_info.rb:144-165 | the file receives the whole table before the console gets any line; both receive the two header lines then one row per record, with a newline only in the file |
| `Exporters.WriteMdFile` | lib/pod/command/podfile_info.rb:147-155 | the file receives the two header lines, then one row per record, each line with a newline, in record order |
| `Exporters.PutsMd` | lib/pod/command/podfile_info.rb:157-165 | the console receives the same two header lines and one row per record, in record order |
| `Exporters.ExportMd` | lib/pod/command/podfile_info.rb:142-166 | without an output path it fails before writing anything; otherwise its events are `MdOutput` |
| `Exporters.Headline` | lib/pod/command/podfile_info.rb:172 | `- name (installed version) [license type]`; its place in the output is stated by `TextOutputShape` |
| `Exporters.SummaryLine` | lib/pod/command/podfile_info.rb:173 | two spaces, the summary, then two newlines; its place in the output is stated by `TextOutputShape` |
| `Exporters.TextOutputShape` | lib/pod/command/podfile_info.rb:171-174 | exactly two console lines per record, in record order: `- name (version) [license]`, then the indented summary and two newlines |
| `Exporters.ExportDefault` | lib/pod/command/podfile_info.rb:168-175 | its events are `TextOutput` of the records |
| `Exporters.EmptyReport` | lib/pod/command/podfile_info.rb:118-175 | with no record, CSV prints only its header, text prints nothing, and Markdown writes and prints only its two header lines |
| `Exporters.Report` | lib/pod/command/podfile_info.rb:107-116 | `:md` calls the Markdown exporter, `:csv` the CSV exporter, and anything else the plain-text exporter |

## Left out

- Output sinks: `UI.puts`, `puts` and `File.open` are not modelled as I/O. Their effect is the
  event trace. A failure to open a writable `--output` path is not modelled; only the missing
  path is.
- Terminal colouring (`.yellow`, `.green`, lines 69 and 172): the ANSI colour codes these add
  to the printed text are not in the trace.
- Verbose and debug prints (lines 43, 55, 77, 86 and 88): they do not affect the report. The
  `puts` calls of lines 86 and 88 go to standard output once per listed value and once per hit.
  They are not in the trace.
- Command-line parsing (`self.options`, `argv.flag?`, `argv.option`, `argv.shift_argument`,
  lines 15-22 and 25-35): the constructor takes the flags as booleans and the path and output
  as options.
- `--all` (lines 25, 56-59): its branch has no statements. The constructor keeps the flag and
  nothing reads it.
- The `style` value (lines 31-32, 120-123): it is always `:table` and has no effect, so it is
  not a parameter.
- `verify_lockfile_exists!` (line 44): it cannot fail on the lockfile branch, which is taken
  only when a lockfile exists.
- The default `keys` argument of `pods_info_hash` (line 81): it is never used. Only the
  seven-key call from `pods_info` is modelled.
- The caching of `config.sources_manager` in `@sources_manager` (line 83): it is an object
  handle, not data.
- Registry attributes are plain values. Versions are represented by their
  `to_s` text, so the element-wise `to_s` of `swift_versions` is a projection. `name`,
  `homepage` and `summary` are strings, as a valid podspec requires. A spec without a homepage
  would make `md_release_url` raise on `nil`, and this is not modelled.
- Exporters.Escape: `String#inspect` also writes control characters, and characters the
  output encoding cannot show, as escape sequences. This is not modelled; version strings do not
  hold such characters.
- Dependencies and specs are CocoaPods objects in the source. Here they are datatypes holding
  only the attributes the command reads.
