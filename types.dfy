/** The values that flow through the `pod podfile-info` report pipeline:
    dependency references, registry specifications, report records and
    the events written to the console and to the output file. */
module Types {

  datatype Option<+T> = None | Some(value: T)

  /** An error that ends a run of the command. */
  datatype RunError =
    | NoPodfile                       // no explicit path, no lockfile and no default Podfile
    | PodfileNotFound(path: string)   // the explicit Podfile path could not be loaded
    | NoOutputFile                    // Markdown chosen without `--output`: the file cannot be opened

  datatype Result<+T> = Ok(value: T) | Err(error: RunError)

  /** The report format chosen on the command line. */
  datatype Format = Text | Md | Csv

  /** A CocoaPods version object, represented by what its `to_s` prints. */
  datatype Version = Version(text: string)

  /** A CocoaPods dependency: a pod name with its version requirement and,
      when it pins one, the specific (installed) version. */
  datatype Dependency = Dependency(name: string, specificVersion: Option<Version>, requirement: string)

  /** A value found in a dependency list. Only a `Dep` answers to `name`;
      a `Hash` is kept with its keys in insertion order, an `Arr` is a
      nested array that `flatten!` splices into its parent. */
  datatype Item =
    | Dep(dep: Dependency)
    | Hash(keys: seq<Item>)
    | Arr(items: seq<Item>)
    | Str(s: string)
    | Nil

  /** A Podfile as loaded: its declared dependency entries, in order. */
  datatype Podfile = Podfile(dependencies: seq<Item>)

  /** A lockfile: its `DEPENDENCIES` entries, and the reverse lookup
      `dependencies_to_lock_pod_named`, which gives the dependencies that
      lock a pod of that name or raises (`None`). */
  datatype Lockfile = Lockfile(
    dependencies: seq<Dependency>,
    dependenciesToLockPodNamed: string -> Option<seq<Dependency>>)

  /** The license attribute of a specification: a hash whose `:type` may be missing. */
  datatype License = License(licenseType: Option<string>)

  /** The attributes of a registry specification that the report reads. */
  datatype Spec = Spec(
    name: string,
    version: Version,
    homepage: string,
    summary: string,
    license: License,
    swiftVersions: seq<Version>,
    swiftVersion: Option<Version>)

  /** One report row: the requested specification attributes, with the
      array attribute turned into strings, plus the dependency's installed
      version and requirement. */
  datatype Record = Record(
    name: string,
    version: Version,
    homepage: string,
    summary: string,
    license: License,
    swiftVersions: seq<string>,
    swiftVersion: Option<Version>,
    specificVersion: string,
    requirement: string)

  /** What a registry search by name gives: the matching specifications,
      or an exception. */
  datatype SearchOutcome = Results(specs: seq<Spec>) | Raises

  /** One write to a sink: a line for the console (`UI.puts`) or a chunk
      of text written to the file at `path`. */
  datatype Event = Console(line: string) | FileWrite(path: string, text: string)

  /** Ruby's `to_s` on a value that may be nil: nil prints as the empty string. */
  function OrEmpty(o: Option<string>): string
  {
    match o
    case None => ""
    case Some(v) => v
  }

  /** `to_s` on an optional version. */
  function VersionText(o: Option<Version>): string
  {
    match o
    case None => ""
    case Some(v) => v.text
  }
}
