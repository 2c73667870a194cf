/** The `pod podfile-info` command: option handling, the choice of where
    the dependencies come from, and the whole run. */
module Command {
  import opened Types
  import opened Listing
  import opened Metadata
  import opened Exporters

  const PODS_USED := "\nPods used:\n"

  /** What the command sees of the project and of CocoaPods: the lockfile
      and the default Podfile when the project has them, the Podfiles that
      `Pod::Podfile.from_file` can load, by path, and the registry search. */
  datatype Environment = Environment(
    lockfile: Option<Lockfile>,
    podfile: Option<Podfile>,
    podfilesOnDisk: map<string, Podfile>,
    search: string -> SearchOutcome)

  /** How a run ends: the report's events, or an error and what was
      printed before it. */
  datatype RunOutcome =
    | Finished(events: seq<Event>)
    | Aborted(error: RunError, events: seq<Event>)

  /** The dependency list `run` reports on. An explicit Podfile path wins;
      without one, a missing lockfile means the default Podfile; otherwise
      the lockfile is expanded entry by entry. */
  function SelectSource(podfilePath: Option<string>, env: Environment): (r: Result<seq<Item>>)
    ensures podfilePath.Some? ==>
      r == (if podfilePath.value in env.podfilesOnDisk
            then Ok(PodfileListing(env.podfilesOnDisk[podfilePath.value].dependencies))
            else Err(PodfileNotFound(podfilePath.value)))
    ensures podfilePath.None? && env.lockfile.None? ==>
      r == (if env.podfile.Some? then Ok(PodfileListing(env.podfile.value.dependencies)) else Err(NoPodfile))
    ensures podfilePath.None? && env.lockfile.Some? ==>
      r == Ok(LockListing(env.lockfile.value, env.lockfile.value.dependencies))
    ensures r.Err? <==>
      (podfilePath.Some? && podfilePath.value !in env.podfilesOnDisk) ||
      (podfilePath.None? && env.lockfile.None? && env.podfile.None?)
  {
    var usePodfile := podfilePath.Some? || env.lockfile.None?;
    if !usePodfile then
      Ok(LockListing(env.lockfile.value, env.lockfile.value.dependencies))
    else if podfilePath.Some? then
      if podfilePath.value in env.podfilesOnDisk
      then Ok(PodfileListing(env.podfilesOnDisk[podfilePath.value].dependencies))
      else Err(PodfileNotFound(podfilePath.value))
    else if env.podfile.Some? then
      Ok(PodfileListing(env.podfile.value.dependencies))
    else
      Err(NoPodfile)
  }

  /** An explicit Podfile path makes the lockfile and the default Podfile irrelevant. */
  lemma ExplicitPathFirst(path: string, env: Environment, lockfile: Option<Lockfile>, podfile: Option<Podfile>)
    ensures SelectSource(Some(path), env) == SelectSource(Some(path), env.(lockfile := lockfile, podfile := podfile))
  {
  }

  /** With a lockfile and no explicit path, the default Podfile and the
      Podfiles on disk are never read. */
  lemma LockfileBeforeDefaultPodfile(env: Environment, podfile: Option<Podfile>, disk: map<string, Podfile>)
    requires env.lockfile.Some?
    ensures SelectSource(None, env) == SelectSource(None, env.(podfile := podfile, podfilesOnDisk := disk))
  {
  }

  /** The whole run: the listing, then the banner, the join and the report. */
  function RunOutput(podfilePath: Option<string>, format: Format, output: Option<string>, env: Environment): RunOutcome
  {
    match SelectSource(podfilePath, env)
    case Err(e) => Aborted(e, [])
    case Ok(pods) =>
      match ReportOutput(Join(pods, env.search), format, output)
      case Ok(events) => Finished([Console(PODS_USED)] + events)
      case Err(e) => Aborted(e, [Console(PODS_USED)])
  }

  /** A run fails only when no dependency source can be loaded, or when
      Markdown is asked for without an output file; an empty registry
      answer is not a failure. */
  lemma RunFailsOnlyOnConfig(podfilePath: Option<string>, format: Format, output: Option<string>, env: Environment)
    ensures RunOutput(podfilePath, format, output, env).Aborted? <==>
      SelectSource(podfilePath, env).Err? || (format == Md && output.None?)
    ensures RunOutput(podfilePath, format, output, env).Aborted? && SelectSource(podfilePath, env).Err? ==>
      RunOutput(podfilePath, format, output, env).events == []
  {
  }

  /** When the registry finds none of the listed dependencies, the report
      holds the banner and the format's header lines only. */
  lemma RunWithoutMatches(podfilePath: Option<string>, format: Format, output: Option<string>, env: Environment)
    requires SelectSource(podfilePath, env).Ok?
    requires forall i :: 0 <= i < |SelectSource(podfilePath, env).value| ==>
      Hit(SelectSource(podfilePath, env).value[i], env.search).None?
    ensures format == Csv ==> RunOutput(podfilePath, format, output, env) == Finished([Console(PODS_USED), Console(CSV_HEADER)])
    ensures format == Text ==> RunOutput(podfilePath, format, output, env) == Finished([Console(PODS_USED)])
    ensures format == Md && output.Some? ==>
      RunOutput(podfilePath, format, output, env) ==
        Finished([Console(PODS_USED), FileWrite(output.value, MD_HEADER_1 + "\n"),
                  FileWrite(output.value, MD_HEADER_2 + "\n"), Console(MD_HEADER_1), Console(MD_HEADER_2)])
  {
    JoinEmpty(SelectSource(podfilePath, env).value, env.search);
    if output.Some? {
      EmptyReport(output.value);
    }
  }

  /** A Podfile entry given as a Hash is reduced to its first key; when
      that key is a plain string it has no `name`, so the lookup raises,
      the `rescue` swallows it and the entry adds nothing to the report,
      wherever it stands among the other entries. */
  lemma StringKeyedHashesDropped(a: seq<Item>, key: string, rest: seq<Item>, b: seq<Item>, search: string -> SearchOutcome)
    ensures Join(PodfileListing(a + [Hash([Str(key)] + rest)] + b), search) == Join(PodfileListing(a + b), search)
  {
    var h := Hash([Str(key)] + rest);
    var la, lb := PodfileListing(a), PodfileListing(b);
    var dropped := [Str(key)];
    assert PodfileListing(a + [h] + b) == la + dropped + lb by {
      PodfileListingAppend(a + [h], b);
      PodfileListingAppend(a, [h]);
      PodfileListingHash([Str(key)] + rest);
    }
    assert Join(dropped, search) == [] by {
      assert dropped[..0] == [];
    }
    calc {
      Join(la + dropped + lb, search);
      { JoinAppend(la + dropped, lb, search); }
      Join(la + dropped, search) + Join(lb, search);
      { JoinAppend(la, dropped, search); }
      Join(la, search) + Join(lb, search);
      { JoinAppend(la, lb, search); }
      Join(la + lb, search);
      { PodfileListingAppend(a, b); }
      Join(PodfileListing(a + b), search);
    }
  }

  /** `pods_info`: join the listing with the registry, then report. */
  method PodsInfo(pods: seq<Item>, format: Format, output: Option<string>, search: string -> SearchOutcome)
    returns (result: Result<seq<Event>>)
    ensures result == ReportOutput(Join(pods, search), format, output)
  {
    var info := PodsInfoHash(pods, search);
    result := Report(info, format, output);
  }

  /** The command object: the options it was created with. */
  class PodfileInfo {
    var infoAll: bool
    var format: Format
    var output: Option<string>
    var podfilePath: Option<string>

    /** `initialize`: the format starts as text, `--md` makes it Markdown,
        and `--csv` makes it CSV whatever `--md` said. */
    constructor (all: bool, md: bool, csv: bool, output: Option<string>, podfilePath: Option<string>)
      ensures infoAll == all && this.output == output && this.podfilePath == podfilePath
      ensures format == Csv <==> csv
      ensures format == Md <==> md && !csv
      ensures format == Text <==> !md && !csv
    {
      infoAll := all;
      format := Text;
      if md {
        format := Md;
      }
      if csv {
        format := Csv;
      }
      this.output := output;
      this.podfilePath := podfilePath;
    }

    /** `run`: list the dependencies from the chosen source, print the
        banner, then join and report. */
    method Run(env: Environment) returns (outcome: RunOutcome)
      ensures outcome == RunOutput(podfilePath, format, output, env)
    {
      var usePodfile := podfilePath.Some? || env.lockfile.None?;
      var pods: seq<Item>;
      if !usePodfile {
        pods := LockfilePods(env.lockfile.value);
      } else if podfilePath.Some? {
        if podfilePath.value !in env.podfilesOnDisk {
          return Aborted(PodfileNotFound(podfilePath.value), []);
        }
        pods := PodsFromPodfile(env.podfilesOnDisk[podfilePath.value]);
      } else {
        if env.podfile.None? {
          return Aborted(NoPodfile, []);
        }
        pods := PodsFromPodfile(env.podfile.value);
      }
      var banner := [Console(PODS_USED)];
      var result := PodsInfo(pods, format, output, env.search);
      match result {
        case Ok(events) =>
          outcome := Finished(banner + events);
        case Err(e) =>
          outcome := Aborted(e, banner);
      }
    }
  }
}
