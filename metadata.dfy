/** Joining the listed dependencies with registry metadata
    (`pods_info_hash`): one record per dependency the registry knows. */
module Metadata {
  import opened Types

  /** `search_by_name(name).first rescue nil`: the first specification the
      search finds; an empty result and a raised search are both nil. */
  function FirstSpec(search: string -> SearchOutcome, name: string): Option<Spec>
  {
    match search(name)
    case Results(specs) => if |specs| > 0 then Some(specs[0]) else None
    case Raises => None
  }

  /** The record for dependency `d` found as `spec`: the seven requested
      attributes (the array attribute `swift_versions` converted element by
      element with `to_s`), then `specific_version.to_s` and `requirement.to_s`. */
  function BuildRecord(d: Dependency, spec: Spec): Record
  {
    Record(
      spec.name, spec.version, spec.homepage, spec.summary, spec.license,
      seq(|spec.swiftVersions|, i requires 0 <= i < |spec.swiftVersions| => spec.swiftVersions[i].text),
      spec.swiftVersion,
      VersionText(d.specificVersion), d.requirement)
  }

  /** The specification attributes a record carries, read back. */
  function RecordSpec(r: Record): Spec
  {
    Spec(r.name, r.version, r.homepage, r.summary, r.license,
      seq(|r.swiftVersions|, i requires 0 <= i < |r.swiftVersions| => Version(r.swiftVersions[i])),
      r.swiftVersion)
  }

  /** A record keeps every requested attribute of the specification it was
      built from, and the dependency's installed version and requirement. */
  lemma RecordKeepsSpec(d: Dependency, spec: Spec)
    ensures RecordSpec(BuildRecord(d, spec)) == spec
    ensures BuildRecord(d, spec).specificVersion == VersionText(d.specificVersion)
    ensures BuildRecord(d, spec).requirement == d.requirement
  {
    var r := BuildRecord(d, spec);
    var vs := seq(|r.swiftVersions|, i requires 0 <= i < |r.swiftVersions| => Version(r.swiftVersions[i]));
    assert vs == spec.swiftVersions;
  }

  /** What one listed value yields: a record when it is a dependency whose
      name the registry finds. Any other value has no `name`; the call
      raises inside the `rescue` and the value is skipped. */
  function Hit(pod: Item, search: string -> SearchOutcome): Option<Record>
  {
    match pod
    case Dep(d) =>
      (match FirstSpec(search, d.name)
       case Some(spec) => Some(BuildRecord(d, spec))
       case None => None)
    case _ => None
  }

  function HitList(pod: Item, search: string -> SearchOutcome): seq<Record>
  {
    match Hit(pod, search)
    case Some(r) => [r]
    case None => []
  }

  /** The records `pods_info_hash` returns for `pods`. */
  function Join(pods: seq<Item>, search: string -> SearchOutcome): seq<Record>
  {
    if |pods| == 0 then []
    else Join(pods[..|pods| - 1], search) + HitList(pods[|pods| - 1], search)
  }

  /** A listed value yields a record exactly when it is a dependency and the
      search for its name returns at least one specification; the record is
      built from the first one. A raised search, an empty result and a value
      without a `name` all yield nothing. */
  lemma HitRescue(pod: Item, search: string -> SearchOutcome)
    ensures Hit(pod, search).Some? <==>
      pod.Dep? && search(pod.dep.name).Results? && |search(pod.dep.name).specs| > 0
    ensures Hit(pod, search).Some? ==>
      Hit(pod, search).value == BuildRecord(pod.dep, search(pod.dep.name).specs[0])
  {
  }

  /** `pods_info_hash`: look every listed value up, in order, and append a
      record for each one found. */
  method PodsInfoHash(pods: seq<Item>, search: string -> SearchOutcome) returns (info: seq<Record>)
    ensures info == Join(pods, search)
  {
    info := [];
    var i := 0;
    while i < |pods|
      invariant 0 <= i <= |pods|
      invariant info == Join(pods[..i], search)
    {
      assert pods[..i + 1][..i] == pods[..i];
      var pod := pods[i];
      var spec := if pod.Dep? then FirstSpec(search, pod.dep.name) else None;
      if spec.Some? {
        info := info + [BuildRecord(pod.dep, spec.value)];
      }
      i := i + 1;
    }
    assert pods[..|pods|] == pods;
  }

  /** The join processes values independently: joining `a + b` is joining
      `a`, then `b`. */
  lemma {:induction false} JoinAppend(a: seq<Item>, b: seq<Item>, search: string -> SearchOutcome)
    ensures Join(a + b, search) == Join(a, search) + Join(b, search)
    decreases |b|
  {
    if |b| == 0 {
      assert a + b == a;
    } else {
      var n := |b| - 1;
      assert (a + b)[..|a + b| - 1] == a + b[..n];
      assert (a + b)[|a + b| - 1] == b[n];
      JoinAppend(a, b[..n], search);
    }
  }

  /** There are never more records than listed values. */
  lemma {:induction false} JoinBound(pods: seq<Item>, search: string -> SearchOutcome)
    ensures |Join(pods, search)| <= |pods|
    decreases |pods|
  {
    if |pods| > 0 {
      JoinBound(pods[..|pods| - 1], search);
    }
  }

  /** The positions of the listed values that yield a record, in order. */
  function HitIndices(pods: seq<Item>, search: string -> SearchOutcome): seq<int>
  {
    if |pods| == 0 then []
    else HitIndices(pods[..|pods| - 1], search) + (if Hit(pods[|pods| - 1], search).Some? then [|pods| - 1] else [])
  }

  /** Record `k` is the hit of the value at the `k`-th hit position. */
  lemma {:induction false} HitIndicesMatch(pods: seq<Item>, search: string -> SearchOutcome)
    ensures |HitIndices(pods, search)| == |Join(pods, search)|
    ensures forall k :: 0 <= k < |HitIndices(pods, search)| ==>
      0 <= HitIndices(pods, search)[k] < |pods| &&
      Hit(pods[HitIndices(pods, search)[k]], search) == Some(Join(pods, search)[k])
    decreases |pods|
  {
    if |pods| > 0 {
      var n := |pods| - 1;
      var front := pods[..n];
      HitIndicesMatch(front, search);
      var prev := HitIndices(front, search);
      var idx := HitIndices(pods, search);
      var joined := Join(pods, search);
      forall k | 0 <= k < |idx|
        ensures 0 <= idx[k] < |pods| && Hit(pods[idx[k]], search) == Some(joined[k])
      {
        if k < |prev| {
          assert idx[k] == prev[k];
          assert pods[prev[k]] == front[prev[k]];
          assert joined[k] == Join(front, search)[k];
        }
      }
    }
  }

  /** The hit positions increase strictly. */
  lemma {:induction false} HitIndicesIncrease(pods: seq<Item>, search: string -> SearchOutcome)
    ensures forall k :: 0 <= k < |HitIndices(pods, search)| ==> 0 <= HitIndices(pods, search)[k] < |pods|
    ensures forall k, l :: 0 <= k < l < |HitIndices(pods, search)| ==> HitIndices(pods, search)[k] < HitIndices(pods, search)[l]
    decreases |pods|
  {
    if |pods| > 0 {
      HitIndicesIncrease(pods[..|pods| - 1], search);
    }
  }

  /** Every value that yields a record has its position among the hit positions. */
  lemma {:induction false} HitIndicesCover(pods: seq<Item>, search: string -> SearchOutcome)
    ensures forall i :: 0 <= i < |pods| && Hit(pods[i], search).Some? ==> i in HitIndices(pods, search)
    decreases |pods|
  {
    if |pods| > 0 {
      var n := |pods| - 1;
      var front := pods[..n];
      HitIndicesCover(front, search);
      forall i | 0 <= i < n && Hit(pods[i], search).Some?
        ensures i in HitIndices(pods, search)
      {
        assert front[i] == pods[i];
      }
    }
  }

  /** The records are exactly the hits, in listing order: record `k` is the
      hit of value `idx[k]`, the indices increase, and every value that is
      found has its index in `idx`. */
  lemma JoinSelects(pods: seq<Item>, search: string -> SearchOutcome) returns (idx: seq<int>)
    ensures |idx| == |Join(pods, search)|
    ensures forall k :: 0 <= k < |idx| ==> 0 <= idx[k] < |pods| && Hit(pods[idx[k]], search) == Some(Join(pods, search)[k])
    ensures forall k, l :: 0 <= k < l < |idx| ==> idx[k] < idx[l]
    ensures forall i :: 0 <= i < |pods| && Hit(pods[i], search).Some? ==> i in idx
  {
    idx := HitIndices(pods, search);
    HitIndicesMatch(pods, search);
    HitIndicesIncrease(pods, search);
    HitIndicesCover(pods, search);
  }

  /** No record at all exactly when no listed value is found. */
  lemma {:induction false} JoinEmpty(pods: seq<Item>, search: string -> SearchOutcome)
    ensures Join(pods, search) == [] <==> forall i :: 0 <= i < |pods| ==> Hit(pods[i], search).None?
    decreases |pods|
  {
    if |pods| > 0 {
      var n := |pods| - 1;
      JoinEmpty(pods[..n], search);
      assert forall i :: 0 <= i < n ==> pods[..n][i] == pods[i];
    }
  }
}
