/** Listing the dependencies to report on: the entries of a Podfile, or
    the entries of the lockfile expanded through its reverse lookup. */
module Listing {
  import opened Types

  /** What one element contributes to `flatten!`: a nested array its own
      flattened elements, anything else itself. */
  function Spliced(item: Item): seq<Item>
    decreases item, 0
  {
    match item
    case Arr(xs) => Flatten(xs)
    case _ => [item]
  }

  /** Ruby's `flatten`: nested arrays spliced in place, at every depth, in order. */
  function Flatten(items: seq<Item>): seq<Item>
    decreases items, 1
  {
    if |items| == 0 then []
    else Flatten(items[..|items| - 1]) + Spliced(items[|items| - 1])
  }

  /** No element is an array. */
  predicate IsFlat(items: seq<Item>)
  {
    forall i :: 0 <= i < |items| ==> !items[i].Arr?
  }

  /** Flattening distributes over concatenation. */
  lemma {:induction false} FlattenAppend(a: seq<Item>, b: seq<Item>)
    ensures Flatten(a + b) == Flatten(a) + Flatten(b)
    decreases |b|
  {
    if |b| == 0 {
      assert a + b == a;
    } else {
      var n := |b| - 1;
      assert (a + b)[..|a + b| - 1] == a + b[..n];
      assert (a + b)[|a + b| - 1] == b[n];
      FlattenAppend(a, b[..n]);
    }
  }

  /** The result of `flatten!` holds no array. */
  lemma {:induction false} FlattenIsFlat(items: seq<Item>)
    ensures IsFlat(Flatten(items))
    decreases items, 1
  {
    if |items| > 0 {
      FlattenIsFlat(items[..|items| - 1]);
      var last := items[|items| - 1];
      if last.Arr? {
        FlattenIsFlat(last.items);
      }
    }
  }

  /** `flatten!` leaves a flat array as it is. */
  lemma {:induction false} FlattenOfFlat(items: seq<Item>)
    requires IsFlat(items)
    ensures Flatten(items) == items
    decreases |items|
  {
    if |items| > 0 {
      FlattenOfFlat(items[..|items| - 1]);
      assert items[..|items| - 1] + [items[|items| - 1]] == items;
    }
  }

  /** Flattening twice is flattening once. */
  lemma FlattenIdempotent(items: seq<Item>)
    ensures Flatten(Flatten(items)) == Flatten(items)
  {
    FlattenIsFlat(items);
    FlattenOfFlat(Flatten(items));
  }

  /** `flatten!` in place: the array is rebuilt element by element. */
  method FlattenInPlace(items: seq<Item>) returns (flat: seq<Item>)
    ensures flat == Flatten(items)
    ensures IsFlat(flat)
  {
    flat := [];
    var i := 0;
    while i < |items|
      invariant 0 <= i <= |items|
      invariant flat == Flatten(items[..i])
    {
      assert items[..i + 1][..i] == items[..i];
      flat := flat + Spliced(items[i]);
      i := i + 1;
    }
    assert items[..|items|] == items;
    FlattenIsFlat(items);
  }

  /** The `collect!` step of `pods_from_podfile`: a Hash entry becomes its
      first key (`keys.first`, nil for an empty Hash); any other entry is kept. */
  function Normalize(item: Item): Item
  {
    match item
    case Hash(keys) => if |keys| > 0 then keys[0] else Nil
    case _ => item
  }

  /** The dependency list `pods_from_podfile` returns for a Podfile's entries. */
  function PodfileListing(dependencies: seq<Item>): (pods: seq<Item>)
  {
    var flat := Flatten(dependencies);
    seq(|flat|, i requires 0 <= i < |flat| => Normalize(flat[i]))
  }

  /** Podfile entries are listed independently and in order. */
  lemma PodfileListingAppend(a: seq<Item>, b: seq<Item>)
    ensures PodfileListing(a + b) == PodfileListing(a) + PodfileListing(b)
  {
    FlattenAppend(a, b);
  }

  /** A Hash entry is listed as its first key. */
  lemma PodfileListingHash(keys: seq<Item>)
    requires |keys| > 0
    ensures PodfileListing([Hash(keys)]) == [keys[0]]
  {
    var h := Hash(keys);
    assert [h][..0] == [];
    assert Flatten([h]) == [h];
  }

  /** `pods_from_podfile`: copy the entries, `flatten!`, then `collect!`
      each Hash to its first key. */
  method PodsFromPodfile(podfile: Podfile) returns (pods: seq<Item>)
    ensures pods == PodfileListing(podfile.dependencies)
    ensures |pods| == |Flatten(podfile.dependencies)|
    ensures forall i :: 0 <= i < |pods| ==>
      var e := Flatten(podfile.dependencies)[i];
      (e.Hash? && |e.keys| > 0 ==> pods[i] == e.keys[0]) &&
      (e.Hash? && |e.keys| == 0 ==> pods[i] == Nil) &&
      (!e.Hash? ==> pods[i] == e)
  {
    pods := [];
    var i := 0;
    while i < |podfile.dependencies|
      invariant 0 <= i <= |podfile.dependencies|
      invariant pods == podfile.dependencies[..i]
    {
      pods := pods + [podfile.dependencies[i]];
      i := i + 1;
    }
    assert pods == podfile.dependencies;
    pods := FlattenInPlace(pods);
    ghost var flat := pods;
    var j := 0;
    while j < |pods|
      invariant 0 <= j <= |pods| == |flat|
      invariant forall k :: 0 <= k < j ==> pods[k] == Normalize(flat[k])
      invariant forall k :: j <= k < |pods| ==> pods[k] == flat[k]
    {
      pods := pods[j := Normalize(pods[j])];
      j := j + 1;
    }
  }

  /** The lockfile's entries as `pods` holds them before `flatten!`: the
      reverse lookup's dependencies as a nested array, or, when the lookup
      raises, the entry itself. */
  function Expand(lockfile: Lockfile, d: Dependency): Item
  {
    match lockfile.dependenciesToLockPodNamed(d.name)
    case Some(ds) => Arr(DepItems(ds))
    case None => Dep(d)
  }

  function DepItems(ds: seq<Dependency>): (items: seq<Item>)
    ensures |items| == |ds| && IsFlat(items)
  {
    seq(|ds|, i requires 0 <= i < |ds| => Dep(ds[i]))
  }

  /** The dependency list `run` builds from the entries `deps` of a lockfile. */
  function LockListing(lockfile: Lockfile, deps: seq<Dependency>): seq<Item>
  {
    Flatten(seq(|deps|, i requires 0 <= i < |deps| => Expand(lockfile, deps[i])))
  }

  /** What one lockfile entry adds to the listing. */
  function Contribution(lockfile: Lockfile, d: Dependency): seq<Item>
  {
    match lockfile.dependenciesToLockPodNamed(d.name)
    case Some(ds) => DepItems(ds)
    case None => [Dep(d)]
  }

  /** The lockfile branch of `run`: map every entry through the reverse
      lookup, falling back to the entry when it raises, then `flatten!`. */
  method LockfilePods(lockfile: Lockfile) returns (pods: seq<Item>)
    ensures pods == LockListing(lockfile, lockfile.dependencies)
  {
    var deps := lockfile.dependencies;
    var mapped: seq<Item> := [];
    var i := 0;
    while i < |deps|
      invariant 0 <= i <= |deps|
      invariant |mapped| == i
      invariant forall k :: 0 <= k < i ==> mapped[k] == Expand(lockfile, deps[k])
    {
      match lockfile.dependenciesToLockPodNamed(deps[i].name) {
        case Some(ds) =>
          mapped := mapped + [Arr(DepItems(ds))];
        case None =>
          mapped := mapped + [Dep(deps[i])];
      }
      i := i + 1;
    }
    pods := FlattenInPlace(mapped);
    assert mapped == seq(|deps|, k requires 0 <= k < |deps| => Expand(lockfile, deps[k]));
  }

  /** The lockfile entries are listed independently and in order: the
      listing of `a + b` is the listing of `a` followed by that of `b`. */
  lemma LockListingAppend(lockfile: Lockfile, a: seq<Dependency>, b: seq<Dependency>)
    ensures LockListing(lockfile, a + b) == LockListing(lockfile, a) + LockListing(lockfile, b)
  {
    var ea := seq(|a|, i requires 0 <= i < |a| => Expand(lockfile, a[i]));
    var eb := seq(|b|, i requires 0 <= i < |b| => Expand(lockfile, b[i]));
    var ab := a + b;
    assert seq(|ab|, i requires 0 <= i < |ab| => Expand(lockfile, ab[i])) == ea + eb;
    FlattenAppend(ea, eb);
  }

  /** A single entry contributes the dependencies its reverse lookup gives,
      or itself when the lookup raises; a failing lookup never empties or
      aborts the listing. */
  lemma LockListingSingle(lockfile: Lockfile, d: Dependency)
    ensures LockListing(lockfile, [d]) == Contribution(lockfile, d)
    ensures lockfile.dependenciesToLockPodNamed(d.name).None? ==> LockListing(lockfile, [d]) == [Dep(d)]
  {
    var x := Expand(lockfile, d);
    assert seq(1, i requires 0 <= i < 1 => Expand(lockfile, [d][i])) == [x];
    assert [x][..0] == [];
    assert Flatten([x]) == Spliced(x);
    match lockfile.dependenciesToLockPodNamed(d.name)
    case Some(ds) =>
      FlattenOfFlat(DepItems(ds));
    case None =>
  }

  /** Every element of the lockfile listing is a dependency. */
  lemma {:induction false} LockListingDeps(lockfile: Lockfile, deps: seq<Dependency>)
    ensures forall i :: 0 <= i < |LockListing(lockfile, deps)| ==> LockListing(lockfile, deps)[i].Dep?
    decreases |deps|
  {
    if |deps| > 0 {
      var n := |deps| - 1;
      assert deps == deps[..n] + [deps[n]];
      LockListingAppend(lockfile, deps[..n], [deps[n]]);
      LockListingSingle(lockfile, deps[n]);
      LockListingDeps(lockfile, deps[..n]);
    }
  }
}
