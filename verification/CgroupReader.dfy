/**
 Choosing the cgroup mounts of a process and the metadata that its subsystems
 share. Go ranges over the mounts in an arbitrary order; whether the result
 depends on it is settled by OrderMatters.
 */
module CgroupReader {
  import opened Cgroups
  import opened MapOrder
  import opened Paths
  import opened Text
  import opened Wrappers

  datatype Metadata = Metadata(id: string, path: string)

  datatype Mount = Mount(subsystem: string, mountpoint: string, path: string, id: string, fullPath: string)

  const NO_METADATA := Metadata("", "")

  // ----- the metadata that all mounts share

  ghost predicate HasPath(mounts: map<string, Mount>, path: string) {
    exists k :: k in mounts && mounts[k].path == path
  }

  // All paths other than the empty one are this one.
  ghost predicate OnlyPath(mounts: map<string, Mount>, path: string) {
    forall k :: k in mounts && mounts[k].path != "" ==> mounts[k].path == path
  }

  /** What the loop has in hand after the first n mounts: a path so far, or the decision that they differ. */
  function PathAfter(mounts: map<string, Mount>, order: seq<string>, n: nat): Option<string>
    requires n <= |order| && forall i :: 0 <= i < |order| ==> order[i] in mounts
  {
    if n == 0 then Some("")
    else
      var so := PathAfter(mounts, order, n - 1);
      if so.None? then None
      else if so.value == "" then Some(mounts[order[n - 1]].path)
      else if so.value != mounts[order[n - 1]].path then None
      else so
  }

  function CommonMetadata(mounts: map<string, Mount>, order: seq<string>): Metadata
    requires forall i :: 0 <= i < |order| ==> order[i] in mounts
  {
    var path := PathAfter(mounts, order, |order|);
    if path.None? then NO_METADATA else Metadata(Base(path.value), path.value)
  }

  method GetCommonCgroupMetadata(mounts: map<string, Mount>) returns (md: Metadata)
    ensures exists order :: Enumerates(order, mounts.Keys) && md == CommonMetadata(mounts, order)
  {
    var path := "";
    var order := AnyOrder(mounts.Keys);
    for i := 0 to |order|
      invariant PathAfter(mounts, order, i) == Some(path)
    {
      var m := mounts[order[i]];
      if path == "" {
        path := m.path;
      } else if path != m.path {
        DifferentStays(mounts, order, i + 1, |order|);
        assert CommonMetadata(mounts, order) == NO_METADATA;
        return NO_METADATA;
      }
    }
    assert CommonMetadata(mounts, order) == Metadata(Base(path), path);
    return Metadata(Base(path), path);
  }

  lemma {:induction false} DifferentStays(mounts: map<string, Mount>, order: seq<string>, n: nat, k: nat)
    requires n <= k <= |order| && forall i :: 0 <= i < |order| ==> order[i] in mounts
    requires PathAfter(mounts, order, n).None?
    ensures PathAfter(mounts, order, k).None?
    decreases k
  {
    if n < k {
      DifferentStays(mounts, order, n, k - 1);
    }
  }

  /** Exactly when the loop decides that paths differ, and what it holds otherwise. */
  lemma {:induction false} PathExact(mounts: map<string, Mount>, order: seq<string>, n: nat)
    requires n <= |order| && forall i :: 0 <= i < |order| ==> order[i] in mounts
    ensures PathAfter(mounts, order, n).None? <==>
            exists i, j :: 0 <= i < j < n && mounts[order[i]].path != ""
                           && mounts[order[j]].path != mounts[order[i]].path
    ensures PathAfter(mounts, order, n).Some? ==>
              forall i :: 0 <= i < n ==>
                            mounts[order[i]].path == "" || mounts[order[i]].path == PathAfter(mounts, order, n).value
    ensures PathAfter(mounts, order, n).Some? && PathAfter(mounts, order, n).value != "" ==>
              exists i :: 0 <= i < n && mounts[order[i]].path == PathAfter(mounts, order, n).value
  {
    if n > 0 {
      PathExact(mounts, order, n - 1);
    }
  }

  lemma AtSomeIndex(order: seq<string>, keys: set<string>, k: string) returns (i: nat)
    requires Enumerates(order, keys) && k in keys
    ensures i < |order| && order[i] == k
  {
    assert k in order;
    i :| i < |order| && order[i] == k;
  }

  /** If all mounts have the same path, in every order that is the result. */
  lemma SharedPath(mounts: map<string, Mount>, order: seq<string>, path: string)
    requires Enumerates(order, mounts.Keys) && HasPath(mounts, path)
    requires forall k :: k in mounts ==> mounts[k].path == path
    ensures CommonMetadata(mounts, order) == Metadata(Base(path), path)
  {
    PathExact(mounts, order, |order|);
    var k :| k in mounts && mounts[k].path == path;
    var i := AtSomeIndex(order, mounts.Keys, k);
  }

  /** If two mounts have different non-empty paths, in every order there is no metadata. */
  lemma DifferentPaths(mounts: map<string, Mount>, order: seq<string>, k1: string, k2: string)
    requires Enumerates(order, mounts.Keys) && k1 in mounts && k2 in mounts
    requires mounts[k1].path != "" && mounts[k2].path != "" && mounts[k1].path != mounts[k2].path
    ensures CommonMetadata(mounts, order) == NO_METADATA
  {
    PathExact(mounts, order, |order|);
    var i1 := AtSomeIndex(order, mounts.Keys, k1);
    var i2 := AtSomeIndex(order, mounts.Keys, k2);
  }

  // ----- when does the order matter?

  /** An empty path among otherwise equal ones. */
  ghost predicate Ambiguous(mounts: map<string, Mount>) {
    HasPath(mounts, "") && exists p :: p != "" && HasPath(mounts, p) && OnlyPath(mounts, p)
  }

  ghost predicate OrderIndependent(mounts: map<string, Mount>) {
    forall o1, o2 :: Enumerates(o1, mounts.Keys) && Enumerates(o2, mounts.Keys) ==>
                       CommonMetadata(mounts, o1) == CommonMetadata(mounts, o2)
  }

  lemma SameInEveryOrder(mounts: map<string, Mount>, o1: seq<string>, o2: seq<string>)
    requires Enumerates(o1, mounts.Keys) && Enumerates(o2, mounts.Keys) && !Ambiguous(mounts)
    ensures CommonMetadata(mounts, o1) == CommonMetadata(mounts, o2)
  {
    if k1 :| k1 in mounts && mounts[k1].path != "" {
      var p := mounts[k1].path;
      assert HasPath(mounts, p);
      if k2 :| k2 in mounts && mounts[k2].path != "" && mounts[k2].path != p {
        DifferentPaths(mounts, o1, k1, k2);
        DifferentPaths(mounts, o2, k1, k2);
      } else {
        assert OnlyPath(mounts, p);
        assert forall k :: k in mounts && mounts[k].path == "" ==> HasPath(mounts, "");
        SharedPath(mounts, o1, p);
        SharedPath(mounts, o2, p);
      }
    } else {
      PathExact(mounts, o1, |o1|);
      PathExact(mounts, o2, |o2|);
    }
  }

  // Both outcomes of an ambiguous set of mounts.
  lemma BothOutcomes(mounts: map<string, Mount>, p: string) returns (o1: seq<string>, o2: seq<string>)
    requires HasPath(mounts, "") && p != "" && HasPath(mounts, p) && OnlyPath(mounts, p)
    ensures Enumerates(o1, mounts.Keys) && CommonMetadata(mounts, o1) == Metadata(Base(p), p)
    ensures Enumerates(o2, mounts.Keys) && CommonMetadata(mounts, o2) == NO_METADATA
  {
    var empty := set k | k in mounts && mounts[k].path == "";
    var full := set k | k in mounts && mounts[k].path != "";
    var e := SomeOrder(empty);
    var f := SomeOrder(full);
    assert empty + full == mounts.Keys && full + empty == mounts.Keys;
    o1, o2 := e + f, f + e;
    EnumeratesConcat(e, empty, f, full);
    EnumeratesConcat(f, full, e, empty);
    EmptyFirst(mounts, e, f, p);
    EmptyLast(mounts, e, f, p);
  }

  lemma EmptyFirst(mounts: map<string, Mount>, e: seq<string>, f: seq<string>, p: string)
    requires Enumerates(e + f, mounts.Keys) && p != "" && HasPath(mounts, p) && OnlyPath(mounts, p)
    requires forall i :: 0 <= i < |e| ==> e[i] in mounts && mounts[e[i]].path == ""
    requires forall i :: 0 <= i < |f| ==> f[i] in mounts && mounts[f[i]].path != ""
    ensures CommonMetadata(mounts, e + f) == Metadata(Base(p), p)
  {
    var o := e + f;
    PathExact(mounts, o, |o|);
    forall i, j | 0 <= i < j < |o| && mounts[o[i]].path != "" ensures mounts[o[j]].path == mounts[o[i]].path {
      assert i >= |e| && o[i] == f[i - |e|] && o[j] == f[j - |e|];
    }
    var k :| k in mounts && mounts[k].path == p;
    var i := AtSomeIndex(o, mounts.Keys, k);
  }

  lemma EmptyLast(mounts: map<string, Mount>, e: seq<string>, f: seq<string>, p: string)
    requires Enumerates(f + e, mounts.Keys) && HasPath(mounts, "") && p != "" && HasPath(mounts, p)
    requires forall i :: 0 <= i < |e| ==> e[i] in mounts && mounts[e[i]].path == ""
    requires forall i :: 0 <= i < |f| ==> f[i] in mounts && mounts[f[i]].path != ""
    ensures CommonMetadata(mounts, f + e) == NO_METADATA
  {
    var o := f + e;
    PathExact(mounts, o, |o|);
    var k1 :| k1 in mounts && mounts[k1].path == p;
    var k2 :| k2 in mounts && mounts[k2].path == "";
    var i := AtSomeIndex(o, mounts.Keys, k1);
    var j := AtSomeIndex(o, mounts.Keys, k2);
    assert forall n :: |f| <= n < |o| ==> mounts[o[n]].path == "" by {
      assert forall n :: |f| <= n < |o| ==> o[n] == e[n - |f|];
    }
    assert forall n :: 0 <= n < |f| ==> o[n] == f[n];
  }

  /** The metadata does not depend on the order in which the mounts are
      visited if and only if there is no empty path among otherwise equal ones. */
  lemma OrderMatters(mounts: map<string, Mount>)
    ensures OrderIndependent(mounts) <==> !Ambiguous(mounts)
  {
    if Ambiguous(mounts) {
      var p :| p != "" && HasPath(mounts, p) && OnlyPath(mounts, p);
      var o1, o2 := BothOutcomes(mounts, p);
    } else {
      forall o1, o2 | Enumerates(o1, mounts.Keys) && Enumerates(o2, mounts.Keys)
        ensures CommonMetadata(mounts, o1) == CommonMetadata(mounts, o2)
      {
        SameInEveryOrder(mounts, o1, o2);
      }
    }
  }

  // ----- the mounts of a process

  const INTERESTING: seq<string> := ["blkio", "cpu", "cpuacct", "memory"]

  predicate Interesting(s: string) {
    s == "blkio" || s == "cpu" || s == "cpuacct" || s == "memory"
  }

  predicate Selected(paths: map<string, string>, mountpoints: map<string, string>, ignoreRoot: bool, name: string) {
    name in paths && name in mountpoints && !(ignoreRoot && paths[name] == "/")
  }

  function MountAt(subsystem: string, mountpoint: string, path: string): Mount {
    Mount(subsystem, mountpoint, path, Base(path), JoinPath(mountpoint, path))
  }

  /** Exactly the interesting subsystems that the process belongs to and that
      are mounted, each with its own path. */
  method SelectMounts(paths: map<string, string>, mountpoints: map<string, string>, ignoreRoot: bool)
    returns (mounts: map<string, Mount>)
    ensures forall s :: s in mounts <==>
              && Interesting(s) && s in paths && s in mountpoints && !(ignoreRoot && paths[s] == "/")
    ensures forall s :: s in mounts ==>
              mounts[s] == Mount(subsystem := s, mountpoint := mountpoints[s], path := paths[s],
                                 id := Base(paths[s]), fullPath := JoinPath(mountpoints[s], paths[s]))
  {
    mounts := map[];
    for i := 0 to |INTERESTING|
      invariant forall s :: s in mounts <==> s in INTERESTING[..i] && Selected(paths, mountpoints, ignoreRoot, s)
      invariant forall s :: s in mounts ==> mounts[s] == MountAt(s, mountpoints[s], paths[s])
    {
      var s := INTERESTING[i];
      assert INTERESTING[..i + 1] == INTERESTING[..i] + [s];
      if s !in paths {
        continue;
      }
      var path := paths[s];
      if path == "/" && ignoreRoot {
        continue;
      }
      if s !in mountpoints {
        continue;
      }
      mounts := mounts[s := MountAt(s, mountpoints[s], path)];
    }
    assert INTERESTING[..|INTERESTING|] == INTERESTING;
    assert forall s :: s in INTERESTING <==> Interesting(s);
  }

  // A file of two lines that name one subsystem each.
  lemma TwoLines(line1: string, name1: string, line2: string, name2: string, name: string)
    requires name1 != name2
    requires IsEntry(line1) && forall n :: Lists(line1, n) <==> n in [name1]
    requires IsEntry(line2) && forall n :: Lists(line2, n) <==> n in [name2]
    ensures LookupPath([line1, line2], 2, name) ==
            if name == name2 then Some(Split(':', line2)[2])
            else if name == name1 then Some(Split(':', line1)[2]) else None
  {
    var lines := [line1, line2];
    assert Lists(lines[1], name) <==> name == name2;
    assert Lists(lines[0], name) <==> name == name1;
    assert LookupPath(lines, 0, name) == None;
    assert LookupPath(lines, 1, name) == if name == name1 then Some(Split(':', line1)[2]) else None;
  }

  /** Such an ambiguity comes out of a cgroup file that gives one subsystem an
      empty path ("2:cpu:") and another one a path ("3:memory:/a"). */
  method EmptyPathIsAmbiguous(a: string, b: string, path: string, mountpoints: map<string, string>)
    returns (mounts: map<string, Mount>)
    requires Interesting(a) && Interesting(b) && a != b && a in mountpoints && b in mountpoints
    requires ':' !in a && ',' !in a && ':' !in b && ',' !in b && ':' !in path && path != ""
    ensures !OrderIndependent(mounts)
  {
    var line1, line2 := CgroupLine("2", [a], ""), CgroupLine("3", [b], path);
    WrittenEntry("2", [a], "");
    WrittenEntry("3", [b], path);
    var paths, _ := ProcessCgroupPaths(Scan([line1, line2], false));
    forall name ensures name in paths ==> paths[name] == if name == b then path else "" {
      TwoLines(line1, a, line2, b, name);
    }
    TwoLines(line1, a, line2, b, a);
    TwoLines(line1, a, line2, b, b);
    mounts := SelectMounts(paths, mountpoints, false);
    AmbiguousMounts(mounts, a, b, path);
  }

  lemma AmbiguousMounts(mounts: map<string, Mount>, a: string, b: string, path: string)
    requires a in mounts && b in mounts && path != "" && mounts[a].path == "" && mounts[b].path == path
    requires forall s :: s in mounts ==> mounts[s].path == path || mounts[s].path == ""
    ensures !OrderIndependent(mounts)
  {
    assert HasPath(mounts, "") && HasPath(mounts, path) && OnlyPath(mounts, path);
    OrderMatters(mounts);
  }
}
