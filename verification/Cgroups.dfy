/**
 Locating cgroup v1 hierarchies: /proc/self/mountinfo lines (section 3.5 of the
 Linux Documentation/filesystems/proc.txt) give each subsystem its mountpoint,
 /proc/[pid]/cgroup lines give a process its path in each hierarchy. Files are
 sequences of lines.
 */
module Cgroups {
  import opened Text
  import opened Wrappers

  datatype Mountinfo = Mountinfo(mountpoint: string, filesystemType: string, superOptions: seq<string>)

  datatype MountError = TooFewFields | NoSeparator | TooFewAfterSeparator | ScanFailed

  // ----- one mountinfo line

  function FirstDash(fields: seq<string>): (i: nat)
    ensures i <= |fields| && (i < |fields| ==> fields[i] == "-")
    ensures forall k :: 0 <= k < i ==> fields[k] != "-"
  {
    if fields == [] || fields[0] == "-" then 0 else 1 + FirstDash(fields[1..])
  }

  function MountOfFields(fields: seq<string>): Result<Mountinfo, MountError> {
    var i := FirstDash(fields);
    if |fields| < 10 then Err(TooFewFields)
    else if i == |fields| then Err(NoSeparator)
    else if |fields| - i - 1 < 3 then Err(TooFewAfterSeparator)
    else Ok(Mountinfo(fields[4], fields[i + 1], Split(',', fields[i + 3])))
  }

  function MountOf(line: string): Result<Mountinfo, MountError> {
    MountOfFields(Fields(line))
  }

  method ParseMountinfoLine(line: string) returns (r: Result<Mountinfo, MountError>)
    ensures r == MountOf(line)
  {
    var fields := Fields(line);
    if |fields| < 10 {
      return Err(TooFewFields);
    }
    var separator := 0;
    for i := 0 to |fields|
      invariant separator == 0
      invariant forall k :: 0 <= k < i ==> fields[k] != "-"
    {
      if fields[i] == "-" {
        separator := i;
        break;
      }
    }
    if fields[separator] != "-" {
      return Err(NoSeparator);
    }
    if |fields| - separator - 1 < 3 {
      return Err(TooFewAfterSeparator);
    }
    var rest := fields[separator + 1..];
    return Ok(Mountinfo(fields[4], rest[0], Split(',', rest[2])));
  }

  lemma {:induction false} FirstDashIs(before: seq<string>, after: seq<string>)
    requires "-" !in before
    ensures FirstDash(before + ["-"] + after) == |before|
    decreases |before|
  {
    var fields := before + ["-"] + after;
    if before == [] {
      assert fields[0] == "-";
    } else {
      assert fields[0] == before[0] && fields[1..] == before[1..] + ["-"] + after;
      FirstDashIs(before[1..], after);
    }
  }

  lemma WordsWithDash(before: seq<string>, after: seq<string>)
    requires Words(IsSpace, before) && Words(IsSpace, after)
    ensures Words(IsSpace, before + ["-"] + after)
  {
  }

  /** Exactly what a line of words with a separator parses to. */
  lemma MountOfWords(before: seq<string>, after: seq<string>)
    requires "-" !in before && Words(IsSpace, before) && Words(IsSpace, after)
    ensures var words := before + ["-"] + after;
            MountOf(Join(' ', words)) ==
            if |before| + 1 + |after| < 10 then Err(TooFewFields)
            else if |after| < 3 then Err(TooFewAfterSeparator)
            else Ok(Mountinfo(words[4], after[0], Split(',', after[2])))
  {
    WordsWithDash(before, after);
    FieldsOfJoin(IsSpace, ' ', before + ["-"] + after);
    FirstDashIs(before, after);
  }

  /** And one without a separator. */
  lemma MountWithoutSeparator(words: seq<string>)
    requires "-" !in words && Words(IsSpace, words)
    ensures MountOf(Join(' ', words)) == Err(if |words| < 10 then TooFewFields else NoSeparator)
  {
    FieldsOfJoin(IsSpace, ' ', words);
  }

  /** A line written with any number of optional fields before the separator,
      and any number after, parses to what was written. */
  lemma MountOfWrittenLine(before: seq<string>, after: seq<string>)
    requires |before| >= 6 && |after| >= 3 && "-" !in before
    requires Words(IsSpace, before) && Words(IsSpace, after)
    ensures MountOf(Join(' ', before + ["-"] + after)) ==
            Ok(Mountinfo(before[4], after[0], Split(',', after[2])))
  {
    MountOfWords(before, after);
  }

  // ----- which line mounts a subsystem

  // "name=x" and "x" both name x.
  function OptionName(opt: string): string {
    var parts := SplitTwo('=', opt);
    if |parts| > 1 then parts[1] else opt
  }

  // One of the first n options names it.
  ghost predicate OptionsName(opts: seq<string>, n: nat, name: string)
    requires n <= |opts|
  {
    exists k :: 0 <= k < n && OptionName(opts[k]) == name
  }

  predicate Blank(line: string) {
    TrimSpace(line) == ""
  }

  predicate Parses(line: string) {
    Blank(line) || MountOf(TrimSpace(line)).Ok?
  }

  /** What a line says, if it mounts a cgroup hierarchy below root. */
  function CgroupMount(line: string, root: string): Option<Mountinfo> {
    if Blank(line) || MountOf(TrimSpace(line)).Err? then None
    else
      var mount := MountOf(TrimSpace(line)).value;
      if mount.filesystemType == "cgroup" && HasPrefix(mount.mountpoint, root) then Some(mount) else None
  }

  function CgroupMounts(lines: seq<string>, root: string): (mounts: seq<Option<Mountinfo>>) {
    seq(|lines|, i requires 0 <= i < |lines| => CgroupMount(lines[i], root))
  }

  ghost predicate Mounts(mount: Option<Mountinfo>, name: string) {
    mount.Some? && OptionsName(mount.value.superOptions, |mount.value.superOptions|, name)
  }

  // The mountpoint that the first n lines give a subsystem.
  ghost function Lookup(mounts: seq<Option<Mountinfo>>, n: nat, name: string): Option<string>
    requires n <= |mounts|
  {
    if n == 0 then None
    else
      var earlier := Lookup(mounts, n - 1, name);
      if earlier.Some? then earlier
      else if Mounts(mounts[n - 1], name) then Some(mounts[n - 1].value.mountpoint)
      else None
  }

  ghost predicate FirstToMount(mounts: seq<Option<Mountinfo>>, i: int, name: string) {
    && 0 <= i < |mounts| && Mounts(mounts[i], name)
    && forall j :: 0 <= j < i ==> !Mounts(mounts[j], name)
  }

  /** Lookup finds a subsystem exactly when some line mounts it. */
  lemma {:induction false} LookupFinds(mounts: seq<Option<Mountinfo>>, n: nat, name: string)
    requires n <= |mounts|
    ensures Lookup(mounts, n, name).None? <==> forall i :: 0 <= i < n ==> !Mounts(mounts[i], name)
  {
    if n > 0 {
      LookupFinds(mounts, n - 1, name);
    }
  }

  /** Lookup finds the mountpoint of the first line that mounts the subsystem. */
  lemma {:induction false} LookupIsFirst(mounts: seq<Option<Mountinfo>>, n: nat, name: string, i: int)
    requires n <= |mounts| && i < n && FirstToMount(mounts, i, name)
    ensures Lookup(mounts, n, name) == Some(mounts[i].value.mountpoint)
    decreases n
  {
    if i == n - 1 {
      LookupFinds(mounts, i, name);
    } else {
      LookupIsFirst(mounts, n - 1, name, i);
    }
  }

  ghost predicate Resolves(m: map<string, string>, mounts: seq<Option<Mountinfo>>, n: nat, subsystems: set<string>)
    requires n <= |mounts|
  {
    forall name ::
      && (name in m <==> name in subsystems && Lookup(mounts, n, name).Some?)
      && (name in m ==> m[name] == Lookup(mounts, n, name).value)
  }

  lemma ResolvesPast(m: map<string, string>, mounts: seq<Option<Mountinfo>>, n: nat, subsystems: set<string>)
    requires n < |mounts| && Resolves(m, mounts, n, subsystems) && mounts[n].None?
    ensures Resolves(m, mounts, n + 1, subsystems)
  {
    assert forall name :: Lookup(mounts, n + 1, name) == Lookup(mounts, n, name);
  }

  lemma ResolvesMount(m: map<string, string>, m': map<string, string>, mounts: seq<Option<Mountinfo>>, n: nat,
                      subsystems: set<string>, mount: Mountinfo)
    requires n < |mounts| && Resolves(m, mounts, n, subsystems) && mounts[n] == Some(mount)
    requires forall name :: name in m' <==>
                            name in m || (name in subsystems && Mounts(Some(mount), name))
    requires forall name :: name in m' ==> m'[name] == if name in m then m[name] else mount.mountpoint
    ensures Resolves(m', mounts, n + 1, subsystems)
  {
    forall name
      ensures name in m' <==> name in subsystems && Lookup(mounts, n + 1, name).Some?
      ensures name in m' ==> m'[name] == Lookup(mounts, n + 1, name).value
    {
      assert Mounts(mounts[n], name) <==> OptionsName(mount.superOptions, |mount.superOptions|, name);
    }
  }

  // The options of one mount: new names get its mountpoint, old names keep theirs.
  method AddMount(mounts: map<string, string>, mount: Mountinfo, subsystems: set<string>)
    returns (m: map<string, string>)
    ensures forall name ::
              name in m <==> name in mounts || (name in subsystems && Mounts(Some(mount), name))
    ensures forall name :: name in m ==> m[name] == if name in mounts then mounts[name] else mount.mountpoint
  {
    m := mounts;
    var opts := mount.superOptions;
    for k := 0 to |opts|
      invariant forall name ::
                  name in m <==> name in mounts || (name in subsystems && OptionsName(opts, k, name))
      invariant forall name :: name in m ==> m[name] == if name in mounts then mounts[name] else mount.mountpoint
    {
      var opt := opts[k];
      var parts := SplitTwo('=', opt);
      if |parts| > 1 {
        opt := parts[1];
      }
      if opt in subsystems && opt !in m {
        m := m[opt := mount.mountpoint];
      }
    }
  }

  predicate AllParse(lines: seq<string>) {
    forall i {:trigger Parses(lines[i])} :: 0 <= i < |lines| ==> Parses(lines[i])
  }

  function RootOf(rootfs: string): string {
    if rootfs == "" then "/" else rootfs
  }

  ghost predicate FirstBadLine(lines: seq<string>, i: int, error: MountError) {
    && 0 <= i < |lines| && !Parses(lines[i]) && MountOf(TrimSpace(lines[i])) == Err(error)
    && forall j {:trigger Parses(lines[j])} :: 0 <= j < i ==> Parses(lines[j])
  }

  /** Maps exactly the requested subsystems that some cgroup line below the
      root names, each to the mountpoint of the first such line, also when the
      scanner fails after these lines; when a line does not parse, gives nothing
      but the error of the first that does not. */
  method SubsystemMountpoints(rootfs: string, subsystems: set<string>, scan: Scan)
    returns (mounts: map<string, string>, error: Option<MountError>)
    ensures AllParse(scan.lines) ==>
              && error == (if scan.failed then Some(ScanFailed) else None)
              && Resolves(mounts, CgroupMounts(scan.lines, RootOf(rootfs)), |scan.lines|, subsystems)
    ensures !AllParse(scan.lines) ==>
              mounts == map[] && error.Some? && exists i :: FirstBadLine(scan.lines, i, error.value)
  {
    var root := RootOf(rootfs);
    var lines := scan.lines;
    mounts := map[];
    ghost var found := CgroupMounts(lines, root);
    for i := 0 to |lines|
      invariant forall j {:trigger Parses(lines[j])} :: 0 <= j < i ==> Parses(lines[j])
      invariant Resolves(mounts, found, i, subsystems)
    {
      var line := TrimSpace(lines[i]);
      if line == "" {
        assert found[i].None?;
        ResolvesPast(mounts, found, i, subsystems);
        continue;
      }
      var parsed := ParseMountinfoLine(line);
      if parsed.Err? {
        assert FirstBadLine(lines, i, parsed.error);
        return map[], Some(parsed.error);
      }
      var mount := parsed.value;
      if mount.filesystemType != "cgroup" {
        assert found[i].None?;
        ResolvesPast(mounts, found, i, subsystems);
        continue;
      }
      if !HasPrefix(mount.mountpoint, root) {
        assert found[i].None?;
        ResolvesPast(mounts, found, i, subsystems);
        continue;
      }
      var added := AddMount(mounts, mount, subsystems);
      ResolvesMount(mounts, added, found, i, subsystems, mount);
      mounts := added;
    }
    error := if scan.failed then Some(ScanFailed) else None;
  }

  // ----- a file as the kernel writes it

  /** A mountinfo line: the fields before the separator, optional ones
      included, the filesystem type, the source, the super options, further
      fields, and blanks around it all. */
  datatype WrittenMount = WrittenMount(
    pre: string, before: seq<string>, kind: string, source: string, opts: seq<string>, more: seq<string>, post: string)

  function AfterSeparator(w: WrittenMount): seq<string> {
    [w.kind, w.source, Join(',', w.opts)] + w.more
  }

  ghost predicate Proper(w: WrittenMount) {
    && AllOf(IsSpace, w.pre) && AllOf(IsSpace, w.post)
    && |w.before| >= 6 && "-" !in w.before && Words(IsSpace, w.before)
    && Words(IsSpace, AfterSeparator(w)) && w.opts != []
    && forall i :: 0 <= i < |w.opts| ==> ',' !in w.opts[i]
  }

  function MountLine(w: WrittenMount): string {
    w.pre + Join(' ', w.before + ["-"] + AfterSeparator(w)) + w.post
  }

  function MountLines(ws: seq<WrittenMount>): seq<string> {
    seq(|ws|, i requires 0 <= i < |ws| => MountLine(ws[i]))
  }

  /** An option names a subsystem: it is the name, or something, '=' and the name. */
  ghost predicate NamedBy(opt: string, name: string) {
    (opt == name && '=' !in opt) || exists k :: '=' !in k && opt == k + "=" + name
  }

  /** The line mounts the subsystem below the root. */
  ghost predicate Provides(w: WrittenMount, root: string, name: string) {
    && w.kind == "cgroup" && |w.before| > 4 && root <= w.before[4]
    && exists k :: 0 <= k < |w.opts| && NamedBy(w.opts[k], name)
  }

  lemma NamesExactly(opt: string, name: string)
    ensures OptionName(opt) == name <==> NamedBy(opt, name)
  {
    var i := Index('=', opt);
    if i == |opt| {
      NoEquals(opt, name);
    } else {
      var key := opt[..i];
      assert opt == key + "=" + opt[i + 1..] && '=' !in key;
      if NamedBy(opt, name) {
        var k :| '=' !in k && opt == k + "=" + name;
        IndexIs('=', k, name);
      }
    }
  }

  lemma NoEquals(opt: string, name: string)
    requires '=' !in opt
    ensures NamedBy(opt, name) <==> opt == name
  {
    forall k: string ensures '=' in k + "=" + name {
      assert (k + "=" + name)[|k|] == '=';
    }
  }

  lemma WrittenMountIs(w: WrittenMount, root: string)
    requires Proper(w)
    ensures Parses(MountLine(w))
    ensures CgroupMount(MountLine(w), root) ==
            if w.kind == "cgroup" && root <= w.before[4] then Some(Mountinfo(w.before[4], w.kind, w.opts)) else None
  {
    var words := w.before + ["-"] + AfterSeparator(w);
    WordsWithDash(w.before, AfterSeparator(w));
    JoinIsTrim(words);
    TrimSurrounded(w.pre, Join(' ', words), w.post);
    MountOfWrittenLine(w.before, AfterSeparator(w));
    SplitOfJoin(',', w.opts);
  }

  lemma ProvidesExactly(w: WrittenMount, root: string, name: string)
    requires Proper(w)
    ensures Mounts(CgroupMount(MountLine(w), root), name) <==> Provides(w, root, name)
  {
    WrittenMountIs(w, root);
    forall k | 0 <= k < |w.opts| ensures OptionName(w.opts[k]) == name <==> NamedBy(w.opts[k], name) {
      NamesExactly(w.opts[k], name);
    }
  }

  ghost predicate FirstToProvide(ws: seq<WrittenMount>, i: int, root: string, name: string) {
    0 <= i < |ws| && Provides(ws[i], root, name) && forall j :: 0 <= j < i ==> !Provides(ws[j], root, name)
  }

  lemma WrittenLookup(ws: seq<WrittenMount>, root: string, name: string)
    requires forall i :: 0 <= i < |ws| ==> Proper(ws[i])
    ensures var found := Lookup(CgroupMounts(MountLines(ws), root), |ws|, name);
            && (found.Some? <==> exists i :: 0 <= i < |ws| && Provides(ws[i], root, name))
            && forall i :: FirstToProvide(ws, i, root, name) ==> found == Some(ws[i].before[4])
  {
    var mounts := CgroupMounts(MountLines(ws), root);
    forall i | 0 <= i < |ws| ensures Mounts(mounts[i], name) <==> Provides(ws[i], root, name) {
      ProvidesExactly(ws[i], root, name);
    }
    LookupFinds(mounts, |ws|, name);
    forall i | FirstToProvide(ws, i, root, name) ensures Lookup(mounts, |ws|, name) == Some(ws[i].before[4]) {
      LookupIsFirst(mounts, |ws|, name, i);
      WrittenMountIs(ws[i], root);
    }
  }

  /** From a file of written lines, exactly the requested subsystems are mapped
      that some line of type cgroup, mounted below the root, names among its
      options, directly or after '='; each to the mountpoint of the first such line. */
  method MountpointsOfFile(rootfs: string, subsystems: set<string>, ws: seq<WrittenMount>)
    returns (mounts: map<string, string>, error: Option<MountError>)
    requires forall i :: 0 <= i < |ws| ==> Proper(ws[i])
    ensures error.None?
    ensures var root := if rootfs == "" then "/" else rootfs;
            && (forall name :: name in mounts <==>
                  name in subsystems && exists i :: 0 <= i < |ws| && Provides(ws[i], root, name))
            && forall name, i :: name in mounts && FirstToProvide(ws, i, root, name) ==> mounts[name] == ws[i].before[4]
  {
    var root := if rootfs == "" then "/" else rootfs;
    forall i | 0 <= i < |ws| ensures Parses(MountLines(ws)[i]) {
      WrittenMountIs(ws[i], root);
    }
    mounts, error := SubsystemMountpoints(rootfs, subsystems, Scan(MountLines(ws), false));
    forall name
      ensures var found := Lookup(CgroupMounts(MountLines(ws), root), |ws|, name);
              && (found.Some? <==> exists i :: 0 <= i < |ws| && Provides(ws[i], root, name))
              && forall i :: FirstToProvide(ws, i, root, name) ==> found == Some(ws[i].before[4])
    {
      WrittenLookup(ws, root, name);
    }
  }

  // ----- the paths of a process

  predicate IsEntry(line: string) {
    |Split(':', line)| == 3
  }

  ghost predicate Lists(line: string, name: string) {
    IsEntry(line) && name in Split(',', Split(':', line)[1])
  }

  // The path that the first n lines give a subsystem.
  ghost function LookupPath(lines: seq<string>, n: nat, name: string): Option<string>
    requires n <= |lines|
  {
    if n == 0 then None
    else if Lists(lines[n - 1], name) then Some(Split(':', lines[n - 1])[2])
    else LookupPath(lines, n - 1, name)
  }

  ghost predicate LastToList(lines: seq<string>, n: nat, i: int, name: string)
    requires n <= |lines|
  {
    0 <= i < n && Lists(lines[i], name) && forall j :: i < j < n ==> !Lists(lines[j], name)
  }

  /** LookupPath finds a subsystem exactly when some line lists it. */
  lemma {:induction false} LookupPathFinds(lines: seq<string>, n: nat, name: string)
    requires n <= |lines|
    ensures LookupPath(lines, n, name).None? <==> forall i :: 0 <= i < n ==> !Lists(lines[i], name)
  {
    if n > 0 {
      LookupPathFinds(lines, n - 1, name);
    }
  }

  /** LookupPath finds the path on the last line that lists the subsystem. */
  lemma {:induction false} LookupPathIsLast(lines: seq<string>, n: nat, i: int, name: string)
    requires n <= |lines| && LastToList(lines, n, i, name)
    ensures LookupPath(lines, n, name) == Some(Split(':', lines[i])[2])
  {
    if i < n - 1 {
      LookupPathIsLast(lines, n - 1, i, name);
    }
  }

  method ProcessCgroupPaths(scan: Scan) returns (paths: map<string, string>, failed: bool)
    ensures failed == scan.failed
    ensures forall name ::
              && (name in paths <==> LookupPath(scan.lines, |scan.lines|, name).Some?)
              && (name in paths ==> paths[name] == LookupPath(scan.lines, |scan.lines|, name).value)
  {
    var lines := scan.lines;
    failed := scan.failed;
    paths := map[];
    for i := 0 to |lines|
      invariant forall name ::
                  && (name in paths <==> LookupPath(lines, i, name).Some?)
                  && (name in paths ==> paths[name] == LookupPath(lines, i, name).value)
    {
      var fields := Split(':', lines[i]);
      if |fields| != 3 {
        continue;
      }
      paths := AddPaths(paths, Split(',', fields[1]), fields[2]);
    }
  }

  // "hierarchy:name,name,...:path", as the kernel writes it.
  function CgroupLine(hierarchy: string, names: seq<string>, path: string): string {
    hierarchy + ":" + (Join(',', names) + ":" + path)
  }

  lemma {:induction false} JoinLacks(glue: char, c: char, words: seq<string>)
    requires glue != c && forall i :: 0 <= i < |words| ==> c !in words[i]
    ensures c !in Join(glue, words)
  {
    if |words| > 1 {
      JoinLacks(glue, c, words[1..]);
    }
  }

  lemma CgroupLineSplits(hierarchy: string, names: seq<string>, path: string)
    requires ':' !in hierarchy && forall i :: 0 <= i < |names| ==> ':' !in names[i]
    ensures Split(':', CgroupLine(hierarchy, names, path)) == [hierarchy, Join(',', names)] + Split(':', path)
  {
    JoinLacks(',', ':', names);
    SplitConcat(':', hierarchy, Join(',', names) + ":" + path);
    SplitConcat(':', Join(',', names), path);
    SplitCount(':', hierarchy);
    SplitCount(':', Join(',', names));
  }

  /** A written line is taken, with its subsystems and its path, if and only if
      the path contains no colon; otherwise it is passed over. */
  lemma WrittenEntry(hierarchy: string, names: seq<string>, path: string)
    requires ':' !in hierarchy && names != [] && forall i :: 0 <= i < |names| ==> ':' !in names[i] && ',' !in names[i]
    ensures var line := CgroupLine(hierarchy, names, path);
            && (IsEntry(line) <==> ':' !in path)
            && (IsEntry(line) ==> Split(':', line)[2] == path && forall name :: Lists(line, name) <==> name in names)
  {
    CgroupLineSplits(hierarchy, names, path);
    SplitCount(':', path);
    SplitOfJoin(',', names);
  }

  // Every name on one line gets its path, whatever it had before.
  method AddPaths(paths: map<string, string>, subsystems: seq<string>, path: string) returns (m: map<string, string>)
    ensures forall name :: name in m <==> name in paths || name in subsystems
    ensures forall name :: name in m ==> m[name] == if name in subsystems then path else paths[name]
  {
    m := paths;
    for k := 0 to |subsystems|
      invariant forall name :: name in m <==> name in paths || name in subsystems[..k]
      invariant forall name :: name in m ==> m[name] == if name in subsystems[..k] then path else paths[name]
    {
      assert subsystems[..k + 1] == subsystems[..k] + [subsystems[k]];
      m := m[subsystems[k] := path];
    }
    assert subsystems[..|subsystems|] == subsystems;
  }
}
