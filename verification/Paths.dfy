/** The path functions that the cgroup reader calls: Base, Clean and Join of filepath, on Unix. */
module Paths {
  import opened Sequences
  import opened Text

  // ----- Base

  function StripSlashes(path: string): string {
    if path != [] && path[|path| - 1] == '/' then StripSlashes(path[..|path| - 1]) else path
  }

  function AfterLastSlash(path: string): string {
    if path == [] || path[|path| - 1] == '/' then []
    else AfterLastSlash(path[..|path| - 1]) + [path[|path| - 1]]
  }

  function Base(path: string): string {
    if path == "" then "."
    else if AfterLastSlash(StripSlashes(path)) == "" then "/"
    else AfterLastSlash(StripSlashes(path))
  }

  // ----- Clean and Join

  predicate IsName(part: string) {
    part != "" && part != "." && part != ".."
  }

  // One more part of a path: a name goes down, ".." goes up, and stays at a root.
  function Push(rooted: bool, stack: seq<string>, part: string): seq<string> {
    if part == "" || part == "." then stack
    else if part != ".." then stack + [part]
    else if stack != [] && stack[|stack| - 1] != ".." then stack[..|stack| - 1]
    else if rooted then stack
    else stack + [part]
  }

  function Walk(rooted: bool, stack: seq<string>, parts: seq<string>): seq<string>
    decreases |parts|
  {
    if parts == [] then stack else Walk(rooted, Push(rooted, stack, parts[0]), parts[1..])
  }

  predicate Rooted(path: string) {
    path != "" && path[0] == '/'
  }

  function Parts(path: string): seq<string> {
    Walk(Rooted(path), [], Split('/', path))
  }

  function Clean(path: string): string {
    if Rooted(path) then "/" + Join('/', Parts(path))
    else if Parts(path) == [] then "." else Join('/', Parts(path))
  }

  function JoinPath(a: string, b: string): string {
    if a != "" then Clean(a + "/" + b) else if b != "" then Clean(b) else ""
  }

  // ----- joining a path without ".." stays below the first path

  function Names(parts: seq<string>): seq<string> {
    if parts == [] then [] else (if IsName(parts[0]) then [parts[0]] else []) + Names(parts[1..])
  }

  lemma {:induction false} WalkConcat(rooted: bool, stack: seq<string>, a: seq<string>, b: seq<string>)
    ensures Walk(rooted, stack, a + b) == Walk(rooted, Walk(rooted, stack, a), b)
    decreases |a|
  {
    if a == [] {
      assert a + b == b;
    } else {
      assert (a + b)[0] == a[0] && (a + b)[1..] == a[1..] + b;
      WalkConcat(rooted, Push(rooted, stack, a[0]), a[1..], b);
    }
  }

  lemma {:induction false} WalkDown(rooted: bool, stack: seq<string>, parts: seq<string>)
    requires ".." !in parts
    ensures Walk(rooted, stack, parts) == stack + Names(parts)
    decreases |parts|
  {
    if parts != [] {
      WalkDown(rooted, Push(rooted, stack, parts[0]), parts[1..]);
      if IsName(parts[0]) {
        Assoc(stack, [parts[0]], Names(parts[1..]));
      }
    }
  }

  /** The joined path goes down from the first path by the names of the second. */
  lemma JoinGoesDown(a: string, b: string)
    requires a != "" && ".." !in Split('/', b)
    ensures Parts(a + "/" + b) == Parts(a) + Names(Split('/', b))
  {
    SplitConcat('/', a, b);
    assert Rooted(a + "/" + b) == Rooted(a);
    WalkConcat(Rooted(a), [], Split('/', a), Split('/', b));
    WalkDown(Rooted(a), Parts(a), Split('/', b));
  }

  // ----- paths as they are written

  ghost predicate AllNames(names: seq<string>) {
    forall i :: 0 <= i < |names| ==> IsName(names[i]) && '/' !in names[i]
  }

  // "/name/name/..."
  function Path(names: seq<string>): string {
    "/" + Join('/', names)
  }

  lemma {:induction false} NamesOfNames(names: seq<string>)
    requires AllNames(names)
    ensures Names(names) == names
  {
    if names != [] {
      NamesOfNames(names[1..]);
    }
  }

  lemma PathSplits(names: seq<string>)
    requires AllNames(names)
    ensures Names(Split('/', Path(names))) == names && ".." !in Split('/', Path(names))
  {
    SplitConcat('/', "", Join('/', names));
    assert "" + "/" + Join('/', names) == Path(names);
    assert Split('/', "") == [""];
    var parts := Split('/', Join('/', names));
    assert Split('/', Path(names))[1..] == parts;
    if names == [] {
      assert parts == [""];
      assert Names(parts[1..]) == [];
    } else {
      SplitOfJoin('/', names);
      NamesOfNames(names);
    }
  }

  /** Joining a mountpoint and a path below it puts their names one after the other. */
  lemma JoinOfPaths(mount: seq<string>, path: seq<string>)
    requires AllNames(mount) && AllNames(path)
    ensures JoinPath(Path(mount), Path(path)) == Path(mount + path)
  {
    PathSplits(mount);
    PathSplits(path);
    WalkDown(true, [], Split('/', Path(mount)));
    assert [] + mount == mount;
    JoinGoesDown(Path(mount), Path(path));
  }

  // ----- the base of a path

  function Slashes(n: nat): string {
    seq(n, _ => '/')
  }

  lemma {:induction false} StripsSlashes(path: string, n: nat)
    requires path == "" || path[|path| - 1] != '/'
    ensures StripSlashes(path + Slashes(n)) == path
  {
    if n == 0 {
      assert path + Slashes(n) == path;
    } else {
      var s := path + Slashes(n);
      assert s[|s| - 1] == '/' && s[..|s| - 1] == path + Slashes(n - 1);
      StripsSlashes(path, n - 1);
    }
  }

  lemma {:induction false} AfterSlash(front: string, name: string)
    requires '/' !in name && (front == "" || front[|front| - 1] == '/')
    ensures AfterLastSlash(front + name) == name
    decreases |name|
  {
    if name == "" {
      assert front + name == front;
    } else {
      var s := front + name;
      assert s[|s| - 1] == name[|name| - 1] && s[..|s| - 1] == front + name[..|name| - 1];
      AfterSlash(front, name[..|name| - 1]);
    }
  }

  lemma {:induction false} PathEnds(names: seq<string>) returns (front: string)
    requires names != []
    ensures Path(names) == front + "/" + names[|names| - 1]
  {
    if |names| == 1 {
      front := "";
      assert Path(names) == "" + "/" + names[0];
    } else {
      front := PathEnds(names[1..]);
      assert Path(names) == "/" + names[0] + Path(names[1..]);
      front := "/" + names[0] + front;
    }
  }

  /** The base of a path is its last name, whatever slashes follow. */
  lemma BaseOfPath(names: seq<string>, n: nat)
    requires names != [] && AllNames(names)
    ensures Base(Path(names) + Slashes(n)) == names[|names| - 1]
  {
    var last := names[|names| - 1];
    var front := PathEnds(names);
    assert Path(names)[|Path(names)| - 1] == last[|last| - 1];
    StripsSlashes(Path(names), n);
    AfterSlash(front + "/", last);
  }

  /** The base of nothing is ".", and that of slashes alone is "/". */
  lemma BaseOfNothing(n: nat)
    requires n > 0
    ensures Base("") == "." && Base(Slashes(n)) == "/"
  {
    StripsSlashes("", n);
    assert "" + Slashes(n) == Slashes(n);
  }

  // ----- going up

  lemma WalkNames(names: seq<string>)
    requires AllNames(names)
    ensures Walk(true, [], Split('/', Path(names))) == names
  {
    PathSplits(names);
    WalkDown(true, [], Split('/', Path(names)));
    assert [] + names == names;
  }

  /** ".." goes up by one name, and stays at the root. */
  lemma JoinGoesUp(names: seq<string>)
    requires AllNames(names)
    ensures JoinPath(Path(names), "..") == Path(if names == [] then [] else names[..|names| - 1])
  {
    var path := Path(names) + "/" + "..";
    SplitConcat('/', Path(names), "..");
    SplitCount('/', "..");
    assert Split('/', "..") == [".."];
    WalkNames(names);
    WalkConcat(true, [], Split('/', Path(names)), [".."]);
    assert [".."][1..] == [];
    assert Walk(true, names, [".."]) == Push(true, names, "..");
  }
}
