/**
 Buffers of NUL-terminated strings: the argument list of a Linux process, and
 the KERN_PROCARGS2 buffer of a Darwin process (argument count, path, padding,
 arguments, environment).
 */
module NulRecords {
  import opened Sequences
  import opened Wire
  import opened Wrappers

  type Bytes = seq<byte>

  predicate NulFree(s: Bytes) {
    forall i :: 0 <= i < |s| ==> s[i] != 0
  }

  predicate AllNulFree(ss: seq<Bytes>) {
    forall i :: 0 <= i < |ss| ==> NulFree(ss[i])
  }

  function Render(ss: seq<Bytes>): Bytes {
    if ss == [] then [] else ss[0] + [0] + Render(ss[1..])
  }

  function NulIndex(b: Bytes): (i: nat)
    ensures i <= |b| && NulFree(b[..i]) && (i < |b| ==> b[i] == 0)
  {
    if b == [] || b[0] == 0 then 0
    else
      var i := 1 + NulIndex(b[1..]);
      assert b[..i] == [b[0]] + b[1..][..i - 1];
      i
  }

  lemma {:induction false} NulIndexIs(s: Bytes, rest: Bytes)
    requires NulFree(s) && (rest == [] || rest[0] == 0)
    ensures NulIndex(s + rest) == |s|
    decreases |s|
  {
    if s == [] {
      assert s + rest == rest;
    } else {
      assert (s + rest)[0] == s[0] && (s + rest)[1..] == s[1..] + rest;
      NulIndexIs(s[1..], rest);
    }
  }

  /** bytes.Buffer.ReadBytes(0) without the delimiter: the next string, or
      nothing at the end of the buffer, which is then drained. */
  datatype Read = Read(line: Option<Bytes>, rest: Bytes)

  function ReadLine(b: Bytes): (r: Read)
    ensures r.line.Some? ==> |r.rest| < |b|
  {
    var i := NulIndex(b);
    if i == |b| then Read(None, []) else Read(Some(b[..i]), b[i + 1..])
  }

  lemma ReadSplits(b: Bytes)
    ensures ReadLine(b).line.None? ==> NulFree(b)
    ensures ReadLine(b).line.Some? ==>
              NulFree(ReadLine(b).line.value) && b == ReadLine(b).line.value + [0] + ReadLine(b).rest
  {
    assert b[..|b|] == b;
  }

  lemma ReadRendered(s: Bytes, rest: Bytes)
    requires NulFree(s)
    ensures ReadLine(s + [0] + rest) == Read(Some(s), rest)
  {
    assert s + [0] + rest == s + ([0] + rest);
    NulIndexIs(s, [0] + rest);
    var b := s + [0] + rest;
    assert b[..|s|] == s && b[|s| + 1..] == rest;
  }

  // ----- arguments of a Linux process

  /** The arguments are the terminated strings of the file, in order; what
      follows the last terminator is left out. */
  method ProcArgs(contents: Bytes) returns (args: seq<Bytes>, ghost rest: Bytes)
    ensures AllNulFree(args) && NulFree(rest) && contents == Render(args) + rest
  {
    args := [];
    rest := contents;
    var buf := contents;
    while true
      invariant AllNulFree(args) && contents == Render(args) + buf
      decreases |buf|
    {
      var r := ReadLine(buf);
      ReadSplits(buf);
      if r.line.None? {
        return args, buf;
      }
      RenderSnoc(args, r.line.value);
      args := args + [r.line.value];
      buf := r.rest;
    }
  }

  lemma {:induction false} RenderSnoc(ss: seq<Bytes>, s: Bytes)
    ensures Render(ss + [s]) == Render(ss) + s + [0]
  {
    if ss == [] {
      assert ss + [s] == [s];
    } else {
      assert (ss + [s])[0] == ss[0] && (ss + [s])[1..] == ss[1..] + [s];
      RenderSnoc(ss[1..], s);
    }
  }

  lemma RenderFront(ss: seq<Bytes>, rest: Bytes)
    requires ss != []
    ensures Render(ss) + rest == ss[0] + [0] + (Render(ss[1..]) + rest)
  {
  }

  // The terminated strings of a buffer, and what follows the last of them.
  function Decode(b: Bytes): (seq<Bytes>, Bytes)
    decreases |b|
  {
    var r := ReadLine(b);
    if r.line.None? then ([], b) else
    var (ss, rest) := Decode(r.rest);
    ([r.line.value] + ss, rest)
  }

  lemma DecodeStep(s: Bytes, rest: Bytes)
    requires NulFree(s)
    ensures Decode(s + [0] + rest) == ([s] + Decode(rest).0, Decode(rest).1)
  {
    ReadRendered(s, rest);
  }

  lemma {:induction false} DecodeRendered(ss: seq<Bytes>, rest: Bytes)
    requires AllNulFree(ss) && NulFree(rest)
    ensures Decode(Render(ss) + rest) == (ss, rest)
    decreases |ss|
  {
    if ss == [] {
      assert Render(ss) + rest == rest;
      NulIndexIs(rest, []);
      assert rest + [] == rest;
    } else {
      RenderFront(ss, rest);
      DecodeStep(ss[0], Render(ss[1..]) + rest);
      DecodeRendered(ss[1..], rest);
      assert ss == [ss[0]] + ss[1..];
    }
  }

  /** There is only one way to take a buffer apart, so splitting inverts
      rendering on every list of NUL-free arguments. */
  lemma RenderUnique(a: seq<Bytes>, r: Bytes, b: seq<Bytes>, q: Bytes)
    requires AllNulFree(a) && AllNulFree(b) && NulFree(r) && NulFree(q)
    requires Render(a) + r == Render(b) + q
    ensures a == b && r == q
  {
    DecodeRendered(a, r);
    DecodeRendered(b, q);
  }

  // ----- the argument buffer of a Darwin process

  datatype ProcargsError = NoPath | NoStrings | BadEnvironment

  // The calls made to the callbacks, and the error returned.
  datatype Procargs = Procargs(
    exe: Option<Bytes>, argv: seq<Bytes>, env: seq<(Bytes, Bytes)>, error: Option<ProcargsError>)

  const EQUALS: byte := 61

  function Signed32(n: nat): int {
    if n < 0x8000_0000 then n else n - U32
  }

  // The count at the start; reading it from a shorter buffer drains the buffer and leaves zero.
  function ReadCount(buf: Bytes): (int, Bytes) {
    if |buf| < 4 then (0, []) else (Signed32(Get32(Little, buf[..4])), buf[4..])
  }

  function SkipNuls(b: Bytes): (r: Bytes)
    ensures r == [] || r[0] != 0
  {
    if b != [] && b[0] == 0 then SkipNuls(b[1..]) else b
  }

  // At most n strings; at the end of the buffer there are no more.
  function TakeArgs(b: Bytes, n: int): (seq<Bytes>, Bytes)
    decreases |b|
  {
    if n <= 0 then ([], b)
    else
      var r := ReadLine(b);
      if r.line.None? then ([], []) else
      var (args, rest) := TakeArgs(r.rest, n - 1);
      ([r.line.value] + args, rest)
  }

  function EqualsIndex(s: Bytes): (i: nat)
    ensures i <= |s| && (i < |s| ==> s[i] == EQUALS)
  {
    if s == [] || s[0] == EQUALS then 0 else 1 + EqualsIndex(s[1..])
  }

  // Pairs up to an empty string or the end; a string without '=' is an error.
  function TakeEnv(b: Bytes): (seq<(Bytes, Bytes)>, Option<ProcargsError>)
    decreases |b|
  {
    var r := ReadLine(b);
    if r.line.None? || r.line.value == [] then ([], None)
    else
      var s := r.line.value;
      var i := EqualsIndex(s);
      if i == |s| then ([], Some(BadEnvironment)) else
      var (env, error) := TakeEnv(r.rest);
      ([(s[..i], s[i + 1..])] + env, error)
  }

  function ParseProcargs(buf: Bytes, wantEnv: bool): Procargs {
    var (argc, b) := ReadCount(buf);
    var path := ReadLine(b);
    if path.line.None? then Procargs(None, [], [], Some(NoPath))
    else
      var strings := SkipNuls(path.rest);
      if strings == [] then Procargs(path.line, [], [], Some(NoStrings))
      else
        var (argv, rest) := TakeArgs(strings, argc);
        if !wantEnv then Procargs(path.line, argv, [], None)
        else
          var (env, error) := TakeEnv(rest);
          Procargs(path.line, argv, env, error)
  }

  method KernProcargs(buf: Bytes, wantEnv: bool) returns (r: Procargs)
    ensures r == ParseProcargs(buf, wantEnv)
  {
    var (argc, b) := ReadCount(buf);
    var path := ReadLine(b);
    if path.line.None? {
      return Procargs(None, [], [], Some(NoPath));
    }
    b := path.rest;
    while true
      invariant SkipNuls(b) == SkipNuls(path.rest)
      decreases |b|
    {
      if b == [] {
        return Procargs(path.line, [], [], Some(NoStrings));
      }
      if b[0] != 0 {
        break;
      }
      b := b[1..];
    }
    var argv: seq<Bytes>;
    argv, b := ReadArgs(b, argc);
    if !wantEnv {
      return Procargs(path.line, argv, [], None);
    }
    var env, error := ReadEnv(b);
    return Procargs(path.line, argv, env, error);
  }

  method ReadArgs(start: Bytes, argc: int) returns (argv: seq<Bytes>, b: Bytes)
    ensures (argv, b) == TakeArgs(start, argc)
  {
    argv, b := [], start;
    var i := 0;
    assert [] + TakeArgs(start, argc).0 == TakeArgs(start, argc).0;
    while i < argc
      invariant TakeArgs(start, argc) == (argv + TakeArgs(b, argc - i).0, TakeArgs(b, argc - i).1)
      decreases argc - i
    {
      var r := ReadLine(b);
      b := r.rest;
      if r.line.None? {
        assert argv + [] == argv;
        return;
      }
      Assoc(argv, [r.line.value], TakeArgs(b, argc - i - 1).0);
      argv := argv + [r.line.value];
      i := i + 1;
    }
    assert argv + [] == argv;
  }

  method ReadEnv(start: Bytes) returns (env: seq<(Bytes, Bytes)>, error: Option<ProcargsError>)
    ensures (env, error) == TakeEnv(start)
  {
    env, error := [], None;
    var b := start;
    assert [] + TakeEnv(start).0 == TakeEnv(start).0;
    while true
      invariant error == None && TakeEnv(start) == (env + TakeEnv(b).0, TakeEnv(b).1)
      decreases |b|
    {
      var r := ReadLine(b);
      if r.line.None? || r.line.value == [] {
        assert env + [] == env;
        return;
      }
      var s := r.line.value;
      var i := EqualsIndex(s);
      if i == |s| {
        assert env + [] == env;
        return env, Some(BadEnvironment);
      }
      Assoc(env, [(s[..i], s[i + 1..])], TakeEnv(r.rest).0);
      env := env + [(s[..i], s[i + 1..])];
      b := r.rest;
    }
  }

  // ----- what is recovered from a buffer

  function EnvString(pair: (Bytes, Bytes)): Bytes {
    pair.0 + [EQUALS] + pair.1
  }

  function EnvStrings(env: seq<(Bytes, Bytes)>): seq<Bytes> {
    if env == [] then [] else [EnvString(env[0])] + EnvStrings(env[1..])
  }

  predicate GoodEnv(env: seq<(Bytes, Bytes)>) {
    forall i :: 0 <= i < |env| ==> NulFree(env[i].0) && NulFree(env[i].1) && EQUALS !in env[i].0
  }

  // The strings after the padding, and whatever follows them.
  function Strings(args: seq<Bytes>, env: seq<(Bytes, Bytes)>, tail: Bytes): Bytes {
    Render(args) + (Render(EnvStrings(env)) + tail)
  }

  function Image(path: Bytes, pad: nat, args: seq<Bytes>, env: seq<(Bytes, Bytes)>, tail: Bytes): Bytes
    requires |args| < 0x8000_0000
  {
    Put32(Little, |args|) + (path + [0] + (Zeros(pad) + Strings(args, env, tail)))
  }

  lemma {:induction false} SkipPadding(pad: nat, b: Bytes)
    ensures SkipNuls(Zeros(pad) + b) == SkipNuls(b)
  {
    if pad == 0 {
      assert Zeros(pad) + b == b;
    } else {
      assert (Zeros(pad) + b)[0] == 0 && (Zeros(pad) + b)[1..] == Zeros(pad - 1) + b;
      SkipPadding(pad - 1, b);
    }
  }

  lemma {:induction false} TakeArgsRendered(args: seq<Bytes>, rest: Bytes)
    requires AllNulFree(args)
    ensures TakeArgs(Render(args) + rest, |args|) == (args, rest)
    decreases |args|
  {
    if args == [] {
      assert Render(args) + rest == rest;
    } else {
      RenderFront(args, rest);
      TakeArgsStep(args[0], Render(args[1..]) + rest, |args|);
      TakeArgsRendered(args[1..], rest);
      assert args == [args[0]] + args[1..];
    }
  }

  lemma TakeArgsStep(s: Bytes, rest: Bytes, n: int)
    requires NulFree(s) && n > 0
    ensures TakeArgs(s + [0] + rest, n) == ([s] + TakeArgs(rest, n - 1).0, TakeArgs(rest, n - 1).1)
  {
    ReadRendered(s, rest);
  }

  lemma {:induction false} EqualsIndexIs(key: Bytes, value: Bytes)
    requires EQUALS !in key
    ensures EqualsIndex(key + [EQUALS] + value) == |key|
    decreases |key|
  {
    if key == [] {
      assert (key + [EQUALS] + value)[0] == EQUALS;
    } else {
      assert (key + [EQUALS] + value)[1..] == key[1..] + [EQUALS] + value;
      EqualsIndexIs(key[1..], value);
    }
  }

  lemma EnvStringSplits(pair: (Bytes, Bytes))
    requires NulFree(pair.0) && NulFree(pair.1) && EQUALS !in pair.0
    ensures var s := EnvString(pair); var i := EqualsIndex(s);
            s != [] && NulFree(s) && i < |s| && s[..i] == pair.0 && s[i + 1..] == pair.1
  {
    EqualsIndexIs(pair.0, pair.1);
  }

  lemma TakeEnvStep(pair: (Bytes, Bytes), rest: Bytes)
    requires NulFree(pair.0) && NulFree(pair.1) && EQUALS !in pair.0
    ensures TakeEnv(EnvString(pair) + [0] + rest) == ([pair] + TakeEnv(rest).0, TakeEnv(rest).1)
  {
    EnvStringSplits(pair);
    ReadRendered(EnvString(pair), rest);
  }

  lemma {:induction false} TakeEnvRendered(env: seq<(Bytes, Bytes)>, tail: Bytes)
    requires GoodEnv(env)
    ensures TakeEnv(Render(EnvStrings(env)) + tail) == (env + TakeEnv(tail).0, TakeEnv(tail).1)
    decreases |env|
  {
    if env == [] {
      assert Render(EnvStrings(env)) + tail == tail;
      assert env + TakeEnv(tail).0 == TakeEnv(tail).0;
    } else {
      var rest := Render(EnvStrings(env[1..])) + tail;
      TakeEnvRendered(env[1..], tail);
      EnvFront(env, tail);
      TakeEnvStep(env[0], rest);
      Assoc([env[0]], env[1..], TakeEnv(tail).0);
      assert env == [env[0]] + env[1..];
    }
  }

  lemma EnvFront(env: seq<(Bytes, Bytes)>, tail: Bytes)
    requires env != []
    ensures Render(EnvStrings(env)) + tail == EnvString(env[0]) + [0] + (Render(EnvStrings(env[1..])) + tail)
  {
    assert EnvStrings(env)[1..] == EnvStrings(env[1..]);
    RenderFront(EnvStrings(env), tail);
  }

  // Nothing more is read from the tail, and it is no error.
  predicate EnvEnds(tail: Bytes) {
    NulFree(tail) || tail[0] == 0
  }

  lemma EnvEndsExactly(tail: Bytes)
    ensures TakeEnv(tail) == ([], None) <==> EnvEnds(tail)
  {
    ReadSplits(tail);
    var line := ReadLine(tail).line;
    if line.Some? && line.value != [] {
      assert tail[0] == line.value[0] && tail[|line.value|] == 0;
    }
  }

  lemma ImagePrefix(path: Bytes, pad: nat, args: seq<Bytes>, env: seq<(Bytes, Bytes)>, tail: Bytes)
    requires |args| < 0x8000_0000 && NulFree(path)
    ensures ReadCount(Image(path, pad, args, env, tail)) ==
            (|args|, path + [0] + (Zeros(pad) + Strings(args, env, tail)))
    ensures ReadLine(path + [0] + (Zeros(pad) + Strings(args, env, tail))) ==
            Read(Some(path), Zeros(pad) + Strings(args, env, tail))
    ensures SkipNuls(Zeros(pad) + Strings(args, env, tail)) == SkipNuls(Strings(args, env, tail))
  {
    var body := path + [0] + (Zeros(pad) + Strings(args, env, tail));
    var image := Image(path, pad, args, env, tail);
    assert image[..4] == Put32(Little, |args|) && image[4..] == body;
    Number32(Little, |args|);
    ReadRendered(path, Zeros(pad) + Strings(args, env, tail));
    SkipPadding(pad, Strings(args, env, tail));
  }

  predicate FirstStringNonEmpty(args: seq<Bytes>, env: seq<(Bytes, Bytes)>) {
    if args != [] then args[0] != [] else env != []
  }

  lemma StringsStart(args: seq<Bytes>, env: seq<(Bytes, Bytes)>, tail: Bytes)
    requires AllNulFree(args) && GoodEnv(env) && FirstStringNonEmpty(args, env)
    ensures Strings(args, env, tail) != [] && Strings(args, env, tail)[0] != 0
  {
    if args != [] {
      assert Strings(args, env, tail)[0] == args[0][0];
    } else {
      EnvStringSplits(env[0]);
      assert Strings(args, env, tail)[0] == EnvString(env[0])[0];
    }
  }

  lemma SkipToStrings(args: seq<Bytes>, env: seq<(Bytes, Bytes)>, tail: Bytes)
    requires AllNulFree(args) && GoodEnv(env) && FirstStringNonEmpty(args, env)
    ensures SkipNuls(Strings(args, env, tail)) == Strings(args, env, tail) != []
  {
    StringsStart(args, env, tail);
  }

  // What is parsed when the padding ends where it should.
  lemma ParsedStrings(path: Bytes, pad: nat, args: seq<Bytes>, env: seq<(Bytes, Bytes)>, tail: Bytes)
    requires |args| < 0x8000_0000 && NulFree(path) && AllNulFree(args) && GoodEnv(env) && FirstStringNonEmpty(args, env)
    ensures ParseProcargs(Image(path, pad, args, env, tail), true) ==
            Procargs(Some(path), args, env + TakeEnv(tail).0, TakeEnv(tail).1)
  {
    ImagePrefix(path, pad, args, env, tail);
    SkipToStrings(args, env, tail);
    TakeArgsRendered(args, Render(EnvStrings(env)) + tail);
    TakeEnvRendered(env, tail);
  }

  /** Path, arguments and environment come back for any amount of padding and
      whatever follows the terminator, if the first string is not empty. */
  lemma Recovered(path: Bytes, pad: nat, args: seq<Bytes>, env: seq<(Bytes, Bytes)>, tail: Bytes)
    requires |args| < 0x8000_0000 && NulFree(path) && AllNulFree(args) && GoodEnv(env)
    requires FirstStringNonEmpty(args, env) && EnvEnds(tail)
    ensures ParseProcargs(Image(path, pad, args, env, tail), true) == Procargs(Some(path), args, env, None)
  {
    ParsedStrings(path, pad, args, env, tail);
    EnvEndsExactly(tail);
    assert env + [] == env;
  }

  /** Without any string, the tail must not look like the end of the buffer nor like a string. */
  predicate ComesBack(args: seq<Bytes>, env: seq<(Bytes, Bytes)>, tail: Bytes) {
    if args == [] && env == [] then SkipNuls(tail) != [] && NulFree(SkipNuls(tail))
    else FirstStringNonEmpty(args, env) && EnvEnds(tail)
  }

  /** Exactly when everything comes back, for every tail: the first string must
      not be empty, or it is taken for padding, and the tail must end the
      environment. */
  lemma RecoveredExactly(path: Bytes, pad: nat, args: seq<Bytes>, env: seq<(Bytes, Bytes)>, tail: Bytes)
    requires |args| < 0x8000_0000 && NulFree(path) && AllNulFree(args) && GoodEnv(env)
    ensures ParseProcargs(Image(path, pad, args, env, tail), true) == Procargs(Some(path), args, env, None)
            <==> ComesBack(args, env, tail)
  {
    if FirstStringNonEmpty(args, env) {
      ParsedStrings(path, pad, args, env, tail);
      EnvEndsExactly(tail);
      assert env + TakeEnv(tail).0 == env <==> TakeEnv(tail).0 == [];
    } else {
      ImagePrefix(path, pad, args, env, tail);
      if args == [] {
        assert Strings(args, env, tail) == tail;
        EnvEndsExactly(SkipNuls(tail));
      } else {
        FirstIsNotEmpty(SkipNuls(Strings(args, env, tail)), |args|);
      }
    }
  }

  /** For a caller that does not want the environment, exactly when path and
      arguments come back: whatever the tail is, the first argument must not be
      empty; without arguments, there must be something after the padding. */
  lemma ArgumentsRecoveredExactly(path: Bytes, pad: nat, args: seq<Bytes>, env: seq<(Bytes, Bytes)>, tail: Bytes)
    requires |args| < 0x8000_0000 && NulFree(path) && AllNulFree(args)
    ensures ParseProcargs(Image(path, pad, args, env, tail), false) == Procargs(Some(path), args, [], None)
            <==> if args == [] then SkipNuls(Strings(args, env, tail)) != [] else args[0] != []
  {
    ImagePrefix(path, pad, args, env, tail);
    if args != [] {
      if args[0] != [] {
        assert Strings(args, env, tail)[0] == args[0][0];
        TakeArgsRendered(args, Render(EnvStrings(env)) + tail);
      } else {
        FirstIsNotEmpty(SkipNuls(Strings(args, env, tail)), |args|);
      }
    }
  }

  // The first argument taken after the padding starts with the byte that ended it.
  lemma FirstIsNotEmpty(b: Bytes, n: int)
    requires b == [] || b[0] != 0
    ensures TakeArgs(b, n).0 != [] ==> TakeArgs(b, n).0[0] != []
  {
  }
}
