/**
 Following a fork when calls and events interleave: a process that keeps its
 entry and its flags passes them on to every child whose fork is handled; the
 child holds them when the reader's Watch has written them, exactly unless its
 entry was taken out of the table meanwhile; and they stay exactly as LostFlags
 says.
 */
module ForkFollowing {
  import opened Wrappers
  import opened CloseHandshake
  import opened LostFlags
  import opened Runs
  import opened TableEntries
  import T = WatchTable

  // ----- the parent's flags reach the reader's Watch

  // The parent's entry is this one, and has the flags.
  predicate Holds(s: State, pid: int, found: nat, flags: T.Flags) {
    pid in s.watches && s.watches[pid] == found && T.Has(FlagsIn(s.heap, found), flags)
  }

  ghost predicate HoldsAlong(s: State, ms: seq<Move>, pid: int, found: nat, flags: T.Flags)
    decreases |ms|
  {
    Holds(s, pid, found, flags) &&
    (ms == [] || Step(s, ms[0]).None? || HoldsAlong(Step(s, ms[0]).value, ms[1..], pid, found, flags))
  }

  /** The reader handles the fork and has not come past its Watch for the child. */
  predicate Carries(r: ReaderPc, f: ForkedEvent, es: seq<T.Event>, found: nat, flags: T.Flags) {
    match r
    case AskExec(g, gs) => g == f && gs == es
    case TestExec(g, gs) => g == f && gs == es
    case Fetch(g, gs) => g == f && gs == es
    case Fetched(k, g, gs) => k == found && g == f && gs == es
    case Following(own, _, g, gs) => T.Has(own, flags) && g == f && gs == es
    case _ => false
  }

  // The reader's Watch for the child, with at least these flags, has come to its end.
  predicate Returning(r: ReaderPc, f: ForkedEvent, es: seq<T.Event>, flags: T.Flags) {
    r.Following? && r.fw.WReturn? && r.f == f && r.es == es && T.Has(r.flags, flags)
  }

  // Somewhere along the run the reader returns from that Watch.
  predicate ComesThrough(s: State, ms: seq<Move>, f: ForkedEvent, es: seq<T.Event>, flags: T.Flags)
    decreases |ms|
  {
    ms != [] && Step(s, ms[0]).Some? &&
    ((Returning(s.reader, f, es, flags) && ms[0].ReaderStep?)
     || ComesThrough(Step(s, ms[0]).value, ms[1..], f, es, flags))
  }

  lemma CarriesStep(s: State, m: Move, t: State, f: ForkedEvent, es: seq<T.Event>, found: nat, flags: T.Flags)
    requires Step(s, m) == Some(t) && T.Has(flags, T.EXEC)
    requires Holds(s, f.parentTgid, found, flags) && Carries(s.reader, f, es, found, flags)
    ensures Carries(t.reader, f, es, found, flags) || (Returning(s.reader, f, es, flags) && m.ReaderStep?)
  {
    if m.ReaderStep? {
      PerformKeepsPrograms(s, Reader, ReaderInstr(s));
      T.HasTransitive(FlagsIn(s.heap, found), flags, T.EXEC);
    } else if m.UserStep? {
      StepUserChanges(s, m.user, m.pick, t);
    }
  }

  /** A fork of a process that keeps its entry and its flags, exec included, is
      followed with them in every run: the reader comes past the fork only
      through a Watch for the child with at least these flags. */
  lemma {:induction false} ForkIsFollowed(s: State, ms: seq<Move>, t: State, f: ForkedEvent, es: seq<T.Event>,
                                          found: nat, flags: T.Flags)
    requires Run(s, ms) == Some(t) && T.Has(flags, T.EXEC) && HoldsAlong(s, ms, f.parentTgid, found, flags)
    requires Carries(s.reader, f, es, found, flags)
    ensures Carries(t.reader, f, es, found, flags) || ComesThrough(s, ms, f, es, flags)
    decreases |ms|
  {
    if ms != [] {
      var s' := RunHead(s, ms, t);
      CarriesStep(s, ms[0], s', f, es, found, flags);
      if Carries(s'.reader, f, es, found, flags) {
        ForkIsFollowed(s', ms[1..], t, f, es, found, flags);
      }
    }
  }

  // ----- the Watch gives them to the child

  // What a Watch is about to store includes its own flags.
  predicate Stores(c: Call) {
    c.Call? && c.w.WStore? ==> T.Has(c.w.value, c.flags)
  }

  lemma StoresNext(s: State, c: Call)
    requires c.Call? && Stores(c)
    ensures Stores(CallNext(s, c))
  {
    if c.w.WLoad? {
      OwnFlags(FlagsIn(s.heap, c.w.found), c.flags);
    }
  }

  lemma OwnFlags(f: T.Flags, g: T.Flags)
    ensures T.Has(f | g, g)
  {
  }

  lemma StoresStep(s: State, m: Move, t: State, a: Agent)
    requires Step(s, m) == Some(t) && Stores(CallOf(s, a))
    ensures Stores(CallOf(t, a))
  {
    if m.UserStep? {
      UserMoved(s, m.user, m.pick, t);
      UserCall(s, m.user, m.pick, t);
    } else if m.ReaderStep? {
      ReaderMoved(s, m.received, t);
      ReaderCall(s, m.received, t);
    } else {
      StartedCall(s, m, t, a);
    }
    if CallOf(s, a).Call? {
      StoresNext(s, CallOf(s, a));
    }
  }

  lemma {:induction false} StoresRun(s: State, ms: seq<Move>, t: State, a: Agent)
    requires Run(s, ms) == Some(t) && Stores(CallOf(s, a))
    ensures Stores(CallOf(t, a))
    decreases |ms|
  {
    if ms != [] {
      var s' := RunHead(s, ms, t);
      StoresStep(s, ms[0], s', a);
      StoresRun(s', ms[1..], t, a);
    }
  }

  lemma StoresReach(n: nat, s: State, a: Agent)
    requires Reaches(Init(n), s)
    ensures Stores(CallOf(s, a))
  {
    var ms :| Run(Init(n), ms) == Some(s);
    StoresRun(Init(n), ms, s, a);
  }

  /** The Watch is about to write, and to an entry that is, or will be, in the table. */
  predicate WritesToTable(s: State, c: Call) {
    c.Call? && (c.w.WInsert? || (c.w.WStore? && c.pid in s.watches && s.watches[c.pid] == c.w.found))
  }

  /** When a Watch, a user's or the reader's, has written, its process holds
      its flags if and only if it wrote to the entry in the table, or the entry
      there has them anyway. */
  lemma WriteGives(n: nat, s: State, a: Agent, t: State)
    requires Reaches(Init(n), s) && CallOf(s, a).Call? && (CallOf(s, a).w.WInsert? || CallOf(s, a).w.WStore?)
    requires Step(s, if a.Reader? then READ else UserStep(a.id, 0)) == Some(t)
    ensures var c := CallOf(s, a);
            HasFlags(t, c.pid, c.flags) <==> WritesToTable(s, c) || HasFlags(s, c.pid, c.flags)
  {
    RefsReach(n, s);
    StoresReach(n, s, a);
    if a.Reader? {
      StepReaderChanges(s, t);
    } else {
      StepUserChanges(s, a.id, 0, t);
    }
    Written(s, CallOf(s, a), t);
  }

  lemma Written(s: State, c: Call, t: State)
    requires c.Call? && (c.w.WInsert? || c.w.WStore?) && Stores(c) && TableRefs(s) && WatchRefs(s.heap, c.pid, c.w)
    requires t.watches == NewWatches(s, CallInstr(s, c)) && t.heap == NewHeap(s, CallInstr(s, c))
    ensures HasFlags(t, c.pid, c.flags) <==> WritesToTable(s, c) || HasFlags(s, c.pid, c.flags)
  {
    if c.w.WInsert? {
      SelfFlags(c.flags);
    } else if c.pid in s.watches {
      assert RefersTo(s.heap, s.watches[c.pid], c.pid);
    }
  }

  lemma SelfFlags(f: T.Flags)
    ensures T.Has(f, f)
  {
  }
}
