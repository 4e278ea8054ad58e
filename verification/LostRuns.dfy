/**
 Runs in which the flags of a successful Watch are lost although nothing is
 removed: by an insertion that replaces the entry, and by a store that was
 computed from older flags.
 */
module LostRuns {
  import opened Wrappers
  import opened CloseHandshake
  import opened CloseRuns
  import opened LostFlags
  import opened Runs
  import T = WatchTable

  // A Watch past its lookup inserts its entry and returns.
  lemma InsertsAndReturns(reach: State -> bool, s: State, k: nat) returns (t: State)
    requires Runs.Closed(reach) && reach(s) && !s.panicked && s.watchesMutex.None?
    requires k < |s.users| && s.users[k].InWatch? && s.users[k].w.WLockTable?
    ensures reach(t)
    ensures t == s.(watches := s.watches[s.users[k].wpid := |s.heap|], users := s.users[k := Idle],
                    heap := s.heap + [Entry(s.users[k].wpid, s.users[k].wflags)], trace := t.trace)
    ensures t.trace == s.trace + [Touched(User(k), s.users[k].wpid)] + [WatchReturned(k, true)]
  {
    t := UserMove(reach, s, k, 0);
    t := UserMove(reach, t, k, 0);
    t := LeavesTable(reach, t, k);
  }

  lemma LeavesTable(reach: State -> bool, s: State, k: nat) returns (t: State)
    requires Runs.Closed(reach) && reach(s) && !s.panicked
    requires k < |s.users| && s.users[k].InWatch? && s.users[k].w.WUnlockTable?
    ensures reach(t)
    ensures t == s.(watchesMutex := None, users := s.users[k := Idle], trace := s.trace + [WatchReturned(k, true)])
  {
    t := UserMove(reach, s, k, 0);
    t := UserMove(reach, t, k, 0);
  }

  // A goroutine calls Watch and finds no entry.
  lemma FindsNothing(reach: State -> bool, s: State, k: nat, flags: T.Flags) returns (t: State)
    requires Runs.Closed(reach) && reach(s) && k < |s.users| && s.users[k].Idle? && !s.isClosed && s.watches == map[]
    requires s.closedMutex.None? && !s.panicked
    ensures reach(t) && t == s.(users := s.users[k := InWatch(7, flags, WLockTable)])
  {
    t := WatchPastTest(reach, s, k, 7, flags);
    t := Go(reach, t, UserStep(k, 0));
  }

  /** Two goroutines watch the same process, for uid and for exec events; both
      calls succeed, nothing is removed, and only the exec flag is left. */
  lemma WatchCanBeLost() returns (s: State, t: State)
    ensures Reaches(Init(2), s) && s.users == [InWatch(7, T.UID, WLockTable), InWatch(7, T.EXEC, WLockTable)]
    ensures Reaches(s, t) && t.users == [Idle, Idle]
    ensures WatchReturned(0, true) in t.trace && WatchReturned(1, true) in t.trace
    ensures HasFlags(t, 7, T.EXEC) && !HasFlags(t, 7, T.UID)
  {
    ReachIsClosed(Init(2));
    ReachesSelf(Init(2));
    s := FindsNothing(x => Reaches(Init(2), x), Init(2), 0, T.UID);
    s := FindsNothing(x => Reaches(Init(2), x), s, 1, T.EXEC);
    t := BothInsert(s);
  }

  lemma BothInsert(s: State) returns (t: State)
    requires s.users == [InWatch(7, T.UID, WLockTable), InWatch(7, T.EXEC, WLockTable)]
    requires s.watchesMutex.None? && !s.panicked && s.heap == []
    ensures Reaches(s, t) && t.users == [Idle, Idle]
    ensures WatchReturned(0, true) in t.trace && WatchReturned(1, true) in t.trace
    ensures HasFlags(t, 7, T.EXEC) && !HasFlags(t, 7, T.UID)
  {
    ReachIsClosed(s);
    ReachesSelf(s);
    var s1 := InsertsAndReturns(x => Reaches(s, x), s, 0);
    t := InsertsAndReturns(x => Reaches(s, x), s1, 1);
    assert t.trace[|s.trace| + 1] == WatchReturned(0, true) && t.trace[|s.trace| + 3] == WatchReturned(1, true);
    assert t.heap[t.watches[7]].flags == T.EXEC;
    assert !T.Has(T.EXEC, T.UID);
  }

  // A Watch finds the entry of process 7 and loads its flags.
  lemma LoadsFlags(reach: State -> bool, s: State, k: nat, flags: T.Flags) returns (t: State)
    requires Runs.Closed(reach) && reach(s) && k < |s.users| && s.users[k].Idle? && !s.isClosed
    requires s.watches == map[7 := 0] && s.heap == [Entry(7, T.FORK)] && s.closedMutex.None? && !s.panicked
    ensures reach(t) && t == s.(users := s.users[k := InWatch(7, flags, WStore(0, T.FORK | flags))])
  {
    t := WatchPastTest(reach, s, k, 7, flags);
    t := Go(reach, t, UserStep(k, 0));
    assert t == s.(users := s.users[k := InWatch(7, flags, WLoad(0))]);
    t := Go(reach, t, UserStep(k, 0));
  }

  // It stores what it has made of them, and returns.
  lemma StoresFlags(reach: State -> bool, s: State, k: nat, flags: T.Flags, value: T.Flags, kind: Kind)
    returns (t: State)
    requires Runs.Closed(reach, kind) && reach(s) && !s.panicked && k < |s.users|
    requires s.users[k] == InWatch(7, flags, WStore(0, value)) && |s.heap| == 1 && s.watches == map[7 := 0]
    requires kind == All || kind == Keeping(7)
    ensures reach(t)
    ensures t == s.(users := s.users[k := Idle], heap := [Entry(s.heap[0].pid, value)], trace := t.trace)
  {
    t := OneMore(reach, s, k, kind);
    t := OneMore(reach, t, k, kind);
  }

  // One step of a Watch that does not touch the map.
  lemma OneMore(reach: State -> bool, s: State, k: nat, kind: Kind) returns (t: State)
    requires Runs.Closed(reach, kind) && reach(s) && !s.panicked && k < |s.users|
    requires s.users[k].InWatch? && (s.users[k].w.WStore? || s.users[k].w.WReturn?) && 7 in s.watches
    requires kind == All || kind == Keeping(7)
    ensures reach(t)
    ensures t == s.(users := s.users[k := UserNext(s, s.users[k])], trace := t.trace,
                    heap := NewHeap(s, UserInstr(s, k, s.users[k], 0)))
  {
    StepUserChanges(s, k, 0, Step(s, UserStep(k, 0)).value);
    t := Go(reach, s, UserStep(k, 0), kind);
  }

  // Process 7 is watched for fork events, and both goroutines have loaded its flags.
  lemma BothLoad() returns (s: State)
    ensures Reaches(Init(2), s) && s.watches == map[7 := 0] && s.heap == [Entry(7, T.FORK)]
    ensures s.users == [InWatch(7, T.UID, WStore(0, T.FORK | T.UID)), InWatch(7, T.EXEC, WStore(0, T.FORK | T.EXEC))]
    ensures s.watchesMutex.None? && !s.panicked && s.reader.CheckDone?
  {
    var reach := x => Reaches(Init(2), x);
    ReachIsClosed(Init(2));
    ReachesSelf(Init(2));
    s := FindsNothing(reach, Init(2), 0, T.FORK);
    s := InsertsAndReturns(reach, s, 0);
    s := LoadsFlags(reach, s, 0, T.UID);
    s := LoadsFlags(reach, s, 1, T.EXEC);
  }

  /** Two goroutines watch a process that has an entry already; both load its
      flags, the first stores and returns, and the store of the second takes
      the first one's flag away. The entry is there all the time. */
  lemma MergeCanBeLost() returns (s: State, t: State)
    ensures Reaches(Init(2), s) && s.users == [Idle, InWatch(7, T.EXEC, WStore(0, T.FORK | T.EXEC))]
    ensures HasFlags(s, 7, T.UID) && s.watchesMutex.None? && NoReplacer(s, 7, T.UID)
    ensures ReachesBy(Keeping(7), s, t) && t.users == [Idle, Idle] && 7 in t.watches && !HasFlags(t, 7, T.UID)
  {
    s := BothLoad();
    s := FirstStore(s);
    NobodyReplaces(s);
    t := SecondStore(s);
  }

  lemma FirstStore(s: State) returns (t: State)
    requires Reaches(Init(2), s) && s.watches == map[7 := 0] && |s.heap| == 1 && !s.panicked
    requires |s.users| > 0 && s.users[0] == InWatch(7, T.UID, WStore(0, T.FORK | T.UID))
    ensures Reaches(Init(2), t) && HasFlags(t, 7, T.UID)
    ensures t == s.(users := s.users[0 := Idle], heap := t.heap, trace := t.trace) && |t.heap| == 1
  {
    ReachIsClosed(Init(2));
    t := StoresFlags(x => Reaches(Init(2), x), s, 0, T.UID, T.FORK | T.UID, All);
    FlagFacts();
  }

  lemma NobodyReplaces(s: State)
    requires s.users == [Idle, InWatch(7, T.EXEC, WStore(0, T.FORK | T.EXEC))] && s.reader.CheckDone?
    ensures NoReplacer(s, 7, T.UID)
  {
  }

  lemma SecondStore(s: State) returns (t: State)
    requires s.users == [Idle, InWatch(7, T.EXEC, WStore(0, T.FORK | T.EXEC))] && !s.panicked
    requires s.watches == map[7 := 0] && |s.heap| == 1
    ensures ReachesBy(Keeping(7), s, t) && t.users == [Idle, Idle] && 7 in t.watches && !HasFlags(t, 7, T.UID)
  {
    ReachByIsClosed(Keeping(7), s);
    ReachesBySelf(Keeping(7), s);
    t := StoresFlags(x => ReachesBy(Keeping(7), s, x), s, 1, T.EXEC, T.FORK | T.EXEC, Keeping(7));
    FlagFacts();
  }

  lemma FlagFacts()
    ensures T.Has(T.FORK | T.UID, T.UID) && !T.Has(T.FORK | T.EXEC, T.UID)
  {
  }
}
