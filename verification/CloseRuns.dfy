/**
 Runs of the code as it is that show where its promises end: Close waits for
 ever, and Close leaves an entry behind through a user's Watch and through the
 reader's own.
 */
module CloseRuns {
  import opened Wrappers
  import opened CloseHandshake
  import opened CloseReturns
  import opened CloseTable
  import opened Runs
  import T = WatchTable

  // ----- pieces of runs, with the exact states they lead to

  // User c runs Close from the call to the wait for the reader, whatever the table holds.
  lemma CloseUpToWait(reach: State -> bool, s: State, c: nat) returns (t: State)
    requires Runs.Closed(reach) && reach(s)
    requires c < |s.users| && s.users[c].Idle? && !s.isClosed && s.done == 0
    requires s.closedMutex.None? && s.watchesMutex.None? && !s.panicked
    ensures reach(t)
    ensures t == s.(closedMutex := Some(User(c)), isClosed := true, watches := map[], done := 1,
                    users := s.users[c := InClose(CAwait)], trace := s.trace + [DoneSent])
  {
    t := CloseToTable(reach, s, c);
    t := CloseClears(reach, t, c);
    t := CloseFromClear(reach, t, c);
  }

  lemma CloseToTable(reach: State -> bool, s: State, c: nat) returns (t: State)
    requires Runs.Closed(reach) && reach(s) && c < |s.users| && s.users[c].Idle? && !s.isClosed
    requires s.closedMutex.None? && s.watchesMutex.None? && !s.panicked
    ensures reach(t)
    ensures t == s.(closedMutex := Some(User(c)), isClosed := true, watchesMutex := Some(User(c)),
                    users := s.users[c := InClose(CClear)])
  {
    var m := UserStep(c, 0);
    t := Go(reach, s, CallClose(c));
    t := Go(reach, t, m);
    t := Go(reach, t, m);
    assert t == s.(closedMutex := Some(User(c)), users := s.users[c := InClose(CMark)]);
    t := Go(reach, t, m);
    t := Go(reach, t, m);
  }

  lemma CloseClears(reach: State -> bool, s: State, c: nat) returns (t: State)
    requires Runs.Closed(reach) && reach(s) && c < |s.users| && s.users[c] == InClose(CClear) && !s.panicked
    ensures reach(t) && t == s.(watches := map[])
    decreases |s.watches|
  {
    if s.watches == map[] {
      t := s;
    } else {
      var pid := SomeKey(s.watches);
      FewerEntries(s.watches, pid);
      ClearStep(s, c, pid);
      t := Go(reach, s, UserStep(c, pid));
      t := CloseClears(reach, t, c);
    }
  }

  lemma ClearStep(s: State, c: nat, pid: int)
    requires c < |s.users| && s.users[c] == InClose(CClear) && !s.panicked && pid in s.watches
    ensures Step(s, UserStep(c, pid)) == Some(s.(watches := s.watches - {pid}))
  {
    assert s.users[c := s.users[c]] == s.users && s.trace + [] == s.trace;
  }

  lemma CloseFromClear(reach: State -> bool, s: State, c: nat) returns (t: State)
    requires Runs.Closed(reach) && reach(s) && c < |s.users| && s.users[c] == InClose(CClear)
    requires s.watches == map[] && s.done == 0 && !s.panicked
    ensures reach(t)
    ensures t == s.(watchesMutex := None, done := 1, users := s.users[c := InClose(CAwait)],
                    trace := s.trace + [DoneSent])
  {
    var m := UserStep(c, 0);
    t := Go(reach, s, m);
    t := Go(reach, t, m);
    t := Go(reach, t, m);
  }

  // User k calls Watch and sees the watcher open.
  lemma WatchPastTest(reach: State -> bool, s: State, k: nat, pid: int, flags: T.Flags := T.EXEC) returns (t: State)
    requires Runs.Closed(reach) && reach(s) && k < |s.users| && s.users[k].Idle? && !s.isClosed
    requires s.closedMutex.None? && !s.panicked
    ensures reach(t) && t == s.(users := s.users[k := InWatch(pid, flags, WLookup)])
  {
    var m := UserStep(k, 0);
    t := Go(reach, s, CallWatch(k, pid, flags));
    t := Go(reach, t, m);
    t := Go(reach, t, m);
    t := Go(reach, t, m);
  }

  // It then finds no entry and takes the table mutex.
  lemma WatchToInsert(reach: State -> bool, s: State, k: nat, pid: int) returns (t: State)
    requires Runs.Closed(reach) && reach(s) && k < |s.users| && s.users[k] == InWatch(pid, T.EXEC, WLookup)
    requires s.watches == map[] && s.watchesMutex.None? && !s.panicked
    ensures reach(t)
    ensures t == s.(watchesMutex := Some(User(k)), users := s.users[k := InWatch(pid, T.EXEC, WInsert)])
  {
    t := Go(reach, s, UserStep(k, 0));
    t := Go(reach, t, UserStep(k, 0));
  }

  // And inserts its entry and returns.
  lemma WatchReturns(reach: State -> bool, s: State, k: nat, pid: int) returns (t: State)
    requires Runs.Closed(reach) && reach(s) && k < |s.users| && s.users[k] == InWatch(pid, T.EXEC, WInsert)
    requires s.watches == map[] && s.heap == [] && !s.panicked
    ensures reach(t)
    ensures t == s.(watches := map[pid := 0], heap := [Entry(pid, T.EXEC)], watchesMutex := None,
                    users := s.users[k := Idle],
                    trace := s.trace + [Touched(User(k), pid)] + [WatchReturned(k, true)])
  {
    var m := UserStep(k, 0);
    t := Go(reach, s, m);
    t := Go(reach, t, m);
    t := Go(reach, t, m);
  }

  const FORK_OF_7 := T.Forked(7, 7, 8, 8)

  // The reader receives a fork of process 7 and asks whether the exec flag is watched.
  lemma ReaderTests(reach: State -> bool, s: State) returns (t: State)
    requires Runs.Closed(reach) && reach(s) && s.reader.CheckDone? && s.done == 0
    requires s.watchesMutex.None? && !s.panicked
    ensures reach(t)
    ensures t == s.(reader := TestExec(FORK_OF_7, []), watchesMutex := Some(Reader), trace := s.trace + [SocketRead])
  {
    t := Go(reach, s, READ);
    t := Go(reach, t, ReaderStep(Events([FORK_OF_7])));
    assert t == s.(reader := Work([FORK_OF_7]), trace := s.trace + [SocketRead]);
    t := ReaderAsks(reach, t);
  }

  lemma ReaderAsks(reach: State -> bool, s: State) returns (t: State)
    requires Runs.Closed(reach) && reach(s) && s.reader == Work([FORK_OF_7]) && s.watchesMutex.None? && !s.panicked
    ensures reach(t) && t == s.(reader := TestExec(FORK_OF_7, []), watchesMutex := Some(Reader))
  {
    assert s.trace + [] == s.trace && [FORK_OF_7][1..] == [];
    t := Go(reach, s, READ);
    assert t == s.(reader := AskExec(FORK_OF_7, []));
    t := Go(reach, t, READ);
  }

  // It is, by the only entry in the table, for process 7 or for all.
  ghost predicate OneSource(s: State, pid: int) {
    (pid == 7 || pid == T.WILDCARD) && s.watches == map[pid := 0] && |s.heap| == 1 && s.heap[0].flags == T.EXEC
  }

  lemma ReaderToFetch(reach: State -> bool, s: State, pid: int) returns (t: State)
    requires Runs.Closed(reach) && reach(s) && s.reader == TestExec(FORK_OF_7, []) && OneSource(s, pid) && !s.panicked
    ensures reach(t) && t == s.(reader := Fetch(FORK_OF_7, []), watchesMutex := None)
  {
    assert s.trace + [] == s.trace;
    t := Go(reach, s, READ);
  }

  lemma ReaderFetches(reach: State -> bool, s: State, pid: int) returns (t: State)
    requires Runs.Closed(reach) && reach(s) && s.reader == Fetch(FORK_OF_7, []) && OneSource(s, pid) && !s.panicked
    ensures reach(t) && t == s.(reader := Fetched(0, FORK_OF_7, []))
  {
    assert s.trace + [] == s.trace;
    t := Go(reach, s, READ);
    if pid != 7 {
      assert t == s.(reader := FetchWild(FORK_OF_7, []));
      t := Go(reach, t, READ);
    }
  }

  // So the reader comes to the point of following the fork.
  lemma ReaderComesToFollow(reach: State -> bool, s: State) returns (t: State)
    requires Runs.Closed(reach) && reach(s) && s.reader.CheckDone? && s.done == 0
    requires OneSource(s, 7) && s.watchesMutex.None? && !s.panicked
    ensures reach(t)
    ensures t == s.(reader := Following(T.EXEC, WLock, FORK_OF_7, []), trace := s.trace + [SocketRead])
  {
    t := ReaderTests(reach, s);
    t := ReaderToFetch(reach, t, 7);
    t := ReaderFetches(reach, t, 7);
    t := ReaderReads(reach, t);
  }

  lemma ReaderReads(reach: State -> bool, s: State) returns (t: State)
    requires Runs.Closed(reach) && reach(s) && s.reader == Fetched(0, FORK_OF_7, []) && OneSource(s, 7) && !s.panicked
    ensures reach(t) && t == s.(reader := Following(T.EXEC, WLock, FORK_OF_7, []))
  {
    assert s.trace + [] == s.trace;
    t := Go(reach, s, READ);
  }

  // The reader's own Watch sees the watcher open.
  lemma ReaderPastTest(reach: State -> bool, s: State) returns (t: State)
    requires Runs.Closed(reach) && reach(s) && s.reader.Following? && s.reader.fw.WLock?
    requires !s.isClosed && s.closedMutex.None? && !s.panicked
    ensures reach(t) && t == s.(reader := s.reader.(fw := WLookup))
  {
    assert s.trace + [] == s.trace;
    t := Go(reach, s, READ);
    t := Go(reach, t, READ);
    assert t == s.(reader := s.reader.(fw := WUnlock(false)), closedMutex := Some(Reader));
    t := Go(reach, t, READ);
  }

  // From the start: user 0 watches process 7, and the reader is about to follow a fork of it.
  lemma WatchedAndForked(reach: State -> bool, s: State) returns (t: State)
    requires Runs.Closed(reach) && reach(s) && s == Init(1)
    ensures reach(t) && t.users == [Idle] && t.reader == Following(T.EXEC, WLock, FORK_OF_7, []) && |t.heap| == 1
    ensures t.closedMutex.None? && t.watchesMutex.None? && !t.panicked && !t.isClosed && t.done == 0
  {
    t := WatchPastTest(reach, s, 0, 7);
    t := WatchToInsert(reach, t, 0, 7);
    t := WatchReturns(reach, t, 0, 7);
    t := ReaderComesToFollow(reach, t);
  }

  // ----- what the runs show

  /** Close can wait for ever: with one goroutine that watches a process for
      exec events and then closes, and one fork of that process received in
      between, Close and the reader wait for each other. */
  lemma CloseCanWaitForEver() returns (s: State)
    ensures Reaches(Init(1), s) && s.users == [InClose(CAwait)] && Deadlocked(s)
    ensures forall t :: Reaches(s, t) ==> !Returned(s, t, 0)
  {
    var reach := x => Reaches(Init(1), x);
    ReachIsClosed(Init(1));
    ReachesSelf(Init(1));
    s := WatchedAndForked(reach, Init(1));
    s := CloseUpToWait(reach, s, 0);
    CloseCanReturn(1, s, 0);
  }

  /** Close can leave an entry behind: a Watch sees the watcher open, Close
      runs to its end, and the Watch then inserts its entry. */
  lemma CloseCanLeaveAnEntry() returns (s: State, t: State)
    ensures Reaches(Init(2), s) && CloseReturned(1) in s.trace
    ensures Reaches(s, t) && t.watches != map[]
  {
    var reach := x => Reaches(Init(2), x);
    ReachIsClosed(Init(2));
    ReachesSelf(Init(2));
    var s1 := WatchPastTest(reach, Init(2), 0, 7);
    s1 := CloseUpToWait(reach, s1, 1);
    s := CloseReturnsFirst(s1);
    t := LeftBehind(s);
  }

  lemma CloseReturnsFirst(s: State) returns (t: State)
    requires Reaches(Init(2), s) && s.users == [InWatch(7, T.EXEC, WLookup), InClose(CAwait)] && !AtFollow(s.reader)
    ensures Reaches(Init(2), t) && Inv(t) && CloseReturned(1) in t.trace
    ensures |t.users| > 0 && t.users[0] == InWatch(7, T.EXEC, WLookup)
  {
    ReachIsClosed(Init(2));
    InvReach(2, s);
    assert !HoldsTable(s.users[0]) && !HoldsClosed(s.users[0]);
    t := ReturnRun(x => Reaches(Init(2), x), s, 1);
    assert CloseReturned(1) in Added(s, t);
  }

  lemma LeftBehind(s: State) returns (t: State)
    requires Inv(s) && |s.users| > 0 && s.users[0] == InWatch(7, T.EXEC, WLookup)
    requires exists i :: CloseReturned(i) in s.trace
    ensures Reaches(s, t) && t.watches != map[]
  {
    ReachIsClosed(s);
    ReachesSelf(s);
    t := LeakRun(x => Reaches(s, x), s, 0, {});
  }

  /** The reader alone can leave an entry behind: it is past its own closed
      test when Close empties the table, and inserts the child before it ends.
      Close has then returned, no call is in progress, and the entry stays. */
  lemma ReaderCanLeaveAnEntry() returns (t: State)
    ensures Reaches(Init(1), t) && CloseReturned(0) in t.trace
    ensures t.watches.Keys == {8} && FlagsIn(t.heap, t.watches[8]) == T.EXEC && t.users == [Idle] && NeverGrows(t)
  {
    var reach := x => Reaches(Init(1), x);
    ReachIsClosed(Init(1));
    ReachesSelf(Init(1));
    t := WatchedAndForked(reach, Init(1));
    t := ReaderPastTest(reach, t);
    t := CloseUpToWait(reach, t, 0);
    t := LateInsert(reach, t);
    t := EndsWithEntry(t);
    TableAfterClose(1, t, 0);
  }

  // With its entry in the table, the reader comes to its end, and so does Close.
  lemma EndsWithEntry(s: State) returns (t: State)
    requires Reaches(Init(1), s) && s.users == [InClose(CAwait)] && s.closedMutex == Some(User(0))
    requires s.reader == AskGate(FORK_OF_7, []) && s.watchesMutex.None?
    ensures Reaches(Init(1), t) && CloseReturned(0) in t.trace && t.users == [Idle]
    ensures t.watches == s.watches && t.heap == s.heap
  {
    var reach := x => Reaches(Init(1), x);
    ReachIsClosed(Init(1));
    InvReach(1, s);
    t := Drain(reach, s, 0);
    t := CloseEnds(reach, t, 0);
  }

  // The table of t holds one entry, for process 8, made since s.
  predicate OnlyEntry(s: State, t: State) {
    t.watches == map[8 := |s.heap|] && t.heap == s.heap + [Entry(8, T.EXEC)]
  }

  // The reader finishes its Watch while Close waits for it.
  lemma LateInsert(reach: State -> bool, s: State) returns (t: State)
    requires Runs.Closed(reach) && reach(s) && !s.panicked
    requires s.reader == Following(T.EXEC, WLookup, FORK_OF_7, []) && s.watches == map[] && s.watchesMutex.None?
    ensures reach(t) && t.users == s.users && t.closedMutex == s.closedMutex && !t.panicked
    ensures t.reader == AskGate(FORK_OF_7, []) && OnlyEntry(s, t) && t.watchesMutex.None?
  {
    t := ReaderMove(reach, s);
    t := ReaderMove(reach, t);
    t := EntryMade(reach, t);
  }

  lemma EntryMade(reach: State -> bool, s: State) returns (t: State)
    requires Runs.Closed(reach) && reach(s) && !s.panicked
    requires s.reader == Following(T.EXEC, WInsert, FORK_OF_7, []) && s.watches == map[]
    ensures reach(t) && t.users == s.users && t.closedMutex == s.closedMutex && !t.panicked
    ensures t.reader == AskGate(FORK_OF_7, []) && OnlyEntry(s, t) && t.watchesMutex.None?
  {
    t := ReaderMove(reach, s);
    t := ReaderMove(reach, t);
    t := ReaderMove(reach, t);
  }

  lemma CloseEnds(reach: State -> bool, s: State, i: nat) returns (t: State)
    requires Runs.Closed(reach) && reach(s) && !s.panicked && s.loopSignalled
    requires i < |s.users| && s.users[i] == InClose(CAwait)
    ensures reach(t) && CloseReturned(i) in t.trace && t.users == s.users[i := Idle]
    ensures t.watches == s.watches && t.heap == s.heap
  {
    t := UserMove(reach, s, i, 0);
    t := UserMove(reach, t, i, 0);
    t := UserMove(reach, t, i, 0);
    assert t.trace[|t.trace| - 1] == CloseReturned(i);
  }
}
