/**
 When can a call of Close still return? Exactly as long as it is not the case
 that a Close holds closedMutex while the reader needs it in order to follow a
 fork. The run in which it returns is built for every such state.
 */
module CloseReturns {
  import opened Wrappers
  import opened CloseHandshake
  import opened Runs

  // The reader is about to follow a fork and has yet to get closedMutex.
  predicate AtFollow(r: ReaderPc) {
    r.Fetched? || (r.Following? && r.fw.WLock?)
  }

  /** A Close holds closedMutex and the reader cannot go on without it. */
  predicate Deadlocked(s: State) {
    AtFollow(s.reader) && Holder(s).InClose?
  }

  // The labels that a run adds to a trace.
  function Added(s: State, t: State): seq<Label>
    requires s.trace <= t.trace
  {
    t.trace[|s.trace|..]
  }

  // ----- a deadlock is for ever, and nobody returns from Close in it

  ghost predicate NoReturn(s: State, t: State) {
    s.trace <= t.trace && forall k :: |s.trace| <= k < |t.trace| ==> !t.trace[k].CloseReturned?
  }

  lemma DeadlockedHolder(s: State)
    requires Inv(s) && Deadlocked(s)
    ensures var c := Holder(s).c; c != CLock && c != CCloseListener && c != CUnlock && (c == CTest ==> !s.isClosed)
    ensures s.closedMutex.Some? && !s.loopSignalled
  {
  }

  lemma DeadlockedUser(s: State, j: nat, pick: int, t: State)
    requires Inv(s) && Deadlocked(s) && StepUser(s, j, pick) == Some(t)
    ensures Deadlocked(t) && NoReturn(s, t)
  {
    DeadlockedHolder(s);
    StepUserChanges(s, j, pick, t);
    UserBrackets(s, j, s.users[j], pick);
    UserIssues(s, j, s.users[j], pick);
  }

  lemma DeadlockedStep(s: State, m: Move, t: State)
    requires Inv(s) && Deadlocked(s) && Step(s, m) == Some(t)
    ensures Deadlocked(t) && NoReturn(s, t)
  {
    DeadlockedHolder(s);
    if m.UserStep? {
      DeadlockedUser(s, m.user, m.pick, t);
    } else if m.ReaderStep? {
      PerformChanges(s, Reader, ReaderInstr(s));
      PerformKeepsPrograms(s, Reader, ReaderInstr(s));
    }
  }

  lemma {:induction false} DeadlockedRun(s: State, ms: seq<Move>, t: State)
    requires Inv(s) && Deadlocked(s) && Run(s, ms) == Some(t)
    ensures Deadlocked(t) && NoReturn(s, t)
    decreases |ms|
  {
    if ms != [] {
      var s' := RunHead(s, ms, t);
      InvStep(s, ms[0], s');
      DeadlockedStep(s, ms[0], s');
      DeadlockedRun(s', ms[1..], t);
    }
  }

  // ----- what the runs below leave alone

  /** Users that hold no mutex are where they were. */
  ghost predicate Keeps(s: State, t: State) {
    && s.trace <= t.trace && |s.users| <= |t.users|
    && forall k :: 0 <= k < |s.users| && !HoldsTable(s.users[k]) && !HoldsClosed(s.users[k]) ==>
                     t.users[k] == s.users[k]
  }

  lemma KeepsOn(s: State, t: State, u: State)
    requires Keeps(s, t) && Keeps(t, u)
    ensures Keeps(s, u)
  {
    forall k | 0 <= k < |s.users| && !HoldsTable(s.users[k]) && !HoldsClosed(s.users[k])
      ensures u.users[k] == s.users[k]
    {
      assert t.users[k] == s.users[k];
    }
  }

  // User i holds closedMutex in a call of Close.
  ghost predicate Closing(s: State, i: nat) {
    Inv(s) && i < |s.users| && s.closedMutex == Some(User(i)) && s.users[i].InClose?
  }

  ghost predicate Continues(s: State, t: State, i: nat) {
    Closing(t, i) && Keeps(s, t) && i < |s.users| && t.users[i] == s.users[i]
  }

  // ----- first: the reader finishes the Watch it is in, and the table mutex is given back

  // The number of own steps before a user gives the table mutex back.
  function TableRank(u: UserPc): nat {
    match u
    case InWatch(_, _, w) => (match w case WInsert => 2 case WUnlockTable => 1 case _ => 0)
    case InRemove(_, r) => (match r case RDelete => 2 case RUnlock => 1 case _ => 0)
    case _ => 0
  }

  function TableHolder(s: State): UserPc {
    if s.watchesMutex.Some? && s.watchesMutex.value.User? && s.watchesMutex.value.id < |s.users|
    then s.users[s.watchesMutex.value.id] else Idle
  }

  // A user that holds the table mutex, and is not in Close, is never blocked.
  lemma HolderEnabled(s: State, j: nat, u: UserPc)
    requires HoldsTable(u) && !u.InClose?
    ensures !u.Idle? && Enabled(s, UserInstr(s, j, u, 0))
    ensures HoldsTable(UserNext(s, u)) ==> TableRank(UserNext(s, u)) < TableRank(u)
    ensures !UserNext(s, u).InClose?
    ensures !UserInstr(s, j, u, 0).LockClosed? && !UnlocksClosed(UserInstr(s, j, u, 0))
    ensures !UserInstr(s, j, u, 0).LockTable? && !UserInstr(s, j, u, 0).CloseSocket?
  {
  }

  lemma ReleaseStep(reach: State -> bool, s: State, j: nat) returns (t: State)
    requires Runs.Closed(reach) && reach(s) && Inv(s)
    requires s.watchesMutex == Some(User(j)) && j < |s.users| && !s.users[j].InClose?
    ensures reach(t) && Inv(t) && Keeps(s, t)
    ensures t.users == s.users[j := t.users[j]] && t.reader == s.reader && !t.users[j].InClose?
    ensures t.socketOpen == s.socketOpen && t.closedMutex == s.closedMutex
    ensures t.watchesMutex.None? || (t.watchesMutex == s.watchesMutex && TableRank(t.users[j]) < TableRank(s.users[j]))
  {
    var u := s.users[j];
    assert HoldsTable(u);
    HolderEnabled(s, j, u);
    UserBrackets(s, j, u, 0);
    t := UserGo(reach, s, j, 0);
  }

  function SettleRank(r: ReaderPc): nat {
    match r
    case Following(_, w, _, _) =>
      (match w case WLookup => 5 case WLockTable => 4 case WInsert => 3 case WUnlockTable => 2
       case WLoad(_) => 3 case WStore(_, _) => 2 case _ => 1)
    case Dropping(_, _) => 2
    case DropUnlock(_, _) => 1
    case TestExec(_, _) => 1
    case TestGate(_, _) => 1
    case _ => 0
  }

  lemma SettleRankDrops(s: State)
    requires SettleRank(s.reader) > 0 && !AtFollow(s.reader) && !ReaderHoldsClosed(s.reader)
    ensures SettleRank(ReaderNext(s, Events([]))) < SettleRank(s.reader) && !AtFollow(ReaderNext(s, Events([])))
    ensures !ReaderInstr(s).LockClosed? && !UnlocksClosed(ReaderInstr(s))
    ensures !ReaderInstr(s).LockTable? ==> Enabled(s, ReaderInstr(s))
  {
  }

  // Another user that holds the table mutex is not in Close.
  lemma OtherNotClosing(s: State, i: nat, j: nat)
    requires Closing(s, i) && !HoldsTable(s.users[i]) && s.watchesMutex == Some(User(j))
    ensures j < |s.users| && j != i && HoldsTable(s.users[j]) && !s.users[j].InClose?
  {
  }

  lemma Settle(reach: State -> bool, s: State, i: nat) returns (t: State)
    requires Runs.Closed(reach) && reach(s) && Closing(s, i) && !HoldsTable(s.users[i]) && !AtFollow(s.reader)
    ensures reach(t) && Continues(s, t, i) && !t.reader.Following? && !AtFollow(t.reader) && t.watchesMutex.None?
    decreases SettleRank(s.reader), TableRank(TableHolder(s))
  {
    if SettleRank(s.reader) == 0 && s.watchesMutex.None? {
      return s;
    }
    var s' := SettleStep(reach, s, i);
    t := Settle(reach, s', i);
    KeepsOn(s, s', t);
  }

  lemma SettleStep(reach: State -> bool, s: State, i: nat) returns (t: State)
    requires Runs.Closed(reach) && reach(s) && Closing(s, i) && !HoldsTable(s.users[i]) && !AtFollow(s.reader)
    requires SettleRank(s.reader) > 0 || s.watchesMutex.Some?
    ensures reach(t) && Continues(s, t, i) && !AtFollow(t.reader)
    ensures SettleRank(t.reader) < SettleRank(s.reader)
            || (t.reader == s.reader && TableRank(TableHolder(t)) < TableRank(TableHolder(s)))
  {
    if SettleRank(s.reader) > 0 {
      SettleRankDrops(s);
    }
    if SettleRank(s.reader) > 0 && Enabled(s, ReaderInstr(s)) {
      t := ReaderGo(reach, s);
    } else {
      var j := s.watchesMutex.value.id;
      OtherNotClosing(s, i, j);
      t := ReleaseStep(reach, s, j);
    }
  }

  // ----- then: a new goroutine removes every entry

  lemma SomeKey<K, V>(m: map<K, V>) returns (k: K)
    requires m != map[]
    ensures k in m
  {
    if k' :| k' in m.Keys {
      k := k';
    } else {
      assert false;
    }
  }

  lemma FewerEntries<V>(m: map<int, V>, pid: int)
    requires pid in m
    ensures |m - {pid}| < |m|
  {
    assert (m - {pid}).Keys == m.Keys - {pid};
    assert |m - {pid}| == |(m - {pid}).Keys| && |m| == |m.Keys|;
  }

  // All but the table is as it was.
  ghost predicate OnlyTable(s: State, t: State) {
    && t.users == s.users && t.reader == s.reader && t.panicked == s.panicked
    && t.closedMutex == s.closedMutex && t.watchesMutex.None? && s.trace <= t.trace
  }

  lemma RemoveCall(reach: State -> bool, s: State, k: nat, pid: int) returns (t: State)
    requires Runs.Closed(reach) && reach(s) && !s.panicked
    requires k < |s.users| && s.users[k].Idle? && s.watchesMutex.None?
    ensures reach(t) && OnlyTable(s, t) && t.watches == s.watches - {pid}
  {
    t := Go(reach, s, CallRemove(k, pid));
    t := RemoveSteps(reach, t, k, pid);
    assert t.users == s.users;
  }

  lemma RemoveSteps(reach: State -> bool, s: State, k: nat, pid: int) returns (t: State)
    requires Runs.Closed(reach) && reach(s) && !s.panicked
    requires k < |s.users| && s.users[k] == InRemove(pid, RLock) && s.watchesMutex.None?
    ensures reach(t) && OnlyTable(s.(users := s.users[k := Idle]), t) && t.watches == s.watches - {pid}
  {
    t := UserMove(reach, s, k, 0);
    assert t.users[k] == InRemove(pid, RDelete) && t.watches == s.watches && t.closedMutex == s.closedMutex;
    t := UserMove(reach, t, k, 0);
    assert t.users[k] == InRemove(pid, RUnlock) && t.watches == s.watches - {pid} && t.closedMutex == s.closedMutex;
    t := UserMove(reach, t, k, 0);
  }

  lemma Clear(reach: State -> bool, s: State, k: nat) returns (t: State)
    requires Runs.Closed(reach) && reach(s) && !s.panicked
    requires k < |s.users| && s.users[k].Idle? && s.watchesMutex.None?
    ensures reach(t) && OnlyTable(s, t) && t.watches == map[]
    decreases |s.watches|
  {
    if s.watches == map[] {
      t := s;
    } else {
      var pid := SomeKey(s.watches);
      FewerEntries(s.watches, pid);
      t := RemoveCall(reach, s, k, pid);
      t := Clear(reach, t, k);
    }
  }

  // ----- last: a reader that follows nothing any more comes to its end

  // An upper bound on the reader's own steps to the end of its loop, once done is sent.
  function ReaderRank(r: ReaderPc): nat {
    var loop := 4 + |CLOSE_ORDER|;
    match r
    case Exited => 0
    case SignalExit => 1
    case Finish(k) => if k <= |CLOSE_ORDER| then 2 + |CLOSE_ORDER| - k else 2
    case CheckDone => 3 + |CLOSE_ORDER|
    case Work(es) => loop + 16 * |es|
    case SendError => loop
    case Recv => loop + 1
    case Deliver(_, es) => loop + 16 * |es| + 1
    case DropUnlock(_, es) => loop + 16 * |es| + 2
    case Dropping(_, es) => loop + 16 * |es| + 3
    case DropLock(_, es) => loop + 16 * |es| + 4
    case TestGate(_, es) => loop + 16 * |es| + 5
    case AskGate(_, es) => loop + 16 * |es| + 6
    case FetchWild(_, es) => loop + 16 * |es| + 7
    case Fetch(_, es) => loop + 16 * |es| + 8
    case TestExec(_, es) => loop + 16 * |es| + 9
    case AskExec(_, es) => loop + 16 * |es| + 10
    case Fetched(_, _, es) => loop + 16 * |es|
    case Following(_, _, _, es) => loop + 16 * |es|
  }

  // The reader is about to deliver its last fork, or to leave its loop.
  predicate Ending(r: ReaderPc) {
    match r
    case AskGate(e, es) => e.Forked? && es == []
    case TestGate(e, es) => e.Forked? && es == []
    case Deliver(e, es) => e.Forked? && es == []
    case Work(es) => es == []
    case CheckDone => true
    case Finish(_) => true
    case SignalExit => true
    case Exited => true
    case _ => false
  }

  // Nothing to follow: the table is empty, or no event is left.
  predicate Calm(s: State) {
    (s.watches == map[] && !s.reader.Following? && !AtFollow(s.reader)) || Ending(s.reader)
  }

  lemma CalmStep(s: State)
    requires Calm(s) && !s.reader.Exited?
    requires s.reader.CheckDone? ==> s.done > 0
    requires s.reader.Finish? ==> s.reader.next <= |CLOSE_ORDER|
    ensures ReaderRank(ReaderNext(s, Events([]))) < ReaderRank(s.reader)
    ensures NewWatches(s, ReaderInstr(s)) == s.watches && NewHeap(s, ReaderInstr(s)) == s.heap
    ensures Ending(s.reader) ==> Ending(ReaderNext(s, Events([])))
    ensures !Ending(s.reader) ==> !ReaderNext(s, Events([])).Following? && !AtFollow(ReaderNext(s, Events([])))
    ensures !ReaderInstr(s).LockClosed? && !UnlocksClosed(ReaderInstr(s))
    ensures !ReaderInstr(s).LockTable? && !ReaderInstr(s).TakeDone? ==> Enabled(s, ReaderInstr(s))
  {
    if Ending(s.reader) {
      EndingStep(s);
    } else {
      EmptyStep(s);
    }
  }

  lemma EndingStep(s: State)
    requires Ending(s.reader) && !s.reader.Exited?
    requires s.reader.CheckDone? ==> s.done > 0
    requires s.reader.Finish? ==> s.reader.next <= |CLOSE_ORDER|
    ensures ReaderRank(ReaderNext(s, Events([]))) < ReaderRank(s.reader) && Ending(ReaderNext(s, Events([])))
    ensures !ReaderInstr(s).Insert? && !ReaderInstr(s).Store? && !ReaderInstr(s).Delete?
  {
  }

  lemma EmptyStep(s: State)
    requires s.watches == map[] && !s.reader.Following? && !AtFollow(s.reader) && !Ending(s.reader)
    ensures ReaderRank(ReaderNext(s, Events([]))) < ReaderRank(s.reader)
    ensures !ReaderNext(s, Events([])).Following? && !AtFollow(ReaderNext(s, Events([])))
    ensures !ReaderInstr(s).Insert? && !ReaderInstr(s).Store?
  {
  }

  lemma WaitingMeans(s: State, i: nat)
    requires Closing(s, i) && s.users[i] == InClose(CAwait)
    ensures s.reader.CheckDone? ==> s.done > 0
    ensures s.reader.Finish? ==> s.reader.next <= |CLOSE_ORDER|
  {
    assert Holder(s) == s.users[i];
  }

  // The table mutex is free, or it is the reader that holds it.
  predicate TableFree(s: State) {
    s.watchesMutex.None? || s.watchesMutex == Some(Reader)
  }

  // A lock that the reader asks for is not one it holds.
  lemma AsksWhenFree(s: State)
    requires Inv(s) && TableFree(s) && ReaderInstr(s).LockTable?
    ensures s.watchesMutex.None?
  {
    ReaderBrackets(s, Events([]));
  }

  lemma Drain(reach: State -> bool, s: State, i: nat) returns (t: State)
    requires Runs.Closed(reach) && reach(s) && Closing(s, i) && s.users[i] == InClose(CAwait)
    requires Calm(s) && TableFree(s)
    ensures reach(t) && Continues(s, t, i) && t.reader.Exited?
    ensures t.users == s.users && t.watches == s.watches && t.heap == s.heap
    decreases ReaderRank(s.reader)
  {
    if s.reader.Exited? {
      t := s;
    } else {
      var s' := DrainStep(reach, s, i);
      t := Drain(reach, s', i);
      KeepsOn(s, s', t);
    }
  }

  lemma DrainStep(reach: State -> bool, s: State, i: nat) returns (t: State)
    requires Runs.Closed(reach) && reach(s) && Closing(s, i) && s.users[i] == InClose(CAwait)
    requires Calm(s) && TableFree(s) && !s.reader.Exited?
    ensures reach(t) && Continues(s, t, i) && Calm(t) && TableFree(t)
    ensures t.users == s.users && t.watches == s.watches && t.heap == s.heap
    ensures ReaderRank(t.reader) < ReaderRank(s.reader)
  {
    WaitingMeans(s, i);
    CalmStep(s);
    if ReaderInstr(s).LockTable? {
      AsksWhenFree(s);
    }
    t := ReaderGo(reach, s);
  }

  // ----- a Close that holds closedMutex returns

  /** User i has returned from Close on the way from s to t. */
  ghost predicate Returned(s: State, t: State, i: nat) {
    s.trace <= t.trace && CloseReturned(i) in Added(s, t)
  }

  lemma ReturnedLater(s: State, s': State, t: State, i: nat)
    requires s.trace <= s'.trace && Returned(s', t, i)
    ensures Returned(s, t, i)
  {
    assert Added(s, t) == Added(s, s') + Added(s', t);
  }

  function CloseRank(c: ClosePc): nat {
    match c
    case CLock => 9 case CTest => 8 case CMark => 7 case CLockTable => 6 case CClear => 5
    case CUnlockTable => 4 case CSendDone => 3 case CAwait => 2 case CCloseListener => 1 case CUnlock => 0
  }

  // A Close at its wait: everybody else is brought to where it can go on.
  lemma ReaderLeaves(reach: State -> bool, s: State, i: nat) returns (t: State)
    requires Runs.Closed(reach) && reach(s) && Closing(s, i) && s.users[i] == InClose(CAwait) && !AtFollow(s.reader)
    ensures reach(t) && Continues(s, t, i) && t.reader.Exited?
  {
    var s1 := Settle(reach, s, i);
    var s2 := Go(reach, s1, Spawn);
    InvStep(s1, Spawn, s2);
    assert Continues(s1, s2, i);
    KeepsOn(s, s1, s2);
    WithInv(reach);
    var s3 := Clear(x => reach(x) && Inv(x), s2, |s1.users|);
    assert Continues(s2, s3, i);
    KeepsOn(s, s2, s3);
    t := Drain(reach, s3, i);
    KeepsOn(s, s3, t);
  }

  // What a holder of closedMutex in Close needs before its next step.
  lemma Prepare(reach: State -> bool, s: State, i: nat) returns (t: State)
    requires Runs.Closed(reach) && reach(s) && Closing(s, i) && !AtFollow(s.reader)
    ensures reach(t) && Continues(s, t, i) && !AtFollow(t.reader)
    ensures t.users[i] == InClose(CClear) ==> t == s
    ensures Enabled(t, CloseInstr(t, i, t.users[i].c, 0))
  {
    t := s;
    if s.users[i].c == CLockTable {
      t := Settle(reach, s, i);
    } else if s.users[i].c == CAwait {
      t := ReaderLeaves(reach, s, i);
    }
    assert Holder(t) == t.users[i];
  }

  // One step of Close by the user that holds closedMutex.
  lemma Advance(reach: State -> bool, s: State, i: nat, pick: int, kind: Kind := All) returns (t: State)
    requires Runs.Closed(reach, kind) && May(kind, s, UserStep(i, pick)) && reach(s)
    requires Closing(s, i) && Enabled(s, CloseInstr(s, i, s.users[i].c, pick))
    ensures reach(t) && Inv(t) && Keeps(s, t) && t.reader == s.reader && i < |t.users|
    ensures t.users == s.users[i := CloseNext(s, s.users[i].c)]
    ensures t.watches == NewWatches(s, CloseInstr(s, i, s.users[i].c, pick))
    ensures if s.users[i].c == CUnlock then t.closedMutex.None? && Returned(s, t, i) else Closing(t, i)
  {
    assert HoldsClosed(s.users[i]);
    UserBrackets(s, i, s.users[i], pick);
    t := UserGo(reach, s, i, pick, kind);
  }

  lemma HolderReturns(reach: State -> bool, s: State, i: nat) returns (t: State)
    requires Runs.Closed(reach) && reach(s) && Closing(s, i) && !AtFollow(s.reader)
    ensures reach(t) && Inv(t) && Keeps(s, t) && Returned(s, t, i) && t.closedMutex.None? && t.reader.Exited?
    decreases CloseRank(s.users[i].c), |s.watches|
  {
    var s1 := Prepare(reach, s, i);
    var s2 := AdvanceOne(reach, s1, i);
    KeepsOn(s, s1, s2);
    if s1.users[i].c == CUnlock {
      t := s2;
      ReturnedLater(s, s1, t, i);
    } else {
      t := HolderReturns(reach, s2, i);
      KeepsOn(s, s2, t);
      ReturnedLater(s, s2, t, i);
    }
  }

  lemma LastIsLast(s: State, i: nat)
    requires Closing(s, i) && s.users[i].c == CUnlock
    ensures s.reader.Exited?
  {
    assert Holder(s) == s.users[i];
  }

  // One step of Close towards its end; while it empties the table, one entry fewer.
  lemma AdvanceOne(reach: State -> bool, s: State, i: nat) returns (t: State)
    requires Runs.Closed(reach) && reach(s) && Closing(s, i)
    requires Enabled(s, CloseInstr(s, i, s.users[i].c, 0))
    ensures reach(t) && Inv(t) && Keeps(s, t) && t.reader == s.reader && i < |t.users|
    ensures if s.users[i].c == CUnlock then t.closedMutex.None? && Returned(s, t, i) && t.reader.Exited?
            else Closing(t, i) && (CloseRank(t.users[i].c) < CloseRank(s.users[i].c)
                                   || (t.users[i].c == s.users[i].c == CClear && |t.watches| < |s.watches|))
  {
    var c := s.users[i].c;
    if c == CUnlock {
      LastIsLast(s, i);
      t := Advance(reach, s, i, 0);
    } else if c == CClear && s.watches != map[] {
      var pick := SomeKey(s.watches);
      FewerEntries(s.watches, pick);
      t := Advance(reach, s, i, pick);
    } else {
      t := Advance(reach, s, i, 0);
      RankOfNext(s, c);
    }
  }

  lemma RankOfNext(s: State, c: ClosePc)
    requires c != CUnlock && (c == CClear ==> s.watches == map[])
    ensures CloseNext(s, c).InClose? && CloseRank(CloseNext(s, c).c) < CloseRank(c)
  {
  }

  // ----- a Close that waits for closedMutex gets it

  function FreeRank(s: State): nat {
    if Holder(s).InClose? then 7
    else if Holder(s).InWatch? then (if Holder(s).w.WTest? then 6 else 5)
    else if s.closedMutex.None? then (if !AtFollow(s.reader) then 0 else if s.reader.Fetched? then 4 else 3)
    else if s.reader.Following? && s.reader.fw.WTest? then 2
    else 1
  }

  // Users that wait for closedMutex wait.
  lemma StepTowardsFree(reach: State -> bool, s: State) returns (t: State)
    requires Runs.Closed(reach) && reach(s) && Inv(s) && !Deadlocked(s) && FreeRank(s) > 0
    ensures reach(t) && Inv(t) && Keeps(s, t) && !Deadlocked(t) && FreeRank(t) < FreeRank(s)
  {
    if s.closedMutex.Some? && s.closedMutex.value.User? {
      var j := s.closedMutex.value.id;
      assert HoldsClosed(s.users[j]);
      if s.users[j].InClose? {
        t := HolderReturns(reach, s, j);
      } else {
        WithInv(reach);
        t := WatchReleases(x => reach(x) && Inv(x), s, j);
      }
    } else {
      WithInv(reach);
      assert s.closedMutex.Some? ==> ReaderHoldsClosed(s.reader);
      t := ReaderReleases(x => reach(x) && Inv(x), s);
    }
  }

  lemma WatchReleases(reach: State -> bool, s: State, j: nat) returns (t: State)
    requires Runs.Closed(reach) && reach(s) && !s.panicked && j < |s.users|
    requires s.closedMutex == Some(User(j)) && s.users[j].InWatch? && HoldsClosed(s.users[j])
    ensures reach(t) && Keeps(s, t) && !Deadlocked(t) && FreeRank(t) < FreeRank(s)
  {
    t := UserMove(reach, s, j, 0);
    assert Holder(t) == t.users[j] || t.closedMutex.None?;
  }

  lemma ReaderReleases(reach: State -> bool, s: State) returns (t: State)
    requires Runs.Closed(reach) && reach(s) && !s.panicked
    requires if s.closedMutex.None? then AtFollow(s.reader)
             else s.closedMutex == Some(Reader) && ReaderHoldsClosed(s.reader)
    ensures reach(t) && Keeps(s, t) && !Deadlocked(t) && FreeRank(t) < FreeRank(s)
  {
    t := ReaderMove(reach, s);
  }

  lemma FreeClosed(reach: State -> bool, s: State) returns (t: State)
    requires Runs.Closed(reach) && reach(s) && Inv(s) && !Deadlocked(s)
    ensures reach(t) && Inv(t) && Keeps(s, t) && t.closedMutex.None? && !AtFollow(t.reader)
    decreases FreeRank(s)
  {
    if FreeRank(s) == 0 {
      t := s;
    } else {
      var s' := StepTowardsFree(reach, s);
      t := FreeClosed(reach, s');
      KeepsOn(s, s', t);
    }
  }

  lemma TakeClosed(reach: State -> bool, s: State, i: nat) returns (t: State)
    requires Runs.Closed(reach) && reach(s) && Inv(s) && s.closedMutex.None?
    requires i < |s.users| && s.users[i] == InClose(CLock)
    ensures reach(t) && Closing(t, i) && t.reader == s.reader && t.trace == s.trace
    ensures t.users == s.users[i := InClose(CTest)]
  {
    t := UserGo(reach, s, i, 0);
  }

  /** A run in which the call of user i returns, wherever in Close it is. */
  lemma ReturnRun(reach: State -> bool, s: State, i: nat) returns (t: State)
    requires Runs.Closed(reach) && reach(s) && Inv(s) && !Deadlocked(s)
    requires i < |s.users| && s.users[i].InClose?
    ensures reach(t) && Inv(t) && Returned(s, t, i)
    ensures forall k :: 0 <= k < |s.users| && k != i && !HoldsTable(s.users[k]) && !HoldsClosed(s.users[k]) ==>
                          k < |t.users| && t.users[k] == s.users[k]
  {
    if s.users[i] == InClose(CLock) {
      var s1 := FreeClosed(reach, s);
      t := TakeClosed(reach, s1, i);
      t := HolderReturns(reach, t, i);
      ReturnedLater(s, s1, t, i);
    } else {
      assert HoldsClosed(s.users[i]);
      assert Holder(s) == s.users[i];
      t := HolderReturns(reach, s, i);
    }
  }

  /** A call of Close, wherever it is, can still return if and only if no Close
      holds closedMutex while the reader waits for it; once that is so, no
      Close ever returns. */
  lemma CloseCanReturn(n: nat, s: State, i: nat)
    requires Reaches(Init(n), s) && i < |s.users| && s.users[i].InClose?
    ensures (exists t :: Reaches(s, t) && Returned(s, t, i)) <==> !Deadlocked(s)
  {
    InvReach(n, s);
    if Deadlocked(s) {
      forall t | Reaches(s, t) ensures !Returned(s, t, i) {
        var ms :| Run(s, ms) == Some(t);
        DeadlockedRun(s, ms, t);
      }
    } else {
      ReachIsClosed(s);
      ReachesSelf(s);
      var t := ReturnRun(x => Reaches(s, x), s, i);
    }
  }
}
