/**
 When can Close return without anybody's help? The run that CloseReturns
 builds starts a goroutine that removes every entry, so that the reader finds
 no more forks to follow. If all other users are idle or wait for closedMutex,
 and nobody starts a call, it depends on the table and on the events that the
 reader has in hand alone.
 */
module CloseUnaided {
  import opened Wrappers
  import opened CloseHandshake
  import opened CloseReturns
  import opened ReaderRefinement
  import opened Runs
  import opened TableEntries
  import T = WatchTable

  // ----- what the reader will come to

  // One of these events is a fork that is to be followed.
  predicate FollowsOne(t: T.Table, es: seq<T.Event>) {
    FollowIndex(t, es) < |es|
  }

  // The table after the gate of an event.
  function Gated(t: T.Table, e: Known): T.Table {
    if T.Removing(e) && T.Wanted(t, e) then T.RemoveWatch(t, T.Gate(e).value.0) else t
  }

  function With(t: T.Table, pid: int, flags: T.Flags): T.Table {
    t.(watches := t.watches[pid := flags])
  }

  // The table after the rest of the reader's own Watch, once that is past its closed test.
  function AfterCall(s: State, pid: int, flags: T.Flags, w: WatchPc): T.Table {
    var t := TableOf(s);
    match w
    case WLookup =>
      With(t, pid, if pid in s.watches then MergedFlags(s.heap, s.watches[pid], flags) else flags)
    case WLoad(found) =>
      if pid in s.watches && s.watches[pid] == found then With(t, pid, MergedFlags(s.heap, found, flags)) else t
    case WStore(found, value) => if pid in s.watches && s.watches[pid] == found then With(t, pid, value) else t
    case WLockTable => With(t, pid, flags)
    case WInsert => With(t, pid, flags)
    case _ => t
  }

  /** The reader will come to a fork that it is to follow, if nobody else changes the table. */
  predicate WillFollow(s: State) {
    var t := TableOf(s);
    match s.reader
    case Work(es) => FollowsOne(t, es)
    case AskExec(f, es) => T.Follows(t, f) || FollowsOne(t, es)
    case TestExec(f, es) => T.Follows(t, f) || FollowsOne(t, es)
    case Fetch(f, es) => T.Effective(t, f.parentTgid).Some? || FollowsOne(t, es)
    case FetchWild(_, es) => T.WILDCARD in t.watches || FollowsOne(t, es)
    case Fetched(_, _, _) => true
    case Following(flags, w, f, es) => w.WLock? || FollowsOne(AfterCall(s, f.childTgid, flags, w), es)
    case AskGate(e, es) => FollowsOne(Gated(t, e), es)
    case TestGate(e, es) => FollowsOne(Gated(t, e), es)
    case DropLock(e, es) => FollowsOne(T.RemoveWatch(t, T.Gate(e).value.0), es)
    case Dropping(e, es) => FollowsOne(T.RemoveWatch(t, T.Gate(e).value.0), es)
    case DropUnlock(_, es) => FollowsOne(t, es)
    case Deliver(_, es) => FollowsOne(t, es)
    case _ => false
  }

  // ----- the reader's own steps do not change it

  // The table is as it was.
  ghost predicate SameTable(s: State, t: State) {
    t.watches == s.watches && t.heap == s.heap && t.isClosed == s.isClosed
  }

  lemma WorkAhead(s: State, t: State)
    requires s.reader.Work? && t.reader == WorkNext(s.reader.es) && SameTable(s, t)
    ensures WillFollow(t) == WillFollow(s)
  {
  }

  lemma ExecAhead(s: State, t: State)
    requires s.reader.TestExec? && t.reader == ReaderNext(s, Events([])) && SameTable(s, t)
    ensures WillFollow(t) == WillFollow(s)
  {
    WatchedMeans(s, s.reader.f.parentTgid, T.EXEC);
  }

  lemma FetchAhead(s: State, t: State)
    requires s.reader.Fetch? || s.reader.FetchWild?
    requires t.reader == ReaderNext(s, Events([])) && SameTable(s, t)
    ensures WillFollow(t) == WillFollow(s)
  {
  }

  lemma GateAhead(s: State, t: State)
    requires s.reader.TestGate? && t.reader == ReaderNext(s, Events([])) && SameTable(s, t)
    ensures WillFollow(t) == WillFollow(s)
  {
    var e := s.reader.e;
    WatchedMeans(s, T.Gate(e).value.0, T.Gate(e).value.1);
  }

  lemma DropAhead(s: State, t: State)
    requires s.reader.Dropping? && t.reader == ReaderNext(s, Events([])) && t.isClosed == s.isClosed
    requires t.heap == s.heap && t.watches == s.watches - {T.Gate(s.reader.e).value.0}
    ensures WillFollow(t) == WillFollow(s)
  {
    RemovedTable(s.watches, s.heap, T.Gate(s.reader.e).value.0);
  }

  // The rest of the reader's Watch gives the same table after each of its steps.
  lemma CallAhead(s: State, pid: int, flags: T.Flags, w: WatchPc, t: State)
    requires TableRefs(s) && WatchRefs(s.heap, pid, w) && !w.WLock? && !w.WTest? && !w.WUnlock?
    requires t.isClosed == s.isClosed
    requires t.watches == NewWatches(s, WatchInstr(s, pid, flags, w))
    requires t.heap == NewHeap(s, WatchInstr(s, pid, flags, w))
    ensures AfterCall(t, pid, flags, WatchNext(s, pid, flags, w)) == AfterCall(s, pid, flags, w)
  {
    match w
    case WStore(found, value) =>
      if pid in s.watches && s.watches[pid] == found {
        StoredTable(s.watches, s.heap, pid, value);
      } else {
        StoredElsewhere(s.watches, s.heap, pid, found, value);
      }
    case WInsert => InsertedFlags(s.watches, s.heap, pid, flags);
    case _ =>
  }

  lemma FollowingAhead(s: State, t: State)
    requires Refs(s) && s.reader.Following? && !s.reader.fw.WLock? && !ReaderHoldsClosed(s.reader)
    requires t.reader == ReaderNext(s, Events([])) && t.isClosed == s.isClosed
    requires t.watches == NewWatches(s, ReaderInstr(s)) && t.heap == NewHeap(s, ReaderInstr(s))
    ensures WillFollow(t) == WillFollow(s)
  {
    CallAhead(s, s.reader.f.childTgid, s.reader.flags, s.reader.fw, t);
  }

  lemma ReaderAhead(s: State, received: Received, t: State)
    requires Refs(s) && StepReader(s, received) == Some(t) && !ReaderHoldsClosed(s.reader) && s.closedMutex.Some?
    requires s.reader.CheckDone? ==> s.done > 0
    requires s.reader.Recv? ==> received == Events([])
    ensures WillFollow(t) == WillFollow(s)
  {
    PerformChanges(s, Reader, ReaderInstr(s));
    PerformKeepsPrograms(s, Reader, ReaderInstr(s));
    assert t.reader == ReaderNext(s, Events([]));
    if s.reader.Following? {
      FollowingAhead(s, t);
    } else if s.reader.Dropping? {
      DropAhead(s, t);
    } else {
      OtherAhead(s, t);
    }
  }

  lemma OtherAhead(s: State, t: State)
    requires !s.reader.Following? && !s.reader.Dropping? && (s.reader.CheckDone? ==> s.done > 0)
    requires t.reader == ReaderNext(s, Events([])) && t.isClosed == s.isClosed
    requires t.watches == NewWatches(s, ReaderInstr(s)) && t.heap == NewHeap(s, ReaderInstr(s))
    ensures WillFollow(t) == WillFollow(s)
  {
    if s.reader.Work? {
      WorkAhead(s, t);
    } else if s.reader.TestExec? {
      ExecAhead(s, t);
    } else if s.reader.Fetch? || s.reader.FetchWild? {
      FetchAhead(s, t);
    } else if s.reader.TestGate? {
      GateAhead(s, t);
    }
  }

  // ----- everybody else waits

  predicate Patient(u: UserPc) {
    u.Idle? || (u.InWatch? && (u.w.WLock? || u.w.WReturn?)) || u == InClose(CLock)
  }

  /** User i waits for the reader in Close, and no other call can do anything before it returns. */
  ghost predicate OnlyReader(s: State, i: nat) {
    && Closing(s, i) && s.users[i] == InClose(CAwait) && Refs(s)
    && forall k :: 0 <= k < |s.users| && k != i ==> Patient(s.users[k])
  }

  lemma NobodyHolds(s: State, i: nat)
    requires OnlyReader(s, i)
    ensures TableFree(s) && !ReaderHoldsClosed(s.reader)
    ensures s.reader.CheckDone? ==> s.done > 0
    ensures s.reader.Finish? ==> s.reader.next <= |CLOSE_ORDER|
  {
    WaitingMeans(s, i);
    var m := s.watchesMutex;
    var k := if m.Some? && m.value.User? && m.value.id < |s.users| then m.value.id else i;
    assert !HoldsTable(s.users[k]);
  }

  // ----- once the reader will follow, Close does not return

  lemma PatientStep(s: State, i: nat, j: nat, pick: int, t: State)
    requires OnlyReader(s, i) && WillFollow(s) && StepUser(s, j, pick) == Some(t)
    ensures OnlyReader(t, i) && WillFollow(t) && NoReturn(s, t)
  {
    OnlyReturns(s, i, j, pick);
    StepUserChanges(s, j, pick, t);
    InvStep(s, UserStep(j, pick), t);
    RefsStep(s, UserStep(j, pick), t);
    SameAhead(s, t);
  }

  lemma SameAhead(s: State, t: State)
    requires SameTable(s, t) && t.reader == s.reader
    ensures WillFollow(t) == WillFollow(s)
  {
  }

  // All that another user can do is to return from Watch.
  lemma OnlyReturns(s: State, i: nat, j: nat, pick: int)
    requires OnlyReader(s, i) && WillFollow(s) && StepUser(s, j, pick).Some?
    ensures j != i && s.users[j].InWatch? && s.users[j].w.WReturn?
  {
    assert !s.loopSignalled;
  }

  lemma ReaderStepAhead(s: State, i: nat, received: Received, t: State)
    requires OnlyReader(s, i) && WillFollow(s) && StepReader(s, received) == Some(t)
    ensures OnlyReader(t, i) && WillFollow(t) && NoReturn(s, t)
  {
    NobodyHolds(s, i);
    ReaderAhead(s, received, t);
    InvStep(s, ReaderStep(received), t);
    RefsStep(s, ReaderStep(received), t);
    PerformChanges(s, Reader, ReaderInstr(s));
    PerformKeepsPrograms(s, Reader, ReaderInstr(s));
    ReaderBrackets(s, received);
    ReaderIssues(s, received);
  }

  lemma {:induction false} StuckRun(s: State, i: nat, ms: seq<Move>, t: State)
    requires OnlyReader(s, i) && WillFollow(s) && Run(s, ms) == Some(t) && AllMay(InProgress, s, ms)
    ensures NoReturn(s, t)
    decreases |ms|
  {
    if ms != [] {
      var s' := RunHead(s, ms, t);
      if ms[0].UserStep? {
        PatientStep(s, i, ms[0].user, ms[0].pick, s');
      } else {
        ReaderStepAhead(s, i, ms[0].received, s');
      }
      StuckRun(s', i, ms[1..], t);
    }
  }

  // ----- otherwise the reader comes to its end, and Close returns

  function UnaidedRank(r: ReaderPc): nat {
    if r.Following? then 10 + |CLOSE_ORDER| + 16 * |r.es| + SettleRank(r) else ReaderRank(r)
  }

  // What it means at once that the reader will not follow.
  predicate Unfollowing(s: State) {
    match s.reader
    case TestExec(f, _) => !Watched(s, f.parentTgid, T.EXEC)
    case Fetch(f, _) => f.parentTgid as int !in s.watches && T.WILDCARD !in s.watches
    case FetchWild(_, _) => T.WILDCARD !in s.watches
    case Fetched(_, _, _) => false
    case Following(_, w, _, _) => !w.WLock?
    case _ => true
  }

  lemma WillNot(s: State)
    requires !WillFollow(s)
    ensures Unfollowing(s)
  {
    if s.reader.TestExec? {
      WatchedMeans(s, s.reader.f.parentTgid, T.EXEC);
    }
  }

  lemma RankDrops(s: State)
    requires Unfollowing(s) && !s.reader.Exited? && !ReaderHoldsClosed(s.reader)
    requires s.reader.CheckDone? ==> s.done > 0
    requires s.reader.Finish? ==> s.reader.next <= |CLOSE_ORDER|
    ensures UnaidedRank(ReaderNext(s, Events([]))) < UnaidedRank(s.reader)
    ensures !ReaderInstr(s).LockClosed? && !UnlocksClosed(ReaderInstr(s))
    ensures !ReaderInstr(s).LockTable? && !ReaderInstr(s).TakeDone? ==> Enabled(s, ReaderInstr(s))
  {
    if s.reader.Following? {
      CallRankDrops(s);
    }
  }

  lemma CallRankDrops(s: State)
    requires s.reader.Following? && !s.reader.fw.WLock? && !ReaderHoldsClosed(s.reader)
    ensures UnaidedRank(ReaderNext(s, Events([]))) < UnaidedRank(s.reader)
    ensures !ReaderInstr(s).LockClosed? && !UnlocksClosed(ReaderInstr(s))
    ensures !ReaderInstr(s).LockTable? ==> Enabled(s, ReaderInstr(s))
  {
  }

  lemma ReaderGoesOn(reach: State -> bool, s: State, i: nat) returns (t: State)
    requires Closed(reach, InProgress) && reach(s) && OnlyReader(s, i) && !WillFollow(s) && !s.reader.Exited?
    ensures reach(t) && OnlyReader(t, i) && !WillFollow(t) && s.trace <= t.trace
    ensures UnaidedRank(t.reader) < UnaidedRank(s.reader)
  {
    NobodyHolds(s, i);
    WillNot(s);
    RankDrops(s);
    if ReaderInstr(s).LockTable? {
      AsksWhenFree(s);
    }
    t := Go(reach, s, READ, InProgress);
    ReaderAhead(s, Events([]), t);
    StillOnlyReader(s, i, t);
  }

  lemma StillOnlyReader(s: State, i: nat, t: State)
    requires OnlyReader(s, i) && Step(s, READ) == Some(t)
    requires !ReaderInstr(s).LockClosed? && !UnlocksClosed(ReaderInstr(s))
    ensures OnlyReader(t, i) && s.trace <= t.trace && t.reader == ReaderNext(s, Events([]))
  {
    InvStep(s, READ, t);
    RefsStep(s, READ, t);
    StepReaderChanges(s, t);
  }

  lemma ReaderEnds(reach: State -> bool, s: State, i: nat) returns (t: State)
    requires Closed(reach, InProgress) && reach(s) && OnlyReader(s, i) && !WillFollow(s)
    ensures reach(t) && Closing(t, i) && t.users[i] == InClose(CAwait) && t.reader.Exited? && s.trace <= t.trace
    decreases UnaidedRank(s.reader)
  {
    if s.reader.Exited? {
      t := s;
    } else {
      t := ReaderGoesOn(reach, s, i);
      t := ReaderEnds(reach, t, i);
    }
  }

  lemma CloseFinishes(reach: State -> bool, s: State, i: nat) returns (t: State)
    requires Closed(reach, InProgress) && reach(s) && Closing(s, i) && s.reader.Exited?
    requires s.users[i] == InClose(CAwait) || s.users[i] == InClose(CCloseListener) || s.users[i] == InClose(CUnlock)
    ensures reach(t) && Returned(s, t, i)
    decreases CloseRank(s.users[i].c)
  {
    var s' := Advance(reach, s, i, 0, InProgress);
    if s.users[i].c == CUnlock {
      t := s';
    } else {
      t := CloseFinishes(reach, s', i);
      ReturnedLater(s, s', t, i);
    }
  }

  /** With nobody else able to act before Close returns, the calls in progress
      alone can bring Close to its end if and only if the reader will not come
      to a fork that it is to follow. */
  lemma ReturnsUnaided(n: nat, s: State, i: nat)
    requires Reaches(Init(n), s) && i < |s.users| && s.users[i] == InClose(CAwait)
    requires forall k :: 0 <= k < |s.users| && k != i ==> Patient(s.users[k])
    ensures (exists t :: ReachesBy(InProgress, s, t) && Returned(s, t, i)) <==> !WillFollow(s)
  {
    InvReach(n, s);
    RefsReach(n, s);
    assert HoldsClosed(s.users[i]);
    if WillFollow(s) {
      forall t | ReachesBy(InProgress, s, t) ensures !Returned(s, t, i) {
        var ms :| Run(s, ms) == Some(t) && AllMay(InProgress, s, ms);
        StuckRun(s, i, ms, t);
      }
    } else {
      var t := UnaidedRun(s, i);
    }
  }

  lemma UnaidedRun(s: State, i: nat) returns (t: State)
    requires OnlyReader(s, i) && !WillFollow(s)
    ensures ReachesBy(InProgress, s, t) && Returned(s, t, i)
  {
    var reach := x => ReachesBy(InProgress, s, x);
    ReachByIsClosed(InProgress, s);
    ReachesBySelf(InProgress, s);
    var s' := ReaderEnds(reach, s, i);
    t := CloseFinishes(reach, s', i);
    ReturnedLater(s, s', t, i);
  }
}
