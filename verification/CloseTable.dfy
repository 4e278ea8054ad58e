/**
 Does Close leave the table empty? It empties it, but a Watch that is already
 past its closed test, called by a user or by the reader itself to follow a
 fork, inserts its entry later, even after Close has returned.
 */
module CloseTable {
  import opened Wrappers
  import opened CloseHandshake
  import opened CloseGuarantees
  import opened CloseReturns
  import opened Runs

  // ----- the table once Close has emptied it

  /** A Watch that will insert its entry if the process has none. */
  predicate InFlight(w: WatchPc) {
    w.WLookup? || w.WLockTable?
  }

  ghost predicate NoneInFlight(s: State) {
    && (forall k :: 0 <= k < |s.users| && s.users[k].InWatch? ==> !InFlight(s.users[k].w))
    && !(s.reader.Following? && InFlight(s.reader.fw))
  }

  ghost predicate StaysEmpty(s: State) {
    forall t :: Reaches(s, t) ==> t.watches == map[]
  }

  // Close gives the table mutex back only when the table is empty.
  ghost predicate Emptied(s: State) {
    forall i :: 0 <= i < |s.users| && s.users[i] == InClose(CUnlockTable) ==> s.watches == map[]
  }

  lemma EmptiedUser(s: State, j: nat, pick: int, t: State)
    requires Inv(s) && Emptied(s) && StepUser(s, j, pick) == Some(t)
    ensures Emptied(t)
  {
    StepUserChanges(s, j, pick, t);
    forall i | 0 <= i < |t.users| && t.users[i] == InClose(CUnlockTable) ensures t.watches == map[] {
      if i == j {
        assert s.users[j] == InClose(CClear);
      } else {
        assert HoldsTable(s.users[i]) && !HoldsTable(s.users[j]);
      }
    }
  }

  lemma EmptiedReader(s: State, received: Received, t: State)
    requires Inv(s) && Emptied(s) && StepReader(s, received) == Some(t)
    ensures Emptied(t)
  {
    PerformChanges(s, Reader, ReaderInstr(s));
    PerformKeepsPrograms(s, Reader, ReaderInstr(s));
    forall i | 0 <= i < |t.users| && t.users[i] == InClose(CUnlockTable) ensures t.watches == map[] {
      assert HoldsTable(s.users[i]) && !ReaderHoldsTable(s.reader);
    }
  }

  lemma {:induction false} EmptiedRun(s: State, ms: seq<Move>, t: State)
    requires Inv(s) && Emptied(s) && Run(s, ms) == Some(t)
    ensures Emptied(t)
    decreases |ms|
  {
    if ms != [] {
      var s' := RunHead(s, ms, t);
      InvStep(s, ms[0], s');
      if ms[0].UserStep? {
        EmptiedUser(s, ms[0].user, ms[0].pick, s');
      } else if ms[0].ReaderStep? {
        EmptiedReader(s, ms[0].received, s');
      }
      EmptiedRun(s', ms[1..], t);
    }
  }

  // A Watch that, with the watcher closed, inserts nothing.
  predicate Harmless(w: WatchPc) {
    w.WLock? || w.WTest? || w == WUnlock(true) || w.WLoad? || w.WStore? || w.WUnlockTable? || w.WReturn?
  }

  ghost predicate Quiet(s: State) {
    && s.isClosed && s.watches == map[]
    && (forall k :: 0 <= k < |s.users| && s.users[k].InWatch? ==> Harmless(s.users[k].w))
    && (s.reader.Following? ==> Harmless(s.reader.fw))
  }

  lemma QuietUser(s: State, j: nat, pick: int, t: State)
    requires Quiet(s) && StepUser(s, j, pick) == Some(t)
    ensures Quiet(t)
  {
    StepUserChanges(s, j, pick, t);
  }

  lemma QuietReader(s: State, received: Received, t: State)
    requires Quiet(s) && StepReader(s, received) == Some(t)
    ensures Quiet(t)
  {
    PerformChanges(s, Reader, ReaderInstr(s));
    PerformKeepsPrograms(s, Reader, ReaderInstr(s));
  }

  lemma {:induction false} QuietRun(s: State, ms: seq<Move>, t: State)
    requires Quiet(s) && Run(s, ms) == Some(t)
    ensures Quiet(t)
    decreases |ms|
  {
    if ms != [] {
      var s' := RunHead(s, ms, t);
      if ms[0].UserStep? {
        QuietUser(s, ms[0].user, ms[0].pick, s');
      } else if ms[0].ReaderStep? {
        QuietReader(s, ms[0].received, s');
      }
      QuietRun(s', ms[1..], t);
    }
  }

  // With an empty table and its mutex free, a Watch in flight gets its entry in.
  lemma UserInserts(reach: State -> bool, s: State, k: nat) returns (t: State)
    requires Runs.Closed(reach) && reach(s) && !s.panicked && s.watches == map[] && s.watchesMutex.None?
    requires k < |s.users| && s.users[k].InWatch? && InFlight(s.users[k].w)
    ensures reach(t) && t.watches == map[s.users[k].wpid := |s.heap|]
    decreases s.users[k].w.WLookup?
  {
    t := UserMove(reach, s, k, 0);
    if s.users[k].w.WLookup? {
      t := UserInserts(reach, t, k);
    } else {
      t := UserMove(reach, t, k, 0);
    }
  }

  lemma ReaderInserts(reach: State -> bool, s: State) returns (t: State)
    requires Runs.Closed(reach) && reach(s) && !s.panicked && s.watches == map[] && s.watchesMutex.None?
    requires s.reader.Following? && InFlight(s.reader.fw)
    ensures reach(t) && t.watches == map[s.reader.f.childTgid as int := |s.heap|]
    decreases s.reader.fw.WLookup?
  {
    t := ReaderMove(reach, s);
    if s.reader.fw.WLookup? {
      t := ReaderInserts(reach, t);
    } else {
      t := ReaderMove(reach, t);
    }
  }

  // Whatever is in flight when Close has emptied the table can fill it again.
  lemma InFlightFills(reach: State -> bool, s: State, i: nat) returns (t: State)
    requires Runs.Closed(reach) && reach(s) && Inv(s) && s.watches == map[]
    requires i < |s.users| && s.users[i] == InClose(CUnlockTable) && !NoneInFlight(s)
    ensures reach(t) && t.watches != map[]
  {
    var s1 := UserGo(reach, s, i, 0);
    if s.reader.Following? && InFlight(s.reader.fw) {
      t := ReaderInserts(reach, s1);
      assert s.reader.f.childTgid as int in t.watches;
    } else {
      var k :| 0 <= k < |s.users| && s.users[k].InWatch? && InFlight(s.users[k].w);
      t := UserInserts(reach, s1, k);
      assert s.users[k].wpid in t.watches;
    }
  }

  lemma QuietWhenEmptied(s: State, i: nat)
    requires Inv(s) && s.watches == map[] && i < |s.users| && s.users[i] == InClose(CUnlockTable) && NoneInFlight(s)
    ensures Quiet(s)
  {
    assert HoldsClosed(s.users[i]) && HoldsTable(s.users[i]);
    assert Holder(s) == s.users[i];
    forall k | 0 <= k < |s.users| && s.users[k].InWatch? ensures Harmless(s.users[k].w) {
      assert !HoldsClosed(s.users[k]) && !HoldsTable(s.users[k]);
    }
  }

  /** When Close has emptied the table, it stays empty in every run if and only
      if no Watch, of a user or of the reader, is between its closed test and
      its insertion. */
  lemma CloseRemovesAll(n: nat, s: State, i: nat)
    requires Reaches(Init(n), s) && i < |s.users| && s.users[i] == InClose(CUnlockTable)
    ensures s.watches == map[]
    ensures StaysEmpty(s) <==> NoneInFlight(s)
  {
    InvReach(n, s);
    InitInv(n);
    var before :| Run(Init(n), before) == Some(s);
    EmptiedRun(Init(n), before, s);
    if NoneInFlight(s) {
      QuietWhenEmptied(s, i);
      forall t | Reaches(s, t) ensures t.watches == map[] {
        var ms :| Run(s, ms) == Some(t);
        QuietRun(s, ms, t);
      }
    } else {
      ReachIsClosed(s);
      ReachesSelf(s);
      var t := InFlightFills(x => Reaches(s, x), s, i);
    }
  }

  // ----- the table after Close has returned

  // A Watch that has seen the watcher open and may still insert its entry.
  predicate PastTest(u: UserPc) {
    u.InWatch? && (InFlight(u.w) || u.w.WInsert?)
  }

  ghost predicate NeverGrows(s: State) {
    forall t :: Reaches(s, t) ==> t.watches.Keys <= s.watches.Keys
  }

  ghost predicate Confined(s: State, bound: set<int>) {
    && s.watches.Keys <= bound
    && forall i :: 0 <= i < |s.users| && PastTest(s.users[i]) ==> s.users[i].wpid in bound
  }

  lemma ConfinedStep(s: State, bound: set<int>, m: Move, t: State)
    requires Inv(s) && !s.socketOpen && Confined(s, bound) && Step(s, m) == Some(t)
    ensures !t.socketOpen && Confined(t, bound)
  {
    ClosedSocketMeansShutdown(s);
    if m.UserStep? {
      var u := s.users[m.user];
      PerformKeepsPrograms(s, User(m.user), UserInstr(s, m.user, u, m.pick));
      if u.InWatch? && u.w.WUnlock? {
        assert HoldsClosed(u);
        assert Holder(s) == u;
      }
      assert PastTest(UserNext(s, u)) ==> PastTest(u);
    }
  }

  lemma {:induction false} ConfinedRun(s: State, bound: set<int>, ms: seq<Move>, t: State)
    requires Inv(s) && !s.socketOpen && Confined(s, bound) && Run(s, ms) == Some(t)
    ensures t.watches.Keys <= bound
    decreases |ms|
  {
    if ms != [] {
      InvStep(s, ms[0], Step(s, ms[0]).value);
      ConfinedStep(s, bound, ms[0], Step(s, ms[0]).value);
      ConfinedRun(Step(s, ms[0]).value, bound, ms[1..], t);
    }
  }

  function InsertRank(w: WatchPc): nat {
    match w case WLookup => 3 case WLockTable => 2 case WInsert => 1 case _ => 0
  }

  // One own step of a Watch that is past its test and not blocked.
  lemma InsertStep(reach: State -> bool, s: State, i: nat, bound: set<int>) returns (t: State)
    requires Runs.Closed(reach) && reach(s) && Inv(s) && !s.socketOpen && i < |s.users| && PastTest(s.users[i])
    requires s.users[i].wpid !in bound && s.watches.Keys <= bound
    requires s.users[i].w.WLockTable? ==> s.watchesMutex.None?
    ensures reach(t) && Inv(t) && !t.socketOpen && |t.users| == |s.users|
    ensures if s.users[i].w.WInsert? then !(t.watches.Keys <= bound)
            else PastTest(t.users[i]) && t.users[i].wpid == s.users[i].wpid
                 && InsertRank(t.users[i].w) < InsertRank(s.users[i].w)
  {
    WithInv(reach);
    t := InsertMove(x => reach(x) && Inv(x), s, i, bound);
  }

  lemma InsertMove(reach: State -> bool, s: State, i: nat, bound: set<int>) returns (t: State)
    requires Runs.Closed(reach) && reach(s) && !s.panicked && i < |s.users| && PastTest(s.users[i])
    requires s.users[i].wpid !in bound && s.watches.Keys <= bound
    requires s.users[i].w.WLockTable? ==> s.watchesMutex.None?
    ensures reach(t) && t.socketOpen == s.socketOpen && |t.users| == |s.users|
    ensures if s.users[i].w.WInsert? then !(t.watches.Keys <= bound)
            else PastTest(t.users[i]) && t.users[i].wpid == s.users[i].wpid
                 && InsertRank(t.users[i].w) < InsertRank(s.users[i].w)
  {
    t := UserMove(reach, s, i, 0);
    if s.users[i].w.WInsert? {
      assert s.users[i].wpid in t.watches;
    }
  }

  // With the socket closed, no Close holds the table mutex.
  lemma HolderNotClosing(s: State)
    requires Inv(s) && !s.socketOpen && s.watchesMutex.Some?
    ensures s.watchesMutex.value.User? && s.watchesMutex.value.id < |s.users|
    ensures !s.users[s.watchesMutex.value.id].InClose?
  {
    ClosedSocketMeansShutdown(s);
    assert HoldsTable(s.users[s.watchesMutex.value.id]);
  }

  // A run in which a Watch that is past its test gets its entry into the table.
  lemma LeakRun(reach: State -> bool, s: State, i: nat, bound: set<int>) returns (t: State)
    requires Runs.Closed(reach) && reach(s) && Inv(s) && !s.socketOpen && i < |s.users|
    requires PastTest(s.users[i]) && s.users[i].wpid !in bound
    ensures reach(t) && !(t.watches.Keys <= bound)
    decreases InsertRank(s.users[i].w), TableRank(TableHolder(s))
  {
    if !(s.watches.Keys <= bound) {
      return s;
    }
    if s.users[i].w.WLockTable? && s.watchesMutex.Some? {
      HolderNotClosing(s);
      t := ReleaseStep(reach, s, s.watchesMutex.value.id);
    } else {
      t := InsertStep(reach, s, i, bound);
    }
    if t.watches.Keys <= bound {
      t := LeakRun(reach, t, i, bound);
    }
  }

  /** After a Close has returned, no run adds an entry to the table if and only
      if no Watch for an absent pid is past its closed test. */
  lemma TableAfterClose(n: nat, s: State, j: nat)
    requires Reaches(Init(n), s) && CloseReturned(j) in s.trace
    ensures NeverGrows(s) <==>
            forall i :: 0 <= i < |s.users| && PastTest(s.users[i]) ==> s.users[i].wpid in s.watches
  {
    InvReach(n, s);
    CloseReturnsLast(n, s);
    if forall i :: 0 <= i < |s.users| && PastTest(s.users[i]) ==> s.users[i].wpid in s.watches {
      forall t | Reaches(s, t) ensures t.watches.Keys <= s.watches.Keys {
        var ms :| Run(s, ms) == Some(t);
        ConfinedRun(s, s.watches.Keys, ms, t);
      }
    } else {
      var i :| 0 <= i < |s.users| && PastTest(s.users[i]) && s.users[i].wpid !in s.watches;
      ReachIsClosed(s);
      ReachesSelf(s);
      var t := LeakRun(x => Reaches(s, x), s, i, s.watches.Keys);
    }
  }
}
