/**
 Do flags that a Watch has put into the table stay there as long as the entry
 does? Not if another Watch for the same process, called by a user or by the
 reader, found no entry before and is still to insert one with its own flags;
 and not if another Watch has loaded the flags before and is still to store
 what it makes of them.
 */
module LostFlags {
  import opened Wrappers
  import opened CloseHandshake
  import opened Runs
  import opened TableEntries
  import T = WatchTable

  predicate HasFlags(s: State, pid: int, flags: T.Flags) {
    pid in s.watches && T.Has(FlagsIn(s.heap, s.watches[pid]), flags)
  }

  /** The Watch that an agent is in: for which process, with which flags, and where in it. */
  datatype Call = NoCall | Call(pid: int, flags: T.Flags, w: WatchPc)

  function CallOf(s: State, a: Agent): Call {
    match a
    case Reader =>
      if s.reader.Following? then Call(s.reader.f.childTgid, s.reader.flags, s.reader.fw) else NoCall
    case User(k) =>
      if k < |s.users| && s.users[k].InWatch? then Call(s.users[k].wpid, s.users[k].wflags, s.users[k].w) else NoCall
  }

  /** It has found no entry for pid and will insert one without these flags. */
  predicate Replaces(c: Call, pid: int, flags: T.Flags) {
    c.Call? && c.pid == pid && (c.w.WLockTable? || c.w.WInsert?) && !T.Has(c.flags, flags)
  }

  /** It will store flags without these to the entry found. */
  predicate Overwrites(c: Call, found: nat, flags: T.Flags) {
    c.Call? && c.w.WStore? && c.w.found == found && !T.Has(c.w.value, flags)
  }

  ghost predicate NoReplacer(s: State, pid: int, flags: T.Flags) {
    forall a :: !Replaces(CallOf(s, a), pid, flags)
  }

  ghost predicate NoOverwriter(s: State, pid: int, flags: T.Flags)
    requires pid in s.watches
  {
    forall a :: !Overwrites(CallOf(s, a), s.watches[pid], flags)
  }

  /** The holder of the table mutex will delete the entry before it gives the mutex back. */
  predicate Deleting(s: State, pid: int) {
    match s.watchesMutex
    case None => false
    case Some(Reader) => s.reader.Dropping? && T.Gate(s.reader.e).value.0 == pid
    case Some(User(k)) => k < |s.users| && (s.users[k] == InClose(CClear) || s.users[k] == InRemove(pid, RDelete))
  }

  ghost predicate Safe(s: State, pid: int, flags: T.Flags)
    requires pid in s.watches
  {
    NoOverwriter(s, pid, flags) && (NoReplacer(s, pid, flags) || Deleting(s, pid))
  }

  ghost predicate NeverLost(s: State, pid: int, flags: T.Flags) {
    forall t :: ReachesBy(Keeping(pid), s, t) ==> HasFlags(t, pid, flags)
  }

  // ----- where it is safe the flags stay

  ghost predicate Guarded(s: State, pid: int, flags: T.Flags) {
    Inv(s) && Refs(s) && HasFlags(s, pid, flags) && Safe(s, pid, flags)
  }

  // The next instruction of a Watch, and where it leads.
  function CallInstr(s: State, c: Call): Instr
    requires c.Call?
  {
    WatchInstr(s, c.pid, c.flags, c.w)
  }

  function CallNext(s: State, c: Call): Call
    requires c.Call?
  {
    Call(c.pid, c.flags, WatchNext(s, c.pid, c.flags, c.w))
  }

  // What a store or an insertion leaves in the entry of pid.
  lemma FlagsAfter(s: State, i: Instr, pid: int, flags: T.Flags)
    requires HasFlags(s, pid, flags) && TableRefs(s) && pid in NewWatches(s, i)
    requires i.Insert? && i.pid == pid ==> T.Has(i.flags, flags)
    requires i.Store? && i.found == s.watches[pid] ==> T.Has(i.flags, flags)
    ensures T.Has(FlagsIn(NewHeap(s, i), NewWatches(s, i)[pid]), flags)
  {
    assert RefersTo(s.heap, s.watches[pid], pid);
  }

  // A Watch that is no threat does no harm and does not become one.
  lemma HarmlessCall(s: State, c: Call, pid: int, flags: T.Flags)
    requires c.Call? && HasFlags(s, pid, flags)
    requires !Overwrites(c, s.watches[pid], flags)
    ensures CallInstr(s, c).Store? && CallInstr(s, c).found == s.watches[pid] ==> T.Has(CallInstr(s, c).flags, flags)
    ensures !Overwrites(CallNext(s, c), s.watches[pid], flags)
    ensures !Replaces(c, pid, flags) ==> !Replaces(CallNext(s, c), pid, flags)
    ensures CallInstr(s, c).Insert? && CallInstr(s, c).pid == pid && !Replaces(c, pid, flags) ==>
              T.Has(CallInstr(s, c).flags, flags)
  {
    if c.w.WLoad? && c.w.found == s.watches[pid] {
      T.MergeLeft(FlagsIn(s.heap, c.w.found), c.flags, flags);
    }
  }

  // Pending stores do not refer to an entry that is yet to be made.
  lemma StoresAreOld(s: State, a: Agent)
    requires Refs(s)
    ensures CallOf(s, a).Call? && CallOf(s, a).w.WStore? ==> CallOf(s, a).w.found < |s.heap|
  {
    if a.User? && a.id < |s.users| {
      assert UserRefs(s.heap, s.users[a.id]);
    }
  }

  // An agent has moved by instruction i; the Watches of the others are where they were.
  ghost predicate Moved(s: State, a: Agent, i: Instr, t: State) {
    Changed(s, a, i, t) && forall b :: b != a ==> CallOf(t, b) == CallOf(s, b)
  }

  lemma NoOverwriterAfter(s: State, a: Agent, i: Instr, t: State, pid: int, flags: T.Flags)
    requires Refs(s) && pid in s.watches && NoOverwriter(s, pid, flags) && Moved(s, a, i, t) && pid in t.watches
    requires !Overwrites(CallOf(t, a), s.watches[pid], flags)
    requires i.Insert? ==> !(CallOf(t, a).Call? && CallOf(t, a).w.WStore?)
    ensures NoOverwriter(t, pid, flags)
  {
    forall b ensures !Overwrites(CallOf(t, b), t.watches[pid], flags) {
      if b != a {
        StoresAreOld(s, b);
        assert CallOf(t, b) == CallOf(s, b);
      }
    }
  }

  lemma NoReplacerAfter(s: State, a: Agent, i: Instr, t: State, pid: int, flags: T.Flags)
    requires NoReplacer(s, pid, flags) && Moved(s, a, i, t) && !Replaces(CallOf(t, a), pid, flags)
    ensures NoReplacer(t, pid, flags)
  {
    forall b ensures !Replaces(CallOf(t, b), pid, flags) {
      if b != a {
        assert CallOf(t, b) == CallOf(s, b);
      }
    }
  }

  lemma UserMoved(s: State, j: nat, pick: int, t: State)
    requires StepUser(s, j, pick) == Some(t)
    ensures Moved(s, User(j), UserInstr(s, j, s.users[j], pick), t)
    ensures t.users == s.users[j := UserNext(s, s.users[j])] && t.reader == s.reader
  {
    StepUserChanges(s, j, pick, t);
  }

  lemma ReaderMoved(s: State, received: Received, t: State)
    requires StepReader(s, received) == Some(t)
    ensures Moved(s, Reader, ReaderInstr(s), t)
    ensures t.users == s.users && t.reader == ReaderNext(s, received)
  {
    PerformChanges(s, Reader, ReaderInstr(s));
    PerformKeepsPrograms(s, Reader, ReaderInstr(s));
  }

  // The Watch of a user after its step.
  lemma UserCall(s: State, j: nat, pick: int, t: State)
    requires StepUser(s, j, pick) == Some(t)
    ensures var c, i := CallOf(s, User(j)), UserInstr(s, j, s.users[j], pick);
            && (c.NoCall? || c.w.WReturn? ==> CallOf(t, User(j)).NoCall? && !i.Insert? && !i.Store?)
            && (c.Call? && !c.w.WReturn? ==> i == CallInstr(s, c) && CallOf(t, User(j)) == CallNext(s, c))
  {
    UserMoved(s, j, pick, t);
  }

  lemma ReaderCall(s: State, received: Received, t: State)
    requires StepReader(s, received) == Some(t)
    ensures var c, i := CallOf(s, Reader), ReaderInstr(s);
            && (c.NoCall? ==> !i.Insert? && !i.Store?)
            && (c.NoCall? || c.w.WReturn? ==> CallOf(t, Reader).NoCall? || CallOf(t, Reader).w.WLock?)
            && (c.Call? ==> i == CallInstr(s, c))
            && (c.Call? && !c.w.WReturn? ==> CallOf(t, Reader) == CallNext(s, c))
  {
    ReaderMoved(s, received, t);
    if s.reader.Following? {
      assert ReaderInstr(s) == CallInstr(s, CallOf(s, Reader));
    } else {
      OthersDoNotWrite(s, received);
    }
  }

  lemma OthersDoNotWrite(s: State, received: Received)
    requires !s.reader.Following?
    ensures !ReaderInstr(s).Insert? && !ReaderInstr(s).Store?
    ensures ReaderNext(s, received).Following? ==> ReaderNext(s, received).fw.WLock?
  {
  }

  // The holder that deletes pid is the only one that can insert.
  lemma InsertsWithMutex(s: State, a: Agent)
    requires Inv(s) && CallOf(s, a).Call? && CallOf(s, a).w.WInsert?
    ensures s.watchesMutex == Some(a)
  {
    if a.User? {
      assert HoldsTable(s.users[a.id]);
    }
  }

  lemma NotInsertingWhileDeleting(s: State, a: Agent, pid: int)
    requires Inv(s) && Deleting(s, pid)
    ensures !(CallOf(s, a).Call? && CallOf(s, a).w.WInsert?)
  {
    if CallOf(s, a).Call? && CallOf(s, a).w.WInsert? {
      InsertsWithMutex(s, a);
    }
  }

  // What both kinds of agent have in common: a has moved, by i, from call c to call c'.
  lemma SafeAfter(s: State, a: Agent, i: Instr, t: State, pid: int, flags: T.Flags)
    requires Guarded(s, pid, flags) && Moved(s, a, i, t) && pid in t.watches
    requires var c, c' := CallOf(s, a), CallOf(t, a);
             if c.Call? && !c.w.WReturn? then i == CallInstr(s, c) && c' == CallNext(s, c)
             else !i.Insert? && !i.Store? && (c'.NoCall? || c'.w.WLock?)
    ensures HasFlags(t, pid, flags) && NoOverwriter(t, pid, flags)
    ensures NoReplacer(s, pid, flags) ==> NoReplacer(t, pid, flags)
  {
    var c := CallOf(s, a);
    if c.Call? {
      HarmlessCall(s, c, pid, flags);
    }
    if Deleting(s, pid) {
      NotInsertingWhileDeleting(s, a, pid);
    }
    FlagsAfter(s, i, pid, flags);
    NoOverwriterAfter(s, a, i, t, pid, flags);
    if NoReplacer(s, pid, flags) {
      NoReplacerAfter(s, a, i, t, pid, flags);
    }
  }

  lemma StillDeletingUser(s: State, j: nat, pick: int, t: State, pid: int)
    requires Inv(s) && Deleting(s, pid) && StepUser(s, j, pick) == Some(t) && pid in s.watches && pid in t.watches
    ensures Deleting(t, pid)
  {
    StepUserChanges(s, j, pick, t);
    UserBrackets(s, j, s.users[j], pick);
    assert s.watches != map[];
  }

  lemma StillDeletingReader(s: State, received: Received, t: State, pid: int)
    requires Inv(s) && Deleting(s, pid) && StepReader(s, received) == Some(t) && pid in t.watches
    ensures Deleting(t, pid)
  {
    ReaderMoved(s, received, t);
    ReaderBrackets(s, received);
  }

  lemma GuardedUser(s: State, j: nat, pick: int, t: State, pid: int, flags: T.Flags)
    requires Guarded(s, pid, flags) && StepUser(s, j, pick) == Some(t) && pid in t.watches
    ensures HasFlags(t, pid, flags) && Safe(t, pid, flags)
  {
    UserMoved(s, j, pick, t);
    UserCall(s, j, pick, t);
    SafeAfter(s, User(j), UserInstr(s, j, s.users[j], pick), t, pid, flags);
    if Deleting(s, pid) {
      StillDeletingUser(s, j, pick, t, pid);
    }
  }

  lemma GuardedReader(s: State, received: Received, t: State, pid: int, flags: T.Flags)
    requires Guarded(s, pid, flags) && StepReader(s, received) == Some(t) && pid in t.watches
    ensures HasFlags(t, pid, flags) && Safe(t, pid, flags)
  {
    ReaderMoved(s, received, t);
    ReaderCall(s, received, t);
    SafeAfter(s, Reader, ReaderInstr(s), t, pid, flags);
    if Deleting(s, pid) {
      StillDeletingReader(s, received, t, pid);
    }
  }

  lemma StartedCall(s: State, m: Move, t: State, a: Agent)
    requires Step(s, m) == Some(t) && !m.UserStep? && !m.ReaderStep?
    ensures CallOf(t, a) == CallOf(s, a) || (CallOf(t, a).Call? && CallOf(t, a).w.WLock?)
  {
  }

  lemma StartKeepsDeleting(s: State, m: Move, t: State, pid: int)
    requires Step(s, m) == Some(t) && !m.UserStep? && !m.ReaderStep? && Deleting(s, pid)
    ensures Deleting(t, pid)
  {
  }

  // Calls that start are no threat.
  lemma GuardedStart(s: State, m: Move, t: State, pid: int, flags: T.Flags)
    requires Guarded(s, pid, flags) && Step(s, m) == Some(t) && !m.UserStep? && !m.ReaderStep?
    ensures HasFlags(t, pid, flags) && Safe(t, pid, flags)
  {
    forall a ensures !Overwrites(CallOf(t, a), t.watches[pid], flags) {
      StartedCall(s, m, t, a);
    }
    if NoReplacer(s, pid, flags) {
      forall a ensures !Replaces(CallOf(t, a), pid, flags) {
        StartedCall(s, m, t, a);
      }
    } else {
      StartKeepsDeleting(s, m, t, pid);
    }
  }

  lemma GuardedStep(s: State, m: Move, t: State, pid: int, flags: T.Flags)
    requires Guarded(s, pid, flags) && Step(s, m) == Some(t) && pid in t.watches
    ensures Guarded(t, pid, flags)
  {
    InvStep(s, m, t);
    RefsStep(s, m, t);
    if m.UserStep? {
      GuardedUser(s, m.user, m.pick, t, pid, flags);
    } else if m.ReaderStep? {
      GuardedReader(s, m.received, t, pid, flags);
    } else {
      GuardedStart(s, m, t, pid, flags);
    }
  }

  lemma {:induction false} GuardedRun(s: State, ms: seq<Move>, t: State, pid: int, flags: T.Flags)
    requires Guarded(s, pid, flags) && Run(s, ms) == Some(t) && AllMay(Keeping(pid), s, ms)
    ensures HasFlags(t, pid, flags)
    decreases |ms|
  {
    if ms != [] {
      var s' := RunHead(s, ms, t);
      GuardedStep(s, ms[0], s', pid, flags);
      GuardedRun(s', ms[1..], t, pid, flags);
    }
  }

  // ----- where it is not, they can be lost

  function AgentInstr(s: State, a: Agent): Instr {
    match a
    case Reader => ReaderInstr(s)
    case User(k) => if k < |s.users| then UserInstr(s, k, s.users[k], 0) else Local
  }

  predicate Active(s: State, a: Agent) {
    match a
    case Reader => !s.reader.Exited?
    case User(k) => k < |s.users| && !s.users[k].Idle?
  }

  // One step of an agent that leaves pid its entry.
  lemma AgentMove(reach: State -> bool, s: State, a: Agent, pid: int) returns (t: State)
    requires Closed(reach, Keeping(pid)) && reach(s) && Inv(s) && Active(s, a) && Enabled(s, AgentInstr(s, a))
    requires pid in NewWatches(s, AgentInstr(s, a))
    ensures reach(t) && Inv(t) && Moved(s, a, AgentInstr(s, a), t)
    ensures a.User? ==> t.users == s.users[a.id := UserNext(s, s.users[a.id])] && t.reader == s.reader
    ensures a.Reader? ==> t.users == s.users && t.reader == ReaderNext(s, Events([]))
  {
    if a.User? {
      t := UserKeeps(reach, s, a.id, pid);
    } else {
      t := ReaderKeeps(reach, s, pid);
    }
  }

  lemma UserKeeps(reach: State -> bool, s: State, k: nat, pid: int) returns (t: State)
    requires Closed(reach, Keeping(pid)) && reach(s) && Inv(s) && k < |s.users| && !s.users[k].Idle?
    requires Enabled(s, UserInstr(s, k, s.users[k], 0)) && pid in NewWatches(s, UserInstr(s, k, s.users[k], 0))
    ensures reach(t) && Inv(t) && Moved(s, User(k), UserInstr(s, k, s.users[k], 0), t)
    ensures t.users == s.users[k := UserNext(s, s.users[k])] && t.reader == s.reader
  {
    UserMoved(s, k, 0, Step(s, UserStep(k, 0)).value);
    t := Go(reach, s, UserStep(k, 0), Keeping(pid));
    InvStep(s, UserStep(k, 0), t);
  }

  lemma ReaderKeeps(reach: State -> bool, s: State, pid: int) returns (t: State)
    requires Closed(reach, Keeping(pid)) && reach(s) && Inv(s) && !s.reader.Exited?
    requires Enabled(s, ReaderInstr(s)) && pid in NewWatches(s, ReaderInstr(s))
    ensures reach(t) && Inv(t) && Moved(s, Reader, ReaderInstr(s), t)
    ensures t.users == s.users && t.reader == ReaderNext(s, Events([]))
  {
    ReaderMoved(s, Events([]), Step(s, READ).value);
    t := Go(reach, s, READ, Keeping(pid));
    InvStep(s, READ, t);
  }

  lemma CallIsActive(s: State, a: Agent)
    requires CallOf(s, a).Call? && !CallOf(s, a).w.WReturn?
    ensures Active(s, a) && AgentInstr(s, a) == CallInstr(s, CallOf(s, a))
  {
  }

  lemma CallMoves(s: State, a: Agent, t: State)
    requires CallOf(s, a).Call? && !CallOf(s, a).w.WReturn?
    requires a.User? ==> t.users == s.users[a.id := UserNext(s, s.users[a.id])]
    requires a.Reader? ==> t.reader == ReaderNext(s, Events([]))
    ensures CallOf(t, a) == CallNext(s, CallOf(s, a))
  {
  }

  // A pending store takes the flags away.
  lemma StoreLoses(reach: State -> bool, s: State, a: Agent, pid: int, flags: T.Flags) returns (t: State)
    requires Closed(reach, Keeping(pid)) && reach(s) && Inv(s) && TableRefs(s) && pid in s.watches
    requires Overwrites(CallOf(s, a), s.watches[pid], flags)
    ensures reach(t) && !HasFlags(t, pid, flags)
  {
    assert RefersTo(s.heap, s.watches[pid], pid);
    CallIsActive(s, a);
    t := AgentMove(reach, s, a, pid);
  }

  // So does an insertion.
  lemma InsertLoses(reach: State -> bool, s: State, a: Agent, pid: int, flags: T.Flags) returns (t: State)
    requires Closed(reach, Keeping(pid)) && reach(s) && Inv(s)
    requires Replaces(CallOf(s, a), pid, flags) && CallOf(s, a).w.WInsert?
    ensures reach(t) && !HasFlags(t, pid, flags)
  {
    CallIsActive(s, a);
    t := AgentMove(reach, s, a, pid);
    assert t.heap[t.watches[pid]].flags == CallOf(s, a).flags;
  }

  lemma LockAndInsertLoses(reach: State -> bool, s: State, a: Agent, pid: int, flags: T.Flags) returns (t: State)
    requires Closed(reach, Keeping(pid)) && reach(s) && Inv(s) && pid in s.watches && s.watchesMutex.None?
    requires Replaces(CallOf(s, a), pid, flags)
    ensures reach(t) && !HasFlags(t, pid, flags)
  {
    if CallOf(s, a).w.WInsert? {
      InsertsWithMutex(s, a);
    }
    CallIsActive(s, a);
    t := AgentMove(reach, s, a, pid);
    CallMoves(s, a, t);
    t := InsertLoses(reach, t, a, pid, flags);
  }

  // The number of own steps before an agent gives the table mutex back.
  function HoldRank(s: State, a: Agent): nat {
    match a
    case Reader => if s.reader.Dropping? || (s.reader.Following? && s.reader.fw.WInsert?) then 2 else 1
    case User(k) =>
      if k < |s.users| && ((s.users[k].InWatch? && s.users[k].w.WInsert?)
                           || (s.users[k].InRemove? && s.users[k].r.RDelete?)) then 2 else 1
  }

  // One step of the holder of the table mutex, which is not about to delete pid.
  lemma HolderMoves(reach: State -> bool, s: State, b: Agent, pid: int) returns (t: State)
    requires Closed(reach, Keeping(pid)) && reach(s) && Inv(s) && pid in s.watches
    requires s.watchesMutex == Some(b) && !Deleting(s, pid)
    ensures reach(t) && Inv(t) && pid in t.watches && Moved(s, b, AgentInstr(s, b), t)
    ensures t.watchesMutex.None? || (t.watchesMutex == Some(b) && !Deleting(t, pid) && HoldRank(t, b) < HoldRank(s, b))
  {
    if b.User? {
      assert HoldsTable(s.users[b.id]);
      UserHolds(s, b.id, s.users[b.id], pid);
    } else {
      ReaderHolds(s, pid);
    }
    t := AgentMove(reach, s, b, pid);
  }

  lemma UserHolds(s: State, k: nat, u: UserPc, pid: int)
    requires HoldsTable(u) && u != InClose(CClear) && u != InRemove(pid, RDelete) && pid in s.watches
    ensures var i, u' := UserInstr(s, k, u, 0), UserNext(s, u);
            && !u.Idle? && Enabled(s, i) && pid in NewWatches(s, i) && !i.LockTable?
            && (!i.UnlockTable? ==> ((u.InWatch? && u.w.WInsert? && u'.InWatch? && u'.w.WUnlockTable?)
                                     || (u.InRemove? && u.r.RDelete? && u'.InRemove? && u'.r.RUnlock?)))
  {
  }

  lemma ReaderHolds(s: State, pid: int)
    requires ReaderHoldsTable(s.reader) && pid in s.watches
    requires !(s.reader.Dropping? && T.Gate(s.reader.e).value.0 == pid)
    ensures var i, r' := ReaderInstr(s), ReaderNext(s, Events([]));
            && !s.reader.Exited? && Enabled(s, i) && pid in NewWatches(s, i) && !i.LockTable?
            && (!i.UnlockTable? ==> ((s.reader.Dropping? && r'.DropUnlock?)
                                     || (s.reader.Following? && s.reader.fw.WInsert?
                                         && r'.Following? && r'.fw.WUnlockTable?)))
  {
  }

  // The table mutex is given back, and the replacer gets it.
  lemma ReplacerLoses(reach: State -> bool, s: State, a: Agent, pid: int, flags: T.Flags) returns (t: State)
    requires Closed(reach, Keeping(pid)) && reach(s) && Inv(s) && pid in s.watches && !Deleting(s, pid)
    requires Replaces(CallOf(s, a), pid, flags)
    ensures reach(t) && !HasFlags(t, pid, flags)
    decreases if s.watchesMutex.Some? then HoldRank(s, s.watchesMutex.value) else 0
  {
    if s.watchesMutex.None? {
      t := LockAndInsertLoses(reach, s, a, pid, flags);
    } else if CallOf(s, a).w.WInsert? {
      t := InsertLoses(reach, s, a, pid, flags);
    } else {
      NotHolder(s, a);
      t := HolderMoves(reach, s, s.watchesMutex.value, pid);
      t := ReplacerLoses(reach, t, a, pid, flags);
    }
  }

  lemma NotHolder(s: State, a: Agent)
    requires Inv(s) && CallOf(s, a).Call? && CallOf(s, a).w.WLockTable?
    ensures s.watchesMutex != Some(a)
  {
    if a.User? {
      assert !HoldsTable(s.users[a.id]);
    }
  }

  /** Flags in the table stay as long as the entry does, in every run, if and
      only if no Watch is about to store flags without these to the entry, and
      no Watch that found no entry is about to insert one without these,
      unless the holder of the table mutex deletes the entry first. */
  lemma FlagsStay(n: nat, s: State, pid: int, flags: T.Flags)
    requires Reaches(Init(n), s) && HasFlags(s, pid, flags)
    ensures NeverLost(s, pid, flags) <==> Safe(s, pid, flags)
  {
    InvReach(n, s);
    RefsReach(n, s);
    if Safe(s, pid, flags) {
      forall t | ReachesBy(Keeping(pid), s, t) ensures HasFlags(t, pid, flags) {
        var ms :| Run(s, ms) == Some(t) && AllMay(Keeping(pid), s, ms);
        GuardedRun(s, ms, t, pid, flags);
      }
    } else {
      var t := Lost(s, pid, flags);
    }
  }

  lemma Lost(s: State, pid: int, flags: T.Flags) returns (t: State)
    requires Inv(s) && Refs(s) && pid in s.watches && !Safe(s, pid, flags)
    ensures ReachesBy(Keeping(pid), s, t) && !HasFlags(t, pid, flags)
  {
    var reach := x => ReachesBy(Keeping(pid), s, x);
    ReachByIsClosed(Keeping(pid), s);
    ReachesBySelf(Keeping(pid), s);
    if !NoOverwriter(s, pid, flags) {
      var a :| Overwrites(CallOf(s, a), s.watches[pid], flags);
      t := StoreLoses(reach, s, a, pid, flags);
    } else {
      var a :| Replaces(CallOf(s, a), pid, flags);
      t := ReplacerLoses(reach, s, a, pid, flags);
    }
  }
}
