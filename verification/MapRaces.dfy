/**
 The watch map is read without its mutex in three places, so that a read and a
 write can meet; Go's runtime may then abort the program. These are the only
 places. The flags of an entry are written without any mutex, so that a write
 can meet every read of them.
 */
module MapRaces {
  import opened Wrappers
  import opened CloseHandshake
  import opened CloseRuns
  import opened Runs
  import T = WatchTable

  datatype Access = NoAccess | Read | Write

  function WatchAccess(w: WatchPc): Access {
    match w case WLookup => Read case WInsert => Write case _ => NoAccess
  }

  // What the next instruction of an agent does to the watch map.
  function AccessOf(s: State, a: Agent): Access {
    match a
    case Reader =>
      (match s.reader
       case TestExec(_, _) => Read
       case TestGate(_, _) => Read
       case Fetch(_, _) => Read
       case FetchWild(_, _) => Read
       case Following(_, w, _, _) => WatchAccess(w)
       case Dropping(_, _) => Write
       case _ => NoAccess)
    case User(i) =>
      if i >= |s.users| then NoAccess
      else
        match s.users[i]
        case InWatch(_, _, w) => WatchAccess(w)
        case InClose(c) => if c == CClear then Write else NoAccess
        case InRemove(_, r) => if r == RDelete then Write else NoAccess
        case Idle => NoAccess
  }

  // The accesses made without the table mutex: the lookup in Watch and the two in the fork case.
  predicate Unlocked(s: State, a: Agent) {
    match a
    case Reader => s.reader.Fetch? || s.reader.FetchWild? || (s.reader.Following? && s.reader.fw.WLookup?)
    case User(i) => i < |s.users| && s.users[i].InWatch? && s.users[i].w.WLookup?
  }

  /** A write to the watch map and another access to it can only meet if that
      other access is one of the three unlocked lookups. */
  lemma RacesAreLookups(n: nat, s: State, a: Agent, b: Agent)
    requires Reaches(Init(n), s) && a != b && AccessOf(s, a).Write? && !AccessOf(s, b).NoAccess?
    ensures AccessOf(s, b).Read? && Unlocked(s, b)
  {
    InvReach(n, s);
  }

  /** And they do meet: one Watch inserts while another looks up. */
  lemma LookupsRace() returns (s: State)
    ensures Reaches(Init(2), s) && AccessOf(s, User(0)).Read? && AccessOf(s, User(1)).Write?
  {
    var reach := x => Reaches(Init(2), x);
    ReachIsClosed(Init(2));
    ReachesSelf(Init(2));
    s := WatchPastTest(reach, Init(2), 1, 8);
    s := WatchPastTest(reach, s, 0, 7);
    s := WatchToInsert(reach, s, 1, 8);
  }

  // A goroutine is about to delete an entry.
  lemma AboutToDelete(reach: State -> bool, s: State, k: nat, pid: int) returns (t: State)
    requires Runs.Closed(reach) && reach(s) && k < |s.users| && s.users[k].Idle? && s.watchesMutex.None? && !s.panicked
    ensures reach(t) && t == s.(watchesMutex := Some(User(k)), users := s.users[k := InRemove(pid, RDelete)])
  {
    t := Go(reach, s, CallRemove(k, pid));
    t := Go(reach, t, UserStep(k, 0));
  }

  // The only entry is for process 7 or for all processes, and nobody does anything.
  lemma OneEntry(reach: State -> bool, s: State, pid: int) returns (t: State)
    requires Runs.Closed(reach) && reach(s) && s == Init(2) && (pid == 7 || pid == T.WILDCARD)
    ensures reach(t) && OneSource(t, pid) && t.users == [Idle, Idle] && t.reader.CheckDone? && t.done == 0
    ensures t.closedMutex.None? && t.watchesMutex.None? && !t.panicked && !t.isClosed
  {
    t := WatchPastTest(reach, s, 0, pid);
    t := WatchToInsert(reach, t, 0, pid);
    t := WatchReturns(reach, t, 0, pid);
  }

  /** The reader looks up the entry of a fork's parent, or that of the
      wildcard, while a RemoveWatch deletes it. */
  lemma FetchesRace() returns (s1: State, s2: State)
    ensures Reaches(Init(2), s1) && s1.reader.Fetch? && AccessOf(s1, Reader).Read? && AccessOf(s1, User(1)).Write?
    ensures Reaches(Init(2), s2) && s2.reader.FetchWild? && AccessOf(s2, Reader).Read? && AccessOf(s2, User(1)).Write?
  {
    var reach := x => Reaches(Init(2), x);
    ReachIsClosed(Init(2));
    ReachesSelf(Init(2));
    s1 := ReaderAtFetch(reach, Init(2), 7);
    s1 := AboutToDelete(reach, s1, 1, 7);
    s2 := ReaderAtFetch(reach, Init(2), T.WILDCARD);
    s2 := ReaderAtWild(reach, s2);
    s2 := AboutToDelete(reach, s2, 1, T.WILDCARD);
  }

  lemma ReaderAtWild(reach: State -> bool, s: State) returns (t: State)
    requires Runs.Closed(reach) && reach(s) && !s.panicked
    requires OneSource(s, T.WILDCARD) && s.reader == Fetch(FORK_OF_7, [])
    ensures reach(t) && t == s.(reader := FetchWild(FORK_OF_7, []))
  {
    assert s.trace + [] == s.trace;
    t := Go(reach, s, READ);
  }

  lemma ReaderAtFetch(reach: State -> bool, s: State, pid: int) returns (t: State)
    requires Runs.Closed(reach) && reach(s) && s == Init(2) && (pid == 7 || pid == T.WILDCARD)
    ensures reach(t) && OneSource(t, pid) && t.users == [Idle, Idle] && t.reader == Fetch(FORK_OF_7, [])
    ensures t.closedMutex.None? && t.watchesMutex.None? && !t.panicked && !t.isClosed
  {
    t := OneEntry(reach, s, pid);
    t := ReaderTests(reach, t);
    t := ReaderToFetch(reach, t, pid);
  }

  // ----- the flags of an entry

  datatype FlagAccess = NoFlags | ReadsFlags(found: nat) | WritesFlags(found: nat)

  function CallFlags(w: WatchPc): FlagAccess {
    match w
    case WLoad(found) => ReadsFlags(found)
    case WStore(found, _) => WritesFlags(found)
    case _ => NoFlags
  }

  // isWatching reads the flags of the entry that decides.
  function DecidingFlags(s: State, pid: int): FlagAccess {
    if pid in s.watches then ReadsFlags(s.watches[pid])
    else if T.WILDCARD in s.watches then ReadsFlags(s.watches[T.WILDCARD])
    else NoFlags
  }

  // What the next instruction of an agent does to the flags of an entry.
  function FlagsOf(s: State, a: Agent): FlagAccess {
    match a
    case Reader =>
      (match s.reader
       case TestExec(f, _) => DecidingFlags(s, f.parentTgid)
       case TestGate(e, _) => DecidingFlags(s, T.Gate(e).value.0)
       case Fetched(found, _, _) => ReadsFlags(found)
       case Following(_, w, _, _) => CallFlags(w)
       case _ => NoFlags)
    case User(i) => if i < |s.users| && s.users[i].InWatch? then CallFlags(s.users[i].w) else NoFlags
  }

  /** Whoever is about to write the flags of an entry holds no mutex. */
  lemma FlagWritesAreUnlocked(n: nat, s: State, a: Agent)
    requires Reaches(Init(n), s) && FlagsOf(s, a).WritesFlags?
    ensures s.watchesMutex != Some(a) && s.closedMutex != Some(a)
  {
    InvReach(n, s);
    if a.User? {
      assert !HoldsTable(s.users[a.id]) && !HoldsClosed(s.users[a.id]);
    }
  }

  // A goroutine is about to store to the only entry.
  lemma AboutToStore(reach: State -> bool, s: State, k: nat, pid: int) returns (t: State)
    requires Runs.Closed(reach) && reach(s) && k < |s.users| && s.users[k].Idle? && OneSource(s, pid)
    requires s.closedMutex.None? && !s.isClosed && !s.panicked
    ensures reach(t) && t.reader == s.reader && t.watches == s.watches && FlagsOf(t, User(k)) == WritesFlags(0)
  {
    t := WatchPastTest(reach, s, k, pid, T.UID);
    t := Go(reach, t, UserStep(k, 0));
    t := Go(reach, t, UserStep(k, 0));
  }

  /** The flags of an entry, of a process or of the wildcard, are read by
      isWatching, and in order to follow a fork, while a Watch writes them. */
  lemma FlagsRace(pid: int) returns (s1: State, s2: State)
    requires pid == 7 || pid == T.WILDCARD
    ensures Reaches(Init(2), s1) && s1.reader.TestExec?
    ensures FlagsOf(s1, Reader) == ReadsFlags(0) && FlagsOf(s1, User(1)) == WritesFlags(0)
    ensures Reaches(Init(2), s2) && s2.reader.Fetched?
    ensures FlagsOf(s2, Reader) == ReadsFlags(0) && FlagsOf(s2, User(1)) == WritesFlags(0)
  {
    var reach := x => Reaches(Init(2), x);
    ReachIsClosed(Init(2));
    ReachesSelf(Init(2));
    s1 := OneEntry(reach, Init(2), pid);
    s1 := ReaderTests(reach, s1);
    s1 := AboutToStore(reach, s1, 1, pid);
    s2 := ReaderAtFetch(reach, Init(2), pid);
    s2 := ReaderFetches(reach, s2, pid);
    s2 := AboutToStore(reach, s2, 1, pid);
  }
}
