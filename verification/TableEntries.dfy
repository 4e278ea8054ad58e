/**
 The entries that the table and the agents refer to: every reference leads to
 an entry made for the process it is meant for, so that no two processes share
 one, and a merge changes the flags of one process only.
 */
module TableEntries {
  import opened Wrappers
  import opened CloseHandshake
  import opened Runs
  import T = WatchTable

  ghost predicate RefersTo(heap: seq<Entry>, found: nat, pid: int) {
    found < |heap| && heap[found].pid == pid
  }

  ghost predicate Refer(watches: map<int, nat>, heap: seq<Entry>) {
    forall pid :: pid in watches ==> RefersTo(heap, watches[pid], pid)
  }

  ghost predicate TableRefs(s: State) {
    Refer(s.watches, s.heap)
  }

  ghost predicate WatchRefs(heap: seq<Entry>, pid: int, w: WatchPc) {
    w.WLoad? || w.WStore? ==> RefersTo(heap, w.found, pid)
  }

  ghost predicate UserRefs(heap: seq<Entry>, u: UserPc) {
    u.InWatch? ==> WatchRefs(heap, u.wpid, u.w)
  }

  // What the reader follows with is an entry of the parent or of the wildcard.
  ghost predicate ReaderRefs(heap: seq<Entry>, r: ReaderPc) {
    && (r.Following? ==> WatchRefs(heap, r.f.childTgid, r.fw))
    && (r.Fetched? ==> RefersTo(heap, r.found, r.f.parentTgid) || RefersTo(heap, r.found, T.WILDCARD))
  }

  ghost predicate Refs(s: State) {
    && TableRefs(s)
    && (forall k :: 0 <= k < |s.users| ==> UserRefs(s.heap, s.users[k]))
    && ReaderRefs(s.heap, s.reader)
  }

  // Entries keep their place and their process.
  ghost predicate HeapGrows(heap: seq<Entry>, heap': seq<Entry>) {
    |heap| <= |heap'| && forall k :: 0 <= k < |heap| ==> heap'[k].pid == heap[k].pid
  }

  lemma NewHeapGrows(s: State, i: Instr)
    ensures HeapGrows(s.heap, NewHeap(s, i))
  {
  }

  lemma TableRefsStep(s: State, i: Instr, t: State)
    requires TableRefs(s) && t.watches == NewWatches(s, i) && t.heap == NewHeap(s, i)
    ensures TableRefs(t)
  {
    NewHeapGrows(s, i);
  }

  lemma RefsUser(s: State, j: nat, pick: int, t: State)
    requires Refs(s) && StepUser(s, j, pick) == Some(t)
    ensures Refs(t)
  {
    StepUserChanges(s, j, pick, t);
    NewHeapGrows(s, UserInstr(s, j, s.users[j], pick));
    TableRefsStep(s, UserInstr(s, j, s.users[j], pick), t);
  }

  lemma RefsReader(s: State, received: Received, t: State)
    requires Refs(s) && StepReader(s, received) == Some(t)
    ensures Refs(t)
  {
    PerformChanges(s, Reader, ReaderInstr(s));
    PerformKeepsPrograms(s, Reader, ReaderInstr(s));
    NewHeapGrows(s, ReaderInstr(s));
    TableRefsStep(s, ReaderInstr(s), t);
  }

  lemma RefsStep(s: State, m: Move, t: State)
    requires Refs(s) && Step(s, m) == Some(t)
    ensures Refs(t)
  {
    if m.UserStep? {
      RefsUser(s, m.user, m.pick, t);
    } else if m.ReaderStep? {
      RefsReader(s, m.received, t);
    }
  }

  lemma {:induction false} RefsRun(s: State, ms: seq<Move>, t: State)
    requires Refs(s) && Run(s, ms) == Some(t)
    ensures Refs(t)
    decreases |ms|
  {
    if ms != [] {
      var s' := RunHead(s, ms, t);
      RefsStep(s, ms[0], s');
      RefsRun(s', ms[1..], t);
    }
  }

  /** In every reachable state every reference is to an entry of the right process. */
  lemma RefsReach(n: nat, s: State)
    requires Reaches(Init(n), s)
    ensures Refs(s)
  {
    var ms :| Run(Init(n), ms) == Some(s);
    RefsRun(Init(n), ms, s);
  }

  // ----- the table that the entries make up

  function FlagTable(watches: map<int, nat>, heap: seq<Entry>): map<int, T.Flags> {
    map pid | pid in watches :: FlagsIn(heap, watches[pid])
  }

  /** The watch table as the table-level steps see it. */
  function TableOf(s: State): T.Table {
    T.Table(FlagTable(s.watches, s.heap), s.isClosed)
  }

  lemma WatchedMeans(s: State, pid: int, event: T.Flags)
    ensures Watched(s, pid, event) == T.IsWatching(TableOf(s), pid, event)
  {
  }

  lemma RemovedTable(watches: map<int, nat>, heap: seq<Entry>, pid: int)
    ensures FlagTable(watches - {pid}, heap) == FlagTable(watches, heap) - {pid}
  {
  }

  // A store changes the flags of its own process only.
  lemma StoredTable(watches: map<int, nat>, heap: seq<Entry>, pid: int, flags: T.Flags)
    requires Refer(watches, heap) && pid in watches
    ensures FlagTable(watches, StoredAt(heap, watches[pid], flags)) == FlagTable(watches, heap)[pid := flags]
    ensures Refer(watches, StoredAt(heap, watches[pid], flags))
  {
    var heap' := StoredAt(heap, watches[pid], flags);
    forall p | p in watches && p != pid ensures FlagsIn(heap', watches[p]) == FlagsIn(heap, watches[p]) {
      assert RefersTo(heap, watches[p], p) && RefersTo(heap, watches[pid], pid);
    }
  }

  // The merge that follows a load adds the flags.
  lemma MergedTable(watches: map<int, nat>, heap: seq<Entry>, pid: int, flags: T.Flags)
    requires Refer(watches, heap) && pid in watches
    ensures FlagTable(watches, StoredAt(heap, watches[pid], MergedFlags(heap, watches[pid], flags))) ==
            T.Merged(FlagTable(watches, heap), pid, flags)
    ensures Refer(watches, StoredAt(heap, watches[pid], MergedFlags(heap, watches[pid], flags)))
  {
    StoredTable(watches, heap, pid, MergedFlags(heap, watches[pid], flags));
  }

  // A store to an entry that is no longer in the table does not change it.
  lemma StoredElsewhere(watches: map<int, nat>, heap: seq<Entry>, pid: int, found: nat, flags: T.Flags)
    requires Refer(watches, heap) && RefersTo(heap, found, pid) && (pid in watches ==> watches[pid] != found)
    ensures FlagTable(watches, StoredAt(heap, found, flags)) == FlagTable(watches, heap)
  {
    forall p | p in watches ensures FlagsIn(StoredAt(heap, found, flags), watches[p]) == FlagsIn(heap, watches[p]) {
      assert RefersTo(heap, watches[p], p);
    }
  }

  lemma InsertedFlags(watches: map<int, nat>, heap: seq<Entry>, pid: int, flags: T.Flags)
    requires Refer(watches, heap)
    ensures FlagTable(watches[pid := |heap|], heap + [Entry(pid, flags)]) == FlagTable(watches, heap)[pid := flags]
  {
    forall p | p in watches ensures FlagsIn(heap + [Entry(pid, flags)], watches[p]) == FlagsIn(heap, watches[p]) {
      assert RefersTo(heap, watches[p], p);
    }
  }

  lemma InsertedTable(watches: map<int, nat>, heap: seq<Entry>, pid: int, flags: T.Flags)
    requires Refer(watches, heap) && pid !in watches
    ensures FlagTable(watches[pid := |heap|], heap + [Entry(pid, flags)]) ==
            T.Merged(FlagTable(watches, heap), pid, flags)
    ensures Refer(watches[pid := |heap|], heap + [Entry(pid, flags)])
  {
    InsertedFlags(watches, heap, pid, flags);
  }
}
