/**
 Where flags come from when calls and events interleave instruction by
 instruction: in every reachable state, every flag in the table, and every
 flag that an unfinished Watch still carries, goes back to a user's call.
 */
module RunProvenance {
  import opened Wrappers
  import opened CloseHandshake
  import opened Runs
  import opened Provenance
  import opened TableEntries
  import T = WatchTable

  // ----- the history of a run

  // Users' calls of Watch, and the forks that the reader decides to follow.
  function Recorded(s: State, m: Move): seq<T.Act> {
    match m
    case CallWatch(_, pid, flags) => [T.DoWatch(pid, flags)]
    case ReaderStep(received) =>
      if s.reader.Fetched? then [T.Kernel(s.reader.f)] else []
    case _ => []
  }

  function History(s: State, ms: seq<Move>): seq<T.Act>
    decreases |ms|
  {
    if ms == [] || Step(s, ms[0]).None? then []
    else Recorded(s, ms[0]) + History(Step(s, ms[0]).value, ms[1..])
  }

  // ----- flags that can be traced back

  ghost predicate Justified(h: seq<T.Act>, pid: int, bit: T.Flags) {
    exists i :: Origin(h, i, pid, bit)
  }

  /** Every bit of the flags goes back to a user's Watch call for the process,
      for the wildcard or for an ancestor by the forks followed since. */
  ghost predicate Traceable(h: seq<T.Act>, pid: int, flags: T.Flags) {
    forall bit :: SingleBit(bit) && T.Has(flags, bit) ==> Justified(h, pid, bit)
  }

  lemma JustifiedLater(h: seq<T.Act>, a: T.Act, x: int, pid: int, bit: T.Flags)
    requires Justified(h, x, bit)
    requires x == pid || (a.Kernel? && a.e.Forked? && a.e.childTgid == pid && a.e.parentTgid == x)
    ensures Justified(h + [a], pid, bit)
  {
    var i :| Origin(h, i, x, bit);
    OriginLater(h, a, i, x, pid, bit);
  }

  lemma TraceableLater(h: seq<T.Act>, more: seq<T.Act>, pid: int, flags: T.Flags)
    requires Traceable(h, pid, flags) && |more| <= 1
    ensures Traceable(h + more, pid, flags)
  {
    if more == [] {
      assert h + more == h;
    } else {
      assert more == [more[0]];
      forall bit | SingleBit(bit) && T.Has(flags, bit) ensures Justified(h + more, pid, bit) {
        JustifiedLater(h, more[0], pid, pid, bit);
      }
    }
  }

  lemma TraceableCall(h: seq<T.Act>, pid: int, flags: T.Flags)
    ensures Traceable(h + [T.DoWatch(pid, flags)], pid, flags)
  {
    var h' := h + [T.DoWatch(pid, flags)];
    forall bit | SingleBit(bit) && T.Has(flags, bit) ensures Justified(h', pid, bit) {
      assert h'[|h| + 1..] == [];
      assert Origin(h', |h|, pid, bit);
    }
  }

  lemma TraceableChild(h: seq<T.Act>, f: ForkedEvent, flags: T.Flags)
    requires Traceable(h, f.parentTgid, flags)
    ensures Traceable(h + [T.Kernel(f)], f.childTgid, flags)
  {
    forall bit | SingleBit(bit) && T.Has(flags, bit) ensures Justified(h + [T.Kernel(f)], f.childTgid, bit) {
      JustifiedLater(h, T.Kernel(f), f.parentTgid, f.childTgid, bit);
    }
  }

  lemma TraceableWild(h: seq<T.Act>, pid: int, flags: T.Flags)
    requires Traceable(h, T.WILDCARD, flags)
    ensures Traceable(h, pid, flags)
  {
    forall bit | SingleBit(bit) && T.Has(flags, bit) ensures Justified(h, pid, bit) {
      var i :| Origin(h, i, T.WILDCARD, bit);
      OriginOfWildcard(h, i, pid, bit);
    }
  }

  lemma TraceableMerge(h: seq<T.Act>, pid: int, f: T.Flags, g: T.Flags)
    requires Traceable(h, pid, f) && Traceable(h, pid, g)
    ensures Traceable(h, pid, f | g)
  {
    forall bit | SingleBit(bit) && T.Has(f | g, bit) ensures Justified(h, pid, bit) {
      MergeSplits(f, g, bit);
    }
  }

  // ----- the invariant

  // The flags of every entry, in the table or not.
  ghost predicate HeapTraced(h: seq<T.Act>, heap: seq<Entry>) {
    forall k :: 0 <= k < |heap| ==> Traceable(h, heap[k].pid, heap[k].flags)
  }

  // The flags of a Watch, and those that it is about to store.
  ghost predicate CallTraced(h: seq<T.Act>, pid: int, flags: T.Flags, w: WatchPc) {
    Traceable(h, pid, flags) && (w.WStore? ==> Traceable(h, pid, w.value))
  }

  ghost predicate UserTraced(h: seq<T.Act>, u: UserPc) {
    u.InWatch? ==> CallTraced(h, u.wpid, u.wflags, u.w)
  }

  predicate Passed(r: ReaderPc) {
    r.DropLock? || r.Dropping? || r.DropUnlock? || r.Deliver?
  }

  // The flags of the reader's own Watch, and the flag that let an event through the gate.
  ghost predicate ReaderTraced(h: seq<T.Act>, r: ReaderPc) {
    && (r.Following? ==> CallTraced(h, r.f.childTgid, r.flags, r.fw))
    && (Passed(r) ==> Justified(h, T.Gate(r.e).value.0, T.Gate(r.e).value.1))
  }

  ghost predicate Traced(h: seq<T.Act>, s: State) {
    && HeapTraced(h, s.heap)
    && (forall k :: 0 <= k < |s.users| ==> UserTraced(h, s.users[k]))
    && ReaderTraced(h, s.reader)
  }

  lemma HeapLater(h: seq<T.Act>, more: seq<T.Act>, heap: seq<Entry>)
    requires HeapTraced(h, heap) && |more| <= 1
    ensures HeapTraced(h + more, heap)
  {
    forall k | 0 <= k < |heap| ensures Traceable(h + more, heap[k].pid, heap[k].flags) {
      TraceableLater(h, more, heap[k].pid, heap[k].flags);
    }
  }

  lemma CallLater(h: seq<T.Act>, more: seq<T.Act>, pid: int, flags: T.Flags, w: WatchPc)
    requires CallTraced(h, pid, flags, w) && |more| <= 1
    ensures CallTraced(h + more, pid, flags, w)
  {
    TraceableLater(h, more, pid, flags);
    if w.WStore? {
      TraceableLater(h, more, pid, w.value);
    }
  }

  // A load turns the flags of the entry and those of the Watch into what will be stored.
  lemma LoadTraced(h: seq<T.Act>, s: State, pid: int, flags: T.Flags, w: WatchPc)
    requires HeapTraced(h, s.heap) && CallTraced(h, pid, flags, w) && WatchRefs(s.heap, pid, w)
    ensures CallTraced(h, pid, flags, WatchNext(s, pid, flags, w))
  {
    if w.WLoad? {
      TraceableMerge(h, pid, FlagsIn(s.heap, w.found), flags);
    }
  }

  lemma UsersLater(h: seq<T.Act>, more: seq<T.Act>, users: seq<UserPc>)
    requires (forall k :: 0 <= k < |users| ==> UserTraced(h, users[k])) && |more| <= 1
    ensures forall k :: 0 <= k < |users| ==> UserTraced(h + more, users[k])
  {
    forall k | 0 <= k < |users| ensures UserTraced(h + more, users[k]) {
      if users[k].InWatch? {
        CallLater(h, more, users[k].wpid, users[k].wflags, users[k].w);
      }
    }
  }

  lemma ReaderLater(h: seq<T.Act>, more: seq<T.Act>, r: ReaderPc)
    requires ReaderTraced(h, r) && |more| <= 1
    ensures ReaderTraced(h + more, r)
  {
    if r.Following? {
      CallLater(h, more, r.f.childTgid, r.flags, r.fw);
    }
    if Passed(r) {
      if more == [] {
        assert h + more == h;
      } else {
        assert more == [more[0]];
        JustifiedLater(h, more[0], T.Gate(r.e).value.0, T.Gate(r.e).value.0, T.Gate(r.e).value.1);
      }
    }
  }

  // An instruction that writes flags writes those of its own Watch, to an entry of its process.
  ghost predicate Writes(h: seq<T.Act>, heap: seq<Entry>, i: Instr) {
    && ((i.Insert? || i.Store?) ==> Traceable(h, i.pid, i.flags))
    && (i.Store? ==> RefersTo(heap, i.found, i.pid))
  }

  lemma HeapWritten(h: seq<T.Act>, s: State, i: Instr)
    requires HeapTraced(h, s.heap) && Writes(h, s.heap, i)
    ensures HeapTraced(h, NewHeap(s, i))
  {
  }

  lemma UserWrites(h: seq<T.Act>, s: State, j: nat, u: UserPc, pick: int)
    requires HeapTraced(h, s.heap) && UserTraced(h, u) && UserRefs(s.heap, u)
    ensures Writes(h, s.heap, UserInstr(s, j, u, pick)) && UserTraced(h, UserNext(s, u))
  {
    if u.InWatch? {
      LoadTraced(h, s, u.wpid, u.wflags, u.w);
    }
  }

  lemma TracedUser(h: seq<T.Act>, s: State, j: nat, pick: int, t: State)
    requires Traced(h, s) && Refs(s) && StepUser(s, j, pick) == Some(t)
    ensures Traced(h, t)
  {
    StepUserChanges(s, j, pick, t);
    UserWrites(h, s, j, s.users[j], pick);
    HeapWritten(h, s, UserInstr(s, j, s.users[j], pick));
  }

  lemma ReaderWrites(h: seq<T.Act>, s: State)
    requires ReaderTraced(h, s.reader) && ReaderRefs(s.heap, s.reader)
    ensures Writes(h, s.heap, ReaderInstr(s))
  {
  }

  // The gate lets an event through on a flag that is in the table.
  lemma GateJustified(h: seq<T.Act>, s: State, pid: int, bit: T.Flags)
    requires HeapTraced(h, s.heap) && TableRefs(s) && SingleBit(bit) && Watched(s, pid, bit)
    ensures Justified(h, pid, bit)
  {
    if pid in s.watches {
      EntryTraced(h, s, pid);
    } else {
      EntryTraced(h, s, T.WILDCARD);
      TraceableWild(h, pid, FlagsIn(s.heap, s.watches[T.WILDCARD]));
    }
  }

  lemma EntryTraced(h: seq<T.Act>, s: State, pid: int)
    requires HeapTraced(h, s.heap) && TableRefs(s) && pid in s.watches
    ensures Traceable(h, pid, FlagsIn(s.heap, s.watches[pid]))
  {
    assert RefersTo(s.heap, s.watches[pid], pid);
  }

  lemma GateIsSingle(e: Known)
    ensures SingleBit(T.Gate(e).value.1)
  {
    EventFlagsAreSingle();
  }

  lemma FetchTraced(h: seq<T.Act>, s: State)
    requires HeapTraced(h, s.heap) && ReaderRefs(s.heap, s.reader) && s.reader.Fetched?
    ensures Traceable(h + [T.Kernel(s.reader.f)], s.reader.f.childTgid, FlagsIn(s.heap, s.reader.found))
  {
    var f, flags := s.reader.f, FlagsIn(s.heap, s.reader.found);
    if !RefersTo(s.heap, s.reader.found, f.parentTgid) {
      TraceableWild(h, f.parentTgid, flags);
    }
    TraceableChild(h, f, flags);
  }

  lemma GateTraced(h: seq<T.Act>, s: State)
    requires HeapTraced(h, s.heap) && TableRefs(s) && s.reader.TestGate?
    ensures ReaderTraced(h, GateNext(s, s.reader.e, s.reader.es))
  {
    var e := s.reader.e;
    if Watched(s, T.Gate(e).value.0, T.Gate(e).value.1) {
      GateIsSingle(e);
      GateJustified(h, s, T.Gate(e).value.0, T.Gate(e).value.1);
    }
  }

  lemma ReaderNextTraced(h: seq<T.Act>, s: State, received: Received)
    requires HeapTraced(h, s.heap) && ReaderTraced(h, s.reader) && Refs(s)
    ensures ReaderTraced(h + Recorded(s, ReaderStep(received)), ReaderNext(s, received))
  {
    if s.reader.Fetched? {
      FetchTraced(h, s);
    } else {
      assert h + [] == h;
      if s.reader.TestGate? {
        GateTraced(h, s);
      } else if s.reader.Following? {
        LoadTraced(h, s, s.reader.f.childTgid, s.reader.flags, s.reader.fw);
      }
    }
  }

  lemma TracedReader(h: seq<T.Act>, s: State, received: Received, t: State)
    requires Traced(h, s) && Refs(s) && StepReader(s, received) == Some(t)
    ensures Traced(h + Recorded(s, ReaderStep(received)), t)
  {
    var more := Recorded(s, ReaderStep(received));
    PerformChanges(s, Reader, ReaderInstr(s));
    PerformKeepsPrograms(s, Reader, ReaderInstr(s));
    ReaderWrites(h, s);
    HeapWritten(h, s, ReaderInstr(s));
    HeapLater(h, more, NewHeap(s, ReaderInstr(s)));
    UsersLater(h, more, s.users);
    ReaderNextTraced(h, s, received);
  }

  lemma TracedCall(h: seq<T.Act>, s: State, i: nat, pid: int, flags: T.Flags, t: State)
    requires Traced(h, s) && Start(s, i, InWatch(pid, flags, WLock)) == Some(t)
    ensures Traced(h + [T.DoWatch(pid, flags)], t)
  {
    var more := [T.DoWatch(pid, flags)];
    HeapLater(h, more, s.heap);
    UsersLater(h, more, s.users);
    ReaderLater(h, more, s.reader);
    TraceableCall(h, pid, flags);
  }

  lemma TracedStep(h: seq<T.Act>, s: State, m: Move, t: State)
    requires Traced(h, s) && Refs(s) && Step(s, m) == Some(t)
    ensures Traced(h + Recorded(s, m), t)
  {
    match m
    case ReaderStep(received) => TracedReader(h, s, received, t);
    case CallWatch(i, pid, flags) => TracedCall(h, s, i, pid, flags, t);
    case UserStep(j, pick) =>
      assert h + [] == h;
      TracedUser(h, s, j, pick, t);
    case _ => assert h + [] == h;
  }

  lemma {:induction false} TracedRun(h: seq<T.Act>, s: State, ms: seq<Move>, t: State)
    requires Traced(h, s) && Refs(s) && Run(s, ms) == Some(t)
    ensures Traced(h + History(s, ms), t)
    decreases |ms|
  {
    if ms == [] {
      assert h + History(s, ms) == h;
    } else {
      var s' := RunHead(s, ms, t);
      TracedStep(h, s, ms[0], s');
      RefsStep(s, ms[0], s');
      TracedRun(h + Recorded(s, ms[0]), s', ms[1..], t);
      assert h + Recorded(s, ms[0]) + History(s', ms[1..]) == h + History(s, ms);
    }
  }

  /** In every run, every flag bit in the table comes from a user's Watch call
      for the process, for the wildcard, or for an ancestor by the forks that
      the reader has followed since that call. */
  lemma FlagProvenance(n: nat, ms: seq<Move>, t: State, pid: int, bit: T.Flags)
    requires Run(Init(n), ms) == Some(t)
    requires pid in t.watches && SingleBit(bit) && T.Has(FlagsIn(t.heap, t.watches[pid]), bit)
    ensures Justified(History(Init(n), ms), pid, bit)
  {
    TracedRun([], Init(n), ms, t);
    assert [] + History(Init(n), ms) == History(Init(n), ms);
    RefsRun(Init(n), ms, t);
    EntryTraced(History(Init(n), ms), t, pid);
  }

  /** And so does the flag that let through whatever event is about to be sent. */
  lemma SendProvenance(n: nat, ms: seq<Move>, t: State)
    requires Run(Init(n), ms) == Some(t) && t.reader.Deliver?
    ensures Justified(History(Init(n), ms), T.Gate(t.reader.e).value.0, T.Gate(t.reader.e).value.1)
  {
    TracedRun([], Init(n), ms, t);
    assert [] + History(Init(n), ms) == History(Init(n), ms);
  }
}
