/**
 The reader's instructions, when nobody interferes, add up to the one-step
 event handling of the watch table: the same entries, the same deliveries. If
 somebody holds closedMutex meanwhile, as Close does while it waits for the
 reader, this goes on up to the first fork that is to be followed.
 */
module ReaderRefinement {
  import opened Wrappers
  import opened CloseHandshake
  import opened CloseReturns
  import opened Runs
  import opened Sequences
  import opened TableEntries
  import T = WatchTable
  import W = WatcherObject

  /** What the sends recorded in a trace delivered, in order. */
  function Deliveries(trace: seq<Label>): seq<T.Delivery> {
    if trace == [] then []
    else
      var last := trace[|trace| - 1];
      Deliveries(trace[..|trace| - 1]) + if last.Sent? then last.what else []
  }

  lemma DeliveriesSnoc(trace: seq<Label>, l: Label)
    ensures Deliveries(trace + [l]) == Deliveries(trace) + if l.Sent? then l.what else []
  {
    assert (trace + [l])[..|trace|] == trace;
  }

  // The table mutex is free, and no channel has been closed.
  predicate Undisturbed(s: State) {
    s.watchesMutex.None? && s.closedChans == {} && !s.panicked
  }

  // The gate of an event is open.
  predicate Passes(s: State, e: Known) {
    Watched(s, T.Gate(e).value.0, T.Gate(e).value.1)
  }

  // One more step of the reader.
  lemma Next(reach: State -> bool, s: State) returns (t: State)
    requires Closed(reach, ReaderAlone) && reach(s) && !s.panicked && !s.reader.Exited? && Enabled(s, ReaderInstr(s))
    ensures t == Perform(s, Reader, ReaderInstr(s)).(reader := ReaderNext(s, Events([])))
    ensures reach(t)
  {
    t := Go(reach, s, READ, ReaderAlone);
  }

  // ----- the gate, the removal and the send

  function AfterDelivery(s: State, e: Known, es: seq<T.Event>): State {
    s.(reader := Work(es), trace := s.trace + [Sent(ChannelOf(e), T.Payload(e))])
  }

  lemma SendAlone(reach: State -> bool, s: State) returns (t: State)
    requires Closed(reach, ReaderAlone) && reach(s) && Undisturbed(s) && s.reader.Deliver?
    ensures reach(t) && t == AfterDelivery(s, s.reader.e, s.reader.es)
  {
    t := Next(reach, s);
  }

  lemma RemoveAlone(reach: State -> bool, s: State) returns (t: State)
    requires Closed(reach, ReaderAlone) && reach(s) && Undisturbed(s) && s.reader.DropLock?
    ensures reach(t)
    ensures t == s.(reader := Deliver(s.reader.e, s.reader.es), watches := s.watches - {T.Gate(s.reader.e).value.0})
  {
    assert s.trace + [] == s.trace;
    t := Next(reach, s);
    assert t == s.(reader := Dropping(s.reader.e, s.reader.es), watchesMutex := Some(Reader));
    t := DeleteAlone(reach, t);
  }

  lemma DeleteAlone(reach: State -> bool, s: State) returns (t: State)
    requires Closed(reach, ReaderAlone) && reach(s) && s.reader.Dropping? && !s.panicked
    ensures reach(t)
    ensures t == s.(reader := Deliver(s.reader.e, s.reader.es), watchesMutex := None,
                    watches := s.watches - {T.Gate(s.reader.e).value.0})
  {
    assert s.trace + [] == s.trace;
    t := Next(reach, s);
    t := Next(reach, t);
  }

  // The state after the gate: the entry removed and the event sent, if it is wanted.
  function AfterGate(s: State, e: Known, es: seq<T.Event>): State {
    if !Passes(s, e) then s.(reader := Work(es))
    else if T.Removing(e) then AfterDelivery(s.(watches := s.watches - {T.Gate(e).value.0}), e, es)
    else AfterDelivery(s, e, es)
  }

  lemma GateAlone(reach: State -> bool, s: State) returns (t: State)
    requires Closed(reach, ReaderAlone) && reach(s) && Undisturbed(s) && s.reader.AskGate?
    ensures reach(t) && t == AfterGate(s, s.reader.e, s.reader.es)
  {
    var e, es := s.reader.e, s.reader.es;
    assert s.trace + [] == s.trace;
    var s1 := Next(reach, s);
    assert s1 == s.(reader := TestGate(e, es), watchesMutex := Some(Reader));
    t := Next(reach, s1);
    assert t == s.(reader := GateNext(s, e, es));
    if Passes(s, e) {
      if T.Removing(e) {
        t := RemoveAlone(reach, t);
      }
      t := SendAlone(reach, t);
    }
  }

  // ----- following a fork

  // The entry to follow a fork with: the parent's own, or else the wildcard's.
  predicate HasSource(s: State, f: ForkedEvent) {
    f.parentTgid as int in s.watches || T.WILDCARD in s.watches
  }

  function Source(s: State, f: ForkedEvent): nat
    requires HasSource(s, f)
  {
    if f.parentTgid as int in s.watches then s.watches[f.parentTgid] else s.watches[T.WILDCARD]
  }

  lemma TestAlone(reach: State -> bool, s: State) returns (t: State)
    requires Closed(reach, ReaderAlone) && reach(s) && Undisturbed(s) && s.reader.AskExec?
    ensures reach(t)
    ensures var f, es := s.reader.f, s.reader.es;
            t == s.(reader := if Watched(s, f.parentTgid, T.EXEC) then Fetch(f, es) else AskGate(f, es))
  {
    var f, es := s.reader.f, s.reader.es;
    assert s.trace + [] == s.trace;
    t := Next(reach, s);
    assert t == s.(reader := TestExec(f, es), watchesMutex := Some(Reader));
    t := Next(reach, t);
  }

  lemma FetchAlone(reach: State -> bool, s: State) returns (t: State)
    requires Closed(reach, ReaderAlone) && reach(s) && Undisturbed(s) && s.reader.Fetch? && HasSource(s, s.reader.f)
    ensures reach(t)
    ensures var f, es := s.reader.f, s.reader.es;
            t == s.(reader := Following(FlagsIn(s.heap, Source(s, f)), WLock, f, es))
  {
    var f, es := s.reader.f, s.reader.es;
    assert s.trace + [] == s.trace;
    t := Next(reach, s);
    if f.parentTgid as int !in s.watches {
      assert t == s.(reader := FetchWild(f, es));
      t := Next(reach, t);
    }
    assert t == s.(reader := Fetched(Source(s, f), f, es));
    t := Next(reach, t);
  }

  // The closed test of the reader's own Watch call.
  lemma ClosedTestAlone(reach: State -> bool, s: State) returns (t: State)
    requires Closed(reach, ReaderAlone) && reach(s) && Undisturbed(s) && s.reader.Following? && s.reader.fw.WLock?
    requires s.closedMutex.None?
    ensures reach(t)
    ensures t == s.(reader := s.reader.(fw := if s.isClosed then WReturn(false) else WLookup))
  {
    assert s.trace + [] == s.trace;
    t := Next(reach, s);
    assert t == s.(reader := s.reader.(fw := WTest), closedMutex := Some(Reader));
    t := UnlockClosedAlone(reach, t);
  }

  lemma UnlockClosedAlone(reach: State -> bool, s: State) returns (t: State)
    requires Closed(reach, ReaderAlone) && reach(s) && !s.panicked && s.reader.Following? && s.reader.fw.WTest?
    ensures reach(t)
    ensures t == s.(reader := s.reader.(fw := if s.isClosed then WReturn(false) else WLookup), closedMutex := None)
  {
    assert s.trace + [] == s.trace;
    t := Next(reach, s);
    assert t == s.(reader := s.reader.(fw := WUnlock(s.isClosed)));
    t := Next(reach, t);
  }

  lemma LockAlone(reach: State -> bool, s: State) returns (t: State)
    requires Closed(reach, ReaderAlone) && reach(s) && Undisturbed(s) && s.reader.Following? && s.reader.fw.WLockTable?
    ensures reach(t)
    ensures t == s.(reader := s.reader.(fw := WInsert), watchesMutex := Some(Reader))
  {
    assert s.trace + [] == s.trace;
    t := Next(reach, s);
  }

  lemma UnlockAlone(reach: State -> bool, s: State) returns (t: State)
    requires Closed(reach, ReaderAlone) && reach(s) && !s.panicked && s.reader.Following? && s.reader.fw.WUnlockTable?
    ensures reach(t)
    ensures t == s.(reader := s.reader.(fw := WReturn(true)), watchesMutex := None)
  {
    assert s.trace + [] == s.trace;
    t := Next(reach, s);
  }

  // The state after a Watch for pid has put its flags in.
  function AfterWatch(s: State, pid: int, flags: T.Flags, reader: ReaderPc): State {
    var t := s.(reader := reader, trace := s.trace + [Touched(Reader, pid)]);
    if pid in s.watches then t.(heap := StoredAt(s.heap, s.watches[pid], MergedFlags(s.heap, s.watches[pid], flags)))
    else t.(watches := s.watches[pid := |s.heap|], heap := s.heap + [Entry(pid, flags)])
  }

  lemma InsertAlone(reach: State -> bool, s: State) returns (t: State)
    requires Closed(reach, ReaderAlone) && reach(s) && Undisturbed(s) && s.reader.Following? && s.reader.fw.WLockTable?
    requires s.reader.f.childTgid as int !in s.watches
    ensures reach(t)
    ensures t == AfterWatch(s, s.reader.f.childTgid, s.reader.flags, s.reader.(fw := WReturn(true)))
  {
    t := LockAlone(reach, s);
    t := Next(reach, t);
    t := UnlockAlone(reach, t);
  }

  lemma MergeAlone(reach: State -> bool, s: State) returns (t: State)
    requires Closed(reach, ReaderAlone) && reach(s) && Undisturbed(s) && s.reader.Following? && s.reader.fw.WLookup?
    requires s.reader.f.childTgid as int in s.watches
    ensures reach(t)
    ensures t == AfterWatch(s, s.reader.f.childTgid, s.reader.flags, s.reader.(fw := WReturn(true)))
  {
    var found := s.watches[s.reader.f.childTgid];
    t := LoadAlone(reach, s);
    t := StoreAlone(reach, t, found, MergedFlags(s.heap, found, s.reader.flags));
  }

  lemma LoadAlone(reach: State -> bool, s: State) returns (t: State)
    requires Closed(reach, ReaderAlone) && reach(s) && Undisturbed(s) && s.reader.Following? && s.reader.fw.WLookup?
    requires s.reader.f.childTgid as int in s.watches
    ensures reach(t)
    ensures var found := s.watches[s.reader.f.childTgid];
            t == s.(reader := s.reader.(fw := WStore(found, MergedFlags(s.heap, found, s.reader.flags))))
  {
    assert s.trace + [] == s.trace;
    t := Next(reach, s);
    assert t == s.(reader := s.reader.(fw := WLoad(s.watches[s.reader.f.childTgid])));
    t := Next(reach, t);
  }

  lemma StoreAlone(reach: State -> bool, s: State, found: nat, value: T.Flags) returns (t: State)
    requires Closed(reach, ReaderAlone) && reach(s) && Undisturbed(s) && s.reader.Following?
    requires s.reader.fw == WStore(found, value)
    ensures reach(t)
    ensures t == s.(reader := s.reader.(fw := WReturn(true)), heap := StoredAt(s.heap, found, value),
                    trace := s.trace + [Touched(Reader, s.reader.f.childTgid)])
  {
    t := Next(reach, s);
  }

  lemma LookupAlone(reach: State -> bool, s: State) returns (t: State)
    requires Closed(reach, ReaderAlone) && reach(s) && Undisturbed(s) && s.reader.Following? && s.reader.fw.WLookup?
    requires s.reader.f.childTgid as int !in s.watches
    ensures reach(t) && t == s.(reader := s.reader.(fw := WLockTable))
  {
    assert s.trace + [] == s.trace;
    t := Next(reach, s);
  }

  lemma EntryAlone(reach: State -> bool, s: State) returns (t: State)
    requires Closed(reach, ReaderAlone) && reach(s) && Undisturbed(s) && s.reader.Following? && s.reader.fw.WLookup?
    ensures reach(t)
    ensures t == AfterWatch(s, s.reader.f.childTgid, s.reader.flags, s.reader.(fw := WReturn(true)))
  {
    if s.reader.f.childTgid as int in s.watches {
      t := MergeAlone(reach, s);
    } else {
      t := LookupAlone(reach, s);
      t := InsertAlone(reach, t);
    }
  }

  lemma ReturnAlone(reach: State -> bool, s: State) returns (t: State)
    requires Closed(reach, ReaderAlone) && reach(s) && Undisturbed(s) && s.reader.Following? && s.reader.fw.WReturn?
    ensures reach(t) && t == s.(reader := AskGate(s.reader.f, s.reader.es))
  {
    assert s.trace + [] == s.trace;
    t := Next(reach, s);
  }

  // From the first question about a fork to the question about its own flag.
  function AfterFollow(s: State, f: ForkedEvent, es: seq<T.Event>): State {
    if Watched(s, f.parentTgid, T.EXEC) && HasSource(s, f) && !s.isClosed
    then AfterWatch(s, f.childTgid, FlagsIn(s.heap, Source(s, f)), AskGate(f, es))
    else s.(reader := AskGate(f, es))
  }

  lemma FollowAlone(reach: State -> bool, s: State) returns (t: State)
    requires Closed(reach, ReaderAlone) && reach(s) && Undisturbed(s) && s.reader.AskExec?
    requires s.closedMutex.None? || !Watched(s, s.reader.f.parentTgid, T.EXEC)
    ensures reach(t) && t == AfterFollow(s, s.reader.f, s.reader.es)
  {
    t := TestAlone(reach, s);
    if Watched(s, s.reader.f.parentTgid, T.EXEC) {
      t := FetchAlone(reach, t);
      t := WatchAlone(reach, t);
    }
  }

  // The reader's own Watch call.
  lemma WatchAlone(reach: State -> bool, s: State) returns (t: State)
    requires Closed(reach, ReaderAlone) && reach(s) && Undisturbed(s) && s.closedMutex.None?
    requires s.reader.Following? && s.reader.fw.WLock?
    ensures reach(t)
    ensures var r := s.reader; var next := AskGate(r.f, r.es);
            t == if s.isClosed then s.(reader := next) else AfterWatch(s, r.f.childTgid, r.flags, next)
  {
    t := ClosedTestAlone(reach, s);
    if !s.isClosed {
      t := EntryAlone(reach, t);
    }
    t := ReturnAlone(reach, t);
  }

  // ----- the table after each piece

  lemma FollowedTable(s: State, f: ForkedEvent, es: seq<T.Event>)
    requires TableRefs(s)
    ensures TableOf(AfterFollow(s, f, es)) == T.Handle(TableOf(s), f) && TableRefs(AfterFollow(s, f, es))
    ensures Deliveries(AfterFollow(s, f, es).trace) == Deliveries(s.trace)
  {
    WatchedMeans(s, f.parentTgid, T.EXEC);
    if T.Follows(TableOf(s), f) && !s.isClosed {
      var flags := FlagsIn(s.heap, Source(s, f));
      assert T.Effective(TableOf(s), f.parentTgid) == Some(flags);
      WatchedTable(s, f.childTgid, flags, AskGate(f, es));
      DeliveriesSnoc(s.trace, Touched(Reader, f.childTgid));
      assert AfterFollow(s, f, es) == AfterWatch(s, f.childTgid, flags, AskGate(f, es));
    }
  }

  lemma WatchedTable(s: State, pid: int, flags: T.Flags, reader: ReaderPc)
    requires TableRefs(s) && !s.isClosed
    ensures var t := AfterWatch(s, pid, flags, reader);
            TableOf(t) == T.Watch(TableOf(s), pid, flags) && TableRefs(t)
  {
    if pid in s.watches {
      MergedTable(s.watches, s.heap, pid, flags);
    } else {
      InsertedTable(s.watches, s.heap, pid, flags);
    }
  }

  // What the gate does to the table, and what it delivers.
  lemma GatedTable(s: State, e: Known, es: seq<T.Event>)
    requires TableRefs(s)
    ensures var t := AfterGate(s, e, es);
            && TableRefs(t) && T.Wanted(TableOf(s), e) == Passes(s, e)
            && TableOf(t) == (if T.Removing(e) && T.Wanted(TableOf(s), e)
                              then T.RemoveWatch(TableOf(s), T.Gate(e).value.0) else TableOf(s))
  {
    WatchedMeans(s, T.Gate(e).value.0, T.Gate(e).value.1);
    if Passes(s, e) && T.Removing(e) {
      RemovedTable(s.watches, s.heap, T.Gate(e).value.0);
    }
  }

  lemma GateDelivers(s: State, e: Known, es: seq<T.Event>)
    ensures Deliveries(AfterGate(s, e, es).trace) == Deliveries(s.trace) + if Passes(s, e) then T.Payload(e) else []
  {
    if Passes(s, e) {
      assert AfterGate(s, e, es).trace == s.trace + [Sent(ChannelOf(e), T.Payload(e))];
      DeliveriesSnoc(s.trace, Sent(ChannelOf(e), T.Payload(e)));
    } else {
      assert AfterGate(s, e, es).trace == s.trace;
    }
  }

  // ----- one event, and all events of a datagram

  /** From s to t the event has been handled as the table-level step does. */
  ghost predicate Handled(s: State, e: T.Event, t: State) {
    && t == s.(reader := t.reader, watches := t.watches, heap := t.heap, trace := t.trace)
    && TableRefs(t) && TableOf(t) == T.Handle(TableOf(s), e)
    && Deliveries(t.trace) == Deliveries(s.trace) + T.Delivered(TableOf(s), e)
  }

  // Nobody is in the way of following the event.
  predicate Unhindered(s: State, e: T.Event) {
    s.closedMutex.None? || !T.Follows(TableOf(s), e)
  }

  lemma EventAlone(reach: State -> bool, s: State, e: T.Event, es: seq<T.Event>) returns (t: State)
    requires Closed(reach, ReaderAlone) && reach(s) && Undisturbed(s) && TableRefs(s) && s.reader == Work([e] + es)
    requires Unhindered(s, e)
    ensures reach(t) && t.reader == Work(es) && Handled(s, e, t)
  {
    t := Begin(reach, s, e, es);
    if e.Forked? {
      t := ForkAlone(reach, t);
    } else if T.Gate(e).Some? {
      GatedTable(t, e, es);
      GateDelivers(t, e, es);
      t := GateAlone(reach, t);
    }
  }

  lemma Begin(reach: State -> bool, s: State, e: T.Event, es: seq<T.Event>) returns (t: State)
    requires Closed(reach, ReaderAlone) && reach(s) && !s.panicked && s.reader == Work([e] + es)
    ensures reach(t)
    ensures t == s.(reader := if e.Forked? then AskExec(e, es)
                              else if T.Gate(e).Some? then AskGate(e, es) else Work(es))
  {
    assert ([e] + es)[1..] == es && s.trace + [] == s.trace;
    t := Next(reach, s);
  }

  lemma ForkAlone(reach: State -> bool, s: State) returns (t: State)
    requires Closed(reach, ReaderAlone) && reach(s) && Undisturbed(s) && TableRefs(s) && s.reader.AskExec?
    requires Unhindered(s, s.reader.f)
    ensures reach(t) && t.reader == Work(s.reader.es) && Handled(s, s.reader.f, t)
  {
    var f, es := s.reader.f, s.reader.es;
    WatchedMeans(s, f.parentTgid, T.EXEC);
    t := FollowAlone(reach, s);
    FollowedUndisturbed(s, f, es);
    t := GateAlone(reach, t);
    ForkHandled(s, f, es);
    assert t == AfterGate(AfterFollow(s, f, es), f, es);
  }

  lemma FollowedUndisturbed(s: State, f: ForkedEvent, es: seq<T.Event>)
    requires Undisturbed(s)
    ensures Undisturbed(AfterFollow(s, f, es)) && AfterFollow(s, f, es).reader == AskGate(f, es)
  {
  }

  lemma ForkHandled(s: State, f: ForkedEvent, es: seq<T.Event>)
    requires TableRefs(s)
    ensures Handled(s, f, AfterGate(AfterFollow(s, f, es), f, es))
  {
    var t := AfterFollow(s, f, es);
    FollowedTable(s, f, es);
    ForkDelivered(t, f, es);
    FollowedThenSent(s, f, t, AfterGate(t, f, es));
  }

  lemma FollowedThenSent(s: State, f: ForkedEvent, t: State, u: State)
    requires t == s.(reader := t.reader, watches := t.watches, heap := t.heap, trace := t.trace)
    requires u == t.(reader := u.reader, trace := u.trace) && TableRefs(t)
    requires TableOf(t) == T.Handle(TableOf(s), f) && Deliveries(t.trace) == Deliveries(s.trace)
    requires Deliveries(u.trace) == Deliveries(t.trace) + T.Delivered(TableOf(t), f)
    ensures Handled(s, f, u)
  {
    ForkGate(TableOf(s), f);
    assert TableOf(u) == TableOf(t);
  }

  // The gate leaves the table alone at a fork.
  lemma ForkDelivered(s: State, f: ForkedEvent, es: seq<T.Event>)
    ensures var t := AfterGate(s, f, es);
            && t == s.(reader := t.reader, trace := t.trace)
            && Deliveries(t.trace) == Deliveries(s.trace) + T.Delivered(TableOf(s), f)
  {
    WatchedMeans(s, f.parentTgid, T.FORK);
    GateDelivers(s, f, es);
  }

  // Following a fork does not change whether the fork is delivered.
  lemma ForkGate(t: T.Table, f: ForkedEvent)
    ensures T.Delivered(T.Handle(t, f), f) == T.Delivered(t, f)
  {
    W.ForkKeepsGate(t, f);
  }

  // How many events there are before the first that is to be followed.
  function FollowIndex(t: T.Table, es: seq<T.Event>): (k: nat)
    ensures k <= |es|
    decreases |es|
  {
    if es == [] || T.Follows(t, es[0]) then 0 else 1 + FollowIndex(T.Handle(t, es[0]), es[1..])
  }

  lemma {:induction false} FollowsAtIndex(t: T.Table, es: seq<T.Event>)
    ensures var k := FollowIndex(t, es); k < |es| ==> T.Follows(T.After(t, W.Events(es[..k])), es[k])
    decreases |es|
  {
    if es != [] && !T.Follows(t, es[0]) {
      FollowsAtIndex(T.Handle(t, es[0]), es[1..]);
      var k := FollowIndex(t, es);
      assert es[..k][1..] == es[1..][..k - 1];
      EventsStep(t, es[..k]);
    }
  }

  // All these events, whatever comes after them.
  ghost predicate Ran(s: State, es: seq<T.Event>, t: State) {
    && t == s.(reader := t.reader, watches := t.watches, heap := t.heap, trace := t.trace)
    && TableRefs(t) && TableOf(t) == T.After(TableOf(s), W.Events(es))
    && Deliveries(t.trace) == Deliveries(s.trace) + T.Output(TableOf(s), W.Events(es))
  }

  lemma RanOn(s: State, es: seq<T.Event>, s1: State, t: State)
    requires es != [] && Handled(s, es[0], s1) && Ran(s1, es[1..], t)
    ensures Ran(s, es, t)
  {
    EventsStep(TableOf(s), es);
    Assoc(Deliveries(s.trace), T.Delivered(TableOf(s), es[0]), T.Output(TableOf(s1), W.Events(es[1..])));
  }

  lemma {:induction false} EventsAlone(reach: State -> bool, s: State, es: seq<T.Event>, rest: seq<T.Event>)
    returns (t: State)
    requires Closed(reach, ReaderAlone) && reach(s) && Undisturbed(s) && TableRefs(s) && s.reader == Work(es + rest)
    requires s.closedMutex.None? || FollowIndex(TableOf(s), es) == |es|
    ensures reach(t) && t.reader == Work(rest) && Ran(s, es, t)
    decreases |es|
  {
    if es == [] {
      assert es + rest == rest;
      t := s;
    } else {
      assert es + rest == [es[0]] + (es[1..] + rest);
      var s1 := EventAlone(reach, s, es[0], es[1..] + rest);
      t := EventsAlone(reach, s1, es[1..], rest);
      RanOn(s, es, s1, t);
    }
  }

  /** While nobody else moves and closedMutex is free, the reader turns the
      table into the one that the table-level steps give for the events of the
      datagram, and delivers what they deliver, from every reachable state. */
  lemma DatagramAlone(m: nat, s: State, es: seq<T.Event>) returns (t: State)
    requires Reaches(Init(m), s) && Undisturbed(s) && s.closedMutex.None? && s.reader == Work(es)
    ensures ReachesBy(ReaderAlone, s, t) && t.reader == Work([]) && Ran(s, es, t)
  {
    RefsReach(m, s);
    ReachByIsClosed(ReaderAlone, s);
    ReachesBySelf(ReaderAlone, s);
    assert es + [] == es;
    t := EventsAlone(x => ReachesBy(ReaderAlone, s, x), s, es, []);
  }

  // The reader sees no done message and receives.
  lemma Receives(s: State, received: Received)
    requires s.reader.CheckDone? && s.done == 0 && !s.panicked
    ensures Reaches(s, s.(reader := if received.Failed? then SendError else Work(received.es),
                          trace := s.trace + [SocketRead]))
  {
    var s1 := s.(reader := Recv);
    ReachesSelf(s);
    assert s.trace + [] == s.trace;
    assert Step(s, READ) == Some(s1);
    ReachesNext(s, s, READ);
    ReachesNext(s, s1, ReaderStep(received));
  }

  /** One round of the reader's loop: it sees no done message, receives a
      datagram, handles its events, and comes back to the top. */
  lemma RoundAlone(m: nat, s: State, es: seq<T.Event>) returns (t: State)
    requires Reaches(Init(m), s) && Undisturbed(s) && s.closedMutex.None? && s.reader.CheckDone? && s.done == 0
    ensures Reaches(s, t) && t.reader.CheckDone? && Ran(s, es, t)
  {
    var s1 := s.(reader := Work(es), trace := s.trace + [SocketRead]);
    Receives(s, Events(es));
    RefsReach(m, s);
    ReachIsClosed(s);
    t := RestOfRound(x => Reaches(s, x), s1, es);
    RanFromReceive(s, es, t);
  }

  // Receiving delivers nothing itself.
  lemma RanFromReceive(s: State, es: seq<T.Event>, t: State)
    requires Ran(s.(reader := Work(es), trace := s.trace + [SocketRead]), es, t)
    ensures Ran(s, es, t)
  {
    DeliveriesSnoc(s.trace, SocketRead);
  }

  lemma RestOfRound(reach: State -> bool, s: State, es: seq<T.Event>) returns (t: State)
    requires Closed(reach) && reach(s) && Undisturbed(s) && s.closedMutex.None? && TableRefs(s) && s.reader == Work(es)
    ensures reach(t) && t.reader.CheckDone? && Ran(s, es, t)
  {
    assert es + [] == es;
    var s1 := EventsAlone(reach, s, es, []);
    assert s1.trace + [] == s1.trace;
    t := Next(reach, s1);
  }

  /** A round in which the receive fails, or brings too little, sends an error,
      comes back to the top, and does nothing else. */
  lemma FailedRound(s: State)
    requires s.reader.CheckDone? && s.done == 0 && s.closedChans == {} && !s.panicked
    ensures Reaches(s, s.(trace := s.trace + [SocketRead] + [Sent(Error, [])]))
  {
    var s1 := s.(reader := SendError, trace := s.trace + [SocketRead]);
    Receives(s, Failed);
    assert Step(s1, READ) == Some(s.(trace := s1.trace + [Sent(Error, [])]));
    ReachesNext(s, s1, READ);
  }

  lemma {:induction false} IndexOfPrefix(t: T.Table, es: seq<T.Event>)
    ensures var k := FollowIndex(t, es); FollowIndex(t, es[..k]) == k
    decreases |es|
  {
    if es != [] && !T.Follows(t, es[0]) {
      var k := FollowIndex(t, es);
      assert es[..k][1..] == es[1..][..k - 1];
      IndexOfPrefix(T.Handle(t, es[0]), es[1..]);
    }
  }

  // The reader comes to the point of following a fork.
  lemma StopsAtFollow(reach: State -> bool, s: State, f: ForkedEvent, es: seq<T.Event>) returns (t: State)
    requires Closed(reach, ReaderAlone) && reach(s) && Undisturbed(s) && s.reader == Work([f] + es)
    requires T.Follows(TableOf(s), f)
    ensures reach(t)
    ensures t == s.(reader := t.reader) && t.reader.Following?
    ensures t.reader == Following(t.reader.flags, WLock, f, es)
  {
    WatchedMeans(s, f.parentTgid, T.EXEC);
    t := Begin(reach, s, f, es);
    t := TestAlone(reach, t);
    t := FetchAlone(reach, t);
  }

  /** While nobody else moves and somebody holds closedMutex, the reader does
      the same for the events before the first fork that is to be followed,
      and stops there; if it is a Close that holds closedMutex, for ever. */
  lemma DatagramHeld(m: nat, s: State, es: seq<T.Event>) returns (t: State)
    requires Reaches(Init(m), s) && Undisturbed(s) && s.closedMutex.Some? && s.reader == Work(es)
    ensures var k := FollowIndex(TableOf(s), es);
            && ReachesBy(ReaderAlone, s, t) && Ran(s, es[..k], t)
            && if k == |es| then t.reader == Work([])
               else t.reader.Following? && t.reader.fw.WLock? && t.reader.f == es[k] && t.reader.es == es[k + 1..]
                    && Step(t, READ).None? && (Holder(s).InClose? ==> Deadlocked(t))
  {
    var k := FollowIndex(TableOf(s), es);
    RefsReach(m, s);
    ReachByIsClosed(ReaderAlone, s);
    ReachesBySelf(ReaderAlone, s);
    t := UpToFollow(x => ReachesBy(ReaderAlone, s, x), s, es);
    if k < |es| {
      t := StopsAtFollow(x => ReachesBy(ReaderAlone, s, x), t, es[k], es[k + 1..]);
      Stopped(t);
    }
  }

  // Where the reader has stopped it cannot go on.
  lemma Stopped(t: State)
    requires t.reader.Following? && t.reader.fw.WLock? && t.closedMutex.Some?
    ensures Step(t, READ).None? && (Holder(t).InClose? ==> Deadlocked(t))
  {
  }

  lemma UpToFollow(reach: State -> bool, s: State, es: seq<T.Event>) returns (t: State)
    requires Closed(reach, ReaderAlone) && reach(s) && Undisturbed(s) && TableRefs(s) && s.reader == Work(es)
    ensures var k := FollowIndex(TableOf(s), es);
            && reach(t) && Ran(s, es[..k], t)
            && if k == |es| then t.reader == Work([])
               else T.Follows(TableOf(t), es[k]) && t.reader == Work([es[k]] + es[k + 1..])
  {
    var k := FollowIndex(TableOf(s), es);
    IndexOfPrefix(TableOf(s), es);
    assert es == es[..k] + es[k..];
    t := EventsAlone(reach, s, es[..k], es[k..]);
    if k < |es| {
      FollowsAtIndex(TableOf(s), es);
      assert es[k..] == [es[k]] + es[k + 1..];
    }
  }

  lemma EventsStep(t: T.Table, es: seq<T.Event>)
    requires es != []
    ensures T.After(t, W.Events(es)) == T.After(T.Handle(t, es[0]), W.Events(es[1..]))
    ensures T.Output(t, W.Events(es)) == T.Delivered(t, es[0]) + T.Output(T.Handle(t, es[0]), W.Events(es[1..]))
  {
    assert W.Events(es)[1..] == W.Events(es[1..]);
  }
}
