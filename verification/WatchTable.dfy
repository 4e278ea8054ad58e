/**
 The watch table of the Linux process-event watcher, with Watch, RemoveWatch,
 Close and the handling of one kernel event each taken as one step. Runs are
 sequences of such steps; the class Watcher in Watcher.dfy performs them.
 */
module WatchTable {
  import opened Wrappers

  type Flags = bv32

  const FORK: Flags := 0x00000001
  const EXEC: Flags := 0x00000002
  const UID: Flags := 0x00000004
  const GID: Flags := 0x00000040
  const SID: Flags := 0x00000080
  const EXIT: Flags := 0x80000000

  // The pid that stands for any process.
  const WILDCARD := -1

  // Pids arrive as 32-bit unsigned fields of kernel messages.
  type Pid = p: int | 0 <= p < 0x1_0000_0000

  datatype Event =
    | Forked(parentPid: Pid, parentTgid: Pid, childPid: Pid, childTgid: Pid)
    | Execed(pid: Pid, tgid: Pid)
    | Exited(pid: Pid, tgid: Pid)
    | UidChanged(pid: Pid, tgid: Pid, rid: nat, eid: nat)
    | GidChanged(pid: Pid, tgid: Pid, rid: nat, eid: nat)
    | SidChanged(pid: Pid, tgid: Pid)
    | Unknown(what: nat)

  // What is sent on the event channels.
  datatype Delivery =
    | ForkEvent(parent: Pid, child: Pid)
    | ExecEvent(pid: Pid)
    | ExitEvent(pid: Pid)
    | UidEvent(isGid: bool, pid: Pid, tgid: Pid, rid: nat, eid: nat)
    | SidEvent(pid: Pid, tgid: Pid)

  datatype Table = Table(watches: map<int, Flags>, closed: bool)

  // ----- flag masks

  predicate Has(flags: Flags, event: Flags) {
    flags & event == event
  }

  lemma MergeSame(f: Flags)
    ensures f | f == f
  {
  }

  lemma MergeLeft(f: Flags, g: Flags, event: Flags)
    requires Has(f, event)
    ensures Has(f | g, event)
  {
  }

  lemma MergeRight(f: Flags, g: Flags, event: Flags)
    requires Has(g, event)
    ensures Has(f | g, event)
  {
  }

  lemma HasTransitive(f: Flags, g: Flags, event: Flags)
    requires Has(f, g) && Has(g, event)
    ensures Has(f, event)
  {
  }

  // ----- the table

  /** The flags that decide for pid: its own entry, which hides the wildcard, or else the wildcard. */
  function Effective(t: Table, pid: int): Option<Flags> {
    if pid in t.watches then Some(t.watches[pid])
    else if WILDCARD in t.watches then Some(t.watches[WILDCARD])
    else None
  }

  predicate IsWatching(t: Table, pid: int, event: Flags) {
    Effective(t, pid).Some? && Has(Effective(t, pid).value, event)
  }

  // An entry that is there gains the flags; one that is not is made.
  function Merged(watches: map<int, Flags>, pid: int, flags: Flags): map<int, Flags> {
    watches[pid := if pid in watches then watches[pid] | flags else flags]
  }

  function Watch(t: Table, pid: int, flags: Flags): Table {
    if t.closed then t else t.(watches := Merged(t.watches, pid, flags))
  }

  function RemoveWatch(t: Table, pid: int): Table {
    t.(watches := t.watches - {pid})
  }

  function Close(t: Table): Table {
    if t.closed then t else Table(map[], true)
  }

  /** The process whose entry decides about an event, and the flag it needs.
      Group changes are decided by the flag for user changes. */
  function Gate(e: Event): Option<(Pid, Flags)> {
    match e
    case Forked(_, parent, _, _) => Some((parent, FORK))
    case Execed(_, tgid) => Some((tgid, EXEC))
    case Exited(_, tgid) => Some((tgid, EXIT))
    case UidChanged(pid, _, _, _) => Some((pid, UID))
    case GidChanged(pid, _, _, _) => Some((pid, UID))
    case SidChanged(pid, _) => Some((pid, SID))
    case Unknown(_) => None
  }

  function Payload(e: Event): seq<Delivery> {
    match e
    case Forked(_, parent, _, child) => [ForkEvent(parent, child)]
    case Execed(_, tgid) => [ExecEvent(tgid)]
    case Exited(_, tgid) => [ExitEvent(tgid)]
    case UidChanged(pid, tgid, rid, eid) => [UidEvent(false, pid, tgid, rid, eid)]
    case GidChanged(pid, tgid, rid, eid) => [UidEvent(true, pid, tgid, rid, eid)]
    case SidChanged(pid, tgid) => [SidEvent(pid, tgid)]
    case Unknown(_) => []
  }

  // Delivering one of these removes the entry of its process.
  predicate Removing(e: Event) {
    e.Exited? || e.UidChanged? || e.GidChanged? || e.SidChanged?
  }

  predicate Wanted(t: Table, e: Event) {
    Gate(e).Some? && IsWatching(t, Gate(e).value.0, Gate(e).value.1)
  }

  function Delivered(t: Table, e: Event): seq<Delivery> {
    if Wanted(t, e) then Payload(e) else []
  }

  // A fork is followed when the parent's exec events are watched.
  predicate Follows(t: Table, e: Event) {
    e.Forked? && IsWatching(t, e.parentTgid, EXEC)
  }

  function Handle(t: Table, e: Event): Table {
    if Follows(t, e) then Watch(t, e.childTgid, Effective(t, e.parentTgid).value)
    else if Removing(e) && Wanted(t, e) then RemoveWatch(t, Gate(e).value.0)
    else t
  }

  // ----- runs

  datatype Act = DoWatch(pid: int, flags: Flags) | DoRemove(pid: int) | DoClose | Kernel(e: Event)

  function Do(t: Table, a: Act): Table {
    match a
    case DoWatch(pid, flags) => Watch(t, pid, flags)
    case DoRemove(pid) => RemoveWatch(t, pid)
    case DoClose => Close(t)
    case Kernel(e) => Handle(t, e)
  }

  function Sends(t: Table, a: Act): seq<Delivery> {
    if a.Kernel? then Delivered(t, a.e) else []
  }

  function After(t: Table, acts: seq<Act>): Table
    decreases |acts|
  {
    if acts == [] then t else After(Do(t, acts[0]), acts[1..])
  }

  function Output(t: Table, acts: seq<Act>): seq<Delivery>
    decreases |acts|
  {
    if acts == [] then [] else Sends(t, acts[0]) + Output(Do(t, acts[0]), acts[1..])
  }

  const EMPTY := Table(map[], false)

  lemma {:induction false} AfterSnoc(t: Table, h: seq<Act>, a: Act)
    ensures After(t, h + [a]) == Do(After(t, h), a)
    decreases |h|
  {
    if h == [] {
      assert h + [a] == [a];
    } else {
      assert (h + [a])[0] == h[0] && (h + [a])[1..] == h[1..] + [a];
      AfterSnoc(Do(t, h[0]), h[1..], a);
    }
  }

  lemma {:induction false} OutputSnoc(t: Table, h: seq<Act>, a: Act)
    ensures Output(t, h + [a]) == Output(t, h) + Sends(After(t, h), a)
    decreases |h|
  {
    if h == [] {
      assert h + [a] == [a];
    } else {
      assert (h + [a])[0] == h[0] && (h + [a])[1..] == h[1..] + [a];
      OutputSnoc(Do(t, h[0]), h[1..], a);
    }
  }

  // ----- wildcard refinement

  /** What one event is worth to somebody who asked for these flags. */
  function Share(flags: Flags, e: Event): seq<Delivery> {
    match e
    case Forked(_, parent, _, child) => if flags & FORK == FORK then [ForkEvent(parent, child)] else []
    case Execed(_, tgid) => if flags & EXEC == EXEC then [ExecEvent(tgid)] else []
    case Exited(_, tgid) => if flags & EXIT == EXIT then [ExitEvent(tgid)] else []
    case UidChanged(pid, tgid, ruid, euid) =>
      if flags & UID == UID then [UidEvent(false, pid, tgid, ruid, euid)] else []
    case GidChanged(pid, tgid, rgid, egid) =>
      if flags & UID == UID then [UidEvent(true, pid, tgid, rgid, egid)] else []
    case SidChanged(pid, tgid) => if flags & SID == SID then [SidEvent(pid, tgid)] else []
    case Unknown(_) => []
  }

  // The process that an event is about.
  function About(e: Event): Option<Pid> {
    match e
    case Forked(_, parent, _, _) => Some(parent)
    case Execed(_, tgid) => Some(tgid)
    case Exited(_, tgid) => Some(tgid)
    case UidChanged(pid, _, _, _) => Some(pid)
    case GidChanged(pid, _, _, _) => Some(pid)
    case SidChanged(pid, _) => Some(pid)
    case Unknown(_) => None
  }

  /** Exactly what is delivered for an event by a table: what it is worth under
      the flags of the process it is about, or else under those of the
      wildcard, which an own entry hides. */
  lemma DeliveredExactly(t: Table, e: Event)
    ensures Delivered(t, e) ==
            if About(e).None? then []
            else if About(e).value as int in t.watches then Share(t.watches[About(e).value], e)
            else if WILDCARD in t.watches then Share(t.watches[WILDCARD], e)
            else []
  {
  }

  // The entry of p, or else that of the wildcard, has the flag.
  predicate Asks(watches: map<int, Flags>, p: int, flag: Flags) {
    if p in watches then watches[p] & flag == flag
    else WILDCARD in watches && watches[WILDCARD] & flag == flag
  }

  /** Exactly what a fork makes of an open table: if the parent's exec events
      are watched, the child gets the flags that decide for the parent. */
  lemma ForkExactly(t: Table, e: Event)
    requires !t.closed && e.Forked?
    ensures var w, p, child := t.watches, e.parentTgid as int, e.childTgid as int;
            Handle(t, e) == t.(watches :=
              if !Asks(w, p, EXEC) then w
              else Merged(w, child, if p in w then w[p] else w[WILDCARD]))
  {
  }

  /** And every other event: a delivered exit, uid, gid or sid event takes the
      entry of its process away, and nothing else changes. */
  lemma OthersExactly(t: Table, e: Event)
    requires !e.Forked?
    ensures var w := t.watches;
            Handle(t, e) == t.(watches :=
              match e
              case Exited(_, tgid) => if Asks(w, tgid, EXIT) then w - {tgid as int} else w
              case UidChanged(pid, _, _, _) => if Asks(w, pid, UID) then w - {pid as int} else w
              case GidChanged(pid, _, _, _) => if Asks(w, pid, UID) then w - {pid as int} else w
              case SidChanged(pid, _) => if Asks(w, pid, SID) then w - {pid as int} else w
              case _ => w)
  {
  }

  /** What a watcher without any table would deliver: each event on its own, against one mask. */
  function Filter(flags: Flags, acts: seq<Act>): seq<Delivery>
    decreases |acts|
  {
    if acts == [] then []
    else (if acts[0].Kernel? then Share(flags, acts[0].e) else []) + Filter(flags, acts[1..])
  }

  ghost predicate OnlyEvents(acts: seq<Act>) {
    forall i :: 0 <= i < |acts| ==> acts[i].Kernel?
  }

  ghost predicate Uniform(t: Table, flags: Flags) {
    && !t.closed && WILDCARD in t.watches
    && forall p :: p in t.watches ==> t.watches[p] == flags
  }

  lemma UniformStep(t: Table, flags: Flags, e: Event)
    requires Uniform(t, flags)
    ensures Uniform(Handle(t, e), flags)
  {
    MergeSame(flags);
  }

  lemma {:induction false} UniformRun(t: Table, flags: Flags, acts: seq<Act>)
    requires Uniform(t, flags) && OnlyEvents(acts)
    ensures Uniform(After(t, acts), flags)
    ensures Output(t, acts) == Filter(flags, acts)
    decreases |acts|
  {
    if acts != [] {
      UniformStep(t, flags, acts[0].e);
      UniformDelivers(t, flags, acts[0].e);
      UniformRun(Do(t, acts[0]), flags, acts[1..]);
    }
  }

  lemma UniformDelivers(t: Table, flags: Flags, e: Event)
    requires Uniform(t, flags)
    ensures Delivered(t, e) == Share(flags, e)
  {
    DeliveredExactly(t, e);
  }

  /** From an empty table and one Watch on the wildcard, every event sequence
      delivers exactly what the stateless filter delivers, and every entry
      that fork-following made holds exactly the flags asked for. */
  lemma WildcardRefinement(flags: Flags, acts: seq<Act>)
    requires OnlyEvents(acts)
    ensures Output(EMPTY, [DoWatch(WILDCARD, flags)] + acts) == Filter(flags, acts)
    ensures Uniform(After(EMPTY, [DoWatch(WILDCARD, flags)] + acts), flags)
  {
    var run := [DoWatch(WILDCARD, flags)] + acts;
    assert run[1..] == acts;
    UniformRun(Do(EMPTY, run[0]), flags, acts);
  }

  // ----- fork-following closure

  /** The processes reached from those in d by the forks of a run, minus those
      whose entry the run removes. */
  function Lineage(t: Table, d: set<int>, acts: seq<Act>): set<int>
    decreases |acts|
  {
    if acts == [] then d else Lineage(Do(t, acts[0]), Descend(t, d, acts[0]), acts[1..])
  }

  function Descend(t: Table, d: set<int>, a: Act): set<int> {
    match a
    case DoWatch(_, _) => d
    case DoRemove(pid) => d - {pid}
    case DoClose => {}
    case Kernel(e) =>
      if e.Forked? && e.parentTgid in d then d + {e.childTgid}
      else if Removing(e) && Wanted(t, e) then d - {Gate(e).value.0}
      else d
  }

  ghost predicate AllHave(t: Table, d: set<int>, flags: Flags) {
    forall p :: p in d ==> !t.closed && p in t.watches && Has(t.watches[p], flags)
  }

  // Watch gives pid at least the flags asked for and takes nothing from anyone.
  lemma WatchGives(t: Table, pid: int, f: Flags, flags: Flags)
    requires !t.closed && Has(f, flags)
    ensures Has(Watch(t, pid, f).watches[pid], flags)
  {
    if pid in t.watches {
      MergeRight(t.watches[pid], f, flags);
    }
  }

  lemma WatchKeeps(t: Table, pid: int, f: Flags, p: int, flags: Flags)
    requires p in t.watches && Has(t.watches[p], flags)
    ensures p in Watch(t, pid, f).watches && Has(Watch(t, pid, f).watches[p], flags)
  {
    if p == pid {
      MergeLeft(t.watches[pid], f, flags);
    }
  }

  lemma FollowStep(t: Table, d: set<int>, flags: Flags, e: Event, p: int)
    requires AllHave(t, d, flags) && Has(flags, EXEC) && e.Forked?
    requires p in Descend(t, d, Kernel(e))
    ensures !Handle(t, e).closed && p in Handle(t, e).watches && Has(Handle(t, e).watches[p], flags)
  {
    if p in d {
      if Follows(t, e) {
        WatchKeeps(t, e.childTgid, Effective(t, e.parentTgid).value, p, flags);
      }
    } else {
      HasTransitive(t.watches[e.parentTgid], flags, EXEC);
      WatchGives(t, e.childTgid, t.watches[e.parentTgid], flags);
    }
  }

  lemma DescendStep(t: Table, d: set<int>, flags: Flags, a: Act)
    requires AllHave(t, d, flags) && Has(flags, EXEC)
    ensures AllHave(Do(t, a), Descend(t, d, a), flags)
  {
    forall p | p in Descend(t, d, a)
      ensures !Do(t, a).closed && p in Do(t, a).watches && Has(Do(t, a).watches[p], flags)
    {
      if a.DoWatch? {
        WatchKeeps(t, a.pid, a.flags, p, flags);
      } else if a.Kernel? && a.e.Forked? {
        FollowStep(t, d, flags, a.e, p);
      }
    }
  }

  /** Every process reached from a watched one by forks holds at least its
      flags, as long as its own entry has not been removed, whatever else the
      users and the kernel do. */
  lemma {:induction false} ForkClosure(t: Table, d: set<int>, flags: Flags, acts: seq<Act>)
    requires AllHave(t, d, flags) && Has(flags, EXEC)
    ensures AllHave(After(t, acts), Lineage(t, d, acts), flags)
    decreases |acts|
  {
    if acts != [] {
      DescendStep(t, d, flags, acts[0]);
      ForkClosure(Do(t, acts[0]), Descend(t, d, acts[0]), flags, acts[1..]);
    }
  }

  // ----- silence after removal

  function Subject(d: Delivery): Pid {
    if d.ForkEvent? then d.parent else d.pid
  }

  // The step puts pid, or the wildcard, back into the table.
  predicate Names(t: Table, a: Act, pid: int) {
    || (a.DoWatch? && (a.pid == pid || a.pid == WILDCARD))
    || (a.Kernel? && Follows(t, a.e) && a.e.childTgid == pid)
  }

  predicate NeverNamed(t: Table, acts: seq<Act>, pid: int)
    decreases |acts|
  {
    acts == [] || (!Names(t, acts[0], pid) && NeverNamed(Do(t, acts[0]), acts[1..], pid))
  }

  ghost predicate Silent(out: seq<Delivery>, pid: int) {
    forall i :: 0 <= i < |out| ==> Subject(out[i]) != pid
  }

  lemma {:induction false} SilentRun(t: Table, acts: seq<Act>, pid: Pid)
    requires pid !in t.watches && WILDCARD !in t.watches && NeverNamed(t, acts, pid)
    ensures pid !in After(t, acts).watches && Silent(Output(t, acts), pid)
    decreases |acts|
  {
    if acts != [] {
      SilentRun(Do(t, acts[0]), acts[1..], pid);
    }
  }

  /** Once a removing event has been delivered for a process, and without a
      wildcard entry, nothing is delivered about it until it is named again. */
  lemma SilenceAfterRemoval(t: Table, e: Event, acts: seq<Act>)
    requires WILDCARD !in t.watches && Removing(e) && Wanted(t, e)
    requires NeverNamed(Handle(t, e), acts, Gate(e).value.0)
    ensures Gate(e).value.0 !in After(Handle(t, e), acts).watches
    ensures Silent(Output(Handle(t, e), acts), Gate(e).value.0)
  {
    SilentRun(Handle(t, e), acts, Gate(e).value.0);
  }

  /** No kernel event changes the wildcard entry. */
  lemma {:induction false} WildcardSurvives(t: Table, acts: seq<Act>)
    requires OnlyEvents(acts)
    ensures WILDCARD in After(t, acts).watches <==> WILDCARD in t.watches
    ensures WILDCARD in t.watches ==> After(t, acts).watches[WILDCARD] == t.watches[WILDCARD]
    decreases |acts|
  {
    if acts != [] {
      WildcardSurvives(Do(t, acts[0]), acts[1..]);
    }
  }

  /** After Close, taken as one step, whatever was watched before, nothing more
      is watched or delivered. */
  lemma SilenceAfterClose(t: Table, acts: seq<Act>)
    requires !t.closed
    ensures After(t, [DoClose] + acts) == Table(map[], true) && Output(t, [DoClose] + acts) == []
  {
    var run := [DoClose] + acts;
    assert run[1..] == acts;
    ClosedForGood(Table(map[], true), acts);
  }

  /** After Close, taken as one step, the table stays empty and nothing is delivered. */
  lemma {:induction false} ClosedForGood(t: Table, acts: seq<Act>)
    requires t == Table(map[], true)
    ensures After(t, acts) == t && Output(t, acts) == []
    decreases |acts|
  {
    if acts != [] {
      assert Do(t, acts[0]) == t;
      ClosedForGood(t, acts[1..]);
    }
  }
}
