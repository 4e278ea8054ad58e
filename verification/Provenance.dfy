/**
 Where watched flags come from, and which mask decides group changes.
 */
module Provenance {
  import opened Wrappers
  import opened WatchTable

  predicate SingleBit(b: Flags) {
    b != 0 && b & (b - 1) == 0
  }

  lemma EventFlagsAreSingle()
    ensures SingleBit(FORK) && SingleBit(EXEC) && SingleBit(EXIT)
    ensures SingleBit(UID) && SingleBit(GID) && SingleBit(SID)
  {
  }

  lemma MergeSplits(f: Flags, g: Flags, bit: Flags)
    requires SingleBit(bit) && Has(f | g, bit)
    ensures Has(f, bit) || Has(g, bit)
  {
  }

  /** p and every process from which the forks in the history lead to p. */
  function Ancestors(h: seq<Act>, p: int): set<int>
    decreases |h|
  {
    if h == [] then {p}
    else
      var past, a := h[..|h| - 1], h[|h| - 1];
      if a.Kernel? && a.e.Forked? && a.e.childTgid == p
      then Ancestors(past, p) + Ancestors(past, a.e.parentTgid)
      else Ancestors(past, p)
  }

  /** Step i of the history is a user's Watch call that carries the bit, for
      the wildcard or for an ancestor of pid by the forks that follow it. */
  ghost predicate Origin(h: seq<Act>, i: int, pid: int, bit: Flags) {
    && 0 <= i < |h| && h[i].DoWatch? && Has(h[i].flags, bit)
    && (h[i].pid == WILDCARD || h[i].pid in Ancestors(h[i + 1..], pid))
  }

  // An origin for x stays one for x, and becomes one for each child of x.
  lemma OriginLater(h: seq<Act>, a: Act, i: int, x: int, pid: int, bit: Flags)
    requires Origin(h, i, x, bit)
    requires x == pid || (a.Kernel? && a.e.Forked? && a.e.childTgid == pid && a.e.parentTgid == x)
    ensures Origin(h + [a], i, pid, bit)
  {
    var later := (h + [a])[i + 1..];
    assert later == h[i + 1..] + [a];
    assert later[..|later| - 1] == h[i + 1..] && later[|later| - 1] == a;
  }

  lemma {:induction false} WildcardHasNoAncestors(h: seq<Act>)
    ensures Ancestors(h, WILDCARD) == {WILDCARD}
    decreases |h|
  {
    if h != [] {
      WildcardHasNoAncestors(h[..|h| - 1]);
    }
  }

  // An origin of the wildcard's own flags is an origin for every process.
  lemma OriginOfWildcard(h: seq<Act>, i: int, pid: int, bit: Flags)
    requires Origin(h, i, WILDCARD, bit)
    ensures Origin(h, i, pid, bit)
  {
    WildcardHasNoAncestors(h[i + 1..]);
  }

  // A bit that Watch adds to an entry is one of the flags it was given.
  lemma NewBit(t: Table, pid: int, f: Flags, bit: Flags)
    requires SingleBit(bit) && pid in Watch(t, pid, f).watches && Has(Watch(t, pid, f).watches[pid], bit)
    requires !(pid in t.watches && Has(t.watches[pid], bit))
    ensures Has(f, bit)
  {
    if pid in t.watches && !t.closed {
      MergeSplits(t.watches[pid], f, bit);
    }
  }

  // A step that adds a bit to an entry is a Watch with that bit or a followed fork.
  lemma AddedBit(t: Table, a: Act, pid: int, bit: Flags)
    requires SingleBit(bit) && pid in Do(t, a).watches && Has(Do(t, a).watches[pid], bit)
    requires !(pid in t.watches && Has(t.watches[pid], bit))
    ensures a.DoWatch? || (a.Kernel? && Follows(t, a.e))
    ensures a.DoWatch? ==> a.pid == pid && Has(a.flags, bit)
    ensures a.Kernel? ==> a.e.childTgid == pid && IsWatching(t, a.e.parentTgid, bit)
  {
    if a.DoWatch? {
      if a.pid == pid {
        NewBit(t, pid, a.flags, bit);
      }
    } else if a.Kernel? && Follows(t, a.e) && a.e.childTgid == pid {
      NewBit(t, pid, Effective(t, a.e.parentTgid).value, bit);
    }
  }

  /** Every bit of every entry comes from a user's Watch call for the process
      itself, for the wildcard, or for one of its ancestors by fork. */
  lemma {:induction false} EntryProvenance(h: seq<Act>, pid: int, bit: Flags) returns (i: int)
    requires SingleBit(bit) && pid in After(EMPTY, h).watches && Has(After(EMPTY, h).watches[pid], bit)
    ensures Origin(h, i, pid, bit)
    decreases |h|, 0
  {
    var past, a := h[..|h| - 1], h[|h| - 1];
    assert h == past + [a];
    AfterSnoc(EMPTY, past, a);
    var t := After(EMPTY, past);
    if pid in t.watches && Has(t.watches[pid], bit) {
      i := EntryProvenance(past, pid, bit);
      OriginLater(past, a, i, pid, pid, bit);
    } else if a.DoWatch? {
      AddedBit(t, a, pid, bit);
      i := |past|;
      assert h[i + 1..] == [];
    } else {
      AddedBit(t, a, pid, bit);
      i := EffectiveProvenance(past, a.e.parentTgid, bit);
      if h[i].pid == WILDCARD {
        assert Origin(h, i, pid, bit);
      } else {
        OriginLater(past, a, i, a.e.parentTgid, pid, bit);
      }
    }
  }

  lemma EffectiveProvenance(h: seq<Act>, pid: int, bit: Flags) returns (i: int)
    requires SingleBit(bit) && IsWatching(After(EMPTY, h), pid, bit)
    ensures Origin(h, i, pid, bit)
    decreases |h|, 1
  {
    if pid in After(EMPTY, h).watches {
      i := EntryProvenance(h, pid, bit);
    } else {
      i := EntryProvenance(h, WILDCARD, bit);
      OriginOfWildcard(h, i, pid, bit);
    }
  }

  /** Every delivered event goes back to a user's Watch call with the flag that let it through. */
  lemma DeliveryProvenance(h: seq<Act>, e: Event) returns (i: int)
    requires Wanted(After(EMPTY, h), e)
    ensures Origin(h, i, Gate(e).value.0, Gate(e).value.1)
  {
    EventFlagsAreSingle();
    i := EffectiveProvenance(h, Gate(e).value.0, Gate(e).value.1);
  }

  // ----- group changes

  /** What one event is worth to somebody who asked for these flags, if every
      event goes by the flag that is named after it. */
  function NamedShare(flags: Flags, e: Event): seq<Delivery> {
    match e
    case Forked(_, parent, _, child) => if flags & FORK == FORK then [ForkEvent(parent, child)] else []
    case Execed(_, tgid) => if flags & EXEC == EXEC then [ExecEvent(tgid)] else []
    case Exited(_, tgid) => if flags & EXIT == EXIT then [ExitEvent(tgid)] else []
    case UidChanged(pid, tgid, ruid, euid) =>
      if flags & UID == UID then [UidEvent(false, pid, tgid, ruid, euid)] else []
    case GidChanged(pid, tgid, rgid, egid) =>
      if flags & GID == GID then [UidEvent(true, pid, tgid, rgid, egid)] else []
    case SidChanged(pid, tgid) => if flags & SID == SID then [SidEvent(pid, tgid)] else []
    case Unknown(_) => []
  }

  /** What the documented filter delivers: exactly the events whose own flag was asked for. */
  function NamedFilter(flags: Flags, acts: seq<Act>): seq<Delivery>
    decreases |acts|
  {
    if acts == [] then []
    else (if acts[0].Kernel? then NamedShare(flags, acts[0].e) else []) + NamedFilter(flags, acts[1..])
  }

  lemma {:induction false} FiltersAgree(flags: Flags, acts: seq<Act>)
    requires Has(flags, UID) <==> Has(flags, GID)
    ensures Filter(flags, acts) == NamedFilter(flags, acts)
    decreases |acts|
  {
    if acts != [] {
      FiltersAgree(flags, acts[1..]);
    }
  }

  ghost predicate DeliversAsNamed(flags: Flags) {
    forall acts :: OnlyEvents(acts) ==>
                     Output(EMPTY, [DoWatch(WILDCARD, flags)] + acts) == NamedFilter(flags, acts)
  }

  /** Watching every process delivers exactly the events asked for, on every
      event sequence, if and only if user and group changes are asked for
      together or not at all. */
  lemma GroupChangesNeedUserFlag(flags: Flags)
    ensures DeliversAsNamed(flags) <==> (Has(flags, UID) <==> Has(flags, GID))
  {
    if Has(flags, UID) <==> Has(flags, GID) {
      forall acts | OnlyEvents(acts)
        ensures Output(EMPTY, [DoWatch(WILDCARD, flags)] + acts) == NamedFilter(flags, acts)
      {
        WildcardRefinement(flags, acts);
        FiltersAgree(flags, acts);
      }
    } else {
      var change := [Kernel(GidChanged(1, 1, 0, 0))];
      WildcardRefinement(flags, change);
      OneGroupChange(flags, Has(flags, UID), Has(flags, GID));
      assert OnlyEvents(change);
    }
  }

  lemma OneGroupChange(flags: Flags, uid: bool, gid: bool)
    requires uid == Has(flags, UID) && gid == Has(flags, GID)
    ensures var change := [Kernel(GidChanged(1, 1, 0, 0))];
            |Filter(flags, change)| == (if uid then 1 else 0) && |NamedFilter(flags, change)| == (if gid then 1 else 0)
  {
    assert Filter(flags, []) == [] && NamedFilter(flags, []) == [];
    assert [Kernel(GidChanged(1, 1, 0, 0))][1..] == [];
  }
}
