/**
 The watcher object: the table that Watch, RemoveWatch, Close and the event
 handler update in place, and what has been sent on its event channels.
 */
module WatcherObject {
  import opened MapOrder
  import opened Wrappers
  import opened WatchTable

  class Watcher {
    var watches: map<int, Flags>
    var isClosed: bool
    var sent: seq<Delivery>

    ghost function Abs(): (t: Table)
      reads this
    {
      Table(watches, isClosed)
    }

    constructor ()
      ensures Abs() == EMPTY && sent == []
    {
      watches, isClosed, sent := map[], false, [];
    }

    method Watch(pid: int, flags: Flags) returns (ok: bool)
      modifies this`watches
      ensures ok == !isClosed
      ensures Abs() == WatchTable.Watch(old(Abs()), pid, flags)
    {
      if isClosed {
        return false;
      }
      if pid in watches {
        var merged := watches[pid] | flags;
        watches := watches[pid := merged];
      } else {
        watches := watches[pid := flags];
      }
      return true;
    }

    method RemoveWatch(pid: int) returns (ok: bool)
      modifies this`watches
      ensures ok <==> pid in old(watches)
      ensures Abs() == WatchTable.RemoveWatch(old(Abs()), pid)
    {
      if pid !in watches {
        assert watches - {pid} == watches;
        return false;
      }
      watches := watches - {pid};
      return true;
    }

    method IsWatching(pid: int, event: Flags) returns (b: bool)
      ensures b <==> WatchTable.IsWatching(Abs(), pid, event)
    {
      if pid in watches {
        return watches[pid] & event == event;
      }
      if WILDCARD in watches {
        return watches[WILDCARD] & event == event;
      }
      return false;
    }

    // The table part of Close; the handshake with the reader is CloseHandshake.
    method Close()
      modifies this`watches, this`isClosed
      ensures Abs() == WatchTable.Close(old(Abs()))
    {
      if isClosed {
        return;
      }
      isClosed := true;
      var order := AnyOrder(watches.Keys);
      for i := 0 to |order|
        invariant isClosed
        invariant forall pid :: pid in watches ==> pid in order[i..]
      {
        watches := watches - {order[i]};
        assert order[i..] == [order[i]] + order[i + 1..];
      }
      assert forall pid :: pid !in watches;
      assert watches.Keys == {};
    }

    method HandleEvent(e: Event)
      modifies this`watches, this`sent
      ensures Abs() == Handle(old(Abs()), e)
      ensures sent == old(sent) + Delivered(old(Abs()), e)
    {
      match e
      case Forked(_, ppid, _, pid) => HandleFork(e, ppid, pid);
      case Execed(_, pid) =>
        var b := IsWatching(pid, EXEC);
        if b {
          sent := sent + [ExecEvent(pid)];
        }
      case Exited(_, pid) => HandleRemoving(e, pid, EXIT, ExitEvent(pid));
      case UidChanged(pid, tgid, rid, eid) => HandleRemoving(e, pid, UID, UidEvent(false, pid, tgid, rid, eid));
      case GidChanged(pid, tgid, rid, eid) => HandleRemoving(e, pid, UID, UidEvent(true, pid, tgid, rid, eid));
      case SidChanged(pid, tgid) => HandleRemoving(e, pid, SID, SidEvent(pid, tgid));
      case Unknown(_) =>
    }

    // The common shape of the exit, uid, gid and sid cases.
    method HandleRemoving(ghost e: Event, pid: Pid, event: Flags, delivery: Delivery)
      requires Removing(e) && Gate(e) == Some((pid, event)) && Payload(e) == [delivery]
      modifies this`watches, this`sent
      ensures Abs() == Handle(old(Abs()), e)
      ensures sent == old(sent) + Delivered(old(Abs()), e)
    {
      var b := IsWatching(pid, event);
      if b {
        var _ := RemoveWatch(pid);
        sent := sent + [delivery];
      }
    }

    method HandleFork(ghost e: Event, ppid: Pid, pid: Pid)
      requires e.Forked? && e.parentTgid == ppid && e.childTgid == pid
      modifies this`watches, this`sent
      ensures Abs() == Handle(old(Abs()), e)
      ensures sent == old(sent) + Delivered(old(Abs()), e)
    {
      var b := IsWatching(ppid, EXEC);
      if b {
        if ppid in watches {
          var _ := Watch(pid, watches[ppid]);
        } else if WILDCARD in watches {
          var _ := Watch(pid, watches[WILDCARD]);
        }
      }
      ForkKeepsGate(old(Abs()), e);
      b := IsWatching(ppid, FORK);
      if b {
        sent := sent + [ForkEvent(ppid, pid)];
      }
    }

    method HandleEvents(es: seq<Event>)
      modifies this`watches, this`sent
      ensures Abs() == After(old(Abs()), Events(es))
      ensures sent == old(sent) + Output(old(Abs()), Events(es))
    {
      for i := 0 to |es|
        invariant Abs() == After(old(Abs()), Events(es[..i]))
        invariant sent == old(sent) + Output(old(Abs()), Events(es[..i]))
      {
        HandleEvent(es[i]);
        AfterSnoc(old(Abs()), Events(es[..i]), Kernel(es[i]));
        OutputSnoc(old(Abs()), Events(es[..i]), Kernel(es[i]));
        assert Events(es[..i + 1]) == Events(es[..i]) + [Kernel(es[i])];
      }
      assert es[..|es|] == es;
    }
  }

  function Events(es: seq<Event>): seq<Act> {
    seq(|es|, i requires 0 <= i < |es| => Kernel(es[i]))
  }

  // Following a fork does not change the flags that decide for the parent.
  lemma FollowKeepsEffective(t: Table, parent: Pid, child: Pid)
    requires Effective(t, parent).Some?
    ensures Effective(WatchTable.Watch(t, child, Effective(t, parent).value), parent) == Effective(t, parent)
  {
    if child == parent && parent in t.watches {
      MergeSame(t.watches[parent]);
    }
  }

  // Following a fork does not change whether the fork itself is delivered.
  lemma ForkKeepsGate(t: Table, e: Event)
    requires e.Forked?
    ensures WatchTable.IsWatching(Handle(t, e), e.parentTgid, FORK) == WatchTable.IsWatching(t, e.parentTgid, FORK)
  {
    if Follows(t, e) {
      FollowKeepsEffective(t, e.parentTgid, e.childTgid);
    }
  }
}
