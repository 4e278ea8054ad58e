/**
 What the close handshake guarantees over every run of every number of user
 goroutines. Where it stops guaranteeing is the subject of CloseReturns (Close
 may not return) and CloseTable (Close may leave entries behind).
 */
module CloseGuarantees {
  import opened Wrappers
  import opened CloseHandshake
  import opened Runs
  import T = WatchTable

  /** No run panics; done is sent, each channel and the socket are closed, at
      most once; nothing is sent on a closed channel or read from the closed
      socket; and a Close about to send done finds room for it. */
  lemma SafeInEveryRun(n: nat, t: State)
    requires Reaches(Init(n), t)
    ensures !t.panicked
    ensures Count(t, DoneSent) <= 1 && Count(t, SocketClosed) <= 1 && Count(t, LoopLeft) <= 1
    ensures forall c :: Count(t, ChanClosed(c)) <= 1
    ensures ReadsBeforeClose(t.trace) && SendsBeforeClose(t.trace)
    ensures forall i :: 0 <= i < |t.users| && t.users[i] == InClose(CSendDone) ==> Enabled(t, SendDone)
  {
    InvReach(n, t);
    forall i | 0 <= i < |t.users| && t.users[i] == InClose(CSendDone) ensures Enabled(t, SendDone) {
      assert HoldsClosed(t.users[i]);
      assert Holder(t) == t.users[i];
    }
  }

  // ----- every Close that returns, returns last

  ghost predicate Shutdown(trace: seq<Label>) {
    LoopLeft in trace && SocketClosed in trace && forall c :: ChanClosed(c) in trace
  }

  ghost predicate ReturnsLast(trace: seq<Label>) {
    forall k :: 0 <= k < |trace| && trace[k].CloseReturned? ==> Shutdown(trace[..k])
  }

  lemma AllChannels(c: Channel)
    ensures c in ClosedUpTo(|CLOSE_ORDER|)
  {
    assert CLOSE_ORDER[0] == Fork && CLOSE_ORDER[1] == Exec && CLOSE_ORDER[2] == Exit;
    assert CLOSE_ORDER[3] == Error && CLOSE_ORDER[4] == Sid && CLOSE_ORDER[5] == Uid;
  }

  lemma ClosedSocketMeansShutdown(s: State)
    requires Inv(s) && !s.socketOpen
    ensures s.isClosed && s.reader.Exited? && s.loopSignalled && Shutdown(s.trace)
    ensures forall c :: c in s.closedChans
  {
    forall c ensures c in s.closedChans && ChanClosed(c) in s.trace {
      AllChannels(c);
      assert ChanClosed(c) in multiset(s.trace);
    }
    assert LoopLeft in multiset(s.trace) && SocketClosed in multiset(s.trace);
  }

  // What one step adds to the trace, and who adds it.
  lemma StepTrace(s: State, m: Move, t: State)
    requires Step(s, m) == Some(t)
    ensures m.UserStep? ==> t.trace == s.trace + Labels(User(m.user), UserInstr(s, m.user, s.users[m.user], m.pick))
    ensures m.ReaderStep? ==> t.trace == s.trace + Labels(Reader, ReaderInstr(s))
    ensures !m.UserStep? && !m.ReaderStep? ==> t.trace == s.trace
  {
  }

  lemma StepAppends(s: State, m: Move, t: State)
    requires Step(s, m) == Some(t)
    ensures s.trace <= t.trace && |t.trace| <= |s.trace| + 1
  {
    StepTrace(s, m, t);
  }

  lemma ReturnsLastStep(s: State, m: Move, t: State)
    requires Inv(s) && ReturnsLast(s.trace) && Step(s, m) == Some(t)
    ensures ReturnsLast(t.trace)
  {
    StepAppends(s, m, t);
    forall k | 0 <= k < |t.trace| && t.trace[k].CloseReturned? ensures Shutdown(t.trace[..k]) {
      if k < |s.trace| {
        assert t.trace[..k] == s.trace[..k];
      } else {
        ReturnIsEndClose(s, m, t);
        assert t.trace[..k] == s.trace;
        ClosedSocketMeansShutdown(s);
      }
    }
  }

  lemma ReturnIsEndClose(s: State, m: Move, t: State)
    requires Inv(s) && Step(s, m) == Some(t) && |t.trace| > |s.trace| && t.trace[|s.trace|].CloseReturned?
    ensures |t.trace| == |s.trace| + 1 && !s.socketOpen
  {
    StepTrace(s, m, t);
    if m.UserStep? {
      UserIssues(s, m.user, s.users[m.user], m.pick);
      assert s.users[m.user] == InClose(CUnlock);
      assert HoldsClosed(s.users[m.user]);
      assert Holder(s) == InClose(CUnlock);
    } else {
      ReaderIssues(s, m.received);
    }
  }

  lemma {:induction false} ReturnsLastRun(s: State, ms: seq<Move>, t: State)
    requires Inv(s) && ReturnsLast(s.trace) && Run(s, ms) == Some(t)
    ensures ReturnsLast(t.trace)
    decreases |ms|
  {
    if ms != [] {
      var s' := Step(s, ms[0]).value;
      InvStep(s, ms[0], s');
      ReturnsLastStep(s, ms[0], s');
      ReturnsLastRun(s', ms[1..], t);
    }
  }

  /** Whichever Close call returns, first or repeated, by then the reader has
      left its loop and all channels and the socket are closed; and so they
      are in every later state. */
  lemma CloseReturnsLast(n: nat, t: State)
    requires Reaches(Init(n), t)
    ensures ReturnsLast(t.trace)
    ensures forall i :: CloseReturned(i) in t.trace ==>
              t.isClosed && t.reader.Exited? && !t.socketOpen && forall c :: c in t.closedChans
  {
    InvReach(n, t);
    InitInv(n);
    var ms :| Run(Init(n), ms) == Some(t);
    ReturnsLastRun(Init(n), ms, t);
    if exists i :: CloseReturned(i) in t.trace {
      ClosedSocketMeansShutdown(t);
    }
  }

  // ----- Watch after Close

  /** In this continuation of the trace, the first Watch that user i completes
      fails, and until then user i has not touched the table. */
  predicate FailsFirst(labels: seq<Label>, i: nat) {
    if labels == [] then true
    else if labels[0].WatchReturned? && labels[0].user == i then !labels[0].ok
    else !(labels[0].Touched? && labels[0].agent == User(i)) && FailsFirst(labels[1..], i)
  }

  predicate Doomed(u: UserPc) {
    u.InWatch? && (u.w.WLock? || u.w.WTest? || u.w == WUnlock(true) || u.w == WReturn(false))
  }

  lemma DoomedStep(s: State, i: nat, m: Move, t: State)
    requires i < |s.users| && s.isClosed && Doomed(s.users[i]) && Step(s, m) == Some(t)
    ensures t.isClosed && i < |t.users| && s.trace <= t.trace
    ensures var added := t.trace[|s.trace|..];
            if Doomed(t.users[i])
            then added == [] || (|added| == 1 && FailsFirst(added, i)
                                 && !(added[0].WatchReturned? && added[0].user == i))
            else added == [WatchReturned(i, false)]
  {
    StepTrace(s, m, t);
    if m.UserStep? {
      PerformView(s, User(m.user), UserInstr(s, m.user, s.users[m.user], m.pick));
      PerformKeepsPrograms(s, User(m.user), UserInstr(s, m.user, s.users[m.user], m.pick));
    } else if m.ReaderStep? {
      PerformView(s, Reader, ReaderInstr(s));
      PerformKeepsPrograms(s, Reader, ReaderInstr(s));
    }
  }

  lemma {:induction false} DoomedRun(s: State, i: nat, ms: seq<Move>, t: State)
    requires i < |s.users| && s.isClosed && Doomed(s.users[i]) && Run(s, ms) == Some(t)
    ensures s.trace <= t.trace && FailsFirst(t.trace[|s.trace|..], i)
    decreases |ms|
  {
    if ms != [] {
      var s' := Step(s, ms[0]).value;
      DoomedStep(s, i, ms[0], s');
      var added := s'.trace[|s.trace|..];
      if Doomed(s'.users[i]) {
        DoomedRun(s', i, ms[1..], t);
        var rest := t.trace[|s'.trace|..];
        assert t.trace[|s.trace|..] == added + rest;
        assert added != [] ==> (added + rest)[1..] == rest;
        assert added == [] ==> added + rest == rest;
      } else {
        TraceGrows(s', ms[1..], t);
        assert t.trace[|s.trace|] == s'.trace[|s.trace|] == WatchReturned(i, false);
      }
    }
  }

  lemma {:induction false} TraceGrows(s: State, ms: seq<Move>, t: State)
    requires Run(s, ms) == Some(t)
    ensures s.trace <= t.trace
    decreases |ms|
  {
    if ms != [] {
      StepTrace(s, ms[0], Step(s, ms[0]).value);
      TraceGrows(Step(s, ms[0]).value, ms[1..], t);
    }
  }

  /** A Watch that starts after some Close has returned fails and never touches the table. */
  lemma WatchAfterCloseFails(n: nat, s: State, j: nat, i: nat, pid: int, flags: T.Flags, s': State, t: State)
    requires Reaches(Init(n), s) && CloseReturned(j) in s.trace
    requires Step(s, CallWatch(i, pid, flags)) == Some(s') && Reaches(s', t)
    ensures s.trace <= t.trace && FailsFirst(t.trace[|s.trace|..], i)
  {
    CloseReturnsLast(n, s);
    var ms :| Run(s', ms) == Some(t);
    DoomedRun(s', i, ms, t);
  }

  // ----- what is sent where, and in which order the channels are closed

  // A delivery belongs on the channel of its kind; only errors carry none.
  predicate Belongs(chan: Channel, what: seq<T.Delivery>) {
    match chan
    case Fork => |what| == 1 && what[0].ForkEvent?
    case Exec => |what| == 1 && what[0].ExecEvent?
    case Exit => |what| == 1 && what[0].ExitEvent?
    case Uid => |what| == 1 && what[0].UidEvent?
    case Sid => |what| == 1 && what[0].SidEvent?
    case Error => what == []
  }

  // The channels that have been closed, in order.
  function Closings(trace: seq<Label>): seq<Channel> {
    if trace == [] then []
    else
      var last := trace[|trace| - 1];
      Closings(trace[..|trace| - 1]) + if last.ChanClosed? then [last.chan] else []
  }

  function ClosedSoFar(r: ReaderPc): nat {
    if r.Finish? then r.next else if ReaderRunning(r) then 0 else 6
  }

  ghost predicate InOrder(s: State) {
    && (forall k :: 0 <= k < |s.trace| && s.trace[k].Sent? ==> Belongs(s.trace[k].chan, s.trace[k].what))
    && ClosedSoFar(s.reader) <= 6
    && Closings(s.trace) == [Fork, Exec, Exit, Error, Sid, Uid][..ClosedSoFar(s.reader)]
  }

  lemma ClosingsSnoc(trace: seq<Label>, more: seq<Label>)
    requires |more| <= 1
    ensures Closings(trace + more) ==
            Closings(trace) + if |more| == 1 && more[0].ChanClosed? then [more[0].chan] else []
  {
    if more == [] {
      assert trace + more == trace;
    } else {
      assert (trace + more)[..|trace|] == trace;
    }
  }

  // What the reader's next instruction sends or closes.
  lemma ReaderLabels(s: State, received: Received)
    requires !s.reader.Exited? && ClosedSoFar(s.reader) <= 6
    ensures var i, n, n' := ReaderInstr(s), ClosedSoFar(s.reader), ClosedSoFar(ReaderNext(s, received));
            && (i.SendOn? ==> Belongs(i.chan, i.what))
            && (i.CloseOn? ==> n < 6 && n' == n + 1 && i.chan == [Fork, Exec, Exit, Error, Sid, Uid][n])
            && (!i.CloseOn? ==> n' == n)
  {
  }

  lemma InOrderReader(s: State, received: Received, t: State)
    requires InOrder(s) && StepReader(s, received) == Some(t)
    ensures InOrder(t)
  {
    var i := ReaderInstr(s);
    PerformChanges(s, Reader, i);
    ReaderLabels(s, received);
    ClosingsSnoc(s.trace, Labels(Reader, i));
  }

  lemma InOrderUser(s: State, j: nat, pick: int, t: State)
    requires InOrder(s) && StepUser(s, j, pick) == Some(t)
    ensures InOrder(t)
  {
    var i := UserInstr(s, j, s.users[j], pick);
    StepUserChanges(s, j, pick, t);
    UserIssues(s, j, s.users[j], pick);
    ClosingsSnoc(s.trace, Labels(User(j), i));
  }

  lemma {:induction false} InOrderRun(s: State, ms: seq<Move>, t: State)
    requires InOrder(s) && Run(s, ms) == Some(t)
    ensures InOrder(t)
    decreases |ms|
  {
    if ms != [] {
      var s' := RunHead(s, ms, t);
      if ms[0].UserStep? {
        InOrderUser(s, ms[0].user, ms[0].pick, s');
      } else if ms[0].ReaderStep? {
        InOrderReader(s, ms[0].received, s');
      }
      InOrderRun(s', ms[1..], t);
    }
  }

  /** In every run each event is sent on the channel of its kind, and the
      channels are closed in the order of finish. */
  lemma SentWhereItBelongs(n: nat, t: State)
    requires Reaches(Init(n), t)
    ensures forall k :: 0 <= k < |t.trace| && t.trace[k].Sent? ==> Belongs(t.trace[k].chan, t.trace[k].what)
    ensures Closings(t.trace) <= [Fork, Exec, Exit, Error, Sid, Uid]
    ensures t.reader.Exited? ==> Closings(t.trace) == [Fork, Exec, Exit, Error, Sid, Uid]
  {
    var ms :| Run(Init(n), ms) == Some(t);
    assert Closings(Init(n).trace) == [];
    InOrderRun(Init(n), ms, t);
  }
}
