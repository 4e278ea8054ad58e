/**
 Reachable states of the close handshake, and how runs are built step by step.
 A lemma that builds a run takes any set of states that steps do not leave and
 shows that the states it passes lie in it.
 */
module Runs {
  import opened Wrappers
  import opened CloseHandshake

  /** Some run leads from s to t. */
  ghost predicate Reaches(s: State, t: State) {
    exists ms :: Run(s, ms) == Some(t)
  }

  /** Runs of all moves, of the reader alone, of the calls that are in
      progress, or of moves that leave the process an entry. */
  datatype Kind = All | ReaderAlone | InProgress | Keeping(pid: int)

  predicate May(kind: Kind, s: State, m: Move) {
    match kind
    case All => true
    case ReaderAlone => m == READ
    case InProgress => m.UserStep? || m.ReaderStep?
    case Keeping(pid) => Step(s, m).Some? ==> pid in Step(s, m).value.watches
  }

  predicate AllMay(kind: Kind, s: State, ms: seq<Move>)
    decreases |ms|
  {
    ms == [] || Step(s, ms[0]).None? ||
    (May(kind, s, ms[0]) && AllMay(kind, Step(s, ms[0]).value, ms[1..]))
  }

  /** Some run of this kind leads from s to t. */
  ghost predicate ReachesBy(kind: Kind, s: State, t: State) {
    exists ms :: Run(s, ms) == Some(t) && AllMay(kind, s, ms)
  }

  // A set of states that moves of this kind do not leave.
  ghost predicate Closed(reach: State -> bool, kind: Kind := All) {
    forall s, m :: reach(s) && Step(s, m).Some? && May(kind, s, m) ==> reach(Step(s, m).value)
  }

  lemma Go(reach: State -> bool, s: State, m: Move, kind: Kind := All) returns (t: State)
    requires Closed(reach, kind) && reach(s) && Step(s, m).Some? && May(kind, s, m)
    ensures reach(t) && Step(s, m) == Some(t)
  {
    t := Step(s, m).value;
  }

  // The reader's step; at a receive, the datagram is empty.
  const READ := ReaderStep(Events([]))

  lemma RunCons(s: State, m: Move, s': State, ms: seq<Move>, t: State)
    requires Step(s, m) == Some(s') && Run(s', ms) == Some(t)
    ensures Run(s, [m] + ms) == Some(t)
  {
    assert ([m] + ms)[1..] == ms;
  }

  lemma RunHead(s: State, ms: seq<Move>, t: State) returns (s': State)
    requires ms != [] && Run(s, ms) == Some(t)
    ensures Step(s, ms[0]) == Some(s') && Run(s', ms[1..]) == Some(t)
  {
    s' := Step(s, ms[0]).value;
  }

  // Runs may be extended by one move at the end.
  lemma {:induction false} RunSnoc(s: State, ms: seq<Move>, t: State, m: Move, t': State)
    requires Run(s, ms) == Some(t) && Step(t, m) == Some(t')
    ensures Run(s, ms + [m]) == Some(t')
    decreases |ms|
  {
    if ms == [] {
      assert ms + [m] == [m];
      assert Run(t', []) == Some(t');
      RunCons(s, m, t', [], t');
    } else {
      var s' := RunHead(s, ms, t);
      RunSnoc(s', ms[1..], t, m, t');
      assert [ms[0]] + (ms[1..] + [m]) == ms + [m];
      RunCons(s, ms[0], s', ms[1..] + [m], t');
    }
  }

  lemma ReachesSelf(s: State)
    ensures Reaches(s, s)
  {
    assert Run(s, []) == Some(s);
  }

  lemma ReachesNext(s: State, t: State, m: Move)
    requires Reaches(s, t) && Step(t, m).Some?
    ensures Reaches(s, Step(t, m).value)
  {
    var ms :| Run(s, ms) == Some(t);
    RunSnoc(s, ms, t, m, Step(t, m).value);
  }

  lemma {:induction false} AllMaySnoc(kind: Kind, s: State, ms: seq<Move>, t: State, m: Move)
    requires Run(s, ms) == Some(t) && AllMay(kind, s, ms) && May(kind, t, m)
    ensures AllMay(kind, s, ms + [m])
    decreases |ms|
  {
    if ms == [] {
      assert ms + [m] == [m] && [m][1..] == [];
    } else {
      var s' := RunHead(s, ms, t);
      assert (ms + [m])[0] == ms[0] && (ms + [m])[1..] == ms[1..] + [m];
      AllMaySnoc(kind, s', ms[1..], t, m);
    }
  }

  lemma ReachesBySelf(kind: Kind, s: State)
    ensures ReachesBy(kind, s, s)
  {
    assert Run(s, []) == Some(s) && AllMay(kind, s, []);
  }

  lemma ReachesByNext(kind: Kind, s: State, t: State, m: Move)
    requires ReachesBy(kind, s, t) && Step(t, m).Some? && May(kind, t, m)
    ensures ReachesBy(kind, s, Step(t, m).value)
  {
    var ms :| Run(s, ms) == Some(t) && AllMay(kind, s, ms);
    RunSnoc(s, ms, t, m, Step(t, m).value);
    AllMaySnoc(kind, s, ms, t, m);
  }

  lemma ReachByIsClosed(kind: Kind, s: State)
    ensures Closed((x: State) => ReachesBy(kind, s, x), kind)
  {
    forall x: State, m | ReachesBy(kind, s, x) && Step(x, m).Some? && May(kind, x, m)
      ensures ReachesBy(kind, s, Step(x, m).value)
    {
      ReachesByNext(kind, s, x, m);
    }
  }

  lemma ReachIsClosed(s: State)
    ensures Closed((x: State) => Reaches(s, x))
  {
    forall x: State, m | Reaches(s, x) && Step(x, m).Some? ensures Reaches(s, Step(x, m).value) {
      ReachesNext(s, x, m);
    }
  }

  /** The invariant holds in every reachable state. */
  lemma InvReach(n: nat, s: State)
    requires Reaches(Init(n), s)
    ensures Inv(s)
  {
    var ms :| Run(Init(n), ms) == Some(s);
    InitInv(n);
    InvRun(Init(n), ms, s);
  }

  // ----- single steps, seen through what they keep

  // States in which the invariant holds are not left either.
  lemma WithInv(reach: State -> bool, kind: Kind := All)
    requires Closed(reach, kind)
    ensures Closed(x => reach(x) && Inv(x), kind)
  {
    forall s, m | reach(s) && Inv(s) && Step(s, m).Some? ensures Inv(Step(s, m).value) {
      InvStep(s, m, Step(s, m).value);
    }
  }

  // One step of a user inside a call.
  lemma UserMove(reach: State -> bool, s: State, j: nat, pick: int, kind: Kind := All) returns (t: State)
    requires Closed(reach, kind) && May(kind, s, UserStep(j, pick)) && reach(s) && !s.panicked
    requires j < |s.users| && !s.users[j].Idle?
    requires Enabled(s, UserInstr(s, j, s.users[j], pick))
    ensures reach(t)
    ensures t.users == s.users[j := UserNext(s, s.users[j])] && t.reader == s.reader
    ensures Changed(s, User(j), UserInstr(s, j, s.users[j], pick), t)
  {
    t := Go(reach, s, UserStep(j, pick), kind);
    StepUserChanges(s, j, pick, t);
  }

  // One step of the reader.
  lemma ReaderMove(reach: State -> bool, s: State, kind: Kind := All) returns (t: State)
    requires Closed(reach, kind) && May(kind, s, READ) && reach(s) && !s.panicked
    requires !s.reader.Exited? && Enabled(s, ReaderInstr(s))
    ensures reach(t)
    ensures t.users == s.users && t.reader == ReaderNext(s, Events([]))
    ensures Changed(s, Reader, ReaderInstr(s), t)
  {
    t := Go(reach, s, READ, kind);
    StepReaderChanges(s, t);
  }

  // The same, where the invariant is wanted.
  lemma UserGo(reach: State -> bool, s: State, j: nat, pick: int, kind: Kind := All) returns (t: State)
    requires Closed(reach, kind) && May(kind, s, UserStep(j, pick)) && reach(s) && Inv(s)
    requires j < |s.users| && !s.users[j].Idle?
    requires Enabled(s, UserInstr(s, j, s.users[j], pick))
    ensures reach(t) && Inv(t)
    ensures t.users == s.users[j := UserNext(s, s.users[j])] && t.reader == s.reader
    ensures Changed(s, User(j), UserInstr(s, j, s.users[j], pick), t)
  {
    t := Go(reach, s, UserStep(j, pick), kind);
    StepUserChanges(s, j, pick, t);
    InvStep(s, UserStep(j, pick), t);
  }

  lemma ReaderGo(reach: State -> bool, s: State, kind: Kind := All) returns (t: State)
    requires Closed(reach, kind) && May(kind, s, READ) && reach(s) && Inv(s)
    requires !s.reader.Exited? && Enabled(s, ReaderInstr(s))
    ensures reach(t) && Inv(t)
    ensures t.users == s.users && t.reader == ReaderNext(s, Events([]))
    ensures Changed(s, Reader, ReaderInstr(s), t)
  {
    t := Go(reach, s, READ, kind);
    StepReaderChanges(s, t);
    InvStep(s, READ, t);
  }

  /** What an instruction does to the shared state. */
  ghost predicate Changed(s: State, a: Agent, i: Instr, t: State) {
    && View(s, a, i, t)
    && t.closedMutex == (if i.LockClosed? then Some(a) else if UnlocksClosed(i) then None else s.closedMutex)
    && t.watchesMutex == (if i.LockTable? then Some(a) else if i.UnlockTable? then None else s.watchesMutex)
    && t.watches == NewWatches(s, i) && t.heap == NewHeap(s, i)
  }

  function NewWatches(s: State, i: Instr): map<int, nat> {
    match i
    case Insert(pid, flags) => s.watches[pid := |s.heap|]
    case Delete(pid) => s.watches - {pid}
    case _ => s.watches
  }

  function NewHeap(s: State, i: Instr): seq<Entry> {
    match i
    case Insert(pid, flags) => s.heap + [Entry(pid, flags)]
    case Store(_, found, flags) => StoredAt(s.heap, found, flags)
    case _ => s.heap
  }

  lemma PerformChanges(s: State, a: Agent, i: Instr)
    requires Enabled(s, i)
    ensures Changed(s, a, i, Perform(s, a, i))
  {
    PerformView(s, a, i);
    PerformLocks(s, a, i);
  }

  lemma StepUserChanges(s: State, j: nat, pick: int, t: State)
    requires StepUser(s, j, pick) == Some(t)
    ensures t.users == s.users[j := UserNext(s, s.users[j])] && t.reader == s.reader
    ensures Changed(s, User(j), UserInstr(s, j, s.users[j], pick), t)
  {
    PerformChanges(s, User(j), UserInstr(s, j, s.users[j], pick));
    PerformKeepsPrograms(s, User(j), UserInstr(s, j, s.users[j], pick));
  }

  lemma StepReaderChanges(s: State, t: State)
    requires StepReader(s, Events([])) == Some(t)
    ensures t.users == s.users && t.reader == ReaderNext(s, Events([]))
    ensures Changed(s, Reader, ReaderInstr(s), t)
  {
    PerformChanges(s, Reader, ReaderInstr(s));
    PerformKeepsPrograms(s, Reader, ReaderInstr(s));
  }
}
