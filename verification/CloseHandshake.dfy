/**
 The close handshake of the Linux process-event watcher as a labelled state
 machine: any number of user goroutines calling Close, Watch and RemoveWatch
 interleave, one memory or channel operation at a time, with the single
 goroutine that runs readEvents.

 A move that is not enabled (a lock that is taken, a receive on a channel that
 is neither closed nor filled) has no successor. Closing a closed channel and
 sending on a closed channel have a successor, the panicked state, so that
 their absence is a theorem and not an assumption.
 */
module CloseHandshake {
  import opened Wrappers
  import T = WatchTable

  datatype Agent = Reader | User(id: nat)

  datatype Channel = Fork | Exec | Exit | Error | Sid | Uid

  // The order in which finish() closes the event channels.
  const CLOSE_ORDER: seq<Channel> := [Fork, Exec, Exit, Error, Sid, Uid]

  // The done channel is buffered to one message.
  const DONE_CAPACITY := 1

  // ----- program counters: each names the operation about to be performed

  datatype ClosePc =
    | CLock | CTest | CMark | CLockTable | CClear | CUnlockTable
    | CSendDone | CAwait | CCloseListener | CUnlock

  datatype WatchPc =
    | WLock | WTest | WUnlock(closed: bool) | WLookup | WLoad(found: nat) | WStore(found: nat, value: T.Flags)
    | WLockTable | WInsert | WUnlockTable | WReturn(ok: bool)

  datatype RemovePc = RLock | RDelete | RUnlock

  datatype UserPc =
    | Idle
    | InClose(c: ClosePc)
    | InWatch(wpid: int, wflags: T.Flags, w: WatchPc)
    | InRemove(rpid: int, r: RemovePc)

  type ForkedEvent = e: T.Event | e.Forked? witness T.Forked(0, 0, 0, 0)

  // The events that handleEvent has a case for.
  type Known = e: T.Event | T.Gate(e).Some? witness T.Execed(0, 0)

  /** Handling event e, with the events es of the same datagram still to come:
      isWatching for the parent's exec flag (fork events only), the unlocked
      lookup of the entry to follow with, the reading of its flags, the Watch
      call, isWatching for the flag that gates e, RemoveWatch, and the send. */
  datatype ReaderPc =
    | CheckDone
    | Recv
    | SendError
    | Work(es: seq<T.Event>)
    | AskExec(f: ForkedEvent, es: seq<T.Event>)
    | TestExec(f: ForkedEvent, es: seq<T.Event>)
    | Fetch(f: ForkedEvent, es: seq<T.Event>)
    | FetchWild(f: ForkedEvent, es: seq<T.Event>)
    | Fetched(found: nat, f: ForkedEvent, es: seq<T.Event>)
    | Following(flags: T.Flags, fw: WatchPc, f: ForkedEvent, es: seq<T.Event>)
    | AskGate(e: Known, es: seq<T.Event>)
    | TestGate(e: Known, es: seq<T.Event>)
    | DropLock(e: Known, es: seq<T.Event>)
    | Dropping(e: Known, es: seq<T.Event>)
    | DropUnlock(e: Known, es: seq<T.Event>)
    | Deliver(e: Known, es: seq<T.Event>)
    | Finish(next: nat)
    | SignalExit
    | Exited

  // A receive fails, or is too short, or brings the events of one datagram.
  datatype Received = Failed | Events(es: seq<T.Event>)

  // ----- states, moves and the labels that a run leaves behind

  datatype Label =
    | DoneSent
    | ChanClosed(chan: Channel)
    | Sent(chan: Channel, what: seq<T.Delivery>)
    | LoopLeft
    | SocketRead
    | SocketClosed
    | CloseReturned(user: nat)
    | Touched(agent: Agent, pid: int)
    | WatchReturned(user: nat, ok: bool)

  // A watch structure, and the process that it was made for.
  datatype Entry = Entry(pid: int, flags: T.Flags)

  /** The table refers to its entries, which live in the heap in the order in
      which they were made. An entry that is taken out of the table stays in
      the heap, where a Watch or the reader may still refer to it. */
  datatype State = State(
    closedMutex: Option<Agent>,
    watchesMutex: Option<Agent>,
    isClosed: bool,
    watches: map<int, nat>,
    heap: seq<Entry>,
    done: nat,
    closedChans: set<Channel>,
    loopSignalled: bool,
    socketOpen: bool,
    reader: ReaderPc,
    users: seq<UserPc>,
    trace: seq<Label>,
    panicked: bool)

  /** A new user goroutine appears, a user starts a call, a user takes one step
      (pick selects the entry that the map iteration of Close visits next), or
      the reader takes one step (received is what its next receive returns). */
  datatype Move =
    | Spawn
    | CallClose(user: nat)
    | CallWatch(user: nat, pid: int, flags: T.Flags)
    | CallRemove(user: nat, pid: int)
    | UserStep(user: nat, pick: int)
    | ReaderStep(received: Received)

  function Init(n: nat): State {
    State(None, None, false, map[], [], 0, {}, false, true, CheckDone, seq(n, _ => Idle), [], false)
  }

  // ----- the instructions that the calls and the reader are made of

  datatype Instr =
    | Local
    | LockClosed | UnlockClosed | LockTable | UnlockTable
    | Mark | Insert(pid: int, flags: T.Flags) | Store(pid: int, found: nat, flags: T.Flags) | Delete(pid: int)
    | SendDone | TakeDone | AwaitLoop | SignalLoop
    | ReadSocket | CloseSocket | SendOn(chan: Channel, what: seq<T.Delivery>) | CloseOn(chan: Channel)
    | EndClose(user: nat) | EndWatch(user: nat, ok: bool)

  predicate Enabled(s: State, i: Instr) {
    match i
    case LockClosed => s.closedMutex.None?
    case LockTable => s.watchesMutex.None?
    case SendDone => s.done < DONE_CAPACITY
    case TakeDone => s.done > 0
    case AwaitLoop => s.loopSignalled
    case _ => true
  }

  // Closing a closed channel and sending on a closed channel panic.
  predicate Panics(s: State, i: Instr) {
    match i
    case SignalLoop => s.loopSignalled
    case SendOn(chan, _) => chan in s.closedChans
    case CloseOn(chan) => chan in s.closedChans
    case _ => false
  }

  function Labels(a: Agent, i: Instr): seq<Label> {
    match i
    case Insert(pid, _) => [Touched(a, pid)]
    case Store(pid, _, _) => [Touched(a, pid)]
    case SendDone => [DoneSent]
    case SignalLoop => [LoopLeft]
    case ReadSocket => [SocketRead]
    case CloseSocket => [SocketClosed]
    case SendOn(chan, what) => [Sent(chan, what)]
    case CloseOn(chan) => [ChanClosed(chan)]
    case EndClose(user) => [CloseReturned(user)]
    case EndWatch(user, ok) => [WatchReturned(user, ok)]
    case _ => []
  }

  function StoredAt(heap: seq<Entry>, found: nat, flags: T.Flags): seq<Entry> {
    if found < |heap| then heap[found := Entry(heap[found].pid, flags)] else heap
  }

  function Effect(s: State, a: Agent, i: Instr): State
    requires Enabled(s, i)
  {
    match i
    case LockClosed => s.(closedMutex := Some(a))
    case UnlockClosed => s.(closedMutex := None)
    case EndClose(_) => s.(closedMutex := None)
    case LockTable => s.(watchesMutex := Some(a))
    case UnlockTable => s.(watchesMutex := None)
    case Mark => s.(isClosed := true)
    case Insert(pid, flags) => s.(watches := s.watches[pid := |s.heap|], heap := s.heap + [Entry(pid, flags)])
    case Store(_, found, flags) => s.(heap := StoredAt(s.heap, found, flags))
    case Delete(pid) => s.(watches := s.watches - {pid})
    case SendDone => s.(done := s.done + 1)
    case TakeDone => s.(done := s.done - 1)
    case SignalLoop => s.(loopSignalled := true)
    case CloseSocket => s.(socketOpen := false)
    case CloseOn(chan) => s.(closedChans := s.closedChans + {chan})
    case _ => s
  }

  function Perform(s: State, a: Agent, i: Instr): State
    requires Enabled(s, i)
  {
    Effect(s, a, i).(trace := s.trace + Labels(a, i), panicked := Panics(s, i))
  }

  // ----- the programs: the instruction at each program counter and where it leads

  function WatchInstr(s: State, pid: int, flags: T.Flags, w: WatchPc): Instr {
    match w
    case WLock => LockClosed
    case WTest => Local
    case WUnlock(_) => UnlockClosed
    case WLookup => Local
    case WLoad(_) => Local
    case WStore(found, value) => Store(pid, found, value)
    case WLockTable => LockTable
    case WInsert => Insert(pid, flags)
    case WUnlockTable => UnlockTable
    case WReturn(_) => Local
  }

  function WatchNext(s: State, pid: int, flags: T.Flags, w: WatchPc): WatchPc {
    match w
    case WLock => WTest
    case WTest => WUnlock(s.isClosed)
    case WUnlock(closed) => if closed then WReturn(false) else WLookup
    case WLookup => if pid in s.watches then WLoad(s.watches[pid]) else WLockTable
    case WLoad(found) => WStore(found, MergedFlags(s.heap, found, flags))
    case WStore(_, _) => WReturn(true)
    case WLockTable => WInsert
    case WInsert => WUnlockTable
    case WUnlockTable => WReturn(true)
    case WReturn(ok) => WReturn(ok)
  }

  function CloseInstr(s: State, i: nat, c: ClosePc, pick: int): Instr {
    match c
    case CLock => LockClosed
    case CTest => Local
    case CMark => Mark
    case CLockTable => LockTable
    case CClear => if pick in s.watches then Delete(pick) else Local
    case CUnlockTable => UnlockTable
    case CSendDone => SendDone
    case CAwait => AwaitLoop
    case CCloseListener => CloseSocket
    case CUnlock => EndClose(i)
  }

  function CloseNext(s: State, c: ClosePc): UserPc {
    match c
    case CLock => InClose(CTest)
    case CTest => InClose(if s.isClosed then CUnlock else CMark)
    case CMark => InClose(CLockTable)
    case CLockTable => InClose(CClear)
    case CClear => InClose(if s.watches == map[] then CUnlockTable else CClear)
    case CUnlockTable => InClose(CSendDone)
    case CSendDone => InClose(CAwait)
    case CAwait => InClose(CCloseListener)
    case CCloseListener => InClose(CUnlock)
    case CUnlock => Idle
  }

  function UserInstr(s: State, i: nat, u: UserPc, pick: int): Instr {
    match u
    case Idle => Local
    case InClose(c) => CloseInstr(s, i, c, pick)
    case InWatch(pid, flags, w) => if w.WReturn? then EndWatch(i, w.ok) else WatchInstr(s, pid, flags, w)
    case InRemove(pid, r) =>
      (match r case RLock => LockTable case RDelete => Delete(pid) case RUnlock => UnlockTable)
  }

  function UserNext(s: State, u: UserPc): UserPc {
    match u
    case Idle => Idle
    case InClose(c) => CloseNext(s, c)
    case InWatch(pid, flags, w) => if w.WReturn? then Idle else InWatch(pid, flags, WatchNext(s, pid, flags, w))
    case InRemove(pid, r) =>
      (match r case RLock => InRemove(pid, RDelete) case RDelete => InRemove(pid, RUnlock) case RUnlock => Idle)
  }

  function ChannelOf(e: Known): Channel {
    match e
    case Forked(_, _, _, _) => Fork
    case Execed(_, _) => Exec
    case Exited(_, _) => Exit
    case UidChanged(_, _, _, _) => Uid
    case GidChanged(_, _, _, _) => Uid
    case SidChanged(_, _) => Sid
  }

  function FlagsIn(heap: seq<Entry>, found: nat): T.Flags {
    if found < |heap| then heap[found].flags else 0
  }

  function MergedFlags(heap: seq<Entry>, found: nat, flags: T.Flags): T.Flags {
    FlagsIn(heap, found) | flags
  }

  // isWatching: an own entry decides, or else the wildcard's.
  predicate Watched(s: State, pid: int, event: T.Flags) {
    if pid in s.watches then T.Has(FlagsIn(s.heap, s.watches[pid]), event)
    else T.WILDCARD in s.watches && T.Has(FlagsIn(s.heap, s.watches[T.WILDCARD]), event)
  }

  function ReaderInstr(s: State): Instr {
    match s.reader
    case CheckDone => if s.done > 0 then TakeDone else Local
    case Recv => ReadSocket
    case SendError => SendOn(Error, [])
    case Work(_) => Local
    case AskExec(_, _) => LockTable
    case TestExec(_, _) => UnlockTable
    case Fetch(_, _) => Local
    case FetchWild(_, _) => Local
    case Fetched(_, _, _) => Local
    case Following(flags, w, f, _) => WatchInstr(s, f.childTgid, flags, w)
    case AskGate(_, _) => LockTable
    case TestGate(_, _) => UnlockTable
    case DropLock(_, _) => LockTable
    case Dropping(e, _) => Delete(T.Gate(e).value.0)
    case DropUnlock(_, _) => UnlockTable
    case Deliver(e, _) => SendOn(ChannelOf(e), T.Payload(e))
    case Finish(k) => if k < |CLOSE_ORDER| then CloseOn(CLOSE_ORDER[k]) else Local
    case SignalExit => SignalLoop
    case Exited => Local
  }

  function WorkNext(es: seq<T.Event>): ReaderPc {
    if es == [] then CheckDone
    else if es[0].Forked? then AskExec(es[0], es[1..])
    else if T.Gate(es[0]).Some? then AskGate(es[0], es[1..])
    else Work(es[1..])
  }

  function GateNext(s: State, e: Known, es: seq<T.Event>): ReaderPc {
    if !Watched(s, T.Gate(e).value.0, T.Gate(e).value.1) then Work(es)
    else if T.Removing(e) then DropLock(e, es)
    else Deliver(e, es)
  }

  // The entry to follow a fork with is looked up without the table mutex.
  function FetchNext(s: State, pid: int, f: ForkedEvent, es: seq<T.Event>, otherwise: ReaderPc): ReaderPc {
    if pid in s.watches then Fetched(s.watches[pid], f, es) else otherwise
  }

  function ReaderNext(s: State, received: Received): ReaderPc {
    match s.reader
    case CheckDone => if s.done > 0 then Finish(0) else Recv
    case Recv => if received.Failed? then SendError else Work(received.es)
    case SendError => CheckDone
    case Work(es) => WorkNext(es)
    case AskExec(f, es) => TestExec(f, es)
    case TestExec(f, es) => if Watched(s, f.parentTgid, T.EXEC) then Fetch(f, es) else AskGate(f, es)
    case Fetch(f, es) => FetchNext(s, f.parentTgid, f, es, FetchWild(f, es))
    case FetchWild(f, es) => FetchNext(s, T.WILDCARD, f, es, AskGate(f, es))
    case Fetched(found, f, es) => Following(FlagsIn(s.heap, found), WLock, f, es)
    case Following(flags, w, f, es) =>
      if w.WReturn? then AskGate(f, es) else Following(flags, WatchNext(s, f.childTgid, flags, w), f, es)
    case AskGate(e, es) => TestGate(e, es)
    case TestGate(e, es) => GateNext(s, e, es)
    case DropLock(e, es) => Dropping(e, es)
    case Dropping(e, es) => DropUnlock(e, es)
    case DropUnlock(e, es) => Deliver(e, es)
    case Deliver(_, es) => Work(es)
    case Finish(k) => if k < |CLOSE_ORDER| then Finish(k + 1) else SignalExit
    case SignalExit => Exited
    case Exited => Exited
  }

  // ----- moves and runs

  function Start(s: State, i: nat, pc: UserPc): Option<State> {
    if i < |s.users| && s.users[i].Idle? then Some(s.(users := s.users[i := pc])) else None
  }

  function StepUser(s: State, i: nat, pick: int): Option<State> {
    if i >= |s.users| || s.users[i].Idle? then None
    else
      var instr := UserInstr(s, i, s.users[i], pick);
      if Enabled(s, instr)
      then Some(Perform(s, User(i), instr).(users := s.users[i := UserNext(s, s.users[i])]))
      else None
  }

  function StepReader(s: State, received: Received): Option<State> {
    if s.reader.Exited? || !Enabled(s, ReaderInstr(s)) then None
    else Some(Perform(s, Reader, ReaderInstr(s)).(reader := ReaderNext(s, received)))
  }

  function Step(s: State, m: Move): Option<State> {
    if s.panicked then None else
    match m
    case Spawn => Some(s.(users := s.users + [Idle]))
    case CallClose(i) => Start(s, i, InClose(CLock))
    case CallWatch(i, pid, flags) => Start(s, i, InWatch(pid, flags, WLock))
    case CallRemove(i, pid) => Start(s, i, InRemove(pid, RLock))
    case UserStep(i, pick) => StepUser(s, i, pick)
    case ReaderStep(received) => StepReader(s, received)
  }

  /** The state after a sequence of moves, if every one of them is enabled. */
  function Run(s: State, ms: seq<Move>): Option<State>
    decreases |ms|
  {
    if ms == [] then Some(s)
    else
      var t := Step(s, ms[0]);
      if t.None? then None else Run(t.value, ms[1..])
  }

  // ----- who holds which mutex

  predicate WatchHoldsClosed(w: WatchPc) { w.WTest? || w.WUnlock? }

  predicate WatchHoldsTable(w: WatchPc) { w.WInsert? || w.WUnlockTable? }

  predicate HoldsClosed(u: UserPc) {
    match u
    case InClose(c) => c != CLock
    case InWatch(_, _, w) => WatchHoldsClosed(w)
    case _ => false
  }

  predicate HoldsTable(u: UserPc) {
    match u
    case Idle => false
    case InClose(c) => c == CClear || c == CUnlockTable
    case InWatch(_, _, w) => WatchHoldsTable(w)
    case InRemove(_, r) => r != RLock
  }

  predicate ReaderHoldsClosed(r: ReaderPc) {
    r.Following? && WatchHoldsClosed(r.fw)
  }

  predicate ReaderHoldsTable(r: ReaderPc) {
    r.TestExec? || r.TestGate? || r.Dropping? || r.DropUnlock? || (r.Following? && WatchHoldsTable(r.fw))
  }

  ghost predicate MutexInv(s: State) {
    && (forall i :: 0 <= i < |s.users| ==> (HoldsClosed(s.users[i]) <==> s.closedMutex == Some(User(i))))
    && (forall i :: 0 <= i < |s.users| ==> (HoldsTable(s.users[i]) <==> s.watchesMutex == Some(User(i))))
    && (ReaderHoldsClosed(s.reader) <==> s.closedMutex == Some(Reader))
    && (ReaderHoldsTable(s.reader) <==> s.watchesMutex == Some(Reader))
    && (s.closedMutex.Some? && s.closedMutex.value.User? ==> s.closedMutex.value.id < |s.users|)
    && (s.watchesMutex.Some? && s.watchesMutex.value.User? ==> s.watchesMutex.value.id < |s.users|)
  }

  // An instruction locks or unlocks a mutex exactly when the program counter
  // starts or stops holding it.
  predicate Brackets(held: bool, held': bool, lock: bool, unlock: bool) {
    && (lock <==> !held && held')
    && (unlock <==> held && !held')
  }

  predicate UnlocksClosed(i: Instr) { i.UnlockClosed? || i.EndClose? }

  lemma UserBrackets(s: State, i: nat, u: UserPc, pick: int)
    ensures Brackets(HoldsClosed(u), HoldsClosed(UserNext(s, u)),
                     UserInstr(s, i, u, pick).LockClosed?, UnlocksClosed(UserInstr(s, i, u, pick)))
    ensures Brackets(HoldsTable(u), HoldsTable(UserNext(s, u)),
                     UserInstr(s, i, u, pick).LockTable?, UserInstr(s, i, u, pick).UnlockTable?)
  {
  }

  lemma ReaderBrackets(s: State, received: Received)
    ensures Brackets(ReaderHoldsClosed(s.reader), ReaderHoldsClosed(ReaderNext(s, received)),
                     ReaderInstr(s).LockClosed?, UnlocksClosed(ReaderInstr(s)))
    ensures Brackets(ReaderHoldsTable(s.reader), ReaderHoldsTable(ReaderNext(s, received)),
                     ReaderInstr(s).LockTable?, ReaderInstr(s).UnlockTable?)
  {
  }

  lemma PerformLocks(s: State, a: Agent, i: Instr)
    requires Enabled(s, i)
    ensures var t := Perform(s, a, i);
            && t.closedMutex == (if i.LockClosed? then Some(a) else if UnlocksClosed(i) then None else s.closedMutex)
            && t.watchesMutex == (if i.LockTable? then Some(a) else if i.UnlockTable? then None else s.watchesMutex)
  {
  }

  lemma PerformKeepsPrograms(s: State, a: Agent, i: Instr)
    requires Enabled(s, i)
    ensures Perform(s, a, i).users == s.users && Perform(s, a, i).reader == s.reader
  {
  }

  lemma MutexUser(s: State, i: nat, pick: int, t: State)
    requires MutexInv(s) && StepUser(s, i, pick) == Some(t)
    ensures MutexInv(t)
  {
    UserBrackets(s, i, s.users[i], pick);
    PerformLocks(s, User(i), UserInstr(s, i, s.users[i], pick));
    PerformKeepsPrograms(s, User(i), UserInstr(s, i, s.users[i], pick));
  }

  lemma MutexReader(s: State, received: Received, t: State)
    requires MutexInv(s) && StepReader(s, received) == Some(t)
    ensures MutexInv(t)
  {
    ReaderBrackets(s, received);
    PerformLocks(s, Reader, ReaderInstr(s));
    PerformKeepsPrograms(s, Reader, ReaderInstr(s));
  }

  lemma MutexStep(s: State, m: Move, t: State)
    requires MutexInv(s) && Step(s, m) == Some(t)
    ensures MutexInv(t)
  {
    if m.UserStep? {
      MutexUser(s, m.user, m.pick, t);
    } else if m.ReaderStep? {
      MutexReader(s, m.received, t);
    }
  }

  // ----- how far the handshake has got

  function Count(s: State, l: Label): nat {
    multiset(s.trace)[l]
  }

  predicate ReaderRunning(r: ReaderPc) {
    !r.Finish? && !r.SignalExit? && !r.Exited?
  }

  function ClosedUpTo(k: nat): set<Channel> {
    set j | 0 <= j < k && j < |CLOSE_ORDER| :: CLOSE_ORDER[j]
  }

  function ClosedBy(r: ReaderPc): set<Channel> {
    if r.Finish? then ClosedUpTo(r.next) else if ReaderRunning(r) then {} else ClosedUpTo(|CLOSE_ORDER|)
  }

  // The call that holds closedMutex, if a user holds it.
  function Holder(s: State): UserPc {
    if s.closedMutex.Some? && s.closedMutex.value.User? && s.closedMutex.value.id < |s.users|
    then s.users[s.closedMutex.value.id] else Idle
  }

  predicate BeforeSend(u: UserPc) {
    u.InClose? && (u.c == CLockTable || u.c == CClear || u.c == CUnlockTable || u.c == CSendDone)
  }

  predicate AfterSend(u: UserPc) {
    u.InClose? && (u.c == CAwait || u.c == CCloseListener)
  }

  ghost predicate HolderInv(s: State) {
    var h := Holder(s);
    && (h == InClose(CMark) ==> !s.isClosed)
    && (BeforeSend(h) ==> s.isClosed && s.socketOpen && Count(s, DoneSent) == 0)
    && (AfterSend(h) ==> s.isClosed && s.socketOpen && Count(s, DoneSent) == 1)
    && (h == InClose(CCloseListener) ==> s.loopSignalled)
    && (h == InClose(CUnlock) ==> s.isClosed && !s.socketOpen)
    && (h.InWatch? && h.w.WUnlock? ==> h.w.closed == s.isClosed)
    && (s.isClosed && s.socketOpen ==> BeforeSend(h) || AfterSend(h))
  }

  ghost predicate PhaseInv(s: State) {
    && (!s.isClosed ==> s.socketOpen && Count(s, DoneSent) == 0)
    && Count(s, DoneSent) <= 1
    && (Count(s, DoneSent) == 0 ==> s.done == 0 && ReaderRunning(s.reader))
    && (Count(s, DoneSent) == 1 ==> s.done == (if ReaderRunning(s.reader) then 1 else 0))
    && (s.reader.Finish? ==> s.reader.next <= |CLOSE_ORDER|)
    && (s.loopSignalled <==> s.reader.Exited?)
    && (!s.socketOpen ==> s.loopSignalled)
    && s.closedChans == ClosedBy(s.reader)
    && !s.panicked
  }

  ghost predicate ReadsBeforeClose(trace: seq<Label>) {
    forall i, j :: 0 <= i < j < |trace| && trace[i] == SocketClosed ==> trace[j] != SocketRead
  }

  ghost predicate SendsBeforeClose(trace: seq<Label>) {
    forall i, j :: 0 <= i < j < |trace| && trace[i].ChanClosed? && trace[j].Sent? ==> trace[i].chan != trace[j].chan
  }

  ghost predicate TraceInv(s: State) {
    && (forall c :: Count(s, ChanClosed(c)) == if c in s.closedChans then 1 else 0)
    && Count(s, SocketClosed) == (if s.socketOpen then 0 else 1)
    && Count(s, LoopLeft) == (if s.loopSignalled then 1 else 0)
    && (forall i :: CloseReturned(i) in s.trace ==> !s.socketOpen)
    && ReadsBeforeClose(s.trace)
    && SendsBeforeClose(s.trace)
  }

  ghost predicate Inv(s: State) {
    MutexInv(s) && HolderInv(s) && PhaseInv(s) && TraceInv(s)
  }

  lemma InitInv(n: nat)
    ensures Inv(Init(n))
  {
    assert forall c :: Count(Init(n), ChanClosed(c)) == 0;
  }

  // ----- the invariant is inductive

  /** What an instruction does to the parts of the state that the handshake is about. */
  ghost predicate View(s: State, a: Agent, i: Instr, t: State) {
    && t.isClosed == (s.isClosed || i.Mark?)
    && t.socketOpen == (s.socketOpen && !i.CloseSocket?)
    && t.done == s.done + (if i.SendDone? then 1 else 0) - (if i.TakeDone? then 1 else 0)
    && t.loopSignalled == (s.loopSignalled || i.SignalLoop?)
    && t.closedChans == (if i.CloseOn? then s.closedChans + {i.chan} else s.closedChans)
    && t.panicked == Panics(s, i)
    && t.trace == s.trace + Labels(a, i)
  }

  lemma PerformView(s: State, a: Agent, i: Instr)
    requires Enabled(s, i)
    ensures View(s, a, i, Perform(s, a, i))
  {
  }

  lemma CountsLabel(s: State, a: Agent, i: Instr, t: State, l: Label)
    requires t.trace == s.trace + Labels(a, i)
    ensures Count(t, l) == Count(s, l) + if Labels(a, i) == [l] then 1 else 0
  {
    assert |Labels(a, i)| <= 1;
    assert Labels(a, i) == [] ==> t.trace == s.trace;
    assert Labels(a, i) != [] ==> t.trace == s.trace + [Labels(a, i)[0]];
  }

  /** Which instructions a user can be at, and where. */
  ghost predicate UserAt(u: UserPc, i: Instr) {
    && (i.Mark? ==> u == InClose(CMark))
    && (i.SendDone? ==> u == InClose(CSendDone))
    && (i.CloseSocket? ==> u == InClose(CCloseListener))
    && (i.EndClose? ==> u == InClose(CUnlock))
    && !i.TakeDone? && !i.SignalLoop? && !i.SendOn? && !i.CloseOn? && !i.ReadSocket?
  }

  lemma UserIssues(s: State, i: nat, u: UserPc, pick: int)
    ensures UserAt(u, UserInstr(s, i, u, pick))
  {
  }

  /** Which instructions the reader can be at, and where it goes. */
  ghost predicate ReaderAt(s: State, i: Instr, r: ReaderPc) {
    && (i.TakeDone? <==> s.reader.CheckDone? && s.done > 0)
    && (i.SignalLoop? <==> s.reader.SignalExit?)
    && (i.CloseOn? <==> s.reader.Finish? && s.reader.next < |CLOSE_ORDER|)
    && (i.CloseOn? ==> i.chan == CLOSE_ORDER[s.reader.next])
    && (i.SendOn? || i.ReadSocket? ==> ReaderRunning(s.reader))
    && !i.Mark? && !i.SendDone? && !i.CloseSocket? && !i.EndClose?
    && !s.reader.Exited?
    && (if i.TakeDone? then r == Finish(0)
        else if s.reader.Finish? then r == (if i.CloseOn? then Finish(s.reader.next + 1) else SignalExit)
        else if s.reader.SignalExit? then r == Exited
        else ReaderRunning(r))
  }

  lemma ReaderIssues(s: State, received: Received)
    requires !s.reader.Exited?
    ensures ReaderAt(s, ReaderInstr(s), ReaderNext(s, received))
  {
  }

  lemma PhaseUser(s: State, a: Agent, u: UserPc, i: Instr, t: State)
    requires HolderInv(s) && PhaseInv(s) && Enabled(s, i)
    requires UserAt(u, i) && (HoldsClosed(u) ==> u == Holder(s))
    requires View(s, a, i, t) && t.reader == s.reader
    ensures PhaseInv(t)
  {
    CountsLabel(s, a, i, t, DoneSent);
  }

  lemma PhaseReader(s: State, i: Instr, t: State)
    requires PhaseInv(s) && Enabled(s, i)
    requires ReaderAt(s, i, t.reader) && View(s, Reader, i, t)
    ensures PhaseInv(t)
  {
    CountsLabel(s, Reader, i, t, DoneSent);
  }

  /** How a step from pc u to pc u' moves the pc of the closedMutex holder. */
  predicate HolderMoves(u: UserPc, u': UserPc, h: UserPc, h': UserPc) {
    && (if HoldsClosed(u) then h == u else HoldsClosed(u') ==> h == Idle)
    && (if HoldsClosed(u') then h' == u' else if HoldsClosed(u) then h' == Idle else h' == h)
  }

  // Close up to the send: only marking changes what the invariant speaks of.
  lemma HolderEarly(s: State, n: nat, c: ClosePc, pick: int, t: State)
    requires HolderInv(s) && PhaseInv(s)
    requires c == CLock || c == CTest || c == CMark || (BeforeSend(InClose(c)) && c != CSendDone)
    requires View(s, User(n), CloseInstr(s, n, c, pick), t)
    requires HolderMoves(InClose(c), CloseNext(s, c), Holder(s), Holder(t))
    ensures HolderInv(t)
  {
    CountsLabel(s, User(n), CloseInstr(s, n, c, pick), t, DoneSent);
  }

  // Close from the send on.
  lemma HolderLate(s: State, n: nat, c: ClosePc, pick: int, t: State)
    requires HolderInv(s) && PhaseInv(s) && (c == CSendDone || c == CAwait || c == CCloseListener || c == CUnlock)
    requires Enabled(s, CloseInstr(s, n, c, pick)) && View(s, User(n), CloseInstr(s, n, c, pick), t)
    requires HolderMoves(InClose(c), CloseNext(s, c), Holder(s), Holder(t))
    ensures HolderInv(t)
  {
    CountsLabel(s, User(n), CloseInstr(s, n, c, pick), t, DoneSent);
  }

  lemma HolderClose(s: State, n: nat, c: ClosePc, pick: int, t: State)
    requires HolderInv(s) && PhaseInv(s)
    requires Enabled(s, CloseInstr(s, n, c, pick)) && View(s, User(n), CloseInstr(s, n, c, pick), t)
    requires HolderMoves(InClose(c), CloseNext(s, c), Holder(s), Holder(t))
    ensures HolderInv(t)
  {
    if c == CSendDone || c == CAwait || c == CCloseListener || c == CUnlock {
      HolderLate(s, n, c, pick, t);
    } else {
      HolderEarly(s, n, c, pick, t);
    }
  }

  lemma HolderOther(s: State, n: nat, u: UserPc, pick: int, t: State)
    requires HolderInv(s) && PhaseInv(s) && !u.InClose?
    requires View(s, User(n), UserInstr(s, n, u, pick), t)
    requires HolderMoves(u, UserNext(s, u), Holder(s), Holder(t))
    ensures HolderInv(t)
  {
    CountsLabel(s, User(n), UserInstr(s, n, u, pick), t, DoneSent);
  }

  lemma HolderReader(s: State, i: Instr, t: State)
    requires HolderInv(s) && PhaseInv(s)
    requires ReaderAt(s, i, t.reader) && View(s, Reader, i, t) && Holder(t) == Holder(s)
    ensures HolderInv(t)
  {
    CountsLabel(s, Reader, i, t, DoneSent);
  }

  lemma ChanCount(s: State, a: Agent, i: Instr, t: State, c: Channel)
    requires TraceInv(s) && View(s, a, i, t) && !Panics(s, i)
    ensures Count(t, ChanClosed(c)) == if c in t.closedChans then 1 else 0
  {
    CountsLabel(s, a, i, t, ChanClosed(c));
  }

  lemma TraceCounts(s: State, a: Agent, i: Instr, t: State)
    requires TraceInv(s) && View(s, a, i, t) && !Panics(s, i)
    requires i.CloseSocket? ==> s.socketOpen
    ensures Count(t, SocketClosed) == if t.socketOpen then 0 else 1
    ensures Count(t, LoopLeft) == if t.loopSignalled then 1 else 0
  {
    CountsLabel(s, a, i, t, SocketClosed);
    CountsLabel(s, a, i, t, LoopLeft);
  }

  lemma TraceOrder(s: State, a: Agent, i: Instr, t: State)
    requires TraceInv(s) && View(s, a, i, t) && !Panics(s, i)
    requires i.ReadSocket? ==> s.socketOpen
    ensures ReadsBeforeClose(t.trace) && SendsBeforeClose(t.trace)
  {
    if i.ReadSocket? {
      assert SocketClosed !in multiset(s.trace);
    } else if i.SendOn? {
      assert ChanClosed(i.chan) !in multiset(s.trace);
    }
  }

  lemma TraceStep(s: State, a: Agent, i: Instr, t: State)
    requires TraceInv(s) && View(s, a, i, t) && !Panics(s, i)
    requires i.ReadSocket? || i.CloseSocket? ==> s.socketOpen
    requires i.EndClose? ==> !s.socketOpen
    ensures TraceInv(t)
  {
    forall c ensures Count(t, ChanClosed(c)) == if c in t.closedChans then 1 else 0 {
      ChanCount(s, a, i, t, c);
    }
    TraceCounts(s, a, i, t);
    TraceOrder(s, a, i, t);
  }

  lemma InvUser(s: State, n: nat, pick: int, t: State)
    requires Inv(s) && MutexInv(t) && StepUser(s, n, pick) == Some(t)
    ensures Inv(t)
  {
    var u := s.users[n];
    var i := UserInstr(s, n, u, pick);
    var p := Perform(s, User(n), i);
    PerformView(s, User(n), i);
    PerformKeepsPrograms(s, User(n), i);
    PerformLocks(s, User(n), i);
    UserBrackets(s, n, u, pick);
    UserIssues(s, n, u, pick);
    assert View(s, User(n), i, t);
    if u.InClose? {
      HolderClose(s, n, u.c, pick, t);
    } else {
      HolderOther(s, n, u, pick, t);
    }
    PhaseUser(s, User(n), u, i, t);
    TraceStep(s, User(n), i, t);
  }

  lemma InvReader(s: State, received: Received, t: State)
    requires Inv(s) && MutexInv(t) && StepReader(s, received) == Some(t)
    ensures Inv(t)
  {
    var i := ReaderInstr(s);
    PerformView(s, Reader, i);
    PerformKeepsPrograms(s, Reader, i);
    PerformLocks(s, Reader, i);
    ReaderIssues(s, received);
    assert View(s, Reader, i, t);
    HolderReader(s, i, t);
    PhaseReader(s, i, t);
    TraceStep(s, Reader, i, t);
  }

  lemma InvStep(s: State, m: Move, t: State)
    requires Inv(s) && Step(s, m) == Some(t)
    ensures Inv(t)
  {
    MutexStep(s, m, t);
    if m.UserStep? {
      InvUser(s, m.user, m.pick, t);
    } else if m.ReaderStep? {
      InvReader(s, m.received, t);
    } else {
      InvCall(s, m, t);
    }
  }

  // A call that starts holds nothing, and a new goroutine even less.
  lemma InvCall(s: State, m: Move, t: State)
    requires Inv(s) && MutexInv(t) && Step(s, m) == Some(t) && !m.UserStep? && !m.ReaderStep?
    ensures Inv(t)
  {
    assert Holder(t) == Holder(s);
    assert t == s.(users := t.users);
  }

  lemma {:induction false} InvRun(s: State, ms: seq<Move>, t: State)
    requires Inv(s) && Run(s, ms) == Some(t)
    ensures Inv(t)
    decreases |ms|
  {
    if ms != [] {
      InvStep(s, ms[0], Step(s, ms[0]).value);
      InvRun(Step(s, ms[0]).value, ms[1..], t);
    }
  }
}
