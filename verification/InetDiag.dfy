/**
 Collecting the multipart answer to a socket-diagnostics request: datagrams are
 received until a DONE message, an ERROR message or something undecodable.
 */
module InetDiag {
  import opened Sequences
  import opened Wire
  import opened Wrappers

  const NLMSG_ERROR := 2
  const NLMSG_DONE := 3

  // ----- one inet_diag_msg

  datatype InetDiagMsg = InetDiagMsg(
    family: byte, state: byte, timer: byte, retrans: byte,
    sport: seq<byte>, dport: seq<byte>, src: seq<byte>, dst: seq<byte>,
    iface: nat, cookie0: nat, cookie1: nat,
    expires: nat, rqueue: nat, wqueue: nat, uid: nat, inode: nat)

  const SIZE := 72

  datatype DecodeError = Eof | UnexpectedEof

  // binary.Read of the fixed-size struct; longer payloads carry attributes that are not read.
  function ParseInetDiagMsg(o: ByteOrder, b: seq<byte>): Result<InetDiagMsg, DecodeError> {
    if b == [] then Err(Eof)
    else if |b| < SIZE then Err(UnexpectedEof)
    else
      var words := GetWords(o, b[40..], 8);
      Ok(InetDiagMsg(b[0], b[1], b[2], b[3], b[4..6], b[6..8], b[8..24], b[24..40],
                     words[0], words[1], words[2], words[3], words[4], words[5], words[6], words[7]))
  }

  predicate MsgFits(m: InetDiagMsg) {
    |m.sport| == 2 && |m.dport| == 2 && |m.src| == 16 && |m.dst| == 16 && AllFit(Words(m))
  }

  // The numbers of a message in the order in which they stand in it.
  function Words(m: InetDiagMsg): seq<nat> {
    [m.iface, m.cookie0, m.cookie1, m.expires, m.rqueue, m.wqueue, m.uid, m.inode]
  }

  function HeadBytes(m: InetDiagMsg): seq<byte> {
    [m.family, m.state, m.timer, m.retrans] + m.sport + m.dport + m.src + m.dst
  }

  function MsgBytes(o: ByteOrder, m: InetDiagMsg): (b: seq<byte>)
    requires MsgFits(m)
    ensures |b| == SIZE
  {
    HeadBytes(m) + PutWords(o, Words(m))
  }

  lemma HeadSlices(m: InetDiagMsg, rest: seq<byte>)
    requires |m.sport| == 2 && |m.dport| == 2 && |m.src| == 16 && |m.dst| == 16
    ensures var b := HeadBytes(m) + rest;
            && b[..4] == [m.family, m.state, m.timer, m.retrans] && b[4..6] == m.sport && b[6..8] == m.dport
            && b[8..24] == m.src && b[24..40] == m.dst && b[40..] == rest
  {
  }

  /** A message is decoded from its bytes, whatever attributes follow it. */
  lemma MsgRoundTrip(o: ByteOrder, m: InetDiagMsg, rest: seq<byte>)
    requires MsgFits(m)
    ensures ParseInetDiagMsg(o, MsgBytes(o, m) + rest) == Ok(m)
  {
    var b := MsgBytes(o, m) + rest;
    var words := PutWords(o, Words(m));
    Assoc(HeadBytes(m), words, rest);
    HeadSlices(m, words + rest);
    assert b[0] == b[..4][0] && b[1] == b[..4][1] && b[2] == b[..4][2] && b[3] == b[..4][3];
    WordsRoundTrip(o, Words(m), rest);
  }

  // Word k of those that follow the addresses.
  lemma WordOffset(o: ByteOrder, b: seq<byte>, k: nat)
    requires |b| >= 72 && k < 8
    ensures GetWords(o, b[40..], 8)[k] == Get32(o, b[40 + 4 * k..44 + 4 * k])
  {
    WordAt(o, b[40..], 8, k);
    assert b[40..][4 * k..4 * k + 4] == b[40 + 4 * k..44 + 4 * k];
  }

  /** Where the fields of a message are, as in struct inet_diag_msg; anything
      shorter than 72 bytes is not decoded. */
  lemma FieldOffsets(o: ByteOrder, b: seq<byte>)
    ensures ParseInetDiagMsg(o, b) ==
            if |b| == 0 then Err(Eof) else if |b| < 72 then Err(UnexpectedEof)
            else Ok(InetDiagMsg(
              family := b[0], state := b[1], timer := b[2], retrans := b[3],
              sport := b[4..6], dport := b[6..8], src := b[8..24], dst := b[24..40],
              iface := Get32(o, b[40..44]), cookie0 := Get32(o, b[44..48]), cookie1 := Get32(o, b[48..52]),
              expires := Get32(o, b[52..56]), rqueue := Get32(o, b[56..60]), wqueue := Get32(o, b[60..64]),
              uid := Get32(o, b[64..68]), inode := Get32(o, b[68..72])))
  {
    if |b| >= 72 {
      WordOffset(o, b, 0);
      WordOffset(o, b, 1);
      WordOffset(o, b, 2);
      WordOffset(o, b, 3);
      WordOffset(o, b, 4);
      WordOffset(o, b, 5);
      WordOffset(o, b, 6);
      WordOffset(o, b, 7);
    }
  }

  // ----- the collector

  datatype NetlinkError = Errno(n: nat) | TooShort

  // The errno is stored negated in 32 bits.
  function ParseNetlinkError(o: ByteOrder, data: seq<byte>): NetlinkError {
    if |data| >= 4 then Errno((U32 - Get32(o, data[..4])) % U32) else TooShort
  }

  datatype Failure =
    | ReceiveFailed(errno: nat)
    | Einval
    | CopyFailed
    | Netlink(error: NetlinkError)
    | Undecodable(decode: DecodeError)

  // A datagram, and whether the writer for copies, if there is one, refuses it.
  datatype Receive = Error(errno: nat) | Bytes(bytes: seq<byte>, refused: bool)

  /** Done and Failed are returns; Blocked is a receive for which nothing has arrived yet. */
  datatype Outcome = Done(msgs: seq<InetDiagMsg>) | Failed(failure: Failure) | Blocked

  datatype Scan = Continue(msgs: seq<InetDiagMsg>) | Stop(outcome: Outcome)

  // One message, with what has been collected so far.
  function Accept(o: ByteOrder, m: Message, acc: seq<InetDiagMsg>): Scan {
    if m.header.kind == NLMSG_DONE then Stop(Done(acc))
    else if m.header.kind == NLMSG_ERROR then Stop(Failed(Netlink(ParseNetlinkError(o, m.data))))
    else
      match ParseInetDiagMsg(o, m.data)
      case Err(e) => Stop(Failed(Undecodable(e)))
      case Ok(msg) => Continue(acc + [msg])
  }

  function ScanAll(o: ByteOrder, ms: seq<Message>, acc: seq<InetDiagMsg>): Scan
    decreases |ms|
  {
    if ms == [] then Continue(acc)
    else
      var s := Accept(o, ms[0], acc);
      if s.Stop? then s else ScanAll(o, ms[1..], s.msgs)
  }

  // One receive.
  function Take(o: ByteOrder, r: Receive, acc: seq<InetDiagMsg>): Scan {
    match r
    case Error(errno) => Stop(Failed(ReceiveFailed(errno)))
    case Bytes(b, refused) =>
      if |b| < HEADER then Stop(Failed(Einval))
      else if refused then Stop(Failed(CopyFailed))
      else
        var ms := ParseDatagram(o, b);
        if ms.None? then Stop(Failed(Einval)) else ScanAll(o, ms.value, acc)
  }

  function Outcomes(o: ByteOrder, rs: seq<Receive>, acc: seq<InetDiagMsg>): Outcome
    decreases |rs|
  {
    if rs == [] then Blocked
    else
      var s := Take(o, rs[0], acc);
      if s.Stop? then s.outcome else Outcomes(o, rs[1..], s.msgs)
  }

  /** The receive loop, over the datagrams that arrive. */
  method Collect(o: ByteOrder, rs: seq<Receive>) returns (r: Outcome)
    ensures r == Outcomes(o, rs, [])
  {
    var msgs: seq<InetDiagMsg> := [];
    for i := 0 to |rs|
      invariant Outcomes(o, rs, []) == Outcomes(o, rs[i..], msgs)
    {
      assert rs[i..][1..] == rs[i + 1..];
      if rs[i].Error? {
        return Failed(ReceiveFailed(rs[i].errno));
      }
      var buf := rs[i].bytes;
      if |buf| < HEADER {
        return Failed(Einval);
      }
      if rs[i].refused {
        return Failed(CopyFailed);
      }
      var parsed := ParseDatagram(o, buf);
      if parsed.None? {
        return Failed(Einval);
      }
      var ms := parsed.value;
      ghost var start := msgs;
      for j := 0 to |ms|
        invariant ScanAll(o, ms, start) == ScanAll(o, ms[j..], msgs)
      {
        assert ms[j..][1..] == ms[j + 1..];
        if ms[j].header.kind == NLMSG_DONE {
          return Done(msgs);
        }
        if ms[j].header.kind == NLMSG_ERROR {
          return Failed(Netlink(ParseNetlinkError(o, ms[j].data)));
        }
        var msg := ParseInetDiagMsg(o, ms[j].data);
        if msg.Err? {
          return Failed(Undecodable(msg.error));
        }
        msgs := msgs + [msg.value];
      }
      assert ms[|ms|..] == [];
    }
    assert rs[|rs|..] == [];
    return Blocked;
  }

  // ----- chunking does not matter

  lemma {:induction false} ScanAppend(o: ByteOrder, a: seq<Message>, b: seq<Message>, acc: seq<InetDiagMsg>)
    ensures ScanAll(o, a + b, acc) ==
            var s := ScanAll(o, a, acc);
            if s.Stop? then s else ScanAll(o, b, s.msgs)
    decreases |a|
  {
    if a == [] {
      assert a + b == b;
    } else {
      assert (a + b)[0] == a[0] && (a + b)[1..] == a[1..] + b;
      var s := Accept(o, a[0], acc);
      if s.Continue? {
        ScanAppend(o, a[1..], b, s.msgs);
      }
    }
  }

  function Flatten(chunks: seq<seq<Message>>): seq<Message> {
    if chunks == [] then [] else chunks[0] + Flatten(chunks[1..])
  }

  predicate Sendable(chunks: seq<seq<Message>>) {
    forall i :: 0 <= i < |chunks| ==> chunks[i] != [] && AllWellFormed(chunks[i])
  }

  function Datagrams(o: ByteOrder, chunks: seq<seq<Message>>): seq<Receive>
    requires Sendable(chunks)
  {
    if chunks == [] then [] else [Bytes(Datagram(o, chunks[0]), false)] + Datagrams(o, chunks[1..])
  }

  function Finish(s: Scan): Outcome {
    if s.Stop? then s.outcome else Blocked
  }

  lemma TakeChunk(o: ByteOrder, chunk: seq<Message>, acc: seq<InetDiagMsg>)
    requires chunk != [] && AllWellFormed(chunk)
    ensures Take(o, Bytes(Datagram(o, chunk), false), acc) == ScanAll(o, chunk, acc)
  {
    DatagramRoundTrip(o, chunk);
  }

  /** However a list of messages is cut into non-empty datagrams, the collector
      comes to what one scan of the list comes to. */
  lemma {:induction false} ChunkingIrrelevant(o: ByteOrder, chunks: seq<seq<Message>>, acc: seq<InetDiagMsg>)
    requires Sendable(chunks)
    ensures Outcomes(o, Datagrams(o, chunks), acc) == Finish(ScanAll(o, Flatten(chunks), acc))
    decreases |chunks|
  {
    if chunks != [] {
      TakeChunk(o, chunks[0], acc);
      ScanAppend(o, chunks[0], Flatten(chunks[1..]), acc);
      var s := ScanAll(o, chunks[0], acc);
      assert Datagrams(o, chunks)[1..] == Datagrams(o, chunks[1..]);
      if s.Continue? {
        ChunkingIrrelevant(o, chunks[1..], s.msgs);
      }
    }
  }

  // ----- what the scan of a list comes to

  predicate Plain(o: ByteOrder, m: Message) {
    m.header.kind != 3 && m.header.kind != 2 && ParseInetDiagMsg(o, m.data).Ok?
  }

  predicate AllPlain(o: ByteOrder, ms: seq<Message>) {
    forall i :: 0 <= i < |ms| ==> Plain(o, ms[i])
  }

  function Decoded(o: ByteOrder, ms: seq<Message>): seq<InetDiagMsg>
    requires AllPlain(o, ms)
  {
    if ms == [] then [] else [ParseInetDiagMsg(o, ms[0].data).value] + Decoded(o, ms[1..])
  }

  lemma {:induction false} ScanPlain(o: ByteOrder, ms: seq<Message>, acc: seq<InetDiagMsg>)
    requires AllPlain(o, ms)
    ensures ScanAll(o, ms, acc) == Continue(acc + Decoded(o, ms))
    decreases |ms|
  {
    if ms != [] {
      var msg := ParseInetDiagMsg(o, ms[0].data).value;
      ScanPlain(o, ms[1..], acc + [msg]);
      Assoc(acc, [msg], Decoded(o, ms[1..]));
    }
  }

  // What the first message that is not plain makes of those before it: type 3
  // is NLMSG_DONE, type 2 is NLMSG_ERROR (section 2.3.2 of RFC 3549).
  function Decided(o: ByteOrder, before: seq<Message>, m: Message): Outcome
    requires AllPlain(o, before) && !Plain(o, m)
  {
    if m.header.kind == 3 then Done(Decoded(o, before))
    else if m.header.kind == 2 then Failed(Netlink(ParseNetlinkError(o, m.data)))
    else Failed(Undecodable(ParseInetDiagMsg(o, m.data).error))
  }

  /** The first message that is not plain decides: DONE returns the decoded
      messages before it, ERROR its error, anything else its decoding error. */
  lemma FirstDecides(o: ByteOrder, before: seq<Message>, m: Message, after: seq<Message>)
    requires AllPlain(o, before) && !Plain(o, m)
    ensures Finish(ScanAll(o, before + [m] + after, [])) == Decided(o, before, m)
  {
    assert before + [m] + after == before + ([m] + after);
    ScanPlain(o, before, []);
    ScanAppend(o, before, [m] + after, []);
    assert [] + Decoded(o, before) == Decoded(o, before);
  }

  /** However messages are cut into datagrams, the collector returns what the
      first message that is not plain decides, and waits for more if all are plain. */
  lemma CollectorDecides(o: ByteOrder, chunks: seq<seq<Message>>, before: seq<Message>, rest: seq<Message>)
    requires Sendable(chunks) && Flatten(chunks) == before + rest
    requires AllPlain(o, before) && (rest == [] || !Plain(o, rest[0]))
    ensures Outcomes(o, Datagrams(o, chunks), []) == if rest == [] then Blocked else Decided(o, before, rest[0])
  {
    ChunkingIrrelevant(o, chunks, []);
    ScanDecides(o, before, rest);
  }

  lemma ScanDecides(o: ByteOrder, before: seq<Message>, rest: seq<Message>)
    requires AllPlain(o, before) && (rest == [] || !Plain(o, rest[0]))
    ensures Finish(ScanAll(o, before + rest, [])) == if rest == [] then Blocked else Decided(o, before, rest[0])
  {
    if rest == [] {
      assert before + rest == before;
      ScanPlain(o, before, []);
    } else {
      assert rest == [rest[0]] + rest[1..];
      Assoc(before, [rest[0]], rest[1..]);
      FirstDecides(o, before, rest[0], rest[1..]);
    }
  }

  // ----- errors

  /** An errno is found negated at the start of the data; fewer than four bytes hold none. */
  lemma ErrnoIsNegated(o: ByteOrder, n: nat, rest: seq<byte>)
    requires n < U32
    ensures ParseNetlinkError(o, Put32(o, (U32 - n) % U32) + rest) == Errno(n)
  {
    var k := (U32 - n) % U32;
    FrontAndBack(Put32(o, k), rest);
    Number32(o, k);
  }

  /** However messages are cut into datagrams, an ERROR message before any DONE
      makes the collector fail with the errno that it carries. */
  lemma CollectorFailsWithErrno(o: ByteOrder, chunks: seq<seq<Message>>, before: seq<Message>, h: Header, n: nat,
                                rest: seq<byte>, after: seq<Message>)
    requires n < U32 && h.kind == 2 && AllPlain(o, before) && Sendable(chunks)
    requires Flatten(chunks) == before + ([Message(h, Put32(o, (U32 - n) % U32) + rest)] + after)
    ensures Outcomes(o, Datagrams(o, chunks), []) == Failed(Netlink(Errno(n)))
  {
    ErrnoIsNegated(o, n, rest);
    CollectorDecides(o, chunks, before, [Message(h, Put32(o, (U32 - n) % U32) + rest)] + after);
  }

  ghost predicate PlainChunks(o: ByteOrder, chunks: seq<seq<Message>>) {
    forall i :: 0 <= i < |chunks| ==> AllPlain(o, chunks[i])
  }

  lemma TakePlain(o: ByteOrder, chunk: seq<Message>, acc: seq<InetDiagMsg>) returns (more: seq<InetDiagMsg>)
    requires chunk != [] && AllWellFormed(chunk) && AllPlain(o, chunk)
    ensures Take(o, Bytes(Datagram(o, chunk), false), acc) == Continue(more)
  {
    TakeChunk(o, chunk, acc);
    ScanPlain(o, chunk, acc);
    more := acc + Decoded(o, chunk);
  }

  lemma {:induction false} PlainGoesOn(o: ByteOrder, chunks: seq<seq<Message>>, acc: seq<InetDiagMsg>, rs: seq<Receive>)
    returns (more: seq<InetDiagMsg>)
    requires Sendable(chunks) && PlainChunks(o, chunks)
    ensures Outcomes(o, Datagrams(o, chunks) + rs, acc) == Outcomes(o, rs, more)
    decreases |chunks|
  {
    if chunks == [] {
      assert Datagrams(o, chunks) + rs == rs;
      more := acc;
    } else {
      var r := Bytes(Datagram(o, chunks[0]), false);
      var first := TakePlain(o, chunks[0], acc);
      Assoc([r], Datagrams(o, chunks[1..]), rs);
      OutcomesCons(o, r, Datagrams(o, chunks[1..]) + rs, acc, first);
      more := PlainGoesOn(o, chunks[1..], first, rs);
    }
  }

  lemma OutcomesCons(o: ByteOrder, r: Receive, rs: seq<Receive>, acc: seq<InetDiagMsg>, more: seq<InetDiagMsg>)
    requires Take(o, r, acc) == Continue(more)
    ensures Outcomes(o, [r] + rs, acc) == Outcomes(o, rs, more)
  {
    assert ([r] + rs)[0] == r && ([r] + rs)[1..] == rs;
  }

  /** After any number of plain datagrams, a receive that fails, one that is
      too short for a header, one that the writer refuses and one that is no
      list of messages each end the collection with their own error. */
  lemma BadReceive(o: ByteOrder, chunks: seq<seq<Message>>, r: Receive, more: seq<Receive>)
    requires Sendable(chunks) && PlainChunks(o, chunks)
    ensures var outcome := Outcomes(o, Datagrams(o, chunks) + ([r] + more), []);
            && (r.Error? ==> outcome == Failed(ReceiveFailed(r.errno)))
            && (r.Bytes? && |r.bytes| < 16 ==> outcome == Failed(Einval))
            && (r.Bytes? && |r.bytes| >= 16 && r.refused ==> outcome == Failed(CopyFailed))
            && (r.Bytes? && |r.bytes| >= 16 && !r.refused && ParseDatagram(o, r.bytes).None? ==>
                  outcome == Failed(Einval))
  {
    var msgs := PlainGoesOn(o, chunks, [], [r] + more);
    assert ([r] + more)[0] == r;
  }
}
