/**
 Netlink messages on the wire: a 16-byte header (section 2.3.2 of RFC 3549) in
 host byte order, then the payload, padded to a multiple of four bytes.
 */
module Wire {
  import opened Sequences
  import opened Wrappers

  type byte = b: int | 0 <= b < 256

  datatype ByteOrder = Little | Big

  const U16 := 0x1_0000
  const U32 := 0x1_0000_0000
  const HEADER := 16

  // ----- numbers as bytes

  function Put16(o: ByteOrder, n: nat): (b: seq<byte>)
    requires n < U16
    ensures |b| == 2
  {
    if o.Little? then [n % 256, n / 256] else [n / 256, n % 256]
  }

  function Get16(o: ByteOrder, b: seq<byte>): (n: nat)
    requires |b| == 2
    ensures n < U16
  {
    if o.Little? then b[0] as int + 256 * b[1] as int else b[1] as int + 256 * b[0] as int
  }

  function Put32(o: ByteOrder, n: nat): (b: seq<byte>)
    requires n < U32
    ensures |b| == 4
  {
    if o.Little? then Put16(o, n % U16) + Put16(o, n / U16) else Put16(o, n / U16) + Put16(o, n % U16)
  }

  function Get32(o: ByteOrder, b: seq<byte>): (n: nat)
    requires |b| == 4
    ensures n < U32
  {
    if o.Little? then Get16(o, b[..2]) + U16 * Get16(o, b[2..]) else Get16(o, b[2..]) + U16 * Get16(o, b[..2])
  }

  lemma Number16(o: ByteOrder, n: nat)
    requires n < U16
    ensures Get16(o, Put16(o, n)) == n
  {
  }

  lemma Number32(o: ByteOrder, n: nat)
    requires n < U32
    ensures Get32(o, Put32(o, n)) == n
  {
    Number16(o, n % U16);
    Number16(o, n / U16);
    var b := Put32(o, n);
    assert b[..2] == (if o.Little? then Put16(o, n % U16) else Put16(o, n / U16));
    assert b[2..] == (if o.Little? then Put16(o, n / U16) else Put16(o, n % U16));
  }

  /** The bytes of a number, least significant first or last. */
  lemma Bytes16(n: nat)
    requires n < U16
    ensures Put16(Little, n) == [n % 256, n / 256] && Put16(Big, n) == [n / 256, n % 256]
  {
  }

  lemma Bytes32(n: nat)
    requires n < U32
    ensures Put32(Little, n) == [n % 256, n / 256 % 256, n / 65536 % 256, n / 16777216]
    ensures Put32(Big, n) == [n / 16777216, n / 65536 % 256, n / 256 % 256, n % 256]
  {
    Bytes16(n % U16);
    Bytes16(n / U16);
    assert n % U16 % 256 == n % 256 && n % U16 / 256 == n / 256 % 256;
    assert n / U16 % 256 == n / 65536 % 256 && n / U16 / 256 == n / 16777216;
  }

  predicate AllFit(words: seq<nat>) {
    forall i :: 0 <= i < |words| ==> words[i] < U32
  }

  function PutWords(o: ByteOrder, words: seq<nat>): (b: seq<byte>)
    requires AllFit(words)
    ensures |b| == 4 * |words|
  {
    if words == [] then [] else Put32(o, words[0]) + PutWords(o, words[1..])
  }

  function GetWords(o: ByteOrder, b: seq<byte>, n: nat): (words: seq<nat>)
    requires |b| >= 4 * n
    ensures |words| == n
  {
    if n == 0 then [] else [Get32(o, b[..4])] + GetWords(o, b[4..], n - 1)
  }

  lemma {:induction false} WordsRoundTrip(o: ByteOrder, words: seq<nat>, rest: seq<byte>)
    requires AllFit(words)
    ensures GetWords(o, PutWords(o, words) + rest, |words|) == words
    decreases |words|
  {
    if words != [] {
      WordsRoundTrip(o, words[1..], rest);
      Assoc(Put32(o, words[0]), PutWords(o, words[1..]), rest);
      FirstWord(o, words[0], PutWords(o, words[1..]) + rest, |words|);
    }
  }

  lemma FirstWord(o: ByteOrder, word: nat, rest: seq<byte>, n: nat)
    requires word < U32 && n > 0 && |rest| >= 4 * (n - 1)
    ensures GetWords(o, Put32(o, word) + rest, n) == [word] + GetWords(o, rest, n - 1)
  {
    Number32(o, word);
    FrontAndBack(Put32(o, word), rest);
  }

  lemma {:induction false} WordAt(o: ByteOrder, b: seq<byte>, n: nat, k: nat)
    requires |b| >= 4 * n && k < n
    ensures GetWords(o, b, n)[k] == Get32(o, b[4 * k..4 * k + 4])
  {
    if k > 0 {
      WordAt(o, b[4..], n - 1, k - 1);
      assert b[4..][4 * (k - 1)..4 * (k - 1) + 4] == b[4 * k..4 * k + 4];
    } else {
      assert b[..4] == b[0..4];
    }
  }

  lemma FrontAndBack<T>(a: seq<T>, b: seq<T>)
    ensures (a + b)[..|a|] == a && (a + b)[|a|..] == b
  {
  }

  // ----- messages

  datatype Header = Header(len: nat, kind: nat, flags: nat, sequence: nat, pid: nat)

  datatype Message = Message(header: Header, data: seq<byte>)

  predicate HeaderFits(h: Header) {
    h.len < U32 && h.kind < U16 && h.flags < U16 && h.sequence < U32 && h.pid < U32
  }

  predicate WellFormed(m: Message) {
    HeaderFits(m.header) && m.header.len == HEADER + |m.data|
  }

  predicate AllWellFormed(ms: seq<Message>) {
    forall i :: 0 <= i < |ms| ==> WellFormed(ms[i])
  }

  function HeaderBytes(o: ByteOrder, h: Header): (b: seq<byte>)
    requires HeaderFits(h)
    ensures |b| == HEADER
  {
    Put32(o, h.len) + Put16(o, h.kind) + Put16(o, h.flags) + Put32(o, h.sequence) + Put32(o, h.pid)
  }

  function HeaderOf(o: ByteOrder, b: seq<byte>): Header
    requires |b| >= HEADER
  {
    Header(Get32(o, b[0..4]), Get16(o, b[4..6]), Get16(o, b[6..8]), Get32(o, b[8..12]), Get32(o, b[12..16]))
  }

  lemma HeaderRoundTrip(o: ByteOrder, h: Header, rest: seq<byte>)
    requires HeaderFits(h)
    ensures HeaderOf(o, HeaderBytes(o, h) + rest) == h
  {
    var b := HeaderBytes(o, h) + rest;
    assert b[0..4] == Put32(o, h.len);
    assert b[4..6] == Put16(o, h.kind);
    assert b[6..8] == Put16(o, h.flags);
    assert b[8..12] == Put32(o, h.sequence);
    assert b[12..16] == Put32(o, h.pid);
    Number32(o, h.len);
    Number16(o, h.kind);
    Number16(o, h.flags);
    Number32(o, h.sequence);
    Number32(o, h.pid);
  }

  function Align(n: nat): (a: nat)
    ensures n <= a < n + 4 && a % 4 == 0
  {
    (n + 3) / 4 * 4
  }

  // ----- datagrams

  /** syscall.ParseNetlinkMessage: messages back to back, each at a multiple of four bytes. */
  function ParseDatagram(o: ByteOrder, b: seq<byte>): Option<seq<Message>>
    decreases |b|
  {
    if |b| < HEADER then Some([])
    else
      var h := HeaderOf(o, b);
      if h.len < HEADER || Align(h.len) > |b| then None
      else
        var rest := ParseDatagram(o, b[Align(h.len)..]);
        if rest.None? then None else Some([Message(h, b[HEADER..h.len])] + rest.value)
  }

  function Zeros(n: nat): seq<byte> {
    seq(n, _ => 0)
  }

  function Padded(o: ByteOrder, m: Message): (b: seq<byte>)
    requires WellFormed(m)
    ensures |b| == Align(m.header.len)
  {
    HeaderBytes(o, m.header) + m.data + Zeros(Align(m.header.len) - m.header.len)
  }

  function Datagram(o: ByteOrder, ms: seq<Message>): seq<byte>
    requires AllWellFormed(ms)
  {
    if ms == [] then [] else Padded(o, ms[0]) + Datagram(o, ms[1..])
  }

  lemma PaddedFront(o: ByteOrder, m: Message, rest: seq<byte>)
    requires WellFormed(m)
    ensures var b := Padded(o, m) + rest;
            && |b| >= HEADER && HeaderOf(o, b) == m.header && Align(m.header.len) <= |b|
            && b[HEADER..m.header.len] == m.data && b[Align(m.header.len)..] == rest
  {
    var zeros := Zeros(Align(m.header.len) - m.header.len);
    var b := Padded(o, m) + rest;
    assert b == HeaderBytes(o, m.header) + (m.data + zeros + rest);
    HeaderRoundTrip(o, m.header, m.data + zeros + rest);
  }

  /** Any list of messages, written as one datagram, is parsed back. */
  lemma {:induction false} DatagramRoundTrip(o: ByteOrder, ms: seq<Message>)
    requires AllWellFormed(ms)
    ensures ParseDatagram(o, Datagram(o, ms)) == Some(ms)
    ensures ms != [] ==> |Datagram(o, ms)| >= HEADER
    decreases |ms|
  {
    if ms != [] {
      DatagramRoundTrip(o, ms[1..]);
      PaddedFront(o, ms[0], Datagram(o, ms[1..]));
      assert ms == [ms[0]] + ms[1..];
    }
  }

  /** What follows a list of messages is parsed on its own; fewer bytes than a
      header are passed over, and a header with a length that is too small or
      too large makes the whole datagram unreadable. */
  lemma {:induction false} DatagramThen(o: ByteOrder, ms: seq<Message>, rest: seq<byte>)
    requires AllWellFormed(ms)
    ensures |rest| < 16 ==> ParseDatagram(o, Datagram(o, ms) + rest) == Some(ms)
    ensures |rest| >= 16 && (Get32(o, rest[0..4]) < 16 || (Get32(o, rest[0..4]) + 3) / 4 * 4 > |rest|) ==>
              ParseDatagram(o, Datagram(o, ms) + rest) == None
    decreases |ms|
  {
    if ms == [] {
      assert Datagram(o, ms) + rest == rest;
    } else {
      DatagramThen(o, ms[1..], rest);
      Assoc(Padded(o, ms[0]), Datagram(o, ms[1..]), rest);
      PaddedFront(o, ms[0], Datagram(o, ms[1..]) + rest);
      assert ms == [ms[0]] + ms[1..];
    }
  }

  // ----- serialize

  // The field types of a header, length apart.
  predicate FieldsFit(h: Header) {
    h.kind < U16 && h.flags < U16 && h.sequence < U32 && h.pid < U32
  }

  // serialize overwrites whatever length the caller left in the header.
  function Sized(m: Message): Message {
    m.(header := m.header.(len := HEADER + |m.data|))
  }

  // The length goes through a conversion to 32 bits, and the buffer has that length.
  function WireHeader(m: Message): Header {
    m.header.(len := (HEADER + |m.data|) % U32)
  }

  /** The buffer: the header and as much of the payload as fits, or nothing
      when it is too short for the header and filling it panics. */
  function Serialized(o: ByteOrder, m: Message): Option<seq<byte>>
    requires FieldsFit(m.header)
  {
    var h := WireHeader(m);
    if h.len < HEADER then None else Some(HeaderBytes(o, h) + m.data[..h.len - HEADER])
  }

  method PutUint(b: array<byte>, off: nat, bytes: seq<byte>)
    requires off + |bytes| <= b.Length
    modifies b
    ensures b[..] == old(b[..off]) + bytes + old(b[off + |bytes|..])
  {
    for i := 0 to |bytes|
      invariant b[..] == old(b[..off]) + bytes[..i] + old(b[off + i..])
    {
      b[off + i] := bytes[i];
    }
  }

  method Serialize(o: ByteOrder, m: Message) returns (r: Option<array<byte>>)
    requires FieldsFit(m.header)
    ensures r.Some? <==> Serialized(o, m).Some?
    ensures r.Some? ==> fresh(r.value) && r.value[..] == Serialized(o, m).value
  {
    var h := WireHeader(m);
    if h.len < HEADER {
      return None;
    }
    var b := new byte[h.len](_ => 0);
    PutUint(b, 0, Put32(o, h.len));
    PutUint(b, 4, Put16(o, h.kind));
    PutUint(b, 6, Put16(o, h.flags));
    PutUint(b, 8, Put32(o, h.sequence));
    PutUint(b, 12, Put32(o, h.pid));
    assert b[..16] == HeaderBytes(o, h);
    PutUint(b, 16, m.data[..h.len - HEADER]);
    return Some(b);
  }

  /** A serialized request is read back, with its length filled in, if and only
      if its payload needs no padding and its length fits in 32 bits. */
  lemma SerializedRoundTrip(o: ByteOrder, m: Message)
    requires FieldsFit(m.header)
    ensures (Serialized(o, m).Some? && ParseDatagram(o, Serialized(o, m).value) == Some([Sized(m)]))
            <==> |m.data| % 4 == 0 && HEADER + |m.data| < U32
  {
    if HEADER + |m.data| < U32 {
      SerializedWhole(o, m);
      if |m.data| % 4 == 0 {
        SerializedAligned(o, m);
      } else {
        SerializedCutShort(o, m);
      }
    } else if Serialized(o, m).Some? {
      FirstLength(o, Serialized(o, m).value);
    }
  }

  lemma SerializedWhole(o: ByteOrder, m: Message)
    requires FieldsFit(m.header) && HEADER + |m.data| < U32
    ensures HeaderFits(Sized(m).header) && Serialized(o, m) == Some(HeaderBytes(o, Sized(m).header) + m.data)
  {
    NoWrap(HEADER + |m.data|);
    assert m.data[..|m.data|] == m.data;
  }

  /** Where everything is in a serialized request: the length, as the buffer
      has it, the type, the flags, the sequence number, the pid, the payload. */
  lemma SerializedLayout(o: ByteOrder, m: Message)
    requires FieldsFit(m.header) && Serialized(o, m).Some?
    ensures var b := Serialized(o, m).value;
            && |b| == (16 + |m.data|) % 0x1_0000_0000 && 16 <= |b| <= 16 + |m.data|
            && b[0..4] == Put32(o, |b|) && b[4..6] == Put16(o, m.header.kind) && b[6..8] == Put16(o, m.header.flags)
            && b[8..12] == Put32(o, m.header.sequence) && b[12..16] == Put32(o, m.header.pid)
            && b[16..] == m.data[..|b| - 16]
  {
    HeaderSlices(o, WireHeader(m), m.data[..WireHeader(m).len - HEADER]);
  }

  lemma HeaderSlices(o: ByteOrder, h: Header, rest: seq<byte>)
    requires HeaderFits(h)
    ensures var b := HeaderBytes(o, h) + rest;
            && b[0..4] == Put32(o, h.len) && b[4..6] == Put16(o, h.kind) && b[6..8] == Put16(o, h.flags)
            && b[8..12] == Put32(o, h.sequence) && b[12..16] == Put32(o, h.pid) && b[16..] == rest
  {
  }

  lemma NoWrap(n: nat)
    requires n < U32
    ensures n % U32 == n
  {
  }

  // No message read from a buffer has a length of 33 bits.
  lemma FirstLength(o: ByteOrder, b: seq<byte>)
    requires |b| >= HEADER
    ensures var ms := ParseDatagram(o, b); ms.Some? ==> ms.value != [] && ms.value[0].header.len < U32
  {
  }

  lemma SerializedAligned(o: ByteOrder, m: Message)
    requires HeaderFits(Sized(m).header) && |m.data| % 4 == 0
    ensures ParseDatagram(o, HeaderBytes(o, Sized(m).header) + m.data) == Some([Sized(m)])
  {
    DatagramRoundTrip(o, [Sized(m)]);
    PaddedAligned(o, Sized(m));
    DatagramOfOne(o, Sized(m));
  }

  lemma PaddedAligned(o: ByteOrder, m: Message)
    requires WellFormed(m) && |m.data| % 4 == 0
    ensures Padded(o, m) == HeaderBytes(o, m.header) + m.data
  {
    AlignExact(|m.data|);
  }

  lemma DatagramOfOne(o: ByteOrder, m: Message)
    requires WellFormed(m)
    ensures Datagram(o, [m]) == Padded(o, m)
  {
    assert Datagram(o, [m][1..]) == [];
  }

  lemma AlignExact(n: nat)
    ensures Align(HEADER + n) == HEADER + n <==> n % 4 == 0
  {
  }

  lemma SerializedCutShort(o: ByteOrder, m: Message)
    requires HeaderFits(Sized(m).header) && |m.data| % 4 != 0
    ensures ParseDatagram(o, HeaderBytes(o, Sized(m).header) + m.data) == None
  {
    HeaderRoundTrip(o, Sized(m).header, m.data);
    AlignExact(|m.data|);
  }
}
