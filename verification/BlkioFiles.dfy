/**
 The throttle files of a cgroup as the kernel writes them, with its spelling of
 the operations and its summary lines, and what is made of them: stated over
 what was written, and not over what the parsers make of it.
 */
module BlkioFiles {
  import opened Blkio
  import opened BlkioThrottle
  import opened Decimal
  import opened MapOrder
  import opened Numbers
  import opened Text
  import opened Wrappers

  // ----- lines

  /** A line about a device, or one whose first visible character is no digit, if it has any. */
  datatype FileLine = Data(w: Written) | Other(blanks: string, rest: string)

  predicate KernelOp(op: string) {
    op == "Read" || op == "Write" || op == "Sync" || op == "Async" || op == "Discard" || op == "Total"
  }

  ghost predicate ProperLine(l: FileLine) {
    match l
    case Data(w) => Writable(w)
    case Other(blanks, rest) => AllOf(IsSpace, blanks) && (rest == "" || (!IsSpace(rest[0]) && !IsDigit(rest[0])))
  }

  function LineText(l: FileLine): string {
    match l
    case Data(w) => WrittenLine(w)
    case Other(blanks, rest) => blanks + rest
  }

  function LineTexts(ls: seq<FileLine>): seq<string> {
    seq(|ls|, i requires 0 <= i < |ls| => LineText(ls[i]))
  }

  function Datas(ls: seq<FileLine>): seq<Written> {
    if ls == [] then []
    else Datas(ls[..|ls| - 1]) + if ls[|ls| - 1].Data? then [ls[|ls| - 1].w] else []
  }

  lemma {:induction false} TrimRightKeepsFirst(s: string)
    requires s != [] && !IsSpace(s[0])
    ensures TrimRight(s) != [] && TrimRight(s)[0] == s[0]
  {
    if IsSpace(s[|s| - 1]) {
      TrimRightKeepsFirst(s[..|s| - 1]);
    }
  }

  lemma OtherIsSkipped(blanks: string, rest: string)
    requires ProperLine(Other(blanks, rest))
    ensures ReadLine(blanks + rest) == Skipped
  {
    TrimLeftDrops(blanks, rest);
    if rest != "" {
      TrimRightKeepsFirst(rest);
    }
  }

  function Expected(l: FileLine): LineRead {
    if l.Data? then Value(AsRead(l.w)) else Skipped
  }

  lemma ReadsLine(l: FileLine)
    requires ProperLine(l)
    ensures ReadLine(LineText(l)) == Expected(l)
  {
    match l
    case Data(w) => WrittenReads(w);
    case Other(blanks, rest) => OtherIsSkipped(blanks, rest);
  }

  lemma {:induction false} ReadsDatas(ls: seq<FileLine>, results: seq<LineRead>, n: nat)
    requires n <= |ls| == |results| && forall i :: 0 <= i < |ls| ==> results[i] == Expected(ls[i])
    ensures ValuesUpTo(results, n) == Ok(ReadBack(Datas(ls[..n])))
  {
    if n == 0 {
      assert ls[..0] == [] && ReadBack([]) == [];
    } else {
      ReadsDatas(ls, results, n - 1);
      assert ls[..n][..n - 1] == ls[..n - 1] && ls[..n][n - 1] == ls[n - 1];
      var before := Datas(ls[..n - 1]);
      if ls[n - 1].Data? {
        assert ReadBack(before + [ls[n - 1].w]) == ReadBack(before) + [AsRead(ls[n - 1].w)];
      } else {
        assert before + [] == before;
      }
    }
  }

  function FileOf(ls: seq<FileLine>): FileRead {
    Scanned(Scan(LineTexts(ls), false))
  }

  /** A file reads back as what its lines about devices say. */
  lemma FileReads(ls: seq<FileLine>)
    requires forall i :: 0 <= i < |ls| ==> ProperLine(ls[i])
    ensures ValuesOf(FileOf(ls)) == Ok(ReadBack(Datas(ls)))
  {
    forall i | 0 <= i < |ls| ensures ReadLines(LineTexts(ls))[i] == Expected(ls[i]) {
      ReadsLine(ls[i]);
    }
    ReadsDatas(ls, ReadLines(LineTexts(ls)), |ls|);
    assert ls[..|ls|] == ls;
  }

  // ----- the kernel's spelling

  lemma LowerAt(s: string, t: string)
    requires |s| == |t| && forall i :: 0 <= i < |s| ==> LowerChar(s[i]) == t[i]
    ensures Lower(s) == t
  {
  }

  lemma Spelling()
    ensures Lower("Read") == "read" && Lower("Write") == "write" && Lower("Sync") == "sync"
    ensures Lower("Async") == "async" && Lower("Discard") == "discard" && Lower("Total") == "total"
  {
    LowerAt("Read", "read");
    LowerAt("Write", "write");
    LowerAt("Sync", "sync");
    LowerAt("Async", "async");
    LowerAt("Discard", "discard");
    LowerAt("Total", "total");
  }

  // Which operation a line is counted for.
  lemma SpellingExactly(op: string)
    requires KernelOp(op)
    ensures Lower(op) == "read" <==> op == "Read"
    ensures Lower(op) == "write" <==> op == "Write"
    ensures Lower(op) == "sync" <==> op == "Sync"
    ensures Lower(op) == "async" <==> op == "Async"
  {
    Spelling();
    assert |"read"| == 4 && |"write"| == 5 && |"sync"| == 4 && |"async"| == 5 && |"discard"| == 7 && |"total"| == 5;
    assert "read"[0] == 'r' && "sync"[0] == 's' && "write"[0] == 'w' && "async"[0] == 'a' && "total"[0] == 't';
  }

  // ----- the last value, and the sum, over what was written

  /** The last value written for a device and an operation, or zero. */
  function LastWritten(ws: seq<Written>, id: DeviceID, op: string): nat {
    if ws == [] then 0
    else
      var last := ws[|ws| - 1];
      if last.id == id && last.op == op then last.value else LastWritten(ws[..|ws| - 1], id, op)
  }

  /** The last value written for a device, or zero. */
  function LastFor(ws: seq<Written>, id: DeviceID): nat {
    if ws == [] then 0
    else
      var last := ws[|ws| - 1];
      if last.id == id then last.value else LastFor(ws[..|ws| - 1], id)
  }

  /** All that was written for "Read" and "Write". */
  function SumWritten(ws: seq<Written>): nat {
    if ws == [] then 0
    else
      var last := ws[|ws| - 1];
      SumWritten(ws[..|ws| - 1]) + if last.op == "Read" || last.op == "Write" then last.value else 0
  }

  lemma {:induction false} LastOfSnoc(values: seq<BlkioValue>, v: BlkioValue, id: DeviceID, op: string)
    ensures LastOf(values + [v], id, op) == if v.id == id && v.op == op then Some(v.value) else LastOf(values, id, op)
    decreases |values|
  {
    if values == [] {
      assert values + [v] == [v] && [v][1..] == [];
    } else {
      assert (values + [v])[0] == values[0] && (values + [v])[1..] == values[1..] + [v];
      LastOfSnoc(values[1..], v, id, op);
    }
  }

  lemma {:induction false} LastLimitSnoc(values: seq<BlkioValue>, v: BlkioValue, id: DeviceID)
    ensures LastLimit(values + [v], id) == if v.id == id then Some(v.value) else LastLimit(values, id)
    decreases |values|
  {
    if values == [] {
      assert values + [v] == [v] && [v][1..] == [];
    } else {
      assert (values + [v])[0] == values[0] && (values + [v])[1..] == values[1..] + [v];
      LastLimitSnoc(values[1..], v, id);
    }
  }

  lemma {:induction false} LineSumSnoc(values: seq<BlkioValue>, v: BlkioValue)
    ensures LineSum(values + [v]) == LineSum(values) + if v.op == "read" || v.op == "write" then v.value else 0
    decreases |values|
  {
    if values == [] {
      assert values + [v] == [v] && [v][1..] == [];
    } else {
      assert (values + [v])[0] == values[0] && (values + [v])[1..] == values[1..] + [v];
      LineSumSnoc(values[1..], v);
    }
  }

  lemma ReadBackLast(ws: seq<Written>)
    requires ws != []
    ensures ReadBack(ws) == ReadBack(ws[..|ws| - 1]) + [AsRead(ws[|ws| - 1])]
  {
  }

  ghost predicate AllKernelOps(ws: seq<Written>) {
    forall i :: 0 <= i < |ws| ==> KernelOp(ws[i].op)
  }

  lemma {:induction false} LastIsLast(ws: seq<Written>, id: DeviceID, op: string, spelled: string)
    requires AllKernelOps(ws)
    requires forall o {:trigger KernelOp(o)} :: KernelOp(o) ==> (Lower(o) == op <==> o == spelled)
    ensures Or(LastOf(ReadBack(ws), id, op), 0) == LastWritten(ws, id, spelled)
    decreases |ws|
  {
    if ws == [] {
      assert ReadBack(ws) == [];
    } else {
      var last := ws[|ws| - 1];
      assert KernelOp(last.op);
      ReadBackLast(ws);
      LastOfSnoc(ReadBack(ws[..|ws| - 1]), AsRead(last), id, op);
      LastIsLast(ws[..|ws| - 1], id, op, spelled);
    }
  }

  lemma {:induction false} LimitIsLast(ws: seq<Written>, id: DeviceID)
    ensures Or(LastLimit(ReadBack(ws), id), 0) == LastFor(ws, id)
    decreases |ws|
  {
    if ws == [] {
      assert ReadBack(ws) == [];
    } else {
      ReadBackLast(ws);
      LastLimitSnoc(ReadBack(ws[..|ws| - 1]), AsRead(ws[|ws| - 1]), id);
      LimitIsLast(ws[..|ws| - 1], id);
    }
  }

  lemma {:induction false} SumIsSum(ws: seq<Written>)
    requires AllKernelOps(ws)
    ensures LineSum(ReadBack(ws)) == SumWritten(ws)
    decreases |ws|
  {
    if ws == [] {
      assert ReadBack(ws) == [];
    } else {
      SpellingExactly(ws[|ws| - 1].op);
      ReadBackLast(ws);
      LineSumSnoc(ReadBack(ws[..|ws| - 1]), AsRead(ws[|ws| - 1]));
      SumIsSum(ws[..|ws| - 1]);
    }
  }

  /** All four operations of a device, as last written. */
  function OpsWritten(ws: seq<Written>, id: DeviceID): OpValues {
    OpValues(read := LastWritten(ws, id, "Read"), write := LastWritten(ws, id, "Write"),
             async := LastWritten(ws, id, "Async"), sync := LastWritten(ws, id, "Sync"))
  }

  lemma OpsAreWritten(ws: seq<Written>, id: DeviceID)
    requires AllKernelOps(ws)
    ensures OpsOf(ReadBack(ws), id) == OpsWritten(ws, id)
  {
    forall o {:trigger KernelOp(o)} | KernelOp(o)
      ensures Lower(o) == "read" <==> o == "Read"
      ensures Lower(o) == "write" <==> o == "Write"
      ensures Lower(o) == "sync" <==> o == "Sync"
      ensures Lower(o) == "async" <==> o == "Async"
    {
      SpellingExactly(o);
    }
    LastIsLast(ws, id, "read", "Read");
    LastIsLast(ws, id, "write", "Write");
    LastIsLast(ws, id, "async", "Async");
    LastIsLast(ws, id, "sync", "Sync");
  }

  // ----- totals

  // At most one "Read" and one "Write" line per device.
  ghost predicate WrittenOnce(ws: seq<Written>) {
    forall i, j :: 0 <= i < j < |ws| ==> !(ws[i].id == ws[j].id && ws[i].op == ws[j].op)
  }

  lemma LowerIsInjective(a: string, b: string)
    requires KernelOp(a) && KernelOp(b) && Lower(a) == Lower(b)
    ensures a == b
  {
    SpellingExactly(a);
    SpellingExactly(b);
    Spelling();
    assert |Lower("Discard")| == 7 && |Lower("Total")| == 5;
  }

  lemma OnceIsOnce(ws: seq<Written>)
    requires AllKernelOps(ws) && WrittenOnce(ws)
    ensures OneLineEach(ReadBack(ws))
  {
    var values := ReadBack(ws);
    forall i, j | 0 <= i < j < |values| ensures !Matches(values[j], values[i].id, values[i].op) {
      if Lower(ws[j].op) == Lower(ws[i].op) {
        LowerIsInjective(ws[j].op, ws[i].op);
      }
    }
  }

  // ----- the whole record

  ghost predicate Mentions(ls: seq<FileLine>, id: DeviceID) {
    exists i :: 0 <= i < |Datas(ls)| && Datas(ls)[i].id == id
  }

  ghost predicate ProperFile(ls: seq<FileLine>) {
    forall i :: 0 <= i < |ls| ==> ProperLine(ls[i])
  }

  lemma MentionsIds(ls: seq<FileLine>, id: DeviceID)
    ensures id in Ids(ReadBack(Datas(ls))) <==> Mentions(ls, id)
  {
    var ws := Datas(ls);
    if Mentions(ls, id) {
      var i :| 0 <= i < |ws| && ws[i].id == id;
      assert ReadBack(ws)[i].id == id;
    }
    if id in Ids(ReadBack(ws)) {
      var i :| 0 <= i < |ReadBack(ws)| && ReadBack(ws)[i].id == id;
      assert ws[i].id == id;
    }
  }

  /** The record of a device, from what was written to the six files. */
  function DeviceWritten(f: Files<seq<FileLine>>, id: DeviceID): ThrottleDevice {
    ThrottleDevice(
      id := id,
      readLimitBPS := LastFor(Datas(f.readBps), id),
      writeLimitBPS := LastFor(Datas(f.writeBps), id),
      readLimitIOPS := LastFor(Datas(f.readIops), id),
      writeLimitIOPS := LastFor(Datas(f.writeIops), id),
      bytes := OpsWritten(Datas(f.serviceBytes), id),
      ios := OpsWritten(Datas(f.serviced), id))
  }

  function Values(f: Files<seq<FileLine>>): Files<seq<BlkioValue>> {
    Files(serviceBytes := ReadBack(Datas(f.serviceBytes)), serviced := ReadBack(Datas(f.serviced)),
          readBps := ReadBack(Datas(f.readBps)), writeBps := ReadBack(Datas(f.writeBps)),
          readIops := ReadBack(Datas(f.readIops)), writeIops := ReadBack(Datas(f.writeIops)))
  }

  lemma DeviceIsWritten(f: Files<seq<FileLine>>, id: DeviceID)
    requires AllKernelOps(Datas(f.serviceBytes)) && AllKernelOps(Datas(f.serviced))
    ensures DeviceOf(Values(f), id) == DeviceWritten(f, id)
  {
    OpsAreWritten(Datas(f.serviceBytes), id);
    OpsAreWritten(Datas(f.serviced), id);
    LimitIsLast(Datas(f.readBps), id);
    LimitIsLast(Datas(f.writeBps), id);
    LimitIsLast(Datas(f.readIops), id);
    LimitIsLast(Datas(f.writeIops), id);
  }

  ghost predicate Mentioned(f: Files<seq<FileLine>>, id: DeviceID) {
    || Mentions(f.serviceBytes, id) || Mentions(f.serviced, id) || Mentions(f.readBps, id)
    || Mentions(f.writeBps, id) || Mentions(f.readIops, id) || Mentions(f.writeIops, id)
  }

  lemma SeenIsMentioned(f: Files<seq<FileLine>>, id: DeviceID)
    ensures id in Seen(Values(f)) <==> Mentioned(f, id)
  {
    MentionsIds(f.serviceBytes, id);
    MentionsIds(f.serviced, id);
    MentionsIds(f.readBps, id);
    MentionsIds(f.writeBps, id);
    MentionsIds(f.readIops, id);
    MentionsIds(f.writeIops, id);
  }

  // One device each, as written, in some order.
  ghost predicate DevicesWritten(devices: seq<ThrottleDevice>, order: seq<DeviceID>, f: Files<seq<FileLine>>) {
    && Distinct(order) && (forall id :: id in order <==> Mentioned(f, id))
    && |devices| == |order| && forall i :: 0 <= i < |order| ==> devices[i] == DeviceWritten(f, order[i])
  }

  lemma OneEachWritten(devices: seq<ThrottleDevice>, order: seq<DeviceID>, f: Files<seq<FileLine>>)
    requires AllKernelOps(Datas(f.serviceBytes)) && AllKernelOps(Datas(f.serviced))
    requires OneEach(devices, order, Values(f))
    ensures DevicesWritten(devices, order, f)
  {
    forall id ensures id in order <==> Mentioned(f, id) {
      SeenIsMentioned(f, id);
    }
    forall i | 0 <= i < |order| ensures devices[i] == DeviceWritten(f, order[i]) {
      DeviceIsWritten(f, order[i]);
    }
  }

  /** From files as the kernel writes them: one record per device that any of
      them mentions, with the last limits and the last value written for Read,
      Write, Async and Sync; and, with one line per device and operation,
      totals that are the sums of all Read and Write values modulo 2^64. */
  method ThrottleFiles(f: Files<seq<FileLine>>) returns (io: BlockIO, error: Option<BlkioError>)
    requires ProperFile(f.serviceBytes) && ProperFile(f.serviced) && ProperFile(f.readBps)
    requires ProperFile(f.writeBps) && ProperFile(f.readIops) && ProperFile(f.writeIops)
    requires AllKernelOps(Datas(f.serviceBytes)) && AllKernelOps(Datas(f.serviced))
    ensures fresh(io) && error.None?
    ensures exists order :: DevicesWritten(io.devices, order, f)
    ensures WrittenOnce(Datas(f.serviceBytes)) ==> io.totalBytes == SumWritten(Datas(f.serviceBytes)) % UINT64
    ensures WrittenOnce(Datas(f.serviced)) ==> io.totalIOs == SumWritten(Datas(f.serviced)) % UINT64
  {
    FileReads(f.serviceBytes);
    FileReads(f.serviced);
    FileReads(f.readBps);
    FileReads(f.writeBps);
    FileReads(f.readIops);
    FileReads(f.writeIops);
    var files := Files(serviceBytes := FileOf(f.serviceBytes), serviced := FileOf(f.serviced),
                       readBps := FileOf(f.readBps), writeBps := FileOf(f.writeBps),
                       readIops := FileOf(f.readIops), writeIops := FileOf(f.writeIops));
    io, error := ThrottleOnce(files);
    assert AllValues(files) == Values(f);
    ghost var order :| OneEach(io.devices, order, Values(f));
    OneEachWritten(io.devices, order, f);
    TotalsWritten(Datas(f.serviceBytes));
    TotalsWritten(Datas(f.serviced));
  }

  lemma TotalsWritten(ws: seq<Written>)
    requires AllKernelOps(ws)
    ensures WrittenOnce(ws) ==> OneLineEach(ReadBack(ws)) && LineSum(ReadBack(ws)) == SumWritten(ws)
  {
    if WrittenOnce(ws) {
      OnceIsOnce(ws);
      SumIsSum(ws);
    }
  }

  // ----- lines that are refused

  /** A line about a device has three or four words. */
  lemma WordCount(words: seq<string>)
    requires Words(IsColonOrSpace, words) && |words| != 3 && |words| != 4
    ensures ParseBlkioValue(Join(' ', words)) == Err(InvalidFormat)
  {
    FieldsOfJoin(IsColonOrSpace, ' ', words);
  }
}
