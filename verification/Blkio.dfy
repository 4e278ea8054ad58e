/**
 Block-IO throttling of a cgroup: six files of "major:minor [operation] value"
 lines are merged into one record per device and two totals.
 */
module Blkio {
  import opened Decimal
  import opened MapOrder
  import opened Numbers
  import opened Text
  import opened Wrappers

  datatype DeviceID = DeviceID(major: nat, minor: nat)

  datatype OpValues = OpValues(read: nat, write: nat, async: nat, sync: nat)

  datatype ThrottleDevice = ThrottleDevice(
    id: DeviceID,
    readLimitBPS: nat, writeLimitBPS: nat, readLimitIOPS: nat, writeLimitIOPS: nat,
    bytes: OpValues, ios: OpValues)

  datatype BlkioValue = BlkioValue(id: DeviceID, op: string, value: nat)

  datatype BlkioError = Unreadable | InvalidFormat | BadNumber(error: NumError)

  // ----- one line

  predicate IsColonOrSpace(c: char) {
    IsSpace(c) || c == ':'
  }

  // The two letters beyond ASCII whose lower case is ASCII are here as well;
  // other letters do not occur in the names of operations, in either case.
  function LowerChar(c: char): char {
    if 'A' <= c <= 'Z' then c - 'A' + 'a'
    else if c == '\U{0130}' then 'i'
    else if c == '\U{212A}' then 'k'
    else c
  }

  function Lower(s: string): string {
    seq(|s|, i requires 0 <= i < |s| => LowerChar(s[i]))
  }

  function ParseBlkioValue(line: string): Result<BlkioValue, BlkioError> {
    var fields := FieldsFunc(IsColonOrSpace, line);
    if |fields| != 3 && |fields| != 4 then Err(InvalidFormat)
    else
      var major := ParseUnsigned(fields[0]);
      if major.Err? then Err(BadNumber(major.error))
      else
        var minor := ParseUnsigned(fields[1]);
        if minor.Err? then Err(BadNumber(minor.error))
        else
          var value := ParseUint(fields[|fields| - 1]);
          if value.Err? then Err(BadNumber(value.error))
          else
            var op := if |fields| == 3 then "" else Lower(fields[2]);
            Ok(BlkioValue(DeviceID(major.value, minor.value), op, value.value))
  }

  // The words of a line after "major:".
  function LineWords(minor: nat, op: string, v: int): seq<string> {
    [Digits(minor)] + (if op == "" then [] else [op]) + [DecimalText(v)]
  }

  lemma WrittenFields(id: DeviceID, op: string, v: int)
    requires NoneOf(IsColonOrSpace, op)
    ensures FieldsFunc(IsColonOrSpace, Digits(id.major) + ":" + Join(' ', LineWords(id.minor, op, v))) ==
            [Digits(id.major)] + LineWords(id.minor, op, v)
  {
    NumberIsWord(id.major);
    NumberIsWord(id.minor);
    NumberIsWord(v);
    var words := LineWords(id.minor, op, v);
    FieldsOfJoin(IsColonOrSpace, ' ', words);
    JoinStep(IsColonOrSpace, ':', Digits(id.major), Join(' ', words));
  }

  /** A written line parses to what was written, in either form; a negative
      value reads as zero and an oversized one is an error. */
  lemma ParseWrittenLine(id: DeviceID, op: string, v: int)
    requires id.major < UINT64 && id.minor < UINT64 && NoneOf(IsColonOrSpace, op)
    ensures ParseBlkioValue(Digits(id.major) + ":" + Join(' ', LineWords(id.minor, op, v))) ==
            if v < UINT64 then Ok(BlkioValue(id, Lower(op), if v < 0 then 0 else v)) else Err(BadNumber(Range))
  {
    WrittenFields(id, op, v);
    ParseUnsignedDigits(Digits(id.major));
    ParseUnsignedDigits(Digits(id.minor));
    ValueOfDigits(id.major);
    ValueOfDigits(id.minor);
    ParseUintCanonical(v, "", "");
    assert "" + DecimalText(v) + "" == DecimalText(v);
    assert Lower("") == "";
  }

  lemma NumberIsWord(v: int)
    ensures DecimalText(v) != [] && NoneOf(IsColonOrSpace, DecimalText(v))
  {
    assert forall c :: IsDigit(c) || c == '-' ==> !IsColonOrSpace(c);
  }

  // ----- one file

  datatype FileRead = Missing | Failed | Scanned(scan: Scan)

  predicate IsDataLine(line: string) {
    var trimmed := TrimSpace(line);
    trimmed != "" && IsDigit(trimmed[0])
  }

  // What one line gives.
  datatype LineRead = Skipped | Value(value: BlkioValue) | Bad(error: BlkioError)

  function ReadLine(line: string): LineRead {
    if !IsDataLine(line) then Skipped
    else
      match ParseBlkioValue(line)
      case Ok(v) => Value(v)
      case Err(e) => Bad(e)
  }

  function ReadLines(lines: seq<string>): seq<LineRead> {
    seq(|lines|, i requires 0 <= i < |lines| => ReadLine(lines[i]))
  }

  // What the first n lines give, or the error of the first bad one.
  function ValuesUpTo(results: seq<LineRead>, n: nat): Result<seq<BlkioValue>, BlkioError>
    requires n <= |results|
  {
    if n == 0 then Ok([])
    else
      var r := ValuesUpTo(results, n - 1);
      if r.Err? then r
      else
        match results[n - 1]
        case Skipped => r
        case Value(v) => Ok(r.value + [v])
        case Bad(e) => Err(e)
  }

  lemma {:induction false} ErrorStays(results: seq<LineRead>, n: nat, k: nat)
    requires n <= k <= |results| && ValuesUpTo(results, n).Err?
    ensures ValuesUpTo(results, k) == ValuesUpTo(results, n)
    decreases k
  {
    if n < k {
      ErrorStays(results, n, k - 1);
    }
  }

  function ValuesOf(file: FileRead): Result<seq<BlkioValue>, BlkioError> {
    match file
    case Missing => Ok([])
    case Failed => Err(Unreadable)
    case Scanned(scan) =>
      var r := ValuesUpTo(ReadLines(scan.lines), |scan.lines|);
      if r.Ok? && scan.failed then Err(Unreadable) else r
  }

  method ReadBlkioValues(file: FileRead) returns (r: Result<seq<BlkioValue>, BlkioError>)
    ensures r == ValuesOf(file)
  {
    if file.Missing? {
      return Ok([]);
    }
    if file.Failed? {
      return Err(Unreadable);
    }
    var lines := file.scan.lines;
    ghost var results := ReadLines(lines);
    var values := [];
    for i := 0 to |lines|
      invariant ValuesUpTo(results, i) == Ok(values)
    {
      var line := ReadLine(lines[i]);
      assert line == results[i];
      if line.Bad? {
        ErrorStays(results, i + 1, |lines|);
        return Err(line.error);
      }
      if line.Value? {
        values := values + [line.value];
      }
    }
    if file.scan.failed {
      return Err(Unreadable);
    }
    return Ok(values);
  }

  // The first bad line.
  ghost predicate FirstBad(results: seq<LineRead>, i: int, error: BlkioError) {
    0 <= i < |results| && results[i] == Bad(error) && forall j :: 0 <= j < i ==> !results[j].Bad?
  }

  lemma {:induction false} ValuesParse(results: seq<LineRead>, n: nat)
    requires n <= |results|
    ensures ValuesUpTo(results, n).Ok? <==> forall i :: 0 <= i < n ==> !results[i].Bad?
    ensures ValuesUpTo(results, n).Err? ==> exists i :: i < n && FirstBad(results, i, ValuesUpTo(results, n).error)
  {
    if n > 0 {
      ValuesParse(results, n - 1);
      if ValuesUpTo(results, n - 1).Ok? && results[n - 1].Bad? {
        assert FirstBad(results, n - 1, results[n - 1].error);
      }
    }
  }

  /** A file gives values exactly when it is missing, or was read to its end
      and every data line parses; otherwise the first bad line decides. */
  lemma ValuesExist(file: FileRead)
    ensures ValuesOf(file).Ok? <==>
            || file.Missing?
            || (file.Scanned? && !file.scan.failed
                && forall i :: 0 <= i < |file.scan.lines| ==> !ReadLines(file.scan.lines)[i].Bad?)
    ensures file.Scanned? && (exists i :: 0 <= i < |file.scan.lines| && ReadLines(file.scan.lines)[i].Bad?) ==>
              ValuesOf(file).Err? && exists i :: FirstBad(ReadLines(file.scan.lines), i, ValuesOf(file).error)
  {
    if file.Scanned? {
      ValuesParse(ReadLines(file.scan.lines), |file.scan.lines|);
    }
  }

  // ----- a file as the kernel writes it

  datatype Written = Written(id: DeviceID, op: string, value: nat)

  function WrittenLine(w: Written): string {
    Digits(w.id.major) + ":" + Join(' ', LineWords(w.id.minor, w.op, w.value))
  }

  ghost predicate Writable(w: Written) {
    w.id.major < UINT64 && w.id.minor < UINT64 && w.value < UINT64 && NoneOf(IsColonOrSpace, w.op)
  }

  function AsRead(w: Written): BlkioValue {
    BlkioValue(w.id, Lower(w.op), w.value)
  }

  lemma WrittenIsData(w: Written)
    ensures IsDataLine(WrittenLine(w))
  {
    var words := LineWords(w.id.minor, w.op, w.value);
    JoinEnds(' ', words);
    var line := WrittenLine(w);
    assert IsDigit(line[0]) && line[|line| - 1] == DecimalText(w.value)[|DecimalText(w.value)| - 1];
    TrimSurrounded("", line, "");
    assert "" + line + "" == line;
  }

  lemma WrittenReads(w: Written)
    requires Writable(w)
    ensures ReadLine(WrittenLine(w)) == Value(AsRead(w))
  {
    WrittenIsData(w);
    ParseWrittenLine(w.id, w.op, w.value);
  }

  /** A file of written lines reads back as the list that was written. */
  lemma WrittenFile(ws: seq<Written>)
    requires forall i :: 0 <= i < |ws| ==> Writable(ws[i])
    ensures ValuesOf(Scanned(Scan(WrittenLines(ws), false))) == Ok(ReadBack(ws))
  {
    var results := ReadLines(WrittenLines(ws));
    forall i | 0 <= i < |ws| ensures results[i] == Value(ReadBack(ws)[i]) {
      WrittenReads(ws[i]);
    }
    AllValuesRead(results, ReadBack(ws), |ws|);
    assert ReadBack(ws)[..|ws|] == ReadBack(ws);
  }

  function WrittenLines(ws: seq<Written>): seq<string> {
    seq(|ws|, i requires 0 <= i < |ws| => WrittenLine(ws[i]))
  }

  function ReadBack(ws: seq<Written>): seq<BlkioValue> {
    seq(|ws|, i requires 0 <= i < |ws| => AsRead(ws[i]))
  }

  lemma {:induction false} AllValuesRead(results: seq<LineRead>, values: seq<BlkioValue>, n: nat)
    requires n <= |results| == |values| && forall i :: 0 <= i < n ==> results[i] == Value(values[i])
    ensures ValuesUpTo(results, n) == Ok(values[..n])
  {
    if n > 0 {
      AllValuesRead(results, values, n - 1);
      assert values[..n] == values[..n - 1] + [values[n - 1]];
    }
  }

  // ----- the last value per device and operation

  ghost predicate Matches(v: BlkioValue, id: DeviceID, op: string) {
    v.id == id && v.op == op
  }

  ghost function LastOf(values: seq<BlkioValue>, id: DeviceID, op: string): Option<nat> {
    if values == [] then None
    else
      var later := LastOf(values[1..], id, op);
      if later.Some? then later
      else if Matches(values[0], id, op) then Some(values[0].value)
      else None
  }

  ghost function LastLimit(values: seq<BlkioValue>, id: DeviceID): Option<nat> {
    if values == [] then None
    else
      var later := LastLimit(values[1..], id);
      if later.Some? then later else if values[0].id == id then Some(values[0].value) else None
  }

  function Or(o: Option<nat>, default: nat): nat {
    if o.Some? then o.value else default
  }

  // An operation record with the values of the lines still to come put in.
  ghost function Overlay(old': OpValues, values: seq<BlkioValue>, id: DeviceID): OpValues {
    OpValues(Or(LastOf(values, id, "read"), old'.read), Or(LastOf(values, id, "write"), old'.write),
             Or(LastOf(values, id, "async"), old'.async), Or(LastOf(values, id, "sync"), old'.sync))
  }

  const ZERO_OPS := OpValues(0, 0, 0, 0)

  ghost function OpsOf(values: seq<BlkioValue>, id: DeviceID): OpValues {
    Overlay(ZERO_OPS, values, id)
  }

  function Ids(values: seq<BlkioValue>): set<DeviceID> {
    set i | 0 <= i < |values| :: values[i].id
  }

  lemma IdsTail(values: seq<BlkioValue>)
    requires values != []
    ensures Ids(values) == {values[0].id} + Ids(values[1..])
  {
    assert values == [values[0]] + values[1..];
    forall id | id in Ids(values) ensures id in {values[0].id} + Ids(values[1..]) {
      var i :| 0 <= i < |values| && values[i].id == id;
      assert i > 0 ==> values[1..][i - 1].id == id;
    }
    forall id | id in Ids(values[1..]) ensures id in Ids(values) {
      var i :| 0 <= i < |values[1..]| && values[1..][i].id == id;
      assert values[i + 1].id == id;
    }
  }

  function SetOp(ops: OpValues, op: string, value: nat): OpValues {
    if op == "read" then ops.(read := value)
    else if op == "write" then ops.(write := value)
    else if op == "async" then ops.(async := value)
    else if op == "sync" then ops.(sync := value)
    else ops
  }

  function OpsIn(m: map<DeviceID, OpValues>, id: DeviceID): OpValues {
    if id in m then m[id] else ZERO_OPS
  }

  /** One record per device on the lines, holding the last value of each operation. */
  method CollectOpValues(values: seq<BlkioValue>) returns (m: map<DeviceID, OpValues>)
    ensures m.Keys == Ids(values)
    ensures forall id :: id in m ==> m[id] == OpsOf(values, id)
  {
    m := map[];
    for i := 0 to |values|
      invariant m.Keys + Ids(values[i..]) == Ids(values)
      invariant forall id :: Overlay(OpsIn(m, id), values[i..], id) == OpsOf(values, id)
    {
      var bv := values[i];
      assert values[i..][1..] == values[i + 1..];
      IdsTail(values[i..]);
      var before := m;
      m := m[bv.id := SetOp(OpsIn(m, bv.id), bv.op, bv.value)];
      forall id ensures Overlay(OpsIn(m, id), values[i + 1..], id) == Overlay(OpsIn(before, id), values[i..], id) {
        OverlayStep(OpsIn(before, id), values[i..], id);
      }
    }
    assert values[|values|..] == [];
  }

  lemma OverlayStep(ops: OpValues, values: seq<BlkioValue>, id: DeviceID)
    requires values != []
    ensures Overlay(ops, values, id) ==
            Overlay(if values[0].id == id then SetOp(ops, values[0].op, values[0].value) else ops, values[1..], id)
  {
  }

  // ----- conservation: what the totals add up to

  predicate Transfers(v: BlkioValue) {
    v.op == "read" || v.op == "write"
  }

  /** The read and write lines that no later line for the same device and operation replaces, added up. */
  ghost function LiveSum(values: seq<BlkioValue>): nat {
    if values == [] then 0
    else
      (if Transfers(values[0]) && LastOf(values[1..], values[0].id, values[0].op).None? then values[0].value else 0)
      + LiveSum(values[1..])
  }

  // All read and write lines, added up.
  function LineSum(values: seq<BlkioValue>): nat {
    if values == [] then 0 else (if Transfers(values[0]) then values[0].value else 0) + LineSum(values[1..])
  }

  // At most one line per device and operation.
  ghost predicate OneLineEach(values: seq<BlkioValue>) {
    forall i, j :: 0 <= i < j < |values| ==> !Matches(values[j], values[i].id, values[i].op)
  }

  lemma {:induction false} LastOfFinds(values: seq<BlkioValue>, id: DeviceID, op: string)
    ensures LastOf(values, id, op).None? <==> forall i :: 0 <= i < |values| ==> !Matches(values[i], id, op)
  {
    if values != [] {
      LastOfFinds(values[1..], id, op);
      assert forall i :: 0 < i < |values| ==> values[i] == values[1..][i - 1];
    }
  }

  /** With at most one line per device and operation every line is live. */
  lemma {:induction false} LiveSumIsLineSum(values: seq<BlkioValue>)
    requires OneLineEach(values)
    ensures LiveSum(values) == LineSum(values)
  {
    if values != [] {
      LastOfFinds(values[1..], values[0].id, values[0].op);
      LiveSumIsLineSum(values[1..]);
    }
  }

  ghost function Transferred(values: seq<BlkioValue>, id: DeviceID): nat {
    OpsOf(values, id).read + OpsOf(values, id).write
  }

  ghost function SumOver(order: seq<DeviceID>, values: seq<BlkioValue>): nat {
    if order == [] then 0 else Transferred(values, order[0]) + SumOver(order[1..], values)
  }

  // One line changes the sum over all devices by its own value, once.
  lemma {:induction false} SumStep(order: seq<DeviceID>, values: seq<BlkioValue>, delta: nat)
    requires values != [] && Distinct(order)
    requires forall id ::
               Transferred(values, id) == Transferred(values[1..], id) + if id == values[0].id then delta else 0
    ensures SumOver(order, values) == SumOver(order, values[1..]) + if values[0].id in order then delta else 0
    decreases |order|
  {
    if order != [] {
      SumStep(order[1..], values, delta);
      assert order == [order[0]] + order[1..];
    }
  }

  lemma TransferStep(values: seq<BlkioValue>, id: DeviceID)
    requires values != []
    ensures var v := values[0];
            var live := Transfers(v) && LastOf(values[1..], v.id, v.op).None?;
            Transferred(values, id) == Transferred(values[1..], id) + if id == v.id && live then v.value else 0
  {
  }

  lemma {:induction false} SumOfNothing(order: seq<DeviceID>)
    ensures SumOver(order, []) == 0
    decreases |order|
  {
    if order != [] {
      SumOfNothing(order[1..]);
    }
  }

  /** Added up over the devices in any order, the records hold exactly the live lines. */
  lemma {:induction false} SumIsLiveSum(order: seq<DeviceID>, values: seq<BlkioValue>)
    requires Distinct(order) && forall i :: 0 <= i < |values| ==> values[i].id in order
    ensures SumOver(order, values) == LiveSum(values)
    decreases |values|
  {
    if values == [] {
      SumOfNothing(order);
    } else {
      var v := values[0];
      var live := Transfers(v) && LastOf(values[1..], v.id, v.op).None?;
      forall id ensures Transferred(values, id) ==
                        Transferred(values[1..], id) + if id == v.id then (if live then v.value else 0) else 0
      {
        TransferStep(values, id);
      }
      SumStep(order, values, if live then v.value else 0);
      assert forall i :: 0 <= i < |values[1..]| ==> values[1..][i] == values[i + 1];
      SumIsLiveSum(order, values[1..]);
    }
  }
}
