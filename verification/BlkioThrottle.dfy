/** Merging the six throttle files of a cgroup into its block-IO record. */
module BlkioThrottle {
  import opened Blkio
  import opened MapOrder
  import opened Numbers
  import opened Wrappers

  datatype Files<T> = Files(
    serviceBytes: T, serviced: T, readBps: T, writeBps: T, readIops: T, writeIops: T)

  // ----- devices

  function BlankDevice(id: DeviceID): ThrottleDevice {
    ThrottleDevice(id, 0, 0, 0, 0, ZERO_OPS, ZERO_OPS)
  }

  function GetDevice(devices: map<DeviceID, ThrottleDevice>, id: DeviceID): ThrottleDevice {
    if id in devices then devices[id] else BlankDevice(id)
  }

  datatype Limit = ReadBps | WriteBps | ReadIops | WriteIops

  function SetLimit(d: ThrottleDevice, limit: Limit, value: nat): ThrottleDevice {
    match limit
    case ReadBps => d.(readLimitBPS := value)
    case WriteBps => d.(writeLimitBPS := value)
    case ReadIops => d.(readLimitIOPS := value)
    case WriteIops => d.(writeLimitIOPS := value)
  }

  function SetOps(d: ThrottleDevice, transferred: bool, ops: OpValues): ThrottleDevice {
    if transferred then d.(bytes := ops) else d.(ios := ops)
  }

  // A device after the remaining lines of a limit file.
  ghost function WithLimit(d: ThrottleDevice, limit: Limit, values: seq<BlkioValue>): ThrottleDevice {
    if LastLimit(values, d.id).Some? then SetLimit(d, limit, LastLimit(values, d.id).value) else d
  }

  ghost function WithOps(d: ThrottleDevice, transferred: bool, values: seq<BlkioValue>): ThrottleDevice {
    if d.id in Ids(values) then SetOps(d, transferred, OpsOf(values, d.id)) else d
  }

  ghost predicate Keyed(devices: map<DeviceID, ThrottleDevice>) {
    forall id :: id in devices ==> devices[id].id == id
  }

  method MergeLimit(devices: map<DeviceID, ThrottleDevice>, limit: Limit, values: seq<BlkioValue>)
    returns (ds: map<DeviceID, ThrottleDevice>)
    requires Keyed(devices)
    ensures Keyed(ds) && ds.Keys == devices.Keys + Ids(values)
    ensures forall id :: GetDevice(ds, id) == WithLimit(GetDevice(devices, id), limit, values)
  {
    ds := devices;
    for i := 0 to |values|
      invariant Keyed(ds) && ds.Keys + Ids(values[i..]) == devices.Keys + Ids(values)
      invariant forall id :: WithLimit(GetDevice(ds, id), limit, values[i..]) ==
                             WithLimit(GetDevice(devices, id), limit, values)
    {
      assert values[i..][1..] == values[i + 1..];
      IdsTail(values[i..]);
      var bv := values[i];
      var before := ds;
      ds := ds[bv.id := SetLimit(GetDevice(ds, bv.id), limit, bv.value)];
      forall id ensures WithLimit(GetDevice(ds, id), limit, values[i + 1..]) ==
                        WithLimit(GetDevice(before, id), limit, values[i..])
      {
        LimitStep(GetDevice(before, id), limit, values[i..]);
      }
    }
    assert values[|values|..] == [];
  }

  lemma LimitStep(d: ThrottleDevice, limit: Limit, values: seq<BlkioValue>)
    requires values != []
    ensures WithLimit(d, limit, values) ==
            WithLimit(if values[0].id == d.id then SetLimit(d, limit, values[0].value) else d, limit, values[1..])
  {
  }

  method MergeOps(devices: map<DeviceID, ThrottleDevice>, transferred: bool, values: seq<BlkioValue>)
    returns (ds: map<DeviceID, ThrottleDevice>)
    requires Keyed(devices)
    ensures Keyed(ds) && ds.Keys == devices.Keys + Ids(values)
    ensures forall id :: GetDevice(ds, id) == WithOps(GetDevice(devices, id), transferred, values)
  {
    ds := devices;
    var ops := CollectOpValues(values);
    var order := AnyOrder(ops.Keys);
    for i := 0 to |order|
      invariant Keyed(ds)
      invariant forall id :: id in ds <==> id in devices || id in order[..i]
      invariant forall id :: GetDevice(ds, id) ==
                             if id in order[..i] then SetOps(GetDevice(devices, id), transferred, ops[id])
                             else GetDevice(devices, id)
    {
      assert order[..i + 1] == order[..i] + [order[i]];
      ds := ds[order[i] := SetOps(GetDevice(ds, order[i]), transferred, ops[order[i]])];
    }
    assert order[..|order|] == order;
  }

  // ----- two files at a time

  // The device after both files, and the error of the first that fails.
  method MergeTransfers(bytes: FileRead, ios: FileRead) returns (r: Result<map<DeviceID, ThrottleDevice>, BlkioError>)
    ensures ValuesOf(bytes).Err? ==> r == Err(ValuesOf(bytes).error)
    ensures ValuesOf(bytes).Ok? && ValuesOf(ios).Err? ==> r == Err(ValuesOf(ios).error)
    ensures ValuesOf(bytes).Ok? && ValuesOf(ios).Ok? ==>
              && r.Ok? && Keyed(r.value) && r.value.Keys == Ids(ValuesOf(bytes).value) + Ids(ValuesOf(ios).value)
              && forall id :: GetDevice(r.value, id) ==
                              BlankDevice(id).(bytes := OpsOf(ValuesOf(bytes).value, id),
                                               ios := OpsOf(ValuesOf(ios).value, id))
  {
    var r1 := ReadBlkioValues(bytes);
    if r1.Err? {
      return Err(r1.error);
    }
    var d1 := MergeOps(map[], true, r1.value);
    var r2 := ReadBlkioValues(ios);
    if r2.Err? {
      return Err(r2.error);
    }
    var d2 := MergeOps(d1, false, r2.value);
    forall id ensures GetDevice(d2, id) ==
                      BlankDevice(id).(bytes := OpsOf(r1.value, id), ios := OpsOf(r2.value, id))
    {
      BothTransfers(id, r1.value, r2.value);
      assert GetDevice(d1, id) == WithOps(BlankDevice(id), true, r1.value);
    }
    return Ok(d2);
  }

  lemma BothTransfers(id: DeviceID, bytes: seq<BlkioValue>, ios: seq<BlkioValue>)
    ensures WithOps(WithOps(BlankDevice(id), true, bytes), false, ios) ==
            BlankDevice(id).(bytes := OpsOf(bytes, id), ios := OpsOf(ios, id))
  {
    if id !in Ids(bytes) {
      UnseenIsZero(bytes, id);
    }
    if id !in Ids(ios) {
      UnseenIsZero(ios, id);
    }
  }

  lemma UnseenIsZero(values: seq<BlkioValue>, id: DeviceID)
    requires id !in Ids(values)
    ensures OpsOf(values, id) == ZERO_OPS
  {
    LastOfFinds(values, id, "read");
    LastOfFinds(values, id, "write");
    LastOfFinds(values, id, "async");
    LastOfFinds(values, id, "sync");
  }

  method MergeLimits(devices: map<DeviceID, ThrottleDevice>, l1: Limit, f1: FileRead, l2: Limit, f2: FileRead)
    returns (r: Result<map<DeviceID, ThrottleDevice>, BlkioError>)
    requires Keyed(devices)
    ensures ValuesOf(f1).Err? ==> r == Err(ValuesOf(f1).error)
    ensures ValuesOf(f1).Ok? && ValuesOf(f2).Err? ==> r == Err(ValuesOf(f2).error)
    ensures ValuesOf(f1).Ok? && ValuesOf(f2).Ok? ==>
              && r.Ok? && Keyed(r.value)
              && r.value.Keys == devices.Keys + Ids(ValuesOf(f1).value) + Ids(ValuesOf(f2).value)
              && forall id :: GetDevice(r.value, id) ==
                              WithLimit(WithLimit(GetDevice(devices, id), l1, ValuesOf(f1).value),
                                        l2, ValuesOf(f2).value)
  {
    var r1 := ReadBlkioValues(f1);
    if r1.Err? {
      return Err(r1.error);
    }
    var d1 := MergeLimit(devices, l1, r1.value);
    var r2 := ReadBlkioValues(f2);
    if r2.Err? {
      return Err(r2.error);
    }
    var d2 := MergeLimit(d1, l2, r2.value);
    return Ok(d2);
  }

  // ----- the whole record

  ghost function DeviceOf(v: Files<seq<BlkioValue>>, id: DeviceID): ThrottleDevice {
    ThrottleDevice(id, Or(LastLimit(v.readBps, id), 0), Or(LastLimit(v.writeBps, id), 0),
                   Or(LastLimit(v.readIops, id), 0), Or(LastLimit(v.writeIops, id), 0),
                   OpsOf(v.serviceBytes, id), OpsOf(v.serviced, id))
  }

  function Seen(v: Files<seq<BlkioValue>>): set<DeviceID> {
    Ids(v.serviceBytes) + Ids(v.serviced) + Ids(v.readBps) + Ids(v.writeBps) + Ids(v.readIops) + Ids(v.writeIops)
  }

  predicate AllRead(f: Files<FileRead>) {
    && ValuesOf(f.serviceBytes).Ok? && ValuesOf(f.serviced).Ok? && ValuesOf(f.readBps).Ok?
    && ValuesOf(f.writeBps).Ok? && ValuesOf(f.readIops).Ok? && ValuesOf(f.writeIops).Ok?
  }

  function AllValues(f: Files<FileRead>): Files<seq<BlkioValue>>
    requires AllRead(f)
  {
    Files(ValuesOf(f.serviceBytes).value, ValuesOf(f.serviced).value, ValuesOf(f.readBps).value,
          ValuesOf(f.writeBps).value, ValuesOf(f.readIops).value, ValuesOf(f.writeIops).value)
  }

  // The error of the first file that fails, in the order they are read.
  function FirstError(f: Files<FileRead>): BlkioError
    requires !AllRead(f)
  {
    if ValuesOf(f.serviceBytes).Err? then ValuesOf(f.serviceBytes).error
    else if ValuesOf(f.serviced).Err? then ValuesOf(f.serviced).error
    else if ValuesOf(f.readBps).Err? then ValuesOf(f.readBps).error
    else if ValuesOf(f.writeBps).Err? then ValuesOf(f.writeBps).error
    else if ValuesOf(f.readIops).Err? then ValuesOf(f.readIops).error
    else ValuesOf(f.writeIops).error
  }

  // A device with its transfers in place, after the four limit files.
  lemma LimitsComplete(v: Files<seq<BlkioValue>>, id: DeviceID)
    ensures var d := BlankDevice(id).(bytes := OpsOf(v.serviceBytes, id), ios := OpsOf(v.serviced, id));
            var e := WithLimit(WithLimit(d, ReadBps, v.readBps), WriteBps, v.writeBps);
            WithLimit(WithLimit(e, ReadIops, v.readIops), WriteIops, v.writeIops) == DeviceOf(v, id)
  {
  }

  lemma AllMerged(v: Files<seq<BlkioValue>>, d1: map<DeviceID, ThrottleDevice>,
                  d2: map<DeviceID, ThrottleDevice>, d3: map<DeviceID, ThrottleDevice>)
    requires forall id :: GetDevice(d1, id) ==
                          BlankDevice(id).(bytes := OpsOf(v.serviceBytes, id), ios := OpsOf(v.serviced, id))
    requires forall id :: GetDevice(d2, id) ==
                          WithLimit(WithLimit(GetDevice(d1, id), ReadBps, v.readBps), WriteBps, v.writeBps)
    requires forall id :: GetDevice(d3, id) ==
                          WithLimit(WithLimit(GetDevice(d2, id), ReadIops, v.readIops), WriteIops, v.writeIops)
    ensures forall id :: GetDevice(d3, id) == DeviceOf(v, id)
  {
    forall id ensures GetDevice(d3, id) == DeviceOf(v, id) {
      LimitsComplete(v, id);
      assert GetDevice(d2, id) ==
             WithLimit(WithLimit(GetDevice(d1, id), ReadBps, v.readBps), WriteBps, v.writeBps);
    }
  }

  // Adding with wrap-around.
  function Add64(a: uint64, x: nat): uint64 {
    (a + x % UINT64) % UINT64
  }

  lemma WrapFirst(a: nat, b: nat)
    ensures (a % UINT64 + b) % UINT64 == (a + b) % UINT64
  {
  }

  lemma Add64Is(a: uint64, x: nat)
    ensures Add64(a, x) == (a + x) % UINT64
  {
    WrapFirst(x, a);
  }

  lemma Add64Twice(a: uint64, x: nat, y: nat)
    ensures Add64(Add64(a, x), y) == Add64(a, x + y)
  {
    calc {
      Add64(Add64(a, x), y);
      { Add64Is(Add64(a, x), y); }
      (Add64(a, x) + y) % UINT64;
      { Add64Is(a, x); }
      ((a + x) % UINT64 + y) % UINT64;
      { WrapFirst(a + x, y); }
      (a + x + y) % UINT64;
      { Add64Is(a, x + y); }
      Add64(a, x + y);
    }
  }

  function Moved(d: ThrottleDevice, transferred: bool): nat {
    if transferred then d.bytes.read + d.bytes.write else d.ios.read + d.ios.write
  }

  // The running total over the devices still to visit.
  ghost function RunningTotal(total: uint64, order: seq<DeviceID>, ds: map<DeviceID, ThrottleDevice>,
                              transferred: bool): uint64
    requires forall i :: 0 <= i < |order| ==> order[i] in ds
    decreases |order|
  {
    if order == [] then total
    else RunningTotal(Add64(total, Moved(ds[order[0]], transferred)), order[1..], ds, transferred)
  }

  ghost function Source(v: Files<seq<BlkioValue>>, transferred: bool): seq<BlkioValue> {
    if transferred then v.serviceBytes else v.serviced
  }

  lemma {:induction false} RunningTotalIs(total: uint64, order: seq<DeviceID>, ds: map<DeviceID, ThrottleDevice>,
                                          transferred: bool, v: Files<seq<BlkioValue>>)
    requires Merged(ds, v) && forall i :: 0 <= i < |order| ==> order[i] in ds
    ensures RunningTotal(total, order, ds, transferred) == Add64(total, SumOver(order, Source(v, transferred)))
    decreases |order|
  {
    if order != [] {
      var x := Moved(ds[order[0]], transferred);
      assert ds[order[0]] == GetDevice(ds, order[0]);
      RunningTotalIs(Add64(total, x), order[1..], ds, transferred, v);
      Add64Twice(total, x, SumOver(order[1..], Source(v, transferred)));
    }
  }

  // Whatever the order, the running total ends at the live lines of its file.
  lemma TotalIsLive(total: uint64, order: seq<DeviceID>, ds: map<DeviceID, ThrottleDevice>,
                    transferred: bool, v: Files<seq<BlkioValue>>)
    requires Merged(ds, v) && Enumerates(order, ds.Keys)
    ensures RunningTotal(total, order, ds, transferred) == Add64(total, LiveSum(Source(v, transferred)))
  {
    RunningTotalIs(total, order, ds, transferred, v);
    var values := Source(v, transferred);
    forall i | 0 <= i < |values| ensures values[i].id in order {
      assert values[i].id in Ids(values);
    }
    SumIsLiveSum(order, values);
  }

  // All six files, or the error of the first that fails.
  method MergeAll(files: Files<FileRead>) returns (r: Result<map<DeviceID, ThrottleDevice>, BlkioError>)
    ensures r.Ok? <==> AllRead(files)
    ensures r.Err? ==> r.error == FirstError(files)
    ensures r.Ok? ==> Merged(r.value, AllValues(files))
  {
    var r1 := MergeTransfers(files.serviceBytes, files.serviced);
    if r1.Err? {
      return Err(r1.error);
    }
    var r2 := MergeLimits(r1.value, ReadBps, files.readBps, WriteBps, files.writeBps);
    if r2.Err? {
      return Err(r2.error);
    }
    var r3 := MergeLimits(r2.value, ReadIops, files.readIops, WriteIops, files.writeIops);
    if r3.Err? {
      return Err(r3.error);
    }
    AllMerged(AllValues(files), r1.value, r2.value, r3.value);
    return Ok(r3.value);
  }

  ghost predicate Merged(ds: map<DeviceID, ThrottleDevice>, v: Files<seq<BlkioValue>>) {
    ds.Keys == Seen(v) && forall id :: GetDevice(ds, id) == DeviceOf(v, id)
  }

  /** Exactly one record per device seen in any file, in some order. */
  ghost predicate OneEach(devices: seq<ThrottleDevice>, order: seq<DeviceID>, v: Files<seq<BlkioValue>>) {
    && Enumerates(order, Seen(v)) && |devices| == |order|
    && forall i :: 0 <= i < |order| ==> devices[i] == DeviceOf(v, order[i])
  }

  class BlockIO {
    var devices: seq<ThrottleDevice>
    var totalBytes: uint64
    var totalIOs: uint64

    constructor ()
      ensures devices == [] && totalBytes == 0 && totalIOs == 0
    {
      devices, totalBytes, totalIOs := [], 0, 0;
    }

    /** One record per device that occurs in any of the six files, with its
        last limits and last values per operation; the totals grow, modulo
        2^64, by the read and write lines in force, whatever the order in
        which the maps are visited. On the first file that fails nothing changes. */
    method Throttle(files: Files<FileRead>) returns (error: Option<BlkioError>, ghost order: seq<DeviceID>)
      modifies this
      ensures error.None? <==> AllRead(files)
      ensures error.Some? ==> error.value == FirstError(files)
      ensures error.Some? ==> unchanged(this)
      ensures error.None? ==>
                var v := AllValues(files);
                && OneEach(devices, order, v)
                && totalBytes == Add64(old(totalBytes), LiveSum(v.serviceBytes))
                && totalIOs == Add64(old(totalIOs), LiveSum(v.serviced))
    {
      var r := MergeAll(files);
      if r.Err? {
        return Some(r.error), [];
      }
      order := Collect(r.value);
      CollectedAll(devices, order, r.value, AllValues(files));
      TotalIsLive(old(totalBytes), order, r.value, true, AllValues(files));
      TotalIsLive(old(totalIOs), order, r.value, false, AllValues(files));
      error := None;
    }

    // The final loop of blkioThrottle.
    method Collect(ds: map<DeviceID, ThrottleDevice>) returns (ghost order: seq<DeviceID>)
      modifies this
      ensures Enumerates(order, ds.Keys) && |devices| == |order|
      ensures forall i :: 0 <= i < |order| ==> devices[i] == ds[order[i]]
      ensures totalBytes == RunningTotal(old(totalBytes), order, ds, true)
      ensures totalIOs == RunningTotal(old(totalIOs), order, ds, false)
    {
      var visits := AnyOrder(ds.Keys);
      order := visits;
      devices := [];
      for i := 0 to |visits|
        invariant |devices| == i && forall k :: 0 <= k < i ==> devices[k] == ds[order[k]]
        invariant RunningTotal(totalBytes, order[i..], ds, true) == RunningTotal(old(totalBytes), order, ds, true)
        invariant RunningTotal(totalIOs, order[i..], ds, false) == RunningTotal(old(totalIOs), order, ds, false)
      {
        var dev := ds[visits[i]];
        assert order[i..][1..] == order[i + 1..];
        devices := devices + [dev];
        totalBytes := Add64(totalBytes, dev.bytes.read + dev.bytes.write);
        totalIOs := Add64(totalIOs, dev.ios.read + dev.ios.write);
      }
    }
  }

  lemma CollectedAll(devices: seq<ThrottleDevice>, order: seq<DeviceID>, ds: map<DeviceID, ThrottleDevice>,
                     v: Files<seq<BlkioValue>>)
    requires Merged(ds, v) && Enumerates(order, ds.Keys) && |devices| == |order|
    requires forall i :: 0 <= i < |order| ==> devices[i] == ds[order[i]]
    ensures OneEach(devices, order, v)
  {
    forall i | 0 <= i < |order| ensures devices[i] == DeviceOf(v, order[i]) {
      assert ds[order[i]] == GetDevice(ds, order[i]);
    }
  }

  /** From a zero record, with at most one line per device and operation, a
      total is the sum of the read and write lines modulo 2^64. */
  lemma TotalFromZero(values: seq<BlkioValue>)
    requires OneLineEach(values)
    ensures Add64(0, LiveSum(values)) == LineSum(values) % UINT64
  {
    LiveSumIsLineSum(values);
    Add64Is(0, LiveSum(values));
  }

  /** A fresh record, with at most one line per device and operation, has
      exactly one device per ID seen in any file, and totals that are the sums
      of the read and write lines of their files modulo 2^64. */
  method ThrottleOnce(files: Files<FileRead>) returns (io: BlockIO, error: Option<BlkioError>)
    ensures fresh(io) && (error.None? <==> AllRead(files))
    ensures error.None? ==>
              var v := AllValues(files);
              && (exists order :: OneEach(io.devices, order, v))
              && (OneLineEach(v.serviceBytes) ==> io.totalBytes == LineSum(v.serviceBytes) % UINT64)
              && (OneLineEach(v.serviced) ==> io.totalIOs == LineSum(v.serviced) % UINT64)
  {
    io := new BlockIO();
    ghost var order;
    error, order := io.Throttle(files);
    if error.None? {
      ghost var v := AllValues(files);
      assert OneEach(io.devices, order, v);
      if OneLineEach(v.serviceBytes) {
        TotalFromZero(v.serviceBytes);
      }
      if OneLineEach(v.serviced) {
        TotalFromZero(v.serviced);
      }
    }
  }
}
