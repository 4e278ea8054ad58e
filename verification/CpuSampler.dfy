/**
 The CPU sampler: a goroutine that puts a first absolute reading and then the
 differences between readings, modulo 2^64, into a channel with room for one
 sample, and drops a difference when there is no room.
 */
module CpuSampler {
  import opened Numbers

  datatype Cpu = Cpu(user: uint64, nice: uint64, sys: uint64, idle: uint64,
                     wait: uint64, irq: uint64, softIrq: uint64, stolen: uint64)
  {
    function Total(): uint64 {
      (user + nice + sys + idle + wait + irq + softIrq + stolen) % UINT64
    }

    function Delta(other: Cpu): Cpu {
      Cpu(Sub64(user, other.user), Sub64(nice, other.nice), Sub64(sys, other.sys), Sub64(idle, other.idle),
          Sub64(wait, other.wait), Sub64(irq, other.irq), Sub64(softIrq, other.softIrq), Sub64(stolen, other.stolen))
    }
  }

  function Sub64(a: uint64, b: uint64): uint64 {
    (a - b) % UINT64
  }

  const CAPACITY := 1

  // ----- what can be read off a sample

  datatype Meter = User | Nice | Sys | Idle | Wait | Irq | SoftIrq | Stolen | Sum

  function Read(c: Cpu, m: Meter): uint64 {
    match m
    case User => c.user
    case Nice => c.nice
    case Sys => c.sys
    case Idle => c.idle
    case Wait => c.wait
    case Irq => c.irq
    case SoftIrq => c.softIrq
    case Stolen => c.stolen
    case Sum => c.Total()
  }

  // Two numbers that differ by k times 2^64 wrap to the same.
  lemma SameWrap(x: int, y: int, k: int)
    requires x == y + k * UINT64
    ensures x % UINT64 == y % UINT64
  {
  }

  function WrapCount(a: uint64, b: uint64): int {
    if a >= b then 0 else 1
  }

  lemma SubExact(a: uint64, b: uint64)
    ensures Sub64(a, b) == a - b + WrapCount(a, b) * UINT64
  {
  }

  /** Every meter, the total included, turns a difference of readings into a difference of values. */
  lemma ReadDelta(c: Cpu, other: Cpu, m: Meter)
    ensures Read(c.Delta(other), m) == Sub64(Read(c, m), Read(other, m))
  {
    if m.Sum? {
      var s := c.user + c.nice + c.sys + c.idle + c.wait + c.irq + c.softIrq + c.stolen;
      var t := other.user + other.nice + other.sys + other.idle + other.wait + other.irq + other.softIrq + other.stolen;
      var d := c.Delta(other);
      SubExact(c.user, other.user);
      SubExact(c.nice, other.nice);
      SubExact(c.sys, other.sys);
      SubExact(c.idle, other.idle);
      SubExact(c.wait, other.wait);
      SubExact(c.irq, other.irq);
      SubExact(c.softIrq, other.softIrq);
      SubExact(c.stolen, other.stolen);
      var k := WrapCount(c.user, other.user) + WrapCount(c.nice, other.nice) + WrapCount(c.sys, other.sys)
               + WrapCount(c.idle, other.idle) + WrapCount(c.wait, other.wait) + WrapCount(c.irq, other.irq)
               + WrapCount(c.softIrq, other.softIrq) + WrapCount(c.stolen, other.stolen);
      var x := d.user + d.nice + d.sys + d.idle + d.wait + d.irq + d.softIrq + d.stolen;
      SameWrap(x, s - t, k);
      SameWrap(s % UINT64 - t % UINT64, s - t, t / UINT64 - s / UINT64);
    }
  }

  // ----- runs

  /** The goroutine and its channel, and what became of every sample. */
  datatype Sampler = Sampler(
    cpu: Cpu, channel: seq<Cpu>, stopped: bool,
    produced: seq<Cpu>, received: seq<Cpu>, dropped: seq<Cpu>)

  datatype Step = Tick(reading: Cpu) | Consume | Stop

  function Start(reading: Cpu): Sampler {
    Sampler(reading, [reading], false, [reading], [], [])
  }

  function DoTick(s: Sampler, reading: Cpu): Sampler {
    if s.stopped then s
    else
      var d := reading.Delta(s.cpu);
      var t := s.(cpu := reading, produced := s.produced + [d]);
      if |s.channel| < CAPACITY then t.(channel := s.channel + [d]) else t.(dropped := s.dropped + [d])
  }

  function DoConsume(s: Sampler): Sampler {
    if s.channel == [] then s else s.(channel := s.channel[1..], received := s.received + [s.channel[0]])
  }

  function Do(s: Sampler, step: Step): Sampler {
    match step
    case Tick(reading) => DoTick(s, reading)
    case Consume => DoConsume(s)
    case Stop => s.(stopped := true)
  }

  function Run(s: Sampler, steps: seq<Step>): Sampler
    decreases |steps|
  {
    if steps == [] then s else Run(Do(s, steps[0]), steps[1..])
  }

  // ----- conservation

  function SumOf(samples: seq<Cpu>, m: Meter): nat {
    if samples == [] then 0 else SumOf(samples[..|samples| - 1], m) + Read(samples[|samples| - 1], m)
  }

  lemma SumSnoc(samples: seq<Cpu>, c: Cpu, m: Meter)
    ensures SumOf(samples + [c], m) == SumOf(samples, m) + Read(c, m)
  {
    assert (samples + [c])[..|samples|] == samples;
  }

  /** Every sample was received, is waiting or was dropped; the first reading
      is the first received or waiting; at most one waits; and all of them add
      up, modulo 2^64, to the current reading on every meter. */
  ghost predicate Accounted(s: Sampler, first: Cpu) {
    && |s.channel| <= CAPACITY
    && s.received + s.channel != [] && (s.received + s.channel)[0] == first
    && multiset(s.produced) == multiset(s.received + s.channel) + multiset(s.dropped)
    && Balanced(s.received + s.channel, s.dropped, s.cpu)
  }

  ghost predicate Balanced(kept: seq<Cpu>, dropped: seq<Cpu>, cpu: Cpu) {
    forall m :: (SumOf(kept, m) + SumOf(dropped, m)) % UINT64 == Read(cpu, m)
  }

  lemma AddSub(sum: nat, a: uint64, b: uint64)
    requires sum % UINT64 == a
    ensures (sum + Sub64(b, a)) % UINT64 == b
  {
    SubExact(b, a);
    SameWrap(sum + Sub64(b, a), b, sum / UINT64 + WrapCount(b, a));
  }

  lemma AddSubEither(kept: nat, dropped: nat, a: uint64, b: uint64, x: uint64)
    requires (kept + dropped) % UINT64 == a && x == Sub64(b, a)
    ensures (kept + x + dropped) % UINT64 == b && (kept + (dropped + x)) % UINT64 == b
  {
    AddSub(kept + dropped, a, b);
    assert kept + x + dropped == kept + dropped + x && kept + (dropped + x) == kept + dropped + x;
  }

  // One more difference, wherever it goes, brings the sum to the new reading.
  lemma TickMeter(kept: seq<Cpu>, dropped: seq<Cpu>, cpu: Cpu, reading: Cpu, m: Meter)
    requires (SumOf(kept, m) + SumOf(dropped, m)) % UINT64 == Read(cpu, m)
    ensures (SumOf(kept + [reading.Delta(cpu)], m) + SumOf(dropped, m)) % UINT64 == Read(reading, m)
    ensures (SumOf(kept, m) + SumOf(dropped + [reading.Delta(cpu)], m)) % UINT64 == Read(reading, m)
  {
    SumSnoc(kept, reading.Delta(cpu), m);
    SumSnoc(dropped, reading.Delta(cpu), m);
    ReadDelta(reading, cpu, m);
    AddSubEither(SumOf(kept, m), SumOf(dropped, m), Read(cpu, m), Read(reading, m), Read(reading.Delta(cpu), m));
  }

  lemma TickBalanced(kept: seq<Cpu>, dropped: seq<Cpu>, cpu: Cpu, reading: Cpu)
    requires Balanced(kept, dropped, cpu)
    ensures Balanced(kept + [reading.Delta(cpu)], dropped, reading)
    ensures Balanced(kept, dropped + [reading.Delta(cpu)], reading)
  {
    forall m
      ensures (SumOf(kept + [reading.Delta(cpu)], m) + SumOf(dropped, m)) % UINT64 == Read(reading, m)
      ensures (SumOf(kept, m) + SumOf(dropped + [reading.Delta(cpu)], m)) % UINT64 == Read(reading, m)
    {
      TickMeter(kept, dropped, cpu, reading, m);
    }
  }

  lemma TickAccounted(s: Sampler, first: Cpu, reading: Cpu)
    requires Accounted(s, first) && !s.stopped
    ensures Accounted(DoTick(s, reading), first)
  {
    var d := reading.Delta(s.cpu);
    TickBalanced(s.received + s.channel, s.dropped, s.cpu, reading);
    assert s.received + (s.channel + [d]) == s.received + s.channel + [d];
  }

  lemma ConsumeAccounted(s: Sampler, first: Cpu)
    requires Accounted(s, first)
    ensures Accounted(DoConsume(s), first)
  {
    if s.channel != [] {
      assert s.channel == [s.channel[0]] + s.channel[1..];
      assert DoConsume(s).received + DoConsume(s).channel == s.received + s.channel;
    }
  }

  lemma {:induction false} AccountedRun(s: Sampler, first: Cpu, steps: seq<Step>)
    requires Accounted(s, first)
    ensures Accounted(Run(s, steps), first)
    decreases |steps|
  {
    if steps != [] {
      if steps[0].Tick? && !s.stopped {
        TickAccounted(s, first, steps[0].reading);
      } else if steps[0].Consume? {
        ConsumeAccounted(s, first);
      }
      AccountedRun(Do(s, steps[0]), first, steps[1..]);
    }
  }

  lemma StartAccounted(first: Cpu)
    ensures Accounted(Start(first), first)
  {
    var s := Start(first);
    assert s.received + s.channel == [first];
    forall m ensures (SumOf([first], m) + SumOf([], m)) % UINT64 == Read(first, m) {
      SumSnoc([], first, m);
      assert [] + [first] == [first];
      SameWrap(Read(first, m), Read(first, m), 0);
    }
  }

  /** Accounting holds after every run of ticks, consumes and stop. */
  lemma Conservation(first: Cpu, steps: seq<Step>)
    ensures Accounted(Run(Start(first), steps), first)
  {
    StartAccounted(first);
    AccountedRun(Start(first), first, steps);
  }

  /** As long as nothing was dropped, a consumer that adds up what it received
      and what waits has the current reading on every meter. */
  lemma NothingLost(first: Cpu, steps: seq<Step>, m: Meter)
    requires Run(Start(first), steps).dropped == []
    ensures var s := Run(Start(first), steps); SumOf(s.received + s.channel, m) % UINT64 == Read(s.cpu, m)
  {
    var s := Run(Start(first), steps);
    Conservation(first, steps);
    BalancedAt(s.received + s.channel, s.dropped, s.cpu, m);
  }

  lemma BalancedAt(kept: seq<Cpu>, dropped: seq<Cpu>, cpu: Cpu, m: Meter)
    requires Balanced(kept, dropped, cpu) && dropped == []
    ensures SumOf(kept, m) % UINT64 == Read(cpu, m)
  {
    var sum := SumOf(kept, m);
    assert SumOf(dropped, m) == 0;
    assert (sum + 0) % UINT64 == Read(cpu, m);
  }

  // ----- exactly which differences are lost, read off the steps alone

  /** The differences that find room: those of the ticks, before the stop, that
      come when the last sample has been received. */
  function Sent(cpu: Cpu, steps: seq<Step>, full: bool): seq<Cpu>
    decreases |steps|
  {
    if steps == [] then []
    else
      match steps[0]
      case Tick(reading) => (if full then [] else [reading.Delta(cpu)]) + Sent(reading, steps[1..], true)
      case Consume => Sent(cpu, steps[1..], false)
      case Stop => []
  }

  /** The differences of the other ticks. */
  function Missed(cpu: Cpu, steps: seq<Step>, full: bool): seq<Cpu>
    decreases |steps|
  {
    if steps == [] then []
    else
      match steps[0]
      case Tick(reading) => (if full then [reading.Delta(cpu)] else []) + Missed(reading, steps[1..], true)
      case Consume => Missed(cpu, steps[1..], false)
      case Stop => []
  }

  lemma {:induction false} StoppedForGood(s: Sampler, steps: seq<Step>)
    requires s.stopped
    ensures var t := Run(s, steps);
            t.received + t.channel == s.received + s.channel && t.dropped == s.dropped && t.cpu == s.cpu
    decreases |steps|
  {
    if steps != [] {
      StoppedForGood(Do(s, steps[0]), steps[1..]);
      if steps[0].Consume? {
        ConsumeMoves(s);
      }
    }
  }

  lemma ConsumeMoves(s: Sampler)
    ensures DoConsume(s).received + DoConsume(s).channel == s.received + s.channel
  {
    if s.channel != [] {
      assert s.channel == [s.channel[0]] + s.channel[1..];
    }
  }

  lemma {:induction false} DroppedFrom(s: Sampler, steps: seq<Step>)
    requires !s.stopped && |s.channel| <= 1
    ensures var t, full := Run(s, steps), s.channel != [];
            && t.received + t.channel == s.received + s.channel + Sent(s.cpu, steps, full)
            && t.dropped == s.dropped + Missed(s.cpu, steps, full)
    decreases |steps|
  {
    if steps != [] {
      var s' := Do(s, steps[0]);
      match steps[0]
      case Tick(reading) =>
        DroppedFrom(s', steps[1..]);
        TickMoves(s, reading, Sent(reading, steps[1..], true), Missed(reading, steps[1..], true));
      case Consume =>
        ConsumeMoves(s);
        DroppedFrom(s', steps[1..]);
      case Stop => StoppedForGood(s', steps[1..]);
    }
  }

  lemma TickMoves(s: Sampler, reading: Cpu, sent: seq<Cpu>, missed: seq<Cpu>)
    requires !s.stopped && |s.channel| <= 1
    ensures var t, d := DoTick(s, reading), reading.Delta(s.cpu);
            && t.received + t.channel + sent ==
               s.received + s.channel + ((if s.channel != [] then [] else [d]) + sent)
            && t.dropped + missed == s.dropped + ((if s.channel != [] then [d] else []) + missed)
            && t.channel != [] && |t.channel| <= 1 && t.cpu == reading && !t.stopped
  {
  }

  /** In every run, exactly the differences of ticks that find a sample waiting
      are dropped; the first reading and all others are received, in order, or wait. */
  lemma DroppedExactly(first: Cpu, steps: seq<Step>)
    ensures var s := Run(Start(first), steps);
            s.received + s.channel == [first] + Sent(first, steps, true) && s.dropped == Missed(first, steps, true)
  {
    DroppedFrom(Start(first), steps);
  }

  // Every tick before the stop comes after a receive since the last one.
  predicate Attentive(steps: seq<Step>, full: bool)
    decreases |steps|
  {
    steps == [] ||
    match steps[0]
    case Tick(_) => !full && Attentive(steps[1..], true)
    case Consume => Attentive(steps[1..], false)
    case Stop => true
  }

  // The differences between successive readings, up to the stop.
  function Differences(cpu: Cpu, steps: seq<Step>): seq<Cpu>
    decreases |steps|
  {
    if steps == [] then []
    else
      match steps[0]
      case Tick(reading) => [reading.Delta(cpu)] + Differences(reading, steps[1..])
      case Consume => Differences(cpu, steps[1..])
      case Stop => []
  }

  lemma {:induction false} AttentiveMissesNothing(cpu: Cpu, steps: seq<Step>, full: bool)
    requires Attentive(steps, full)
    ensures Missed(cpu, steps, full) == [] && Sent(cpu, steps, full) == Differences(cpu, steps)
    decreases |steps|
  {
    if steps != [] {
      match steps[0]
      case Tick(reading) => AttentiveMissesNothing(reading, steps[1..], true);
      case Consume => AttentiveMissesNothing(cpu, steps[1..], false);
      case Stop =>
    }
  }

  /** A consumer that receives between ticks gets the first reading and every
      difference, in order, and their sum is the current reading on every meter. */
  lemma AttentiveGetsAll(first: Cpu, steps: seq<Step>, m: Meter)
    requires Attentive(steps, true)
    ensures var s := Run(Start(first), steps);
            && s.dropped == [] && s.received + s.channel == [first] + Differences(first, steps)
            && SumOf(s.received + s.channel, m) % UINT64 == Read(s.cpu, m)
  {
    DroppedExactly(first, steps);
    AttentiveMissesNothing(first, steps, true);
    NothingLost(first, steps, m);
  }

  // ----- the total counts every field once

  lemma Wrapped(x: int, d: uint64)
    ensures (x % UINT64 + d) % UINT64 == (x + d) % UINT64
  {
    SameWrap(x % UINT64 + d, x + d, -(x / UINT64));
  }

  function Add(a: uint64, d: uint64): uint64 {
    (a + d) % UINT64
  }

  lemma AddInSum(rest: int, a: uint64, d: uint64)
    ensures (rest + Add(a, d)) % UINT64 == Add((rest + a) % UINT64, d)
  {
    SameWrap(rest + Add(a, d), rest + a + d, -((a + d) / UINT64));
    Wrapped(rest + a, d);
  }

  function Bumped(c: Cpu, m: Meter, d: uint64): Cpu {
    match m
    case User => c.(user := Add(c.user, d))
    case Nice => c.(nice := Add(c.nice, d))
    case Sys => c.(sys := Add(c.sys, d))
    case Idle => c.(idle := Add(c.idle, d))
    case Wait => c.(wait := Add(c.wait, d))
    case Irq => c.(irq := Add(c.irq, d))
    case SoftIrq => c.(softIrq := Add(c.softIrq, d))
    case Stolen => c.(stolen := Add(c.stolen, d))
    case Sum => c
  }

  /** What is added to any one of the eight fields is added to the total. */
  lemma TotalCountsEveryField(c: Cpu, m: Meter, d: uint64)
    requires !m.Sum?
    ensures Bumped(c, m, d).Total() == Add(c.Total(), d)
  {
    var sum := c.user + c.nice + c.sys + c.idle + c.wait + c.irq + c.softIrq + c.stolen;
    AddInSum(sum - Read(c, m), Read(c, m), d);
  }

  /** The total of nothing is nothing. */
  lemma TotalOfZero()
    ensures Cpu(0, 0, 0, 0, 0, 0, 0, 0).Total() == 0
  {
  }

  // ----- the producer does not depend on the consumer

  // The run as it would be without a consumer.
  function Unconsumed(steps: seq<Step>): seq<Step> {
    if steps == [] then []
    else (if steps[0].Consume? then [] else [steps[0]]) + Unconsumed(steps[1..])
  }

  // What the goroutine itself knows: its reading, what it has produced, whether it runs.
  ghost predicate SameProducer(s: Sampler, t: Sampler) {
    s.cpu == t.cpu && s.produced == t.produced && s.stopped == t.stopped
  }

  lemma {:induction false} ProducerRuns(s: Sampler, t: Sampler, steps: seq<Step>)
    requires SameProducer(s, t)
    ensures SameProducer(Run(s, steps), Run(t, Unconsumed(steps)))
    decreases |steps|
  {
    if steps != [] {
      var rest := Unconsumed(steps[1..]);
      if steps[0].Consume? {
        assert Unconsumed(steps) == rest;
        ProducerRuns(Do(s, steps[0]), t, steps[1..]);
      } else {
        assert Unconsumed(steps)[0] == steps[0] && Unconsumed(steps)[1..] == rest;
        ProducerRuns(Do(s, steps[0]), Do(t, steps[0]), steps[1..]);
      }
    }
  }

  /** The producer never waits for a consumer: whether and when samples are
      received makes no difference to what it reads, produces and when it stops. */
  lemma ProducerNeverWaits(first: Cpu, steps: seq<Step>)
    ensures SameProducer(Run(Start(first), steps), Run(Start(first), Unconsumed(steps)))
  {
    ProducerRuns(Start(first), Start(first), steps);
  }

  // ----- the goroutine as an object

  class Collector {
    var cpuUsage: Cpu
    var samples: seq<Cpu>
    var stopped: bool
    ghost var produced: seq<Cpu>
    ghost var received: seq<Cpu>
    ghost var dropped: seq<Cpu>

    ghost function Abs(): Sampler
      reads this
    {
      Sampler(cpuUsage, samples, stopped, produced, received, dropped)
    }

    constructor (reading: Cpu)
      ensures Abs() == Start(reading)
    {
      cpuUsage := reading;
      samples := [reading];
      stopped := false;
      produced, received, dropped := [reading], [], [];
    }

    // One case of the select: the ticker has fired and Get has read the counters.
    method OnTick(reading: Cpu)
      requires !stopped
      modifies this
      ensures Abs() == DoTick(old(Abs()), reading)
    {
      var previous := cpuUsage;
      cpuUsage := reading;
      var d := cpuUsage.Delta(previous);
      produced := produced + [d];
      if |samples| < CAPACITY {
        samples := samples + [d];
      } else {
        dropped := dropped + [d];
      }
    }

    method OnStop()
      modifies this`stopped
      ensures Abs() == old(Abs()).(stopped := true)
    {
      stopped := true;
    }

    // The consumer's receive, when a sample is there.
    method Receive() returns (sample: Cpu)
      requires samples != []
      modifies this
      ensures sample == old(samples[0]) && Abs() == DoConsume(old(Abs()))
    {
      sample := samples[0];
      samples := samples[1..];
      received := received + [sample];
    }
  }
}
