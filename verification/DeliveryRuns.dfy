/**
 Every interleaving of enqueues, the delivery loop and `Close` over a delivery pipe.
 The loop releases the lock between extracting a batch and delivering it, and again between
 the call of the target and the byte accounting.
 */
module DeliveryRuns {
  import opened DeliveryPipe

  /**
   `batch` is extracted and not yet handed over; `current` was handed to the target and its
   bytes are not yet subtracted.  `accepted`, `extracted`, `delivered` and `dropped` record
   the packets, in order; `clock` is the latest time read.
   */
  datatype System = System(
    pipe: Fields, batch: Packets, current: Packets, clock: int,
    accepted: Packets, extracted: Packets, delivered: Packets, dropped: Packets)

  datatype Step =
    | Enqueue(chunk: Chunk, now: int, random: int)
    | Extract(now: int)
    | HandOver
    | AccountBytes
    | ClosePipe

  function Initial(config: Config, target: bool, clock: int): System {
    System(Fields(config, target, 0, [], false, 0, 0, -1, 0), [], [], clock, [], [], [], [])
  }

  /** The clock never goes back, the random offset is in range, and the loop is sequential. */
  predicate Enabled(s: System, step: Step) {
    match step
    case Enqueue(_, now, random) => now >= s.clock && InRange(s.pipe.config, random)
    case Extract(now) => now >= s.clock && s.batch == [] && s.current == []
    case HandOver => s.batch != [] && s.current == []
    case AccountBytes => s.current != []
    case ClosePipe => true
  }

  function Next(s: System, step: Step): System {
    if !Enabled(s, step) then s
    else match step
      case Enqueue(chunk, now, random) =>
        var p := Tagged(s.pipe, chunk, now, random);
        s.(pipe := AfterEnqueue(s.pipe, p), clock := now,
           accepted := if s.pipe.closed then s.accepted else s.accepted + [p])
      case Extract(now) =>
        var ready := if s.pipe.closed then [] else s.pipe.pending[..ReadyCount(s.pipe.pending, now)];
        s.(pipe := AfterExtract(s.pipe, now), clock := now, batch := ready, extracted := s.extracted + ready)
      case HandOver =>
        var p := s.batch[0];
        s.(pipe := AfterHand(s.pipe, p), batch := s.batch[1..],
           current := if s.pipe.target then [p] else [],
           delivered := if s.pipe.target then s.delivered + [p] else s.delivered,
           dropped := if s.pipe.target then s.dropped else s.dropped + [p])
      case AccountBytes =>
        s.(pipe := AfterAccount(s.pipe, s.current[0]), current := [])
      case ClosePipe =>
        s.(pipe := s.pipe.(closed := true))
  }

  function Run(s: System, steps: seq<Step>): System {
    if steps == [] then s else Next(Run(s, steps[..|steps| - 1]), steps[|steps| - 1])
  }

  // ---------------------------------------------------------------- order

  /** No packet stands before one that was enqueued more than twice the skew earlier. */
  ghost predicate InOrder(skew: nat, ps: Packets) {
    forall i, j | 0 <= i < j < |ps| :: ps[i].enqueued <= ps[j].enqueued + 2 * skew
  }

  predicate OnTime(config: Config, p: Packet) {
    p.enqueued + config.delay - config.skew <= p.due <= p.enqueued + config.delay + config.skew
  }

  /** Packets that have been accepted stand in line: first the extracted ones, then the
      pending ones. */
  ghost predicate LineOk(config: Config, dataSeq: nat, clock: int,
                         accepted: Packets, extracted: Packets, pending: Packets) {
    var line := extracted + pending;
    && Sorted(pending) && Distinct(pending)
    && |accepted| == dataSeq
    && (forall i | 0 <= i < |accepted| :: accepted[i].seqNo == i + 1)
    && (forall p <- accepted :: OnTime(config, p) && p.enqueued <= clock)
    && multiset(accepted) == multiset(line)
    && InOrder(config.skew, line)
    && (config.skew == 0 ==> line == accepted)
  }

  predicate FlowOk(s: System) {
    && s.extracted == (if s.pipe.target then s.delivered else s.dropped) + s.batch
    && (if s.pipe.target then s.dropped else s.delivered) == []
  }

  ghost predicate OrderInv(s: System) {
    LineOk(s.pipe.config, s.pipe.dataSeq, s.clock, s.accepted, s.extracted, s.pipe.pending) && FlowOk(s)
  }

  lemma InsertSplits(ps: Packets, p: Packet) returns (n: nat)
    ensures n <= |ps| && Insert(ps, p) == ps[..n] + [p] + ps[n..]
    ensures Sorted(ps) ==> forall q <- ps[n..] :: Before(p, q)
  {
    if ps == [] || Before(p, ps[0]) {
      n := 0;
      assert forall k | 0 < k < |ps| && Sorted(ps) :: Before(ps[0], ps[k]);
    } else {
      var m := InsertSplits(ps[1..], p);
      n := m + 1;
      assert ps == [ps[0]] + ps[1..];
    }
  }

  lemma InOrderBetween(skew: nat, a: Packets, p: Packet, b: Packets)
    requires InOrder(skew, a + b)
    requires forall q <- a :: q.enqueued <= p.enqueued + 2 * skew
    requires forall q <- b :: p.enqueued <= q.enqueued + 2 * skew
    ensures InOrder(skew, a + [p] + b)
  {
    var qs, was, n := a + [p] + b, a + b, |a|;
    assert forall i | 0 <= i < n :: qs[i] == was[i] == a[i];
    assert forall i | n < i < |qs| :: qs[i] == was[i - 1] == b[i - 1 - n];
    forall i, j | 0 <= i < j < |qs| ensures qs[i].enqueued <= qs[j].enqueued + 2 * skew {
      if j == n {
        assert a[i] in a;
      } else if i == n {
        assert b[j - 1 - n] in b;
      } else {
        var k, m := if i < n then i else i - 1, if j < n then j else j - 1;
        assert was[k].enqueued <= was[m].enqueued + 2 * skew;
      }
    }
  }

  lemma InsertKeepsOrder(line: Packets, ps: Packets, p: Packet, config: Config)
    requires Sorted(ps) && InOrder(config.skew, line + ps)
    requires OnTime(config, p) && forall q <- line + ps :: OnTime(config, q) && q.enqueued <= p.enqueued
    ensures InOrder(config.skew, line + Insert(ps, p))
  {
    var n := InsertSplits(ps, p);
    var a, b := ps[..n], ps[n..];
    assert line + Insert(ps, p) == line + a + [p] + b;
    assert line + ps == line + a + b;
    forall q <- b ensures p.enqueued <= q.enqueued + 2 * config.skew {
      assert Before(p, q) && q in line + ps && OnTime(config, q);
    }
    forall q <- line + a ensures q.enqueued <= p.enqueued + 2 * config.skew {
      assert q in line + ps;
    }
    InOrderBetween(config.skew, line + a, p, b);
  }

  /** Without skew a new packet goes to the end. */
  lemma {:induction false} InsertAtEnd(ps: Packets, p: Packet, config: Config)
    requires config.skew == 0 && OnTime(config, p)
    requires forall q <- ps :: OnTime(config, q) && q.enqueued <= p.enqueued && q.seqNo < p.seqNo
    ensures Insert(ps, p) == ps + [p]
  {
    if ps != [] {
      assert !Before(p, ps[0]);
      InsertAtEnd(ps[1..], p, config);
      assert [ps[0]] + (ps[1..] + [p]) == ps + [p];
    }
  }

  lemma EnqueueKeepsLine(config: Config, dataSeq: nat, clock: int,
                         accepted: Packets, extracted: Packets, pending: Packets, p: Packet)
    requires LineOk(config, dataSeq, clock, accepted, extracted, pending)
    requires p.seqNo == dataSeq + 1 && p.enqueued >= clock && OnTime(config, p)
    ensures LineOk(config, dataSeq + 1, p.enqueued, accepted + [p], extracted, Insert(pending, p))
    ensures forall q <- pending :: q.seqNo <= dataSeq
  {
    var line := extracted + pending;
    forall q <- line
      ensures q.seqNo <= dataSeq && OnTime(config, q) && q.enqueued <= p.enqueued
    {
      assert q in multiset(line);
      assert q in accepted;
    }
    assert forall q <- pending :: q in line;
    InsertKeepsOrder(extracted, pending, p, config);
    if config.skew == 0 { InsertAtEnd(pending, p, config); }
    InsertSorts(pending, p);
    InsertDistinct(pending, p);
    assert config.skew == 0 ==> extracted + (pending + [p]) == line + [p];
  }

  lemma ExtractKeepsLine(config: Config, dataSeq: nat, clock: int, now: int,
                         accepted: Packets, extracted: Packets, pending: Packets, n: nat)
    requires LineOk(config, dataSeq, clock, accepted, extracted, pending)
    requires n <= |pending| && now >= clock
    ensures LineOk(config, dataSeq, now, accepted, extracted + pending[..n], pending[n..])
  {
    assert extracted + pending[..n] + pending[n..] == extracted + pending by {
      assert pending == pending[..n] + pending[n..];
    }
  }

  lemma LineKept(s: System, step: Step)
    requires OrderInv(s)
    ensures var t := Next(s, step);
            LineOk(t.pipe.config, t.pipe.dataSeq, t.clock, t.accepted, t.extracted, t.pipe.pending)
  {
    if Enabled(s, step) && !s.pipe.closed {
      match step
      case Enqueue(chunk, now, random) =>
        EnqueueKeepsLine(s.pipe.config, s.pipe.dataSeq, s.clock, s.accepted, s.extracted, s.pipe.pending,
                         Tagged(s.pipe, chunk, now, random));
      case Extract(now) =>
        ExtractKeepsLine(s.pipe.config, s.pipe.dataSeq, s.clock, now, s.accepted, s.extracted, s.pipe.pending,
                         ReadyCount(s.pipe.pending, now));
      case _ =>
    } else if step.Extract? && Enabled(s, step) {
      assert s.extracted + [] == s.extracted;
    }
  }

  lemma FlowKept(s: System, step: Step)
    requires FlowOk(s)
    ensures FlowOk(Next(s, step))
  {
    if Enabled(s, step) && step.HandOver? {
      assert s.batch == [s.batch[0]] + s.batch[1..];
    }
  }

  lemma {:induction false} OrderHolds(config: Config, target: bool, clock: int, steps: seq<Step>)
    ensures OrderInv(Run(Initial(config, target, clock), steps))
  {
    if steps != [] {
      OrderHolds(config, target, clock, steps[..|steps| - 1]);
      LineKept(Run(Initial(config, target, clock), steps[..|steps| - 1]), steps[|steps| - 1]);
      FlowKept(Run(Initial(config, target, clock), steps[..|steps| - 1]), steps[|steps| - 1]);
    }
  }

  // ---------------------------------------------------------------- main results

  /** Two packets enqueued more than twice the skew apart are never delivered out of order,
      in any interleaving. */
  lemma SkewBoundsReordering(config: Config, target: bool, clock: int, steps: seq<Step>, i: nat, j: nat)
    requires i < j < |Run(Initial(config, target, clock), steps).delivered|
    ensures var d := Run(Initial(config, target, clock), steps).delivered;
            !(d[j].enqueued + 2 * config.skew < d[i].enqueued)
  {
    OrderHolds(config, target, clock, steps);
    ConfigFixed(config, target, clock, steps);
    var s := Run(Initial(config, target, clock), steps);
    assert s.delivered[i] == (s.extracted + s.pipe.pending)[i];
    assert s.delivered[j] == (s.extracted + s.pipe.pending)[j];
  }

  /** Without skew, and with a target, delivery is first in, first out: what was delivered, is in
      flight and is pending, in this order, is what was accepted. */
  lemma FirstInFirstOut(config: Config, clock: int, steps: seq<Step>)
    requires config.skew == 0
    ensures var s := Run(Initial(config, true, clock), steps);
            s.delivered + s.batch + s.pipe.pending == s.accepted
  {
    OrderHolds(config, true, clock, steps);
    ConfigFixed(config, true, clock, steps);
  }

  /** With a target set before the start nothing is lost and nothing is duplicated, for any
      skew: accepted packets have distinct numbers and are, as a multiset, those pending, in
      flight and delivered. */
  lemma NothingLost(config: Config, clock: int, steps: seq<Step>)
    ensures var s := Run(Initial(config, true, clock), steps);
      && Distinct(s.accepted)
      && multiset(s.accepted) == multiset(s.pipe.pending) + multiset(s.batch) + multiset(s.delivered)
  {
    OrderHolds(config, true, clock, steps);
    ConfigFixed(config, true, clock, steps);
  }

  lemma {:induction false} ConfigFixed(config: Config, target: bool, clock: int, steps: seq<Step>)
    ensures var f := Run(Initial(config, target, clock), steps).pipe; f.config == config && f.target == target
  {
    if steps != [] {
      ConfigFixed(config, target, clock, steps[..|steps| - 1]);
    }
  }

  /** An extraction takes every packet that is due and no other. */
  lemma ExtractionIsExact(config: Config, target: bool, clock: int, steps: seq<Step>, now: int, p: Packet)
    requires var s := Run(Initial(config, target, clock), steps);
      Enabled(s, Extract(now)) && !s.pipe.closed && p in s.pipe.pending
    ensures var s := Run(Initial(config, target, clock), steps); var t := Next(s, Extract(now));
      (p in t.batch <==> p.due <= now) && (p in t.pipe.pending <==> p.due > now)
  {
    OrderHolds(config, target, clock, steps);
    var ps := Run(Initial(config, target, clock), steps).pipe.pending;
    ReadyIsExact(ps, now);
    var k :| 0 <= k < |ps| && ps[k] == p;
    var n := ReadyCount(ps, now);
    if p.due <= now {
      assert ps[..n][k] == p;
      assert forall q <- ps[n..] :: q.due > now;
    } else {
      assert ps[n..][k - n] == p;
      assert forall q <- ps[..n] :: q.due <= now;
    }
  }

  // ---------------------------------------------------------------- bytes

  function Bytes(ps: Packets): int {
    if ps == [] then 0 else ps[0].size + Bytes(ps[1..])
  }

  lemma {:induction false} BytesConcat(ps: Packets, qs: Packets)
    ensures Bytes(ps + qs) == Bytes(ps) + Bytes(qs)
  {
    if ps == [] {
      assert ps + qs == qs;
    } else {
      assert (ps + qs)[1..] == ps[1..] + qs;
      BytesConcat(ps[1..], qs);
    }
  }

  lemma BytesInsert(ps: Packets, p: Packet)
    ensures Bytes(Insert(ps, p)) == Bytes(ps) + p.size
  {
    var n := InsertSplits(ps, p);
    assert ps == ps[..n] + ps[n..];
    BytesConcat(ps[..n], ps[n..]);
    BytesConcat(ps[..n] + [p], ps[n..]);
    BytesConcat(ps[..n], [p]);
    assert Bytes([p]) == p.size + Bytes([p][1..]);
  }

  /** The bytes the counter stands for: pending, in flight, and with the target while it runs. */
  function BytesHeld(s: System): int {
    Bytes(s.pipe.pending) + Bytes(s.batch) + Bytes(s.current)
  }

  ghost predicate BytesInv(s: System) {
    && s.pipe.currentBytes == BytesHeld(s) + Bytes(s.dropped)
    && (s.current != [] ==> |s.current| == 1 && s.pipe.target)
  }

  lemma StepBytes(s: System, step: Step)
    requires BytesInv(s)
    ensures BytesInv(Next(s, step))
  {
    if Enabled(s, step) {
      match step
      case Enqueue(chunk, now, random) =>
        BytesInsert(s.pipe.pending, Tagged(s.pipe, chunk, now, random));
      case Extract(now) =>
        if !s.pipe.closed {
          var n := ReadyCount(s.pipe.pending, now);
          assert s.pipe.pending == s.pipe.pending[..n] + s.pipe.pending[n..];
          BytesConcat(s.pipe.pending[..n], s.pipe.pending[n..]);
        }
      case HandOver =>
        var p := s.batch[0];
        BytesConcat(s.dropped, [p]);
        assert Bytes([p]) == p.size + Bytes([p][1..]);
      case AccountBytes =>
        assert s.current == [s.current[0]];
        assert Bytes(s.current) == s.current[0].size + Bytes(s.current[1..]);
      case ClosePipe =>
    }
  }

  /** `currentBytes` is at every point the number of bytes enqueued and not yet accounted
      for; packets dropped for want of a target stay counted. */
  lemma {:induction false} CurrentBytesExact(config: Config, target: bool, clock: int, steps: seq<Step>)
    ensures BytesInv(Run(Initial(config, target, clock), steps))
  {
    if steps != [] {
      CurrentBytesExact(config, target, clock, steps[..|steps| - 1]);
      StepBytes(Run(Initial(config, target, clock), steps[..|steps| - 1]), steps[|steps| - 1]);
    }
  }

  /** With a target nothing stays counted. */
  lemma CurrentBytesInFlight(config: Config, clock: int, steps: seq<Step>)
    ensures var s := Run(Initial(config, true, clock), steps); s.pipe.currentBytes == BytesHeld(s)
  {
    CurrentBytesExact(config, true, clock, steps);
    OrderHolds(config, true, clock, steps);
    ConfigFixed(config, true, clock, steps);
  }

  lemma StepHighWater(s: System, step: Step)
    ensures var f, g := s.pipe, Next(s, step).pipe;
      g.highWater == (if g.currentBytes > f.highWater then g.currentBytes else f.highWater) ||
      (g.highWater == f.highWater && g.currentBytes <= f.currentBytes)
  {}

  /** The byte counter at every point of a run, the start included. */
  function History(init: System, steps: seq<Step>): (h: seq<int>)
    ensures |h| == |steps| + 1
  {
    seq(|steps| + 1, k requires 0 <= k <= |steps| => Run(init, steps[..k]).pipe.currentBytes)
  }

  lemma HistoryMore(init: System, steps: seq<Step>)
    requires steps != []
    ensures History(init, steps) == History(init, steps[..|steps| - 1]) + [Run(init, steps).pipe.currentBytes]
  {
    var front, h := steps[..|steps| - 1], History(init, steps);
    forall k | 0 <= k < |h| ensures h[k] == (History(init, front) + [Run(init, steps).pipe.currentBytes])[k] {
      if k < |steps| { assert front[..k] == steps[..k]; } else { assert steps[..k] == steps; }
    }
  }

  lemma HistoryEnds(init: System, steps: seq<Step>)
    ensures Run(init, steps).pipe.currentBytes in History(init, steps)
  {
    assert steps[..|steps|] == steps;
    assert History(init, steps)[|steps|] == Run(init, steps).pipe.currentBytes;
  }

  predicate IsMaximum(mark: int, h: seq<int>) {
    mark in h && forall b <- h :: b <= mark
  }

  lemma NextMaximum(mark: int, h: seq<int>, b: int)
    requires IsMaximum(mark, h)
    ensures IsMaximum(if b > mark then b else mark, h + [b])
  {}

  /** The high-water mark is the greatest value the byte counter had at any point of the run. */
  lemma {:induction false} HighWaterIsMaximum(config: Config, target: bool, clock: int, steps: seq<Step>)
    ensures var init := Initial(config, target, clock);
      IsMaximum(Run(init, steps).pipe.highWater, History(init, steps))
  {
    var init := Initial(config, target, clock);
    if steps == [] {
      assert History(init, steps) == [0];
    } else {
      var front := steps[..|steps| - 1];
      HighWaterIsMaximum(config, target, clock, front);
      HistoryEnds(init, front);
      HistoryMore(init, steps);
      StepHighWater(Run(init, front), steps[|steps| - 1]);
      NextMaximum(Run(init, front).pipe.highWater, History(init, front), Run(init, steps).pipe.currentBytes);
    }
  }

  // ---------------------------------------------------------------- out-of-order counter

  function Descents(ps: Packets): nat {
    if |ps| < 2 then 0
    else
      var p, q := ps[|ps| - 2].data.streamSeq, ps[|ps| - 1].data.streamSeq;
      Descents(ps[..|ps| - 1]) + if p != -1 && q < p then 1 else 0
  }

  ghost predicate CounterInv(s: System) {
    && s.pipe.outOfOrder == Descents(s.delivered)
    && s.pipe.lastStreamSeq == if s.delivered == [] then -1 else s.delivered[|s.delivered| - 1].data.streamSeq
  }

  lemma StepCounter(s: System, step: Step)
    requires CounterInv(s)
    ensures CounterInv(Next(s, step))
  {
    if Enabled(s, step) && step.HandOver? && s.pipe.target {
      assert (s.delivered + [s.batch[0]])[..|s.delivered|] == s.delivered;
    }
  }

  /** The counter counts the deliveries whose stream sequence number is below the one before. */
  lemma {:induction false} OutOfOrderCounted(config: Config, target: bool, clock: int, steps: seq<Step>)
    ensures CounterInv(Run(Initial(config, target, clock), steps))
  {
    if steps != [] {
      OutOfOrderCounted(config, target, clock, steps[..|steps| - 1]);
      StepCounter(Run(Initial(config, target, clock), steps[..|steps| - 1]), steps[|steps| - 1]);
    }
  }

  lemma {:induction false} NoDescents(ps: Packets)
    requires forall i, j | 0 <= i < j < |ps| :: ps[i].data.streamSeq <= ps[j].data.streamSeq
    ensures Descents(ps) == 0
  {
    if |ps| >= 2 {
      NoDescents(ps[..|ps| - 1]);
    }
  }

  /** A sender whose stream numbers never go down is never reported out of order when there
      is no skew. */
  lemma NoSkewNothingOutOfOrder(config: Config, clock: int, steps: seq<Step>)
    requires config.skew == 0
    requires var a := Run(Initial(config, true, clock), steps).accepted;
      forall i, j | 0 <= i < j < |a| :: a[i].data.streamSeq <= a[j].data.streamSeq
    ensures Run(Initial(config, true, clock), steps).pipe.outOfOrder == 0
  {
    var s := Run(Initial(config, true, clock), steps);
    FirstInFirstOut(config, clock, steps);
    OutOfOrderCounted(config, true, clock, steps);
    assert forall i | 0 <= i < |s.delivered| :: s.delivered[i] == s.accepted[i];
    NoDescents(s.delivered);
  }

  // ---------------------------------------------------------------- what is delivered

  /** The enqueues that came before any `Close`, in order. */
  function Taken(init: System, steps: seq<Step>): seq<Step> {
    if steps == [] then []
    else
      var front, last := steps[..|steps| - 1], steps[|steps| - 1];
      Taken(init, front) +
      if last.Enqueue? && Enabled(Run(init, front), last) && ClosePipe !in front then [last] else []
  }

  lemma {:induction false} ClosedIff(config: Config, target: bool, clock: int, steps: seq<Step>)
    ensures Run(Initial(config, target, clock), steps).pipe.closed <==> ClosePipe in steps
  {
    if steps != [] {
      ClosedIff(config, target, clock, steps[..|steps| - 1]);
      assert steps == steps[..|steps| - 1] + [steps[|steps| - 1]];
    }
  }

  /** The packet is what this enqueue asked for: its own chunk, sized by its text, due after the
      delay, the random offset added. */
  predicate MadeFrom(config: Config, p: Packet, step: Step) {
    && step.Enqueue? && p.data == step.chunk && p.enqueued == step.now
    && p.due == step.now + config.delay + step.random
    && p.size % 3 == 0 && 4 * p.size <= 3 * |step.chunk.data64| < 4 * p.size + 12
  }

  lemma StepAccepts(s: System, step: Step)
    ensures var t := Next(s, step);
      if step.Enqueue? && Enabled(s, step) && !s.pipe.closed then
        |t.accepted| == |s.accepted| + 1 && t.accepted[..|s.accepted|] == s.accepted &&
        t.accepted[|s.accepted|].seqNo == s.pipe.dataSeq + 1 &&
        MadeFrom(s.pipe.config, t.accepted[|s.accepted|], step)
      else t.accepted == s.accepted
  {
    if step.Enqueue? { DecodedSize(|step.chunk.data64|); }
  }

  /** The packets accepted in a run are made from its enqueues, one from each, in order. */
  lemma {:induction false} AcceptedAreTaken(config: Config, target: bool, clock: int, steps: seq<Step>)
    ensures var init := Initial(config, target, clock); var accepted := Run(init, steps).accepted;
      && |accepted| == |Taken(init, steps)|
      && (forall i | 0 <= i < |accepted| ::
            accepted[i].seqNo == i + 1 && MadeFrom(config, accepted[i], Taken(init, steps)[i]))
  {
    if steps != [] {
      var init, front, last := Initial(config, target, clock), steps[..|steps| - 1], steps[|steps| - 1];
      AcceptedAreTaken(config, target, clock, front);
      OrderHolds(config, target, clock, front);
      ConfigFixed(config, target, clock, front);
      ClosedIff(config, target, clock, front);
      var s, t := Run(init, front), Run(init, steps);
      StepAccepts(s, last);
      forall i | 0 <= i < |s.accepted| ensures t.accepted[i] == s.accepted[i] && Taken(init, steps)[i] == Taken(init, front)[i] {
        assert t.accepted[..|s.accepted|][i] == s.accepted[i];
      }
    }
  }

  /** Every packet that is delivered, dropped, in flight or pending, in any run, is one that was
      enqueued, with the data it was enqueued with. */
  lemma EveryPacketWasEnqueued(config: Config, target: bool, clock: int, steps: seq<Step>, p: Packet)
    requires var s := Run(Initial(config, target, clock), steps);
      p in s.delivered || p in s.dropped || p in s.batch || p in s.pipe.pending
    ensures var taken := Taken(Initial(config, target, clock), steps);
      1 <= p.seqNo <= |taken| && MadeFrom(config, p, taken[p.seqNo - 1])
  {
    OrderHolds(config, target, clock, steps);
    AcceptedAreTaken(config, target, clock, steps);
    var s := Run(Initial(config, target, clock), steps);
    assert p in multiset(s.extracted + s.pipe.pending);
    assert p in s.accepted;
  }

  /** After a `Close` nothing more is accepted, and nothing more is taken out of the queue. */
  lemma {:induction false} CloseStops(config: Config, target: bool, clock: int, steps: seq<Step>, more: seq<Step>)
    requires ClosePipe in steps
    ensures var init := Initial(config, target, clock); var s, t := Run(init, steps), Run(init, steps + more);
      t.accepted == s.accepted && t.pipe.pending == s.pipe.pending && t.extracted == s.extracted
  {
    if more == [] {
      assert steps + more == steps;
    } else {
      var front := more[..|more| - 1];
      assert (steps + more)[..|steps + more| - 1] == steps + front;
      CloseStops(config, target, clock, steps, front);
      ClosedIff(config, target, clock, steps + front);
      var s := Run(Initial(config, target, clock), steps + front);
      assert s.extracted + [] == s.extracted;
    }
  }
}
