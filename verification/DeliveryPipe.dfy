/**
 The data lane of cmd/test-streammanager/deliverypipe.go: enqueue with a skewed delivery
 time, extraction of every ready packet under the lock, delivery of the batch outside it,
 and the byte counter.

 Times are nanoseconds.  The clock and the random skew are arguments of the calls.
 */
module DeliveryPipe {
  /** `enqueued` is the clock reading inside the enqueue, kept for the specification. */
  datatype Packet = Packet(seqNo: nat, due: int, size: nat, data: Chunk, enqueued: int)

  /** The stream packet carried: its sequence number in the stream and its base64 text. */
  datatype Chunk = Chunk(streamSeq: int, data64: string)

  type Packets = seq<Packet>

  datatype Config = Config(delay: int, skew: nat)

  /** Bytes that a base64 text of this length can hold (`DecodedLen`). */
  function DecodedLen(n: nat): nat {
    n / 4 * 3
  }

  /** Three bytes for every whole group of four characters. */
  lemma DecodedSize(n: nat)
    ensures 4 * DecodedLen(n) <= 3 * n < 4 * DecodedLen(n) + 12 && DecodedLen(n) % 3 == 0
  {}

  // ---------------------------------------------------------------- the order of the queue

  /** Earlier due first; at the same time, earlier enqueued first. */
  predicate Before(p: Packet, q: Packet) {
    p.due < q.due || (p.due == q.due && p.seqNo < q.seqNo)
  }

  ghost predicate Sorted(ps: Packets) {
    forall i, j | 0 <= i < j < |ps| :: Before(ps[i], ps[j])
  }

  /** Where a packet goes in a sorted queue. */
  function Insert(ps: Packets, p: Packet): Packets {
    if ps == [] || Before(p, ps[0]) then [p] + ps else [ps[0]] + Insert(ps[1..], p)
  }

  lemma {:induction false} InsertSorts(ps: Packets, p: Packet)
    requires Sorted(ps) && forall q <- ps :: q.seqNo != p.seqNo
    ensures Sorted(Insert(ps, p)) && multiset(Insert(ps, p)) == multiset(ps) + multiset{p}
    ensures |Insert(ps, p)| == |ps| + 1
    ensures forall q <- Insert(ps, p) :: q == p || q in ps
  {
    if ps != [] && !Before(p, ps[0]) {
      InsertSorts(ps[1..], p);
      assert ps == [ps[0]] + ps[1..];
      assert ps[0] in ps && Before(ps[0], p);
      forall q <- Insert(ps[1..], p) ensures Before(ps[0], q) {}
    } else {
      assert forall k | 0 <= k < |ps| :: Before(p, ps[k]) || k == 0;
    }
  }

  /** Whatever sorting routine is used, stable or not, there is only one sorted order. */
  lemma {:induction false} SortedIsUnique(ps: Packets, qs: Packets)
    requires Sorted(ps) && Sorted(qs) && multiset(ps) == multiset(qs)
    ensures ps == qs
  {
    if ps == [] {
      assert |multiset(qs)| == 0;
    } else {
      assert ps[0] in multiset(qs) && |multiset(qs)| == |ps|;
      assert qs[0] in multiset(ps);
      assert ps[0] == qs[0];
      assert ps == [ps[0]] + ps[1..] && qs == [qs[0]] + qs[1..];
      assert multiset(ps[1..]) == multiset(ps) - multiset{ps[0]};
      assert multiset(qs[1..]) == multiset(qs) - multiset{qs[0]};
      SortedIsUnique(ps[1..], qs[1..]);
    }
  }

  /** The number of packets at the front that are due. */
  function ReadyCount(ps: Packets, now: int): (n: nat)
    ensures n <= |ps|
  {
    if ps == [] || ps[0].due > now then 0 else 1 + ReadyCount(ps[1..], now)
  }

  /** On a sorted queue the front part is all there is to deliver. */
  lemma {:induction false} ReadyIsExact(ps: Packets, now: int)
    requires Sorted(ps)
    ensures forall k | 0 <= k < |ps| :: k < ReadyCount(ps, now) <==> ps[k].due <= now
  {
    if ps != [] && ps[0].due <= now {
      ReadyIsExact(ps[1..], now);
      forall k | 0 <= k < |ps| ensures k < ReadyCount(ps, now) <==> ps[k].due <= now {
        if k > 0 { assert ps[k] == ps[1..][k - 1]; }
      }
    } else if ps != [] {
      forall k | 0 < k < |ps| ensures ps[k].due > now { assert Before(ps[0], ps[k]); }
    }
  }

  // ---------------------------------------------------------------- the object

  datatype Fields = Fields(
    config: Config, target: bool, dataSeq: nat, pending: Packets, closed: bool,
    currentBytes: int, highWater: int, lastStreamSeq: int, outOfOrder: nat)

  function Tagged(f: Fields, chunk: Chunk, now: int, skew: int): Packet {
    Packet(f.dataSeq + 1, now + f.config.delay + skew, DecodedLen(|chunk.data64|), chunk, now)
  }

  predicate InRange(config: Config, random: int) {
    var skew: int := config.skew;
    -skew <= random <= skew
  }

  function AfterEnqueue(f: Fields, p: Packet): Fields {
    if f.closed then f
    else
      var bytes := f.currentBytes + p.size;
      f.(dataSeq := f.dataSeq + 1, pending := Insert(f.pending, p), currentBytes := bytes,
         highWater := if bytes > f.highWater then bytes else f.highWater)
  }

  function AfterExtract(f: Fields, now: int): Fields {
    if f.closed then f else f.(pending := f.pending[ReadyCount(f.pending, now)..])
  }

  /** The out-of-order counter, just before the packet goes to the target. */
  function AfterHand(f: Fields, p: Packet): Fields {
    if !f.target then f
    else
      f.(lastStreamSeq := p.data.streamSeq,
         outOfOrder := if f.lastStreamSeq != -1 && p.data.streamSeq < f.lastStreamSeq
                       then f.outOfOrder + 1 else f.outOfOrder)
  }

  function AfterAccount(f: Fields, p: Packet): Fields {
    if f.target then f.(currentBytes := f.currentBytes - p.size) else f
  }

  ghost predicate Distinct(ps: Packets) {
    forall i, j | 0 <= i < j < |ps| :: ps[i].seqNo != ps[j].seqNo
  }

  ghost predicate QueueOk(f: Fields) {
    Sorted(f.pending) && Distinct(f.pending) && forall p <- f.pending :: p.seqNo <= f.dataSeq
  }

  lemma ExtractKeepsQueue(f: Fields, now: int)
    requires QueueOk(f)
    ensures QueueOk(AfterExtract(f, now))
  {
    var rest := AfterExtract(f, now).pending;
    assert forall p <- rest :: p in f.pending;
  }

  method SortPending(ps: Packets) returns (sorted: Packets)
    requires Distinct(ps)
    ensures Sorted(sorted) && multiset(sorted) == multiset(ps)
  {
    sorted := [];
    for i := 0 to |ps|
      invariant Sorted(sorted) && multiset(sorted) == multiset(ps[..i])
    {
      forall q <- sorted ensures q.seqNo != ps[i].seqNo { assert q in multiset(ps[..i]); }
      InsertSorts(sorted, ps[i]);
      sorted := Insert(sorted, ps[i]);
      assert ps[..i + 1] == ps[..i] + [ps[i]];
    }
    assert ps[..|ps|] == ps;
  }

  /** Sorting after an append is an insertion, for any routine that sorts. */
  lemma SortedAppend(ps: Packets, p: Packet, sorted: Packets)
    requires Sorted(ps) && Distinct(ps) && forall q <- ps :: q.seqNo < p.seqNo
    requires Sorted(sorted) && multiset(sorted) == multiset(ps + [p])
    ensures sorted == Insert(ps, p) && Distinct(sorted)
  {
    InsertSorts(ps, p);
    SortedIsUnique(sorted, Insert(ps, p));
    InsertDistinct(ps, p);
  }

  lemma {:induction false} InsertDistinct(ps: Packets, p: Packet)
    requires Sorted(ps) && Distinct(ps) && forall q <- ps :: q.seqNo != p.seqNo
    ensures Distinct(Insert(ps, p))
  {
    if ps != [] && !Before(p, ps[0]) {
      InsertDistinct(ps[1..], p);
      InsertSorts(ps[1..], p);
      forall q <- Insert(ps[1..], p) ensures q.seqNo != ps[0].seqNo {
        assert ps[0] in ps;
        if q != p { var k :| 0 <= k < |ps| - 1 && ps[1..][k] == q; assert ps[k + 1] == q; }
      }
    }
  }

  /** `append`, then `sortPending`. */
  method EnqueueSorted(pending: Packets, tagged: Packet) returns (r: Packets)
    requires Sorted(pending) && Distinct(pending) && forall q <- pending :: q.seqNo < tagged.seqNo
    ensures r == Insert(pending, tagged) && Sorted(r) && Distinct(r)
    ensures forall q <- r :: q == tagged || q in pending
  {
    r := SortPending(pending + [tagged]);
    SortedAppend(pending, tagged, r);
    InsertSorts(pending, tagged);
  }

  class DeliveryPipe {
    const config: Config
    const target: bool
    var dataSeq: nat
    var dataPending: Packets
    var closed: bool
    var currentBytes: int
    var highWater: int
    var lastStreamSeq: int
    var outOfOrder: nat

    constructor (config: Config, target: bool)
      ensures State() == Fields(config, target, 0, [], false, 0, 0, -1, 0)
    {
      this.config, this.target := config, target;
      dataSeq, dataPending, closed := 0, [], false;
      currentBytes, highWater, lastStreamSeq, outOfOrder := 0, 0, -1, 0;
    }

    function State(): Fields
      reads this
    {
      Fields(config, target, dataSeq, dataPending, closed, currentBytes, highWater, lastStreamSeq, outOfOrder)
    }

    /** `random` is the offset the generator draws, between `-skew` and `skew`. */
    method ComputeDeliveryTime(now: int, random: int) returns (due: int)
      requires InRange(config, random)
      ensures due == now + config.delay + random
    {
      var base := now + config.delay;
      if config.skew == 0 {
        return base;
      }
      return base + random;
    }

    method EnqueueData(chunk: Chunk, now: int, random: int)
      requires InRange(config, random) && QueueOk(State())
      modifies this
      ensures State() == AfterEnqueue(old(State()), Tagged(old(State()), chunk, now, random))
      ensures QueueOk(State())
    {
      if closed {
        return;
      }
      var size := DecodedLen(|chunk.data64|);
      dataSeq := dataSeq + 1;
      var due := ComputeDeliveryTime(now, random);
      var tagged := Packet(dataSeq, due, size, chunk, now);
      dataPending := EnqueueSorted(dataPending, tagged);
      currentBytes := currentBytes + size;
      if currentBytes > highWater {
        highWater := currentBytes;
      }
    }

    /** The locked part of one turn of the delivery loop. */
    method ExtractReady(now: int) returns (ready: Packets)
      requires QueueOk(State())
      modifies this`dataPending
      ensures State() == AfterExtract(old(State()), now) && QueueOk(State())
      ensures ready == if closed then [] else old(dataPending)[..ReadyCount(old(dataPending), now)]
    {
      if closed {
        return [];
      }
      ExtractKeepsQueue(State(), now);
      var readyCount := 0;
      while readyCount < |dataPending| && dataPending[readyCount].due <= now
        invariant readyCount <= |dataPending|
        invariant ReadyCount(dataPending, now) == readyCount + ReadyCount(dataPending[readyCount..], now)
      {
        readyCount := readyCount + 1;
      }
      ready := dataPending[..readyCount];
      dataPending := dataPending[readyCount..];
    }

    /** Outside the lock, up to the call of the target. */
    method Hand(p: Packet)
      modifies this`lastStreamSeq, this`outOfOrder
      ensures State() == AfterHand(old(State()), p)
    {
      if target {
        if lastStreamSeq != -1 {
          if p.data.streamSeq < lastStreamSeq {
            outOfOrder := outOfOrder + 1;
          }
        }
        lastStreamSeq := p.data.streamSeq;
      }
    }

    /** Under the lock again, after the call of the target. */
    method Account(p: Packet)
      modifies this`currentBytes
      ensures State() == AfterAccount(old(State()), p)
    {
      if target {
        currentBytes := currentBytes - p.size;
      }
    }

    method Close()
      modifies this`closed
      ensures State() == old(State()).(closed := true)
    {
      closed := true;
    }
  }
}
