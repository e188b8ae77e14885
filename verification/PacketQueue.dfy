/**
 The bounded packet queue of a datagram session: a ring buffer that makes room
 by dropping its oldest packets, charged against a shared byte budget.
 */
module PacketQueue {
  import opened Words
  import opened Options
  import opened ByteBudget

  datatype Packet = Packet(payload: seq<byte>, queuedAt: int)

  function Bytes(packets: seq<Packet>): nat {
    if packets == [] then 0 else |packets[0].payload| + Bytes(packets[1..])
  }

  lemma {:induction false} BytesSplit(packets: seq<Packet>, i: nat)
    requires i <= |packets|
    ensures Bytes(packets) == Bytes(packets[..i]) + Bytes(packets[i..])
  {
    if i > 0 {
      BytesSplit(packets[1..], i - 1);
      assert packets[..i][1..] == packets[1..][..i - 1];
      assert packets[i..] == packets[1..][i - 1..];
    } else {
      assert packets[0..] == packets;
    }
  }

  lemma BytesAppend(packets: seq<Packet>, packet: Packet)
    ensures Bytes(packets + [packet]) == Bytes(packets) + |packet.payload|
  {
    var all := packets + [packet];
    BytesSplit(all, |packets|);
    assert all[..|packets|] == packets && all[|packets|..] == [packet];
  }

  // ---------- The specification: a drop-oldest FIFO ----------

  datatype State = State(packets: seq<Packet>, capacity: nat, maxBytes: int, closed: bool)

  predicate LeavesRoom(s: State, kept: seq<Packet>, incoming: nat) {
    |kept| < s.capacity && Bytes(kept) + incoming <= s.maxBytes
  }

  /** How many of the oldest packets have to go before `incoming` bytes fit. */
  function DropCount(s: State, packets: seq<Packet>, incoming: nat): (n: nat)
    ensures n <= |packets|
  {
    if packets == [] || LeavesRoom(s, packets, incoming) then 0
    else 1 + DropCount(s, packets[1..], incoming)
  }

  /** DropCount keeps the longest suffix that leaves room. */
  lemma {:induction false} LongestSuffix(s: State, packets: seq<Packet>, incoming: nat)
    requires s.capacity > 0 && incoming <= s.maxBytes
    ensures var kept := packets[DropCount(s, packets, incoming)..]; |kept| < s.capacity && Bytes(kept) + incoming <= s.maxBytes
    ensures forall m :: 0 <= m < DropCount(s, packets, incoming) ==>
              |packets[m..]| >= s.capacity || Bytes(packets[m..]) + incoming > s.maxBytes
  {
    if packets != [] && !LeavesRoom(s, packets, incoming) {
      LongestSuffix(s, packets[1..], incoming);
      var n := DropCount(s, packets[1..], incoming);
      assert packets[1..][n..] == packets[n + 1..];
      forall longer | 0 <= longer < n + 1
        ensures !LeavesRoom(s, packets[longer..], incoming)
      {
        if longer == 0 {
          assert packets[0..] == packets;
        } else {
          assert packets[1..][longer - 1..] == packets[longer..];
        }
      }
    }
  }

  datatype Outcome = Outcome(queue: State, usage: Option<Usage>, congested: bool)

  function Enqueued(s: State, u: Option<Usage>, packet: Packet): Outcome {
    if s.closed || |packet.payload| > s.maxBytes then Outcome(s, u, true)
    else
      var n := DropCount(s, s.packets, |packet.payload|);
      var (after, granted) := BudgetReplaced(u, Bytes(s.packets[..n]), |packet.payload|);
      if granted then Outcome(s.(packets := s.packets[n..] + [packet]), after, n > 0)
      else Outcome(s, u, true)
  }

  /** The packet gets in: the queue is open, the packet fits it, and the budget grants the exchange. */
  predicate Admits(s: State, u: Option<Usage>, packet: Packet) {
    && !s.closed && |packet.payload| <= s.maxBytes
    && BudgetReplaced(u, Bytes(s.packets[..DropCount(s, s.packets, |packet.payload|)]), |packet.payload|).1
  }

  /**
   The promise of the queue: an enqueue either changes nothing, or keeps the
   longest suffix of the old packets that leaves room and appends the new one.
   It answers "not congested" exactly when the packet got in and none was lost.
   */
  lemma EnqueueContract(s: State, u: Option<Usage>, packet: Packet)
    requires s.capacity > 0
    ensures var o := Enqueued(s, u, packet);
      var n := DropCount(s, s.packets, |packet.payload|);
      var admitted := !s.closed && |packet.payload| <= s.maxBytes
                      && BudgetReplaced(u, Bytes(s.packets[..n]), |packet.payload|).1;
      && (!admitted ==> o == Outcome(s, u, true))
      && (admitted ==>
            && o.queue.packets == s.packets[n..] + [packet]
            && |o.queue.packets| <= s.capacity && Bytes(o.queue.packets) <= s.maxBytes
            && (forall m :: 0 <= m < n ==>
                  |s.packets[m..]| >= s.capacity || Bytes(s.packets[m..]) + |packet.payload| > s.maxBytes)
            && (|s.packets| < s.capacity && Bytes(s.packets) + |packet.payload| <= s.maxBytes ==>
                  o.queue.packets == s.packets + [packet]))
      && (!o.congested <==> admitted && o.queue.packets == s.packets + [packet])
  {
    var n := DropCount(s, s.packets, |packet.payload|);
    if |packet.payload| <= s.maxBytes {
      LongestSuffix(s, s.packets, |packet.payload|);
      BytesAppend(s.packets[n..], packet);
      if n > 0 {
        assert |s.packets[n..] + [packet]| < |s.packets + [packet]|;
        assert s.packets[0..] == s.packets;
      }
    }
  }

  /** Charging the budget for the swap conserves the bytes: usage moves with the contents. */
  lemma EnqueueConserves(s: State, usage: Usage, packet: Packet)
    ensures var o := Enqueued(s, Some(usage), packet);
      && o.usage.Some?
      && o.usage.value.rule - usage.rule == Bytes(o.queue.packets) - Bytes(s.packets)
      && o.usage.value.process - usage.process == Bytes(o.queue.packets) - Bytes(s.packets)
  {
    var n := DropCount(s, s.packets, |packet.payload|);
    BytesSplit(s.packets, n);
    BytesAppend(s.packets[n..], packet);
  }

  /** Releasing one more packet after the first ones is releasing them together. */
  lemma DropNext(packets: seq<Packet>, i: nat, charge: Option<Usage>)
    requires i < |packets|
    ensures BudgetReleased(BudgetReleased(charge, Bytes(packets[..i])), |packets[i].payload|) == BudgetReleased(charge, Bytes(packets[..i + 1]))
    ensures packets[i..] == [packets[i]] + packets[i + 1..]
  {
    BytesAppend(packets[..i], packets[i]);
    assert packets[..i] + [packets[i]] == packets[..i + 1];
    if charge.Some? {
      ReleasedTwice(charge.value, Bytes(packets[..i]), |packets[i].payload|);
    }
  }

  /** The cut between dropped and kept packets moves by one. */
  lemma MoveCut(packets: seq<Packet>, i: nat)
    requires i < |packets|
    ensures packets[i..] != [] && packets[i..][0] == packets[i] && packets[i..][1..] == packets[i + 1..]
    ensures Bytes(packets[..i + 1]) == Bytes(packets[..i]) + |packets[i].payload|
    ensures Bytes(packets[i..]) == |packets[i].payload| + Bytes(packets[i + 1..])
  {
    BytesAppend(packets[..i], packets[i]);
    assert packets[..i] + [packets[i]] == packets[..i + 1];
    assert packets[i..][1..] == packets[i + 1..];
  }

  // ---------- The ring buffer ----------

  /** The number of packets of a session that workers have taken and not finished. */
  class InFlightCounter {
    var count: int

    constructor ()
      ensures count == 0
    {
      count := 0;
    }
  }

  /** A packet handed to a worker. Its bytes stay charged until the worker is done. */
  class Lease {
    const packet: Packet
    const budget: RuleBudget?
    const inFlight: InFlightCounter?
    const bytes: nat
    var leaseDone: bool

    function Footprint(): set<object> {
      {this} + (if budget == null then {} else {budget, budget.process}) + (if inFlight == null then {} else {inFlight})
    }

    constructor (packet: Packet, budget: RuleBudget?, inFlight: InFlightCounter?)
      ensures this.packet == packet && this.budget == budget && this.inFlight == inFlight
      ensures bytes == |packet.payload| && !leaseDone
    {
      this.packet, this.budget, this.inFlight := packet, budget, inFlight;
      bytes, leaseDone := |packet.payload|, false;
    }

    /** Finishing twice releases once. */
    method Done()
      modifies Footprint()
      ensures leaseDone
      ensures budget != null ==>
        budget.View() == if old(leaseDone) then old(budget.View()) else Released(old(budget.View()), bytes)
      ensures inFlight != null ==>
        inFlight.count == old(inFlight.count) - if old(leaseDone) then 0 else 1
    {
      if leaseDone {
        return;
      }
      leaseDone := true;
      if budget != null {
        budget.Release(bytes);
      }
      if inFlight != null {
        inFlight.count := inFlight.count - 1;
      }
    }
  }

  const EMPTY: Packet := Packet([], 0)

  lemma Wrap(a: nat, n: nat)
    requires 0 < n && a < 2 * n
    ensures a % n == if a < n then a else a - n
  {}

  class Queue {
    const slots: array<Packet>
    var head: nat
    var size: nat
    var queuedBytes: int
    const maxBytes: int
    const budget: RuleBudget?
    var closed: bool
    /** The one-slot signal channel: true when it holds a token. */
    var ready: bool

    /** The slot of the i-th packet; it is `(head + i) % slots.Length` (lemma Wrap). */
    function Slot(i: nat): (index: nat)
      requires head < slots.Length && i <= slots.Length
      reads this
      ensures index < slots.Length
    {
      if head + i < slots.Length then head + i else head + i - slots.Length
    }

    ghost function Contents(): (packets: seq<Packet>)
      requires head < slots.Length && size <= slots.Length
      reads this, slots
      ensures |packets| == size
    {
      seq(size, i requires 0 <= i < size && head < slots.Length && size <= slots.Length reads this, slots => slots[Slot(i)])
    }

    ghost predicate Valid()
      reads this, slots
    {
      && slots.Length > 0 && maxBytes > 0
      && head < slots.Length && size <= slots.Length
      && queuedBytes == Bytes(Contents())
    }

    ghost function View(): State
      requires Valid()
      reads this, slots
    {
      State(Contents(), slots.Length, maxBytes, closed)
    }

    ghost function Charge(): Option<Usage>
      reads this, BudgetFootprint()
    {
      if budget == null then None else Some(budget.View())
    }

    /** No budget, or one with room for so many more bytes, for the rule and for the process. */
    ghost predicate HasRoom(bytes: nat)
      reads BudgetFootprint()
    {
      budget != null ==> budget.used + bytes <= budget.limit && budget.process.used + bytes <= budget.process.limit && budget.process.used >= 0
    }

    function BudgetFootprint(): set<object> {
      if budget == null then {} else {budget, budget.process}
    }

    function Footprint(): set<object> {
      {this, slots} + BudgetFootprint()
    }

    constructor (maxPackets: int, maxBytes: int, budget: RuleBudget?)
      ensures Valid() && fresh(slots) && this.budget == budget
      ensures View() == State([], if maxPackets <= 0 then 1 else maxPackets, if maxBytes <= 0 then 1 else maxBytes, false)
      ensures !ready
    {
      this.slots := new Packet[if maxPackets <= 0 then 1 else maxPackets](_ => EMPTY);
      this.maxBytes := if maxBytes <= 0 then 1 else maxBytes;
      this.budget := budget;
      head, size, queuedBytes, closed, ready := 0, 0, 0, false, false;
    }

    method SignalLocked()
      requires Valid()
      modifies this`ready
      ensures Valid() && Contents() == old(Contents()) && ready == (old(ready) || size > 0)
    {
      ghost var was := Contents();
      if size == 0 {
        return;
      }
      ready := true;
      assert Contents() == was;
    }

    /** The ring part of a pop. */
    method RemoveHead() returns (packet: Packet)
      requires Valid() && size > 0
      modifies this`head, this`size, this`queuedBytes, slots
      ensures Valid()
      ensures old(Contents()) == [packet] + Contents()
    {
      ghost var was := Contents();
      packet := slots[head];
      assert packet == was[0];
      slots[head] := EMPTY;
      Wrap(head + 1, slots.Length);
      head := (head + 1) % slots.Length;
      size := size - 1;
      var left := queuedBytes - |packet.payload|;
      queuedBytes := if left < 0 then 0 else left;
      assert was == [packet] + was[1..];
      assert Contents() == was[1..];
    }

    method PopOldestLocked(releaseBudget: bool) returns (packet: Packet)
      requires Valid() && size > 0
      modifies this`head, this`size, this`queuedBytes, slots, BudgetFootprint()
      ensures Valid()
      ensures old(Contents()) == [packet] + Contents()
      ensures Charge() == if releaseBudget then BudgetReleased(old(Charge()), |packet.payload|) else old(Charge())
    {
      packet := RemoveHead();
      if releaseBudget && budget != null {
        budget.Release(|packet.payload|);
      }
    }

    /** How many packets to drop, and their bytes. The check after the loop never fires. */
    method PlanDrops(packetBytes: nat) returns (dropCount: nat, releaseBytes: nat)
      requires Valid() && packetBytes <= maxBytes
      ensures dropCount == DropCount(View(), Contents(), packetBytes)
      ensures releaseBytes == Bytes(Contents()[..dropCount])
      ensures dropCount <= size && size - dropCount < slots.Length
    {
      ghost var was := View();
      dropCount, releaseBytes := 0, 0;
      var remainingPackets, remainingBytes := size, queuedBytes;
      while remainingPackets > 0 && (remainingPackets >= slots.Length || remainingBytes + packetBytes > maxBytes)
        invariant dropCount <= size && remainingPackets == size - dropCount
        invariant remainingBytes == Bytes(was.packets[dropCount..])
        invariant releaseBytes == Bytes(was.packets[..dropCount])
        invariant DropCount(was, was.packets, packetBytes) == dropCount + DropCount(was, was.packets[dropCount..], packetBytes)
        decreases remainingPackets
      {
        Wrap(head + dropCount, slots.Length);
        var index := (head + dropCount) % slots.Length;
        var bytes := |slots[index].payload|;
        assert slots[index] == was.packets[dropCount];
        MoveCut(was.packets, dropCount);
        dropCount := dropCount + 1;
        releaseBytes := releaseBytes + bytes;
        remainingPackets := remainingPackets - 1;
        remainingBytes := remainingBytes - bytes;
      }
      if remainingPackets >= slots.Length || remainingBytes + packetBytes > maxBytes {
        assert false;
      }
    }

    method Enqueue(payload: seq<byte>, now: int) returns (congested: bool)
      requires Valid()
      modifies Footprint()
      ensures Valid()
      ensures Outcome(View(), Charge(), congested) == Enqueued(old(View()), old(Charge()), Packet(payload, now))
      ensures ready <==> old(ready) || Admits(old(View()), old(Charge()), Packet(payload, now))
      ensures old(closed) || |payload| > maxBytes ==> congested && Contents() == old(Contents())
      ensures !old(closed) && |old(Contents())| < slots.Length && Bytes(old(Contents())) + |payload| <= maxBytes && old(HasRoom(|payload|)) ==>
        !congested && Contents() == old(Contents()) + [Packet(payload, now)]
    {
      var packet := Packet(payload, now);
      var packetBytes := |payload|;
      if closed || packetBytes > maxBytes {
        return true;
      }
      var dropCount, releaseBytes := PlanDrops(packetBytes);
      if budget != null {
        ghost var was := View();
        var granted := budget.Replace(releaseBytes, packetBytes);
        assert View() == was;
        if !granted {
          return true;
        }
      }
      Admit(dropCount, packet);
      congested := dropCount > 0;
    }

    method Admit(dropCount: nat, packet: Packet)
      requires Valid() && dropCount <= size && size - dropCount < slots.Length
      modifies this`head, this`size, this`queuedBytes, this`ready, slots
      ensures Valid() && ready
      ensures Contents() == old(Contents())[dropCount..] + [packet]
    {
      DropFirst(dropCount);
      Append(packet);
      SignalLocked();
    }

    method DropFirst(dropCount: nat)
      requires Valid() && dropCount <= size
      modifies this`head, this`size, this`queuedBytes, slots
      ensures Valid() && Contents() == old(Contents())[dropCount..]
    {
      ghost var was := Contents();
      var i := 0;
      while i < dropCount
        invariant 0 <= i <= dropCount && Valid()
        invariant Contents() == was[i..]
      {
        var _ := RemoveHead();
        i := i + 1;
      }
    }

    method Append(packet: Packet)
      requires Valid() && size < slots.Length
      modifies this`size, this`queuedBytes, slots
      ensures Valid() && Contents() == old(Contents()) + [packet]
    {
      ghost var was := Contents();
      Wrap(head + size, slots.Length);
      var index := (head + size) % slots.Length;
      slots[index] := packet;
      size := size + 1;
      queuedBytes := queuedBytes + |packet.payload|;
      assert Contents() == was + [packet];
      BytesAppend(was, packet);
    }

    /** The critical section a consumer runs after it has received a token. */
    method TakeLocked(inFlight: InFlightCounter?) returns (lease: Lease?)
      requires Valid()
      modifies Footprint(), if inFlight == null then {} else {inFlight}
      ensures Valid() && closed == old(closed) && Charge() == old(Charge())
      ensures lease == null <==> old(Contents()) == []
      ensures lease == null ==> View() == old(View()) && ready == old(ready) && (inFlight != null ==> unchanged(inFlight))
      ensures lease != null ==>
        && fresh(lease) && !lease.leaseDone && lease.budget == budget && lease.inFlight == inFlight
        && old(Contents()) == [lease.packet] + Contents()
        && lease.bytes == |lease.packet.payload|
        && (inFlight != null ==> inFlight.count == old(inFlight.count) + 1)
        && ready == (old(ready) || Contents() != [])
    {
      if size == 0 {
        return null;
      }
      var packet := PopOldestLocked(false);
      ghost var rest := Contents();
      lease := new Lease(packet, budget, inFlight);
      if inFlight != null {
        inFlight.count := inFlight.count + 1;
      }
      SignalLocked();
      assert Contents() == rest;
    }

    method Clear()
      requires Valid()
      modifies Footprint()
      ensures Valid() && closed == old(closed) && !ready
      ensures Contents() == []
      ensures Charge() == BudgetReleased(old(Charge()), Bytes(old(Contents())))
    {
      DropAll();
      ready := false;
    }

    method Close()
      requires Valid()
      modifies Footprint()
      ensures Valid() && closed && !ready
      ensures Contents() == []
      ensures Charge() == BudgetReleased(old(Charge()), Bytes(old(Contents())))
    {
      closed := true;
      assert Contents() == old(Contents());
      DropAll();
      ready := false;
    }

    method DropAll()
      requires Valid()
      modifies this`head, this`size, this`queuedBytes, slots, BudgetFootprint()
      ensures Valid() && Contents() == []
      ensures Charge() == BudgetReleased(old(Charge()), Bytes(old(Contents())))
    {
      ghost var was, charge := Contents(), Charge();
      ghost var i := 0;
      while size > 0
        invariant Valid() && 0 <= i <= |was| && Contents() == was[i..]
        invariant Charge() == BudgetReleased(charge, Bytes(was[..i]))
        decreases size
      {
        DropNext(was, i, charge);
        var _ := PopOldestLocked(true);
        i := i + 1;
      }
      assert was[..i] == was;
    }
  }
}
