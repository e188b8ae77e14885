/**
 The wake-up protocol of the packet queue. Producers and consumers share the
 queue under a lock and a channel with one slot: a consumer first receives the
 token, later reaches the lock. Any number of both run in any order.
 */
module ReadySignal {
  import opened Options
  import opened ByteBudget
  import opened Subsequences
  import PacketQueue

  type ConsumerId = nat

  /** `woken` are the consumers that have received a token and not yet reached the lock. */
  datatype State = State(queue: PacketQueue.State, usage: Option<Usage>, token: bool, woken: set<ConsumerId>, taken: seq<PacketQueue.Packet>)

  datatype Event =
    | Enqueue(packet: PacketQueue.Packet)
    | Receive(consumer: ConsumerId)
    | ReachLock(consumer: ConsumerId)
    | Empty(close: bool)
    | OthersCharge(usage: Option<Usage>)

  function Step(s: State, e: Event): State {
    match e
    case Enqueue(packet) =>
      var o := PacketQueue.Enqueued(s.queue, s.usage, packet);
      if Admitted(s, packet) then s.(queue := o.queue, usage := o.usage, token := true) else s
    case Receive(consumer) =>
      if s.token && consumer !in s.woken then s.(token := false, woken := s.woken + {consumer}) else s
    case ReachLock(consumer) =>
      if consumer !in s.woken then s
      else if s.queue.packets == [] then s.(woken := s.woken - {consumer})
      else
        var rest := s.queue.packets[1..];
        s.(queue := s.queue.(packets := rest), token := s.token || rest != [], woken := s.woken - {consumer},
           taken := s.taken + [s.queue.packets[0]])
    case Empty(close) =>
      s.(queue := s.queue.(packets := [], closed := s.queue.closed || close), token := false,
         usage := BudgetReleased(s.usage, PacketQueue.Bytes(s.queue.packets)))
    case OthersCharge(usage) => s.(usage := usage)
  }

  predicate Admitted(s: State, packet: PacketQueue.Packet) {
    PacketQueue.Admits(s.queue, s.usage, packet)
  }

  function Run(s: State, events: seq<Event>): State {
    if events == [] then s else Step(Run(s, events[..|events| - 1]), events[|events| - 1])
  }

  function Start(capacity: nat, maxBytes: int, usage: Option<Usage>): State {
    State(PacketQueue.State([], capacity, maxBytes, false), usage, false, {}, [])
  }

  /** A waiting packet has a token in the channel or a consumer on its way to the lock. */
  ghost predicate NoLostWakeup(s: State) {
    s.queue.packets != [] ==> s.token || s.woken != {}
  }

  lemma {:induction false} AlwaysAwake(capacity: nat, maxBytes: int, usage: Option<Usage>, events: seq<Event>)
    ensures NoLostWakeup(Run(Start(capacity, maxBytes, usage), events))
  {
    if events != [] {
      AlwaysAwake(capacity, maxBytes, usage, events[..|events| - 1]);
      var s := Run(Start(capacity, maxBytes, usage), events[..|events| - 1]);
      var e := events[|events| - 1];
      if e.Receive? && s.token && e.consumer !in s.woken {
        assert e.consumer in Step(s, e).woken;
      }
    }
  }

  /** The packets producers got admitted, in order. */
  ghost function AdmittedIn(s: State, events: seq<Event>): seq<PacketQueue.Packet> {
    if events == [] then []
    else
      var before := AdmittedIn(s, events[..|events| - 1]);
      var e := events[|events| - 1];
      if e.Enqueue? && Admitted(Run(s, events[..|events| - 1]), e.packet) then before + [e.packet] else before
  }

  /** Consumers together receive the admitted packets in order; dropping only leaves some out. */
  lemma {:induction false} TakenInOrder(capacity: nat, maxBytes: int, usage: Option<Usage>, events: seq<Event>)
    ensures var s := Run(Start(capacity, maxBytes, usage), events);
      Subsequence(s.taken + s.queue.packets, AdmittedIn(Start(capacity, maxBytes, usage), events))
  {
    var start := Start(capacity, maxBytes, usage);
    if events != [] {
      var before := events[..|events| - 1];
      var e := events[|events| - 1];
      TakenInOrder(capacity, maxBytes, usage, before);
      var s := Run(start, before);
      var admitted := AdmittedIn(start, before);
      if e.Enqueue? && Admitted(s, e.packet) {
        var n := PacketQueue.DropCount(s.queue, s.queue.packets, |e.packet.payload|);
        SubsequenceDrops(s.taken, s.queue.packets, n, admitted);
        SubsequenceExtends(s.taken + s.queue.packets[n..], admitted, e.packet);
        assert s.taken + (s.queue.packets[n..] + [e.packet]) == s.taken + s.queue.packets[n..] + [e.packet];
      } else if e.ReachLock? && e.consumer in s.woken && s.queue.packets != [] {
        assert s.taken + [s.queue.packets[0]] + s.queue.packets[1..] == s.taken + s.queue.packets;
      } else if e.Empty? {
        SubsequenceDrops(s.taken, s.queue.packets, |s.queue.packets|, admitted);
        assert s.queue.packets[|s.queue.packets|..] == [];
      }
    }
  }

  /** One more wake-up: a consumer on its way, or one that receives the token, takes the oldest packet. */
  lemma TakesOldest(capacity: nat, maxBytes: int, usage: Option<Usage>, events: seq<Event>, consumer: ConsumerId) returns (more: seq<Event>)
    requires Run(Start(capacity, maxBytes, usage), events).queue.packets != []
    ensures forall e :: e in more ==> e.Receive? || e.ReachLock?
    ensures var s, s' := Run(Start(capacity, maxBytes, usage), events), Run(Start(capacity, maxBytes, usage), events + more);
      s'.queue.packets == s.queue.packets[1..] && s'.taken == s.taken + [s.queue.packets[0]]
  {
    var start := Start(capacity, maxBytes, usage);
    var s := Run(start, events);
    AlwaysAwake(capacity, maxBytes, usage, events);
    if c :| c in s.woken {
      more := [ReachLock(c)];
      RunNext(start, events, ReachLock(c));
    } else {
      RunNext(start, events, Receive(consumer));
      RunNext(start, events + [Receive(consumer)], ReachLock(consumer));
      more := [Receive(consumer), ReachLock(consumer)];
      assert events + [Receive(consumer)] + [ReachLock(consumer)] == events + more;
    }
  }

  lemma RunNext(s: State, events: seq<Event>, e: Event)
    ensures Run(s, events + [e]) == Step(Run(s, events), e)
  {
    assert (events + [e])[..|events|] == events;
  }

  /** Whatever has happened, consumers that go on receiving take everything that waits, oldest first. */
  lemma {:induction false} Drains(capacity: nat, maxBytes: int, usage: Option<Usage>, events: seq<Event>, consumer: ConsumerId) returns (more: seq<Event>)
    ensures forall e :: e in more ==> e.Receive? || e.ReachLock?
    ensures var s, s' := Run(Start(capacity, maxBytes, usage), events), Run(Start(capacity, maxBytes, usage), events + more);
      s'.queue.packets == [] && s'.taken == s.taken + s.queue.packets
    decreases |Run(Start(capacity, maxBytes, usage), events).queue.packets|
  {
    var s := Run(Start(capacity, maxBytes, usage), events);
    if s.queue.packets == [] {
      more := [];
      assert events + more == events;
    } else {
      var first := TakesOldest(capacity, maxBytes, usage, events, consumer);
      var rest := Drains(capacity, maxBytes, usage, events + first, consumer);
      more := first + rest;
      assert events + first + rest == events + more;
      assert s.taken + [s.queue.packets[0]] + s.queue.packets[1..] == s.taken + s.queue.packets;
    }
  }
}
