/**
 Conservation of budget bytes over whole runs: many rules, each with many
 queues, leases and receivers that share its budget, under any interleaving.
 */
module BudgetConservation {
  import opened Words
  import opened Options
  import opened MapSums
  import opened ByteBudget
  import PacketQueue
  import Reassembly
  import Sealing
  import Wire

  type OwnerId = nat
  type RuleId = nat

  /** Whoever holds bytes of a rule's budget. */
  datatype Owner =
    | Queue(queue: PacketQueue.State)
    | Lease(bytes: nat, done: bool)
    | Receiver(pending: map<uint64, Reassembly.Assembly>, accepted: set<uint64>, closed: bool)

  datatype Rule = Rule(limit: nat, used: nat, owners: map<OwnerId, Owner>)

  datatype Process = Process(limit: nat, used: int, rules: map<RuleId, Rule>)

  ghost function Held(o: Owner): nat {
    match o
    case Queue(queue) => PacketQueue.Bytes(queue.packets)
    case Lease(bytes, done) => if done then 0 else bytes
    case Receiver(pending, _, _) => Reassembly.TotalBytes(pending)
  }

  ghost function HeldByOwner(r: Rule): map<OwnerId, nat> {
    map o | o in r.owners :: Held(r.owners[o])
  }

  ghost function UsedByRule(p: Process): map<RuleId, nat> {
    map r | r in p.rules :: p.rules[r].used
  }

  /** The account balances: nothing is lost, nothing is counted twice, no limit is exceeded. */
  ghost predicate Balanced(p: Process) {
    && p.used == Sum(UsedByRule(p)) && p.used <= p.limit
    && forall r :: r in p.rules ==> RuleBalanced(p.rules[r])
  }

  ghost predicate RuleBalanced(r: Rule) {
    r.used == Sum(HeldByOwner(r)) && r.used <= r.limit
  }

  // ---------- What each operation does to its owner and to the usage ----------

  datatype Change = Change(owner: Owner, usage: Usage)

  /** The usage moves by exactly what the owner gained or gave back. */
  ghost predicate Conserves(before: Owner, usage: Usage, c: Change) {
    && c.usage.rule - usage.rule == Held(c.owner) - Held(before)
    && c.usage.process - usage.process == Held(c.owner) - Held(before)
    && c.usage.Sound()
    && c.usage.ruleLimit == usage.ruleLimit && c.usage.processLimit == usage.processLimit
  }

  ghost function AfterEnqueue(queue: PacketQueue.State, usage: Usage, packet: PacketQueue.Packet): Change {
    var o := PacketQueue.Enqueued(queue, Some(usage), packet);
    Change(Queue(o.queue), o.usage.value)
  }

  ghost function AfterDrop(queue: PacketQueue.State, usage: Usage, close: bool): Change {
    Change(Queue(queue.(packets := [], closed := queue.closed || close)), Released(usage, PacketQueue.Bytes(queue.packets)))
  }

  ghost function AfterDone(bytes: nat, done: bool, usage: Usage): Change {
    Change(Lease(bytes, true), if done then usage else Released(usage, bytes))
  }

  ghost function ReceiverState(o: Owner, usage: Usage): Reassembly.State
    requires o.Receiver?
  {
    Reassembly.State(o.pending, Some(usage), o.accepted, o.closed)
  }

  ghost function FromReceiver(s: Reassembly.State): Change
    requires s.usage.Some?
  {
    Change(Receiver(s.pending, s.accepted, s.closed), s.usage.value)
  }

  ghost function AfterArrive(o: Owner, usage: Usage, packet: Wire.Packet, now: int, victim: uint64): Change
    requires o.Receiver?
  {
    FromReceiver(Reassembly.Accepted(ReceiverState(o, usage), packet, now, victim).state)
  }

  ghost function AfterExpire(o: Owner, usage: Usage, now: int): Change
    requires o.Receiver?
  {
    if o.closed then Change(o, usage) else FromReceiver(Reassembly.Swept(ReceiverState(o, usage), now))
  }

  ghost function AfterClear(o: Owner, usage: Usage, close: bool): Change
    requires o.Receiver?
  {
    Change(Receiver(map[], o.accepted, o.closed || close), Released(usage, Reassembly.TotalBytes(o.pending)))
  }

  lemma EnqueueBalances(queue: PacketQueue.State, usage: Usage, packet: PacketQueue.Packet)
    requires usage.Sound()
    ensures Conserves(Queue(queue), usage, AfterEnqueue(queue, usage, packet))
  {
    PacketQueue.EnqueueConserves(queue, usage, packet);
  }

  /** The running account of a receiver: usage minus holdings does not change. */
  ghost predicate SameShare(s: Reassembly.State, s': Reassembly.State) {
    && s.usage.Some? && s'.usage.Some?
    && s'.usage.value.Sound()
    && s'.usage.value.ruleLimit == s.usage.value.ruleLimit && s'.usage.value.processLimit == s.usage.value.processLimit
    && s'.usage.value.rule - s.usage.value.rule == Reassembly.TotalBytes(s'.pending) - Reassembly.TotalBytes(s.pending)
    && s'.usage.value.process - s.usage.value.process == Reassembly.TotalBytes(s'.pending) - Reassembly.TotalBytes(s.pending)
  }

  ghost predicate Covered(s: Reassembly.State) {
    s.usage.Some? && s.usage.value.Sound() && Reassembly.TotalBytes(s.pending) <= s.usage.value.rule
  }

  lemma DroppedShare(s: Reassembly.State, q: uint64)
    requires Covered(s)
    ensures SameShare(s, Reassembly.Dropped(s, q)) && Covered(Reassembly.Dropped(s, q))
  {
    Reassembly.TotalRemove(s.pending, q);
  }

  lemma SweptShare(s: Reassembly.State, now: int)
    requires Covered(s)
    ensures SameShare(s, Reassembly.Swept(s, now)) && Covered(Reassembly.Swept(s, now))
  {
    var overdue := Reassembly.OverdueSets(s.pending, now);
    var kept := Reassembly.Swept(s, now).pending;
    SumSplit(Reassembly.Totals(s.pending), overdue.Keys);
    assert Only(Reassembly.Totals(s.pending), overdue.Keys) == Reassembly.Totals(overdue);
    assert Reassembly.Totals(s.pending) - overdue.Keys == Reassembly.Totals(kept);
  }

  lemma ReservedShare(s: Reassembly.State, q: uint64, a: Reassembly.Assembly, bytes: nat)
    requires Covered(s) && BudgetReserved(s.usage, bytes).1
    requires a.total == bytes + if q in s.pending then s.pending[q].total else 0
    ensures var s' := s.(pending := s.pending[q := a], usage := BudgetReserved(s.usage, bytes).0);
      SameShare(s, s') && Covered(s')
  {
    Reassembly.TotalUpdate(s.pending, q, a);
  }

  lemma StoredShare(s: Reassembly.State, a: Reassembly.Assembly, p: Wire.Packet)
    requires Covered(s) && p.fragment < a.fragments && a.chunks[p.fragment].None?
    requires a.total == if p.sequence in s.pending then s.pending[p.sequence].total else 0
    ensures SameShare(s, Reassembly.Stored(s, a, p).state)
  {
    var (usage, granted) := BudgetReserved(s.usage, |p.payload|);
    if granted {
      var a' := Reassembly.WithChunk(a, p.fragment, p.payload);
      ReservedShare(s, p.sequence, a', |p.payload|);
      var s' := s.(pending := s.pending[p.sequence := a'], usage := usage);
      if Reassembly.Complete(a') {
        DroppedShare(s', p.sequence);
        FinishedShare(s, Reassembly.Dropped(s', p.sequence), p.sequence, Sealing.Join(Reassembly.AllChunks(a')));
      }
    } else {
      DroppedShare(s, p.sequence);
    }
  }

  lemma FinishedShare(s: Reassembly.State, left: Reassembly.State, sequence: uint64, payload: seq<byte>)
    requires SameShare(s, left)
    ensures SameShare(s, Reassembly.Finished(left, sequence, payload).state)
  {}

  lemma PlacedShare(s: Reassembly.State, p: Wire.Packet, now: int, victim: uint64)
    requires Covered(s) && Wire.ValidFragmentMetadata(p.fragment, p.fragments) && p.fragments != 0
    ensures SameShare(s, Reassembly.Placed(s, p, now, victim).state)
  {
    var isNew := p.sequence !in s.pending;
    var s1 := if isNew && |s.pending| >= Reassembly.MAX_PENDING_FRAGMENT_SETS then Reassembly.Dropped(s, victim) else s;
    DroppedShare(s, victim);
    DroppedShare(s1, p.sequence);
    var a := if isNew then Reassembly.NewAssembly(p.fragments, now) else s.pending[p.sequence];
    if p.fragment < a.fragments && a.chunks[p.fragment].None? {
      StoredShare(s1, a, p);
    }
  }

  lemma ArriveBalances(o: Owner, usage: Usage, packet: Wire.Packet, now: int, victim: uint64)
    requires o.Receiver? && usage.Sound() && Held(o) <= usage.rule
    ensures Conserves(o, usage, AfterArrive(o, usage, packet, now, victim))
  {
    var s := ReceiverState(o, usage);
    if Reassembly.IsPart(s, packet) {
      SweptShare(s, now);
      PlacedShare(Reassembly.Swept(s, now), packet, now, victim);
    }
  }

  // ---------- The system ----------

  datatype Event =
    | NewRule(rule: RuleId, limit: nat)
    | NewQueue(rule: RuleId, owner: OwnerId, capacity: nat, maxBytes: nat)
    | NewReceiver(rule: RuleId, owner: OwnerId)
    | Enqueue(rule: RuleId, owner: OwnerId, packet: PacketQueue.Packet)
    | Take(rule: RuleId, owner: OwnerId, lease: OwnerId)
    | Done(rule: RuleId, owner: OwnerId)
    | DropAll(rule: RuleId, owner: OwnerId, close: bool)
    | Arrive(rule: RuleId, owner: OwnerId, wirePacket: Wire.Packet, now: int, victim: uint64)
    | Expire(rule: RuleId, owner: OwnerId, now: int)

  function UsageOf(p: Process, r: RuleId): Usage
    requires r in p.rules
  {
    Usage(p.rules[r].limit, p.rules[r].used, p.limit, p.used)
  }

  /** What an event makes of the owner it concerns, when it applies to it. */
  ghost function ChangeOf(o: Owner, usage: Usage, e: Event): Change {
    match (o, e)
    case (Queue(queue), Enqueue(_, _, packet)) => AfterEnqueue(queue, usage, packet)
    case (Queue(queue), DropAll(_, _, close)) => AfterDrop(queue, usage, close)
    case (Lease(bytes, done), Done(_, _)) => AfterDone(bytes, done, usage)
    case (Receiver(_, _, _), Arrive(_, _, packet, now, victim)) => AfterArrive(o, usage, packet, now, victim)
    case (Receiver(_, _, _), Expire(_, _, now)) => AfterExpire(o, usage, now)
    case (Receiver(_, _, _), DropAll(_, _, close)) => AfterClear(o, usage, close)
    case _ => Change(o, usage)
  }

  function Put(p: Process, r: RuleId, o: OwnerId, owner: Owner, usage: Usage): Process
    requires r in p.rules
  {
    p.(used := usage.process, rules := p.rules[r := p.rules[r].(used := usage.rule, owners := p.rules[r].owners[o := owner])])
  }

  /** A consumer turns the oldest packet of a queue into a lease; the usage stays. */
  function Taken(p: Process, r: RuleId, o: OwnerId, lease: OwnerId): Process
    requires r in p.rules && o in p.rules[r].owners
  {
    var owner := p.rules[r].owners[o];
    if owner.Queue? && owner.queue.packets != [] && lease !in p.rules[r].owners then
      var usage := UsageOf(p, r);
      Put(Put(p, r, o, Queue(owner.queue.(packets := owner.queue.packets[1..])), usage),
          r, lease, Lease(|owner.queue.packets[0].payload|, false), usage)
    else p
  }

  ghost function Step(p: Process, e: Event): Process {
    if e.NewRule? then
      if e.rule in p.rules then p else p.(rules := p.rules[e.rule := Rule(e.limit, 0, map[])])
    else if e.rule !in p.rules then p
    else if e.NewQueue? || e.NewReceiver? then
      if e.owner in p.rules[e.rule].owners then p
      else
        var owner := if e.NewQueue? then Queue(PacketQueue.State([], e.capacity, e.maxBytes, false)) else Receiver(map[], {}, false);
        Put(p, e.rule, e.owner, owner, UsageOf(p, e.rule))
    else if e.owner !in p.rules[e.rule].owners then p
    else if e.Take? then Taken(p, e.rule, e.owner, e.lease)
    else
      var c := ChangeOf(p.rules[e.rule].owners[e.owner], UsageOf(p, e.rule), e);
      Put(p, e.rule, e.owner, c.owner, c.usage)
  }

  ghost function Run(p: Process, events: seq<Event>): Process {
    if events == [] then p else Step(Run(p, events[..|events| - 1]), events[|events| - 1])
  }

  lemma ChangeBalances(o: Owner, usage: Usage, e: Event)
    requires usage.Sound() && Held(o) <= usage.rule
    ensures Conserves(o, usage, ChangeOf(o, usage, e))
  {
    match (o, e)
    case (Queue(queue), Enqueue(_, _, packet)) => EnqueueBalances(queue, usage, packet);
    case (Receiver(_, _, _), Arrive(_, _, packet, now, victim)) => ArriveBalances(o, usage, packet, now, victim);
    case (Receiver(_, _, _), Expire(_, _, now)) => SweptShare(ReceiverState(o, usage), now);
    case _ =>
  }

  lemma OwnerWithin(p: Process, r: RuleId, o: OwnerId)
    requires Balanced(p) && r in p.rules
    ensures UsageOf(p, r).Sound()
    ensures o in p.rules[r].owners ==> Held(p.rules[r].owners[o]) <= p.rules[r].used
  {
    SumAtLeast(UsedByRule(p), r);
    if o in p.rules[r].owners {
      SumAtLeast(HeldByOwner(p.rules[r]), o);
    }
  }

  lemma RulePutBalanced(r: Rule, o: OwnerId, owner: Owner, used: nat)
    requires used == Sum(HeldByOwner(r)) + Held(owner) - (if o in r.owners then Held(r.owners[o]) else 0) <= r.limit
    ensures RuleBalanced(r.(used := used, owners := r.owners[o := owner]))
  {
    SumUpdate(HeldByOwner(r), o, Held(owner));
    assert HeldByOwner(r)[o := Held(owner)] == HeldByOwner(r.(used := used, owners := r.owners[o := owner]));
  }

  lemma UsedPut(p: Process, r: RuleId, rule: Rule, used: int)
    ensures Sum(UsedByRule(p.(used := used, rules := p.rules[r := rule])))
         == Sum(UsedByRule(p)) + rule.used - (if r in p.rules then p.rules[r].used else 0)
  {
    SumUpdate(UsedByRule(p), r, rule.used);
    assert UsedByRule(p)[r := rule.used] == UsedByRule(p.(used := used, rules := p.rules[r := rule]));
  }

  lemma RuleReplaced(p: Process, r: RuleId, rule: Rule, used: int)
    requires Balanced(p) && r in p.rules && RuleBalanced(rule)
    requires used - p.used == rule.used - p.rules[r].used && used <= p.limit
    ensures Balanced(p.(used := used, rules := p.rules[r := rule]))
  {
    UsedPut(p, r, rule, used);
  }

  lemma PutBalanced(p: Process, r: RuleId, o: OwnerId, owner: Owner, usage: Usage)
    requires Balanced(p) && r in p.rules
    requires usage.rule - p.rules[r].used == Held(owner) - (if o in p.rules[r].owners then Held(p.rules[r].owners[o]) else 0)
    requires usage.process - p.used == usage.rule - p.rules[r].used
    requires usage.rule <= p.rules[r].limit && usage.process <= p.limit
    ensures Balanced(Put(p, r, o, owner, usage))
  {
    RulePutBalanced(p.rules[r], o, owner, usage.rule);
    RuleReplaced(p, r, p.rules[r].(used := usage.rule, owners := p.rules[r].owners[o := owner]), usage.process);
  }

  lemma RuleTakeBalanced(r: Rule, o: OwnerId, rest: Owner, lease: OwnerId, leased: Owner)
    requires RuleBalanced(r) && o in r.owners && lease !in r.owners
    requires Held(rest) + Held(leased) == Held(r.owners[o])
    ensures RuleBalanced(r.(owners := r.owners[o := rest][lease := leased]))
  {
    SumAtLeast(HeldByOwner(r), o);
    var middle := r.(owners := r.owners[o := rest], used := r.used - Held(leased));
    RulePutBalanced(r, o, rest, r.used - Held(leased));
    RulePutBalanced(middle, lease, leased, r.used);
  }

  lemma TakeBalanced(p: Process, r: RuleId, o: OwnerId, lease: OwnerId)
    requires Balanced(p) && r in p.rules && o in p.rules[r].owners
    ensures Balanced(Taken(p, r, o, lease))
  {
    var owner := p.rules[r].owners[o];
    if owner.Queue? && owner.queue.packets != [] && lease !in p.rules[r].owners {
      var rest, leased := Queue(owner.queue.(packets := owner.queue.packets[1..])), Lease(|owner.queue.packets[0].payload|, false);
      RuleTakeBalanced(p.rules[r], o, rest, lease, leased);
      RuleReplaced(p, r, p.rules[r].(owners := p.rules[r].owners[o := rest][lease := leased]), p.used);
      assert Taken(p, r, o, lease) == p.(rules := p.rules[r := p.rules[r].(owners := p.rules[r].owners[o := rest][lease := leased])]);
    }
  }

  lemma NewRuleBalanced(p: Process, e: Event)
    requires Balanced(p) && e.NewRule? && e.rule !in p.rules
    ensures Balanced(Step(p, e))
  {
    var empty := Rule(e.limit, 0, map[]);
    var p' := p.(rules := p.rules[e.rule := empty]);
    assert Step(p, e) == p';
    assert HeldByOwner(empty) == map[];
    assert RuleBalanced(empty);
    UsedPut(p, e.rule, empty, p.used);
  }

  lemma ChangeBalanced(p: Process, e: Event)
    requires Balanced(p) && !e.NewRule? && !e.NewQueue? && !e.NewReceiver? && !e.Take?
    requires e.rule in p.rules && e.owner in p.rules[e.rule].owners
    ensures Balanced(Step(p, e))
  {
    OwnerWithin(p, e.rule, e.owner);
    var o, usage := p.rules[e.rule].owners[e.owner], UsageOf(p, e.rule);
    ChangeBalances(o, usage, e);
    var c := ChangeOf(o, usage, e);
    PutBalanced(p, e.rule, e.owner, c.owner, c.usage);
  }

  lemma StepBalanced(p: Process, e: Event)
    requires Balanced(p)
    ensures Balanced(Step(p, e))
  {
    if e.NewRule? {
      if e.rule !in p.rules {
        NewRuleBalanced(p, e);
      }
    } else if e.rule in p.rules {
      if e.NewQueue? || e.NewReceiver? {
        if e.owner !in p.rules[e.rule].owners {
          OwnerWithin(p, e.rule, e.owner);
          PutBalanced(p, e.rule, e.owner, Step(p, e).rules[e.rule].owners[e.owner], UsageOf(p, e.rule));
        }
      } else if e.owner in p.rules[e.rule].owners {
        if e.Take? {
          TakeBalanced(p, e.rule, e.owner, e.lease);
        } else {
          ChangeBalanced(p, e);
        }
      }
    }
  }

  /** In every reachable state of any run the account balances. */
  lemma {:induction false} AlwaysBalanced(limit: nat, events: seq<Event>)
    ensures Balanced(Run(Process(limit, 0, map[]), events))
  {
    if events == [] {
      assert UsedByRule(Process(limit, 0, map[])).Keys == {};
    } else {
      AlwaysBalanced(limit, events[..|events| - 1]);
      StepBalanced(Run(Process(limit, 0, map[]), events[..|events| - 1]), events[|events| - 1]);
    }
  }

  // ---------- No release is ever cut short ----------

  /** Bytes that are given back, and the usage they are taken from. */
  datatype Release = Release(usage: Usage, bytes: nat)

  ghost predicate WithinUsage(r: Release) {
    r.bytes <= r.usage.rule <= r.usage.process
  }

  ghost predicate AllCovered(rs: seq<Release>) {
    forall i :: 0 <= i < |rs| ==> WithinUsage(rs[i])
  }

  ghost function DropRelease(s: Reassembly.State, q: uint64): Release
    requires s.usage.Some?
  {
    Release(s.usage.value, if q in s.pending then s.pending[q].total else 0)
  }

  ghost function SweepRelease(s: Reassembly.State, now: int): Release
    requires s.usage.Some?
  {
    Release(s.usage.value, Reassembly.TotalBytes(Reassembly.OverdueSets(s.pending, now)))
  }

  /** What storing a fragment gives back: its set when the budget refuses it, or when it is complete. */
  ghost function StoredReleases(s: Reassembly.State, a: Reassembly.Assembly, p: Wire.Packet): seq<Release>
    requires s.usage.Some? && p.fragment < a.fragments && a.chunks[p.fragment].None?
  {
    var (usage, granted) := BudgetReserved(s.usage, |p.payload|);
    if !granted then [DropRelease(s, p.sequence)]
    else
      var a' := Reassembly.WithChunk(a, p.fragment, p.payload);
      if Reassembly.Complete(a') then [DropRelease(s.(pending := s.pending[p.sequence := a'], usage := usage), p.sequence)] else []
  }

  ghost function PlacedReleases(s: Reassembly.State, p: Wire.Packet, now: int, victim: uint64): seq<Release>
    requires s.usage.Some? && Wire.ValidFragmentMetadata(p.fragment, p.fragments) && p.fragments != 0
  {
    var evicts := Reassembly.Evicts(s.pending, p.sequence);
    var s1 := if evicts then Reassembly.Dropped(s, victim) else s;
    var a := if p.sequence in s.pending then s.pending[p.sequence] else Reassembly.NewAssembly(p.fragments, now);
    (if evicts then [DropRelease(s, victim)] else []) +
    (if a.fragments != p.fragments then [DropRelease(s1, p.sequence)]
     else if a.chunks[p.fragment].Some? then []
     else if a.total + |p.payload| > Wire.MAX_DATAGRAM_PAYLOAD then [DropRelease(s1, p.sequence)]
     else StoredReleases(s1, a, p))
  }

  /** Everything an event gives back, in order, each with the usage it finds. */
  ghost function ReleasesOf(o: Owner, usage: Usage, e: Event): seq<Release> {
    match (o, e)
    case (Queue(queue), Enqueue(_, _, packet)) =>
      if queue.closed || |packet.payload| > queue.maxBytes then []
      else [Release(usage, PacketQueue.Bytes(queue.packets[..PacketQueue.DropCount(queue, queue.packets, |packet.payload|)]))]
    case (Queue(queue), DropAll(_, _, _)) => [Release(usage, PacketQueue.Bytes(queue.packets))]
    case (Lease(bytes, done), Done(_, _)) => if done then [] else [Release(usage, bytes)]
    case (Receiver(_, _, _), Arrive(_, _, packet, now, victim)) =>
      var s := ReceiverState(o, usage);
      if Reassembly.IsPart(s, packet) then [SweepRelease(s, now)] + PlacedReleases(Reassembly.Swept(s, now), packet, now, victim) else []
    case (Receiver(_, _, closed), Expire(_, _, now)) => if closed then [] else [SweepRelease(ReceiverState(o, usage), now)]
    case (Receiver(pending, _, _), DropAll(_, _, _)) => [Release(usage, Reassembly.TotalBytes(pending))]
    case _ => []
  }

  lemma DropCovered(s: Reassembly.State, q: uint64)
    requires Covered(s)
    ensures WithinUsage(DropRelease(s, q))
  {
    Reassembly.TotalRemove(s.pending, q);
  }

  lemma SweepCovered(s: Reassembly.State, now: int)
    requires Covered(s)
    ensures WithinUsage(SweepRelease(s, now))
  {
    var overdue := Reassembly.OverdueSets(s.pending, now);
    SumSplit(Reassembly.Totals(s.pending), overdue.Keys);
    assert Only(Reassembly.Totals(s.pending), overdue.Keys) == Reassembly.Totals(overdue);
  }

  lemma StoredCovered(s: Reassembly.State, a: Reassembly.Assembly, p: Wire.Packet)
    requires Covered(s) && p.fragment < a.fragments && a.chunks[p.fragment].None?
    requires a.total == if p.sequence in s.pending then s.pending[p.sequence].total else 0
    ensures AllCovered(StoredReleases(s, a, p))
  {
    var (usage, granted) := BudgetReserved(s.usage, |p.payload|);
    DropCovered(s, p.sequence);
    if granted {
      var a' := Reassembly.WithChunk(a, p.fragment, p.payload);
      ReservedShare(s, p.sequence, a', |p.payload|);
      DropCovered(s.(pending := s.pending[p.sequence := a'], usage := usage), p.sequence);
    }
  }

  lemma PlacedCovered(s: Reassembly.State, p: Wire.Packet, now: int, victim: uint64)
    requires Covered(s) && Wire.ValidFragmentMetadata(p.fragment, p.fragments) && p.fragments != 0
    ensures AllCovered(PlacedReleases(s, p, now, victim))
  {
    var evicts := Reassembly.Evicts(s.pending, p.sequence);
    var s1 := if evicts then Reassembly.Dropped(s, victim) else s;
    DroppedShare(s, victim);
    DropCovered(s, victim);
    DropCovered(s1, p.sequence);
    var a := if p.sequence in s.pending then s.pending[p.sequence] else Reassembly.NewAssembly(p.fragments, now);
    if p.fragment < a.fragments && a.chunks[p.fragment].None? {
      StoredCovered(s1, a, p);
    }
  }

  lemma ReleasesCovered(o: Owner, usage: Usage, e: Event)
    requires usage.Sound() && Held(o) <= usage.rule
    ensures AllCovered(ReleasesOf(o, usage, e))
  {
    match (o, e)
    case (Queue(queue), Enqueue(_, _, packet)) =>
      var n := PacketQueue.DropCount(queue, queue.packets, |packet.payload|);
      PacketQueue.BytesSplit(queue.packets, n);
    case (Receiver(_, _, _), Arrive(_, _, packet, now, victim)) =>
      var s := ReceiverState(o, usage);
      if Reassembly.IsPart(s, packet) {
        SweepCovered(s, now);
        SweptShare(s, now);
        PlacedCovered(Reassembly.Swept(s, now), packet, now, victim);
      }
    case (Receiver(_, _, _), Expire(_, _, now)) => SweepCovered(ReceiverState(o, usage), now);
    case _ =>
  }

  /** In no reachable state does an event give back more than its rule and the process have in use. */
  lemma NeverClamped(limit: nat, events: seq<Event>, e: Event)
    requires var p := Run(Process(limit, 0, map[]), events); !e.NewRule? && e.rule in p.rules && e.owner in p.rules[e.rule].owners
    ensures var p := Run(Process(limit, 0, map[]), events);
      AllCovered(ReleasesOf(p.rules[e.rule].owners[e.owner], UsageOf(p, e.rule), e))
  {
    var p := Run(Process(limit, 0, map[]), events);
    AlwaysBalanced(limit, events);
    OwnerWithin(p, e.rule, e.owner);
    ReleasesCovered(p.rules[e.rule].owners[e.owner], UsageOf(p, e.rule), e);
  }
}
