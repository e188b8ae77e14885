/**
 One direction of a session end to end: datagrams are sealed into frames, the
 network reorders, duplicates, drops and forges, and the receiver reassembles.
 */
module Transport {
  import opened Words
  import opened Options
  import opened ByteBudget
  import opened Wire
  import opened Sealing
  import opened ReplayWindow
  import opened Reassembly

  /**
   Everything that can happen to a receiver between two locks. An arriving
   frame comes as the packet the codec made of it, or nothing when it did not open.
   */
  datatype Event =
    | Arrive(packet: Option<Packet>, now: int, victim: uint64)
    | Expire(now: int)
    | Clear
    | Close
    | OthersCharge(usage: Option<Usage>)

  datatype Delivery = Delivery(sequence: uint64, payload: seq<byte>)

  datatype Progress = Progress(state: State, delivered: Option<Delivery>)

  ghost function Cleared(s: State): State {
    s.(pending := map[], usage := BudgetReleased(s.usage, TotalBytes(s.pending)))
  }

  ghost function Received(s: State, p: Packet, now: int, victim: uint64): Progress {
    var o := Accepted(s, p, now, victim);
    Progress(o.state, match o.payload case None => None case Some(payload) => Some(Delivery(p.sequence, payload)))
  }

  ghost function Step(s: State, e: Event): Progress {
    match e
    case Arrive(packet, now, victim) => if packet.None? then Progress(s, None) else Received(s, packet.value, now, victim)
    case Expire(now) => Progress(if s.closed then s else Swept(s, now), None)
    case Clear => Progress(Cleared(s), None)
    case Close => Progress(Cleared(s).(closed := true), None)
    case OthersCharge(usage) => Progress(s.(usage := usage), None)
  }

  ghost function StateAfter(s: State, events: seq<Event>): State {
    if events == [] then s else Step(StateAfter(s, events[..|events| - 1]), events[|events| - 1]).state
  }

  /** What the k-th event delivers. */
  ghost function DeliveredAt(s: State, events: seq<Event>, k: nat): Option<Delivery>
    requires k < |events|
  {
    Step(StateAfter(s, events[..k]), events[k]).delivered
  }

  lemma StateAfterNext(s: State, events: seq<Event>, k: nat)
    requires k < |events|
    ensures StateAfter(s, events[..k + 1]) == Step(StateAfter(s, events[..k]), events[k]).state
  {
    assert events[..k + 1][..k] == events[..k];
  }

  // ---------- What the sender sealed ----------

  function Datagram(c: Codec, payload: seq<byte>): Packet {
    Packet(c.packetType, c.tunnelID, c.ruleID, c.sessionID, 0, 0, 0, payload)
  }

  /** The datagrams sealed so far, each under the sequence its counter issued. */
  ghost predicate History(sent: map<uint64, seq<byte>>) {
    0 !in sent && forall q :: q in sent ==> Sendable(sent[q])
  }

  /**
   Ideal encryption: a body under the session's key is the body of a frame this
   session sealed. No other session has the key, that is, none has the same
   secret and session id and ids that agree with this one's modulo 2^32.
   */
  ghost predicate Authentic(c: Codec, sent: map<uint64, seq<byte>>, f: Frame)
    requires History(sent)
  {
    f.body.Sealed? && f.body.key == c.DerivedKey() ==> exists q, i :: IsBodyOf(c, sent, q, i, f.body)
  }

  /** The body of the i-th frame of the datagram sealed under q. */
  ghost predicate IsBodyOf(c: Codec, sent: map<uint64, seq<byte>>, q: uint64, i: nat, body: Body)
    requires History(sent)
  {
    q in sent && i < CountOf(sent[q]) && body == DatagramFrames(c, Datagram(c, sent[q]), q)[i].body
  }

  /** A packet that came out of the codec. */
  ghost predicate Opened(c: Codec, sent: map<uint64, seq<byte>>, p: Packet)
    requires History(sent)
  {
    exists f :: Authentic(c, sent, f) && OpenPacket(c, f) == Ok(p)
  }

  /** Every packet the receiver sees came out of the codec. */
  ghost predicate AllOpened(c: Codec, sent: map<uint64, seq<byte>>, events: seq<Event>)
    requires History(sent)
  {
    forall e :: e in events && e.Arrive? && e.packet.Some? ==> Opened(c, sent, e.packet.value)
  }

  /** A wire packet that carries one of several chunks of a datagram. */
  ghost predicate IsChunk(payload: seq<byte>, p: Packet) {
    && Sendable(payload) && CountOf(payload) >= 2
    && p.fragments == CountOf(payload) && p.fragment < p.fragments
    && p.payload == ChunksOf(payload)[p.fragment]
    && WellSized(p) && ValidPacket(p)
  }

  ghost predicate IsWhole(payload: seq<byte>, p: Packet) {
    && Sendable(payload) && CountOf(payload) == 1
    && p.fragments == 0 && p.fragment == 0 && p.payload == payload
  }

  /** A packet made by the sender. */
  ghost predicate Genuine(sent: map<uint64, seq<byte>>, p: Packet) {
    p.sequence in sent && (IsWhole(sent[p.sequence], p) || IsChunk(sent[p.sequence], p))
  }

  ghost predicate AllGenuine(sent: map<uint64, seq<byte>>, events: seq<Event>) {
    forall e :: e in events && e.Arrive? && e.packet.Some? ==> Genuine(sent, e.packet.value)
  }

  /** Sessions whose ids do not fit the header open nothing at all. */
  lemma OpenedAddressable(c: Codec, f: Frame)
    requires OpenPacket(c, f).Ok?
    ensures c.Addressable()
  {
    Power256Values();
    FromBigEndianBound(f.header[8..12]);
    FromBigEndianBound(f.header[12..16]);
  }

  lemma FragmentGenuine(c: Codec, sent: map<uint64, seq<byte>>, q: uint64, i: nat)
    requires History(sent) && q in sent && i < CountOf(sent[q])
    ensures Genuine(sent, FragmentPacket(Datagram(c, sent[q]), q, i))
  {
    CountBounds(|sent[q]|);
    if CountOf(sent[q]) == 1 {
      assert Chunk(sent[q], 0) == sent[q];
    }
  }

  /** Whatever passes the codec was made by the sender. */
  lemma OpenedIsGenuine(c: Codec, sent: map<uint64, seq<byte>>, f: Frame)
    requires History(sent) && Authentic(c, sent, f) && OpenPacket(c, f).Ok?
    ensures Genuine(sent, OpenPacket(c, f).value)
  {
    OpenedWasSealed(c, f);
    OpenedAddressable(c, f);
    var p := OpenPacket(c, f).value;
    var q, i :| IsBodyOf(c, sent, q, i, f.body);
    var made := FragmentPacket(Datagram(c, sent[q]), q, i);
    FragmentSeals(c, Datagram(c, sent[q]), q, i);
    assert HeaderBytes(p) == HeaderBytes(made) && p.payload == made.payload;
    HeaderRoundTrip(p, AUTH_TAG_SIZE);
    HeaderRoundTrip(made, AUTH_TAG_SIZE);
    IdFits(c.tunnelID);
    IdFits(c.ruleID);
    assert p == made;
    FragmentGenuine(c, sent, q, i);
  }

  lemma OpenedAreGenuine(c: Codec, sent: map<uint64, seq<byte>>, events: seq<Event>)
    requires History(sent) && AllOpened(c, sent, events)
    ensures AllGenuine(sent, events)
  {
    forall e | e in events && e.Arrive? && e.packet.Some?
      ensures Genuine(sent, e.packet.value)
    {
      assert Opened(c, sent, e.packet.value);
      var f :| Authentic(c, sent, f) && OpenPacket(c, f) == Ok(e.packet.value);
      OpenedIsGenuine(c, sent, f);
    }
  }

  // ---------- Nothing wrong is delivered, nothing is delivered twice ----------

  /** The chunks held for a sequence are chunks of the datagram sealed under it. */
  ghost predicate Faithful(payload: seq<byte>, a: Assembly) {
    && Sendable(payload)
    && a.fragments == CountOf(payload)
    && forall i :: 0 <= i < a.fragments && a.chunks[i].Some? ==> a.chunks[i].value == ChunksOf(payload)[i]
  }

  ghost predicate FaithfulPending(sent: map<uint64, seq<byte>>, pending: map<uint64, Assembly>) {
    forall q :: q in pending ==> q in sent && Faithful(sent[q], pending[q])
  }

  lemma CompleteIsPayload(payload: seq<byte>, a: Assembly)
    requires Faithful(payload, a) && Complete(a)
    ensures Join(AllChunks(a)) == payload
  {
    FilledBound(a.chunks);
    assert AllChunks(a) == ChunksOf(payload);
    ChunksJoin(payload);
  }

  lemma NewFaithful(payload: seq<byte>, now: int)
    requires Sendable(payload) && CountOf(payload) >= 2
    ensures Faithful(payload, NewAssembly(CountOf(payload), now))
  {}

  lemma WithChunkFaithful(payload: seq<byte>, a: Assembly, i: nat)
    requires Faithful(payload, a) && i < a.fragments && a.chunks[i].None?
    ensures Faithful(payload, WithChunk(a, i, ChunksOf(payload)[i]))
    ensures Complete(WithChunk(a, i, ChunksOf(payload)[i])) ==> Join(AllChunks(WithChunk(a, i, ChunksOf(payload)[i]))) == payload
  {
    var a' := WithChunk(a, i, ChunksOf(payload)[i]);
    assert Faithful(payload, a');
    if Complete(a') { CompleteIsPayload(payload, a'); }
  }

  /** What a step may deliver, and what it does to the set of accepted sequences. */
  ghost predicate DeliversSent(sent: map<uint64, seq<byte>>, s: State, q: uint64, o: Outcome) {
    && FaithfulPending(sent, o.state.pending)
    && (o.payload.None? ==> o.state.accepted == s.accepted)
    && (o.payload.Some? ==>
          && q in sent && o.payload.value == sent[q]
          && q !in s.accepted && o.state.accepted == s.accepted + {q})
  }

  lemma StoredFaithful(sent: map<uint64, seq<byte>>, s: State, a: Assembly, p: Packet)
    requires FaithfulPending(sent, s.pending) && p.sequence in sent && IsChunk(sent[p.sequence], p)
    requires Faithful(sent[p.sequence], a) && a.chunks[p.fragment].None?
    ensures DeliversSent(sent, s, p.sequence, Stored(s, a, p))
  {
    WithChunkFaithful(sent[p.sequence], a, p.fragment);
  }

  lemma PlacedFaithful(sent: map<uint64, seq<byte>>, s: State, p: Packet, now: int, victim: uint64)
    requires FaithfulPending(sent, s.pending) && p.sequence in sent && IsChunk(sent[p.sequence], p)
    ensures DeliversSent(sent, s, p.sequence, Placed(s, p, now, victim))
  {
    var isNew := p.sequence !in s.pending;
    var s1 := if isNew && |s.pending| >= MAX_PENDING_FRAGMENT_SETS then Dropped(s, victim) else s;
    NewFaithful(sent[p.sequence], now);
    var a := if isNew then NewAssembly(p.fragments, now) else s.pending[p.sequence];
    assert Faithful(sent[p.sequence], a);
    if a.chunks[p.fragment].None? {
      StoredFaithful(sent, s1, a, p);
    }
  }

  /** One genuine packet keeps the invariant and delivers only what was sent. */
  lemma AcceptedFaithful(sent: map<uint64, seq<byte>>, s: State, p: Packet, now: int, victim: uint64)
    requires FaithfulPending(sent, s.pending) && Genuine(sent, p)
    ensures DeliversSent(sent, s, p.sequence, Accepted(s, p, now, victim))
  {
    if IsPart(s, p) {
      PlacedFaithful(sent, Swept(s, now), p, now, victim);
    }
  }

  lemma StepFaithful(sent: map<uint64, seq<byte>>, s: State, e: Event)
    requires FaithfulPending(sent, s.pending)
    requires e.Arrive? && e.packet.Some? ==> Genuine(sent, e.packet.value)
    ensures var r := Step(s, e);
      && FaithfulPending(sent, r.state.pending)
      && (r.delivered.None? ==> r.state.accepted == s.accepted)
      && (r.delivered.Some? ==>
            && r.delivered.value.sequence in sent && r.delivered.value.payload == sent[r.delivered.value.sequence]
            && r.delivered.value.sequence !in s.accepted
            && r.state.accepted == s.accepted + {r.delivered.value.sequence})
  {
    if e.Arrive? && e.packet.Some? {
      AcceptedFaithful(sent, s, e.packet.value, e.now, e.victim);
    }
  }

  const NEW_RECEIVER: State := State(map[], None, {}, false)

  lemma {:induction false} RunFaithful(sent: map<uint64, seq<byte>>, events: seq<Event>, k: nat)
    requires AllGenuine(sent, events) && k <= |events|
    ensures FaithfulPending(sent, StateAfter(NEW_RECEIVER, events[..k]).pending)
  {
    if k > 0 {
      RunFaithful(sent, events, k - 1);
      StateAfterNext(NEW_RECEIVER, events, k - 1);
      StepFaithful(sent, StateAfter(NEW_RECEIVER, events[..k - 1]), events[k - 1]);
    }
  }

  lemma {:induction false} AcceptedKept(sent: map<uint64, seq<byte>>, events: seq<Event>, j: nat, k: nat)
    requires AllGenuine(sent, events) && j <= k <= |events|
    ensures StateAfter(NEW_RECEIVER, events[..j]).accepted <= StateAfter(NEW_RECEIVER, events[..k]).accepted
  {
    if j < k {
      AcceptedKept(sent, events, j, k - 1);
      StateAfterNext(NEW_RECEIVER, events, k - 1);
      RunFaithful(sent, events, k - 1);
      StepFaithful(sent, StateAfter(NEW_RECEIVER, events[..k - 1]), events[k - 1]);
    }
  }

  /** In any run of genuine packets, a delivery is the datagram sealed under its sequence. */
  lemma GenuineDelivery(sent: map<uint64, seq<byte>>, events: seq<Event>, k: nat)
    requires AllGenuine(sent, events) && k < |events|
    ensures var d := DeliveredAt(NEW_RECEIVER, events, k);
      d.Some? ==> d.value.sequence in sent && d.value.payload == sent[d.value.sequence]
  {
    RunFaithful(sent, events, k);
    StepFaithful(sent, StateAfter(NEW_RECEIVER, events[..k]), events[k]);
  }

  /** In any run of genuine packets, no sequence is delivered twice. */
  lemma GenuineDeliveredOnce(sent: map<uint64, seq<byte>>, events: seq<Event>, j: nat, k: nat)
    requires AllGenuine(sent, events) && j < k < |events|
    ensures var first, second := DeliveredAt(NEW_RECEIVER, events, j), DeliveredAt(NEW_RECEIVER, events, k);
      first.Some? && second.Some? ==> first.value.sequence != second.value.sequence
  {
    RunFaithful(sent, events, j);
    RunFaithful(sent, events, k);
    StepFaithful(sent, StateAfter(NEW_RECEIVER, events[..j]), events[j]);
    StepFaithful(sent, StateAfter(NEW_RECEIVER, events[..k]), events[k]);
    StateAfterNext(NEW_RECEIVER, events, j);
    AcceptedKept(sent, events, j + 1, k);
  }

  /** In any run, every delivery is the datagram sealed under its sequence. */
  lemma DeliveriesAreSound(c: Codec, sent: map<uint64, seq<byte>>, events: seq<Event>, k: nat)
    requires History(sent) && AllOpened(c, sent, events) && k < |events|
    ensures var d := DeliveredAt(NEW_RECEIVER, events, k);
      d.Some? ==> d.value.sequence in sent && d.value.payload == sent[d.value.sequence]
  {
    OpenedAreGenuine(c, sent, events);
    GenuineDelivery(sent, events, k);
  }

  /** In any run, no sequence is delivered twice. */
  lemma DeliveredAtMostOnce(c: Codec, sent: map<uint64, seq<byte>>, events: seq<Event>, j: nat, k: nat)
    requires History(sent) && AllOpened(c, sent, events) && j < k < |events|
    ensures var first, second := DeliveredAt(NEW_RECEIVER, events, j), DeliveredAt(NEW_RECEIVER, events, k);
      first.Some? && second.Some? ==> first.value.sequence != second.value.sequence
  {
    OpenedAreGenuine(c, sent, events);
    GenuineDeliveredOnce(sent, events, j, k);
  }

  // ---------- Every undisturbed datagram is delivered, with its last missing frame ----------

  /** The event brings fragment i of datagram q. */
  ghost predicate Brings(e: Event, q: uint64, i: nat) {
    e.Arrive? && e.packet.Some? && e.packet.value.sequence == q && e.packet.value.fragment == i
  }

  ghost predicate Arrived(events: seq<Event>, q: uint64, i: nat) {
    exists e :: e in events && Brings(e, q, i)
  }

  ghost predicate AllArrived(events: seq<Event>, q: uint64, count: nat) {
    forall i: nat :: i < count ==> Arrived(events, q, i)
  }

  ghost function ArrivedSet(events: seq<Event>, q: uint64, count: nat): set<nat> {
    set i: nat | i < count && Arrived(events, q, i)
  }

  /** The state in which the budget is asked for the bytes of a fragment. */
  ghost function BeforeReserve(s: State, p: Packet, now: int, victim: uint64): State {
    var swept := Swept(s, now);
    if Evicts(swept.pending, p.sequence) then Dropped(swept, victim) else swept
  }

  /** This fragment is held already. */
  ghost predicate Holding(pending: map<uint64, Assembly>, p: Packet) {
    p.sequence in pending && p.fragment < pending[p.sequence].fragments && pending[p.sequence].chunks[p.fragment].Some?
  }

  /** The packet asks the budget for room: a fragment of a larger datagram that is not held yet. */
  ghost predicate Reserves(s: State, p: Packet, now: int) {
    IsPart(s, p) && !Holding(Swept(s, now).pending, p)
  }

  /** The packet takes nothing away from datagram q: no timeout, eviction, refusal or window overrun. */
  ghost predicate CalmPacket(s: State, p: Packet, now: int, victim: uint64, q: uint64) {
    && !s.closed
    && (IsPart(s, p) && q in s.pending ==> !Overdue(s.pending[q], now))
    && (IsPart(s, p) && Evicts(Swept(s, now).pending, p.sequence) ==> victim != q)
    && (p.sequence == q ==> Admits(s.accepted, q))
    && (p.sequence == q && Reserves(s, p, now) ==> BudgetReserved(BeforeReserve(s, p, now, victim).usage, |p.payload|).1)
  }

  ghost predicate Calm(s: State, e: Event, q: uint64) {
    match e
    case Arrive(packet, now, victim) => packet.Some? ==> CalmPacket(s, packet.value, now, victim, q)
    case Expire(now) => q in s.pending ==> !Overdue(s.pending[q], now)
    case Clear => false
    case Close => false
    case OthersCharge(_) => true
  }

  ghost predicate CalmRun(s: State, events: seq<Event>, q: uint64) {
    forall k :: 0 <= k < |events| ==> Calm(StateAfter(s, events[..k]), events[k], q)
  }

  /** Exactly the chunks that arrived are held. */
  ghost predicate HoldsExactly(a: Assembly, arrived: set<nat>) {
    forall i: nat :: i < a.fragments ==> (a.chunks[i].Some? <==> i in arrived)
  }

  /** While fragments are missing, exactly the ones that arrived are held. */
  ghost predicate Holds(s: State, q: uint64, payload: seq<byte>, arrived: set<nat>) {
    if arrived == {} then q !in s.pending
    else q in s.pending && Faithful(payload, s.pending[q]) && HoldsExactly(s.pending[q], arrived)
  }

  ghost predicate Missing(payload: seq<byte>, arrived: set<nat>)
    requires Sendable(payload)
  {
    exists i: nat :: i < CountOf(payload) && i !in arrived
  }

  lemma {:induction false} FaithfulSize(payload: seq<byte>, chunks: seq<Option<seq<byte>>>)
    requires Sendable(payload) && |chunks| <= CountOf(payload)
    requires forall i :: 0 <= i < |chunks| && chunks[i].Some? ==> chunks[i].value == ChunksOf(payload)[i]
    ensures ChunkBytes(chunks) <= Cut(payload, |chunks|)
  {
    if chunks != [] {
      var n := |chunks| - 1;
      FaithfulSize(payload, chunks[..n]);
      ChunkSpans(payload, n);
      assert chunks[n].Some? ==> chunks[n].value == Chunk(payload, n);
    }
  }

  /** A chunk covers the bytes between two cuts. */
  lemma ChunkSpans(payload: seq<byte>, n: nat)
    requires Sendable(payload) && n < CountOf(payload)
    ensures n * FRAGMENT_PAYLOAD_SIZE <= |payload| && Cut(payload, n) + |Chunk(payload, n)| == Cut(payload, n + 1)
  {}

  /** A missing chunk always fits beside the ones already held. */
  lemma MissingFits(payload: seq<byte>, a: Assembly, i: nat)
    requires Faithful(payload, a) && i < a.fragments && a.chunks[i].None?
    ensures a.total + |ChunksOf(payload)[i]| <= MAX_DATAGRAM_PAYLOAD
  {
    WithChunkFaithful(payload, a, i);
    FaithfulSize(payload, WithChunk(a, i, ChunksOf(payload)[i]).chunks);
  }

  lemma CompleteWhenNoneMissing(payload: seq<byte>, a: Assembly, arrived: set<nat>)
    requires Faithful(payload, a) && HoldsExactly(a, arrived)
    ensures Complete(a) <==> !Missing(payload, arrived)
  {
    FilledBound(a.chunks);
  }

  /** How one more fragment of datagram q moves it on. */
  ghost predicate Advances(payload: seq<byte>, q: uint64, arrived: set<nat>, o: Outcome)
    requires Sendable(payload)
  {
    if Missing(payload, arrived) then Holds(o.state, q, payload, arrived) && o.payload.None?
    else o.payload == Some(payload)
  }

  lemma CalmStored(payload: seq<byte>, s: State, a: Assembly, p: Packet, arrived: set<nat>)
    requires IsChunk(payload, p) && Faithful(payload, a) && a.chunks[p.fragment].None? && HoldsExactly(a, arrived)
    requires Admits(s.accepted, p.sequence) && BudgetReserved(s.usage, |p.payload|).1
    ensures Advances(payload, p.sequence, arrived + {p.fragment as nat}, Stored(s, a, p))
  {
    var a' := WithChunk(a, p.fragment, p.payload);
    WithChunkFaithful(payload, a, p.fragment);
    assert HoldsExactly(a', arrived + {p.fragment as nat});
    CompleteWhenNoneMissing(payload, a', arrived + {p.fragment as nat});
  }

  lemma CalmPart(payload: seq<byte>, s: State, p: Packet, now: int, victim: uint64, arrived: set<nat>)
    requires IsChunk(payload, p) && CalmPacket(s, p, now, victim, p.sequence)
    requires Holds(s, p.sequence, payload, arrived) && Missing(payload, arrived)
    ensures Advances(payload, p.sequence, arrived + {p.fragment as nat}, Accepted(s, p, now, victim))
  {
    var swept := Swept(s, now);
    var isNew := p.sequence !in swept.pending;
    NewFaithful(payload, now);
    var a := if isNew then NewAssembly(p.fragments, now) else swept.pending[p.sequence];
    assert Faithful(payload, a) && HoldsExactly(a, arrived);
    if a.chunks[p.fragment].Some? {
      assert arrived + {p.fragment as nat} == arrived;
    } else {
      MissingFits(payload, a, p.fragment);
      assert Accepted(s, p, now, victim) == Stored(BeforeReserve(s, p, now, victim), a, p);
      CalmStored(payload, BeforeReserve(s, p, now, victim), a, p, arrived);
    }
  }

  /** A calm arrival of a fragment of datagram q. */
  lemma CalmFragment(payload: seq<byte>, s: State, p: Packet, now: int, victim: uint64, arrived: set<nat>)
    requires IsWhole(payload, p) || IsChunk(payload, p)
    requires CalmPacket(s, p, now, victim, p.sequence)
    requires Holds(s, p.sequence, payload, arrived) && Missing(payload, arrived)
    ensures Advances(payload, p.sequence, arrived + {p.fragment as nat}, Accepted(s, p, now, victim))
  {
    if IsChunk(payload, p) {
      CalmPart(payload, s, p, now, victim, arrived);
    } else {
      CalmWhole(payload, s, p, now, victim, arrived);
    }
  }

  lemma CalmWhole(payload: seq<byte>, s: State, p: Packet, now: int, victim: uint64, arrived: set<nat>)
    requires IsWhole(payload, p) && CalmPacket(s, p, now, victim, p.sequence)
    ensures Advances(payload, p.sequence, arrived + {0}, Accepted(s, p, now, victim))
  {
    assert !Missing(payload, arrived + {0});
    assert !IsPart(s, p) && Accepted(s, p, now, victim).payload == Some(payload);
  }

  ghost predicate SameFor(after: map<uint64, Assembly>, before: map<uint64, Assembly>, q: uint64) {
    (q in after <==> q in before) && (q in before ==> after[q] == before[q])
  }

  /** A packet of another datagram that is calm for q leaves q alone. */
  lemma OthersUntouched(s: State, p: Packet, now: int, victim: uint64, q: uint64)
    requires p.sequence != q && CalmPacket(s, p, now, victim, q)
    ensures SameFor(Accepted(s, p, now, victim).state.pending, s.pending, q)
  {
    if IsPart(s, p) {
      var swept := Swept(s, now);
      assert SameFor(swept.pending, s.pending, q);
      PlacedUntouched(swept, p, now, victim, q);
    }
  }

  lemma StoredUntouched(s: State, a: Assembly, p: Packet, q: uint64)
    requires p.fragment < a.fragments && a.chunks[p.fragment].None? && p.sequence != q
    ensures SameFor(Stored(s, a, p).state.pending, s.pending, q)
  {}

  lemma PlacedUntouched(s: State, p: Packet, now: int, victim: uint64, q: uint64)
    requires ValidFragmentMetadata(p.fragment, p.fragments) && p.fragments != 0
    requires p.sequence != q && (Evicts(s.pending, p.sequence) ==> victim != q)
    ensures SameFor(Placed(s, p, now, victim).state.pending, s.pending, q)
  {
    var isNew := p.sequence !in s.pending;
    var s1 := if isNew && |s.pending| >= MAX_PENDING_FRAGMENT_SETS then Dropped(s, victim) else s;
    var a := if isNew then NewAssembly(p.fragments, now) else s.pending[p.sequence];
    assert SameFor(s1.pending, s.pending, q);
    if p.fragment < a.fragments && a.chunks[p.fragment].None? {
      StoredUntouched(s1, a, p, q);
    }
  }

  /** One event that is calm for q, while fragments of q are missing. */
  lemma CalmStep(sent: map<uint64, seq<byte>>, s: State, e: Event, q: uint64, arrived: set<nat>)
    requires History(sent) && q in sent && Calm(s, e, q)
    requires e.Arrive? && e.packet.Some? ==> Genuine(sent, e.packet.value)
    requires Holds(s, q, sent[q], arrived) && Missing(sent[q], arrived)
    ensures (exists i: nat :: Brings(e, q, i)) ==>
      Advances(sent[q], q, arrived + {e.packet.value.fragment as nat}, Accepted(s, e.packet.value, e.now, e.victim))
    ensures (forall i: nat :: !Brings(e, q, i)) ==>
      && Holds(Step(s, e).state, q, sent[q], arrived)
      && (Step(s, e).delivered.Some? ==> Step(s, e).delivered.value.sequence != q)
  {
    if e.Arrive? && e.packet.Some? {
      var p := e.packet.value;
      if p.sequence == q {
        assert Brings(e, q, p.fragment);
        CalmFragment(sent[q], s, p, e.now, e.victim, arrived);
      } else {
        OthersUntouched(s, p, e.now, e.victim, q);
      }
    }
  }

  lemma ArrivedNext(events: seq<Event>, q: uint64, k: nat, i: nat)
    requires k < |events|
    ensures Arrived(events[..k + 1], q, i) <==> Arrived(events[..k], q, i) || Brings(events[k], q, i)
  {
    assert events[..k + 1] == events[..k] + [events[k]];
  }

  lemma MissingOrAll(events: seq<Event>, q: uint64, payload: seq<byte>)
    requires Sendable(payload)
    ensures Missing(payload, ArrivedSet(events, q, CountOf(payload))) <==> !AllArrived(events, q, CountOf(payload))
  {
    var count := CountOf(payload);
    if !AllArrived(events, q, count) {
      var i: nat :| i < count && !Arrived(events, q, i);
      assert i !in ArrivedSet(events, q, count);
    }
  }

  lemma ArrivedSetNext(events: seq<Event>, q: uint64, k: nat, count: nat)
    requires k < |events|
    ensures forall i: nat :: Brings(events[k], q, i) && i < count ==>
      ArrivedSet(events[..k + 1], q, count) == ArrivedSet(events[..k], q, count) + {i}
    ensures (forall i: nat :: !Brings(events[k], q, i)) ==>
      ArrivedSet(events[..k + 1], q, count) == ArrivedSet(events[..k], q, count)
  {
    forall i: nat | i < count
      ensures Arrived(events[..k + 1], q, i) <==> Arrived(events[..k], q, i) || Brings(events[k], q, i)
    {
      ArrivedNext(events, q, k, i);
    }
  }

  /** What one more event of a calm run does to datagram q. */
  ghost predicate CalmProgress(sent: map<uint64, seq<byte>>, s: State, events: seq<Event>, q: uint64, k: nat)
    requires History(sent) && q in sent && k < |events|
  {
    var d := DeliveredAt(s, events, k);
    if AllArrived(events[..k + 1], q, CountOf(sent[q])) then d == Some(Delivery(q, sent[q]))
    else
      && Holds(StateAfter(s, events[..k + 1]), q, sent[q], ArrivedSet(events[..k + 1], q, CountOf(sent[q])))
      && (d.None? || d.value.sequence != q)
  }

  lemma CalmNext(sent: map<uint64, seq<byte>>, s: State, events: seq<Event>, q: uint64, k: nat)
    requires History(sent) && q in sent && k < |events|
    requires AllGenuine(sent, events) && CalmRun(s, events, q)
    requires Holds(StateAfter(s, events[..k]), q, sent[q], ArrivedSet(events[..k], q, CountOf(sent[q])))
    requires !AllArrived(events[..k], q, CountOf(sent[q]))
    ensures CalmProgress(sent, s, events, q, k)
  {
    var count := CountOf(sent[q]);
    var arrived := ArrivedSet(events[..k], q, count);
    MissingOrAll(events[..k], q, sent[q]);
    MissingOrAll(events[..k + 1], q, sent[q]);
    StateAfterNext(s, events, k);
    ArrivedSetNext(events, q, k, count);
    CalmStep(sent, StateAfter(s, events[..k]), events[k], q, arrived);
    if i: nat :| Brings(events[k], q, i) {
      assert Genuine(sent, events[k].packet.value);
      assert i < count;
    }
  }

  lemma {:induction false} CalmPrefix(sent: map<uint64, seq<byte>>, s: State, events: seq<Event>, q: uint64, k: nat)
    requires History(sent) && q in sent && q !in s.pending && k <= |events|
    requires AllGenuine(sent, events) && CalmRun(s, events, q)
    requires !AllArrived(events[..k], q, CountOf(sent[q]))
    ensures Holds(StateAfter(s, events[..k]), q, sent[q], ArrivedSet(events[..k], q, CountOf(sent[q])))
  {
    if k > 0 {
      assert !AllArrived(events[..k - 1], q, CountOf(sent[q])) by {
        forall i: nat ensures Arrived(events[..k - 1], q, i) ==> Arrived(events[..k], q, i) {
          ArrivedNext(events, q, k - 1, i);
        }
      }
      CalmPrefix(sent, s, events, q, k - 1);
      CalmNext(sent, s, events, q, k - 1);
    } else {
      assert ArrivedSet(events[..0], q, CountOf(sent[q])) == {};
    }
  }

  /** What a calm run delivers for datagram q, when it is, and that it is at all. */
  ghost predicate DeliversLast(sent: map<uint64, seq<byte>>, s: State, events: seq<Event>, q: uint64, k: nat)
    requires History(sent) && q in sent && k < |events|
  {
    var d := DeliveredAt(s, events, k);
    && (d.Some? && d.value.sequence == q <==> AllArrived(events[..k + 1], q, CountOf(sent[q])))
    && (d.Some? && d.value.sequence == q ==> d.value.payload == sent[q])
  }

  lemma GenuineLastFrame(sent: map<uint64, seq<byte>>, s: State, events: seq<Event>, q: uint64, k: nat)
    requires History(sent) && q in sent && q !in s.pending && k < |events|
    requires AllGenuine(sent, events) && CalmRun(s, events, q)
    requires !AllArrived(events[..k], q, CountOf(sent[q]))
    ensures DeliversLast(sent, s, events, q, k)
  {
    CalmPrefix(sent, s, events, q, k);
    CalmNext(sent, s, events, q, k);
  }

  /**
   Completeness: from any state that holds nothing of datagram q, through any
   run that does not disturb it, an event delivers q exactly when it brings the
   last missing frame, and then delivers the sealed payload.
   */
  lemma DeliveredWithLastFrame(c: Codec, sent: map<uint64, seq<byte>>, s: State, events: seq<Event>, q: uint64, k: nat)
    requires History(sent) && q in sent && q !in s.pending && k < |events|
    requires AllOpened(c, sent, events) && CalmRun(s, events, q)
    requires !AllArrived(events[..k], q, CountOf(sent[q]))
    ensures DeliversLast(sent, s, events, q, k)
  {
    OpenedAreGenuine(c, sent, events);
    GenuineLastFrame(sent, s, events, q, k);
  }
}
