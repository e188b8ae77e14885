/**
 Delivery from what comes in alone: a datagram whose frames arrive within five
 seconds, among at most eight that are being put together, with room for all
 bytes, is delivered with its last frame.
 */
module QuickDelivery {
  import opened Words
  import opened Options
  import opened ByteBudget
  import opened Wire
  import opened Sealing
  import opened ReplayWindow
  import opened Reassembly
  import opened Transport

  // ---------- What comes in ----------

  function EventBytes(e: Event): nat {
    if e.Arrive? && e.packet.Some? then |e.packet.value.payload| else 0
  }

  /** The bytes of all packets. */
  function RunBytes(events: seq<Event>): nat {
    if events == [] then 0 else RunBytes(events[..|events| - 1]) + EventBytes(events[|events| - 1])
  }

  /** The sequences of which a piece of several comes in. */
  ghost function PiecesOf(events: seq<Event>): set<uint64> {
    set e | e in events && e.Arrive? && e.packet.Some? && e.packet.value.fragments > 0 :: e.packet.value.sequence
  }

  ghost predicate RoomFor(usage: Option<Usage>, bytes: nat) {
    usage.Some? ==>
      && usage.value.rule + bytes <= usage.value.ruleLimit
      && usage.value.process + bytes <= usage.value.processLimit
  }

  /**
   Nothing but packets and sweeps, all before five seconds have gone since the
   first piece of q, other sequences at most 63 ahead of q, and what others
   charge leaves room for these bytes.
   */
  ghost predicate Prompt(e: Event, q: uint64, first: int, bytes: nat) {
    match e
    case Arrive(None, _, _) => true
    case Arrive(Some(p), now, _) => now < first + 5_000_000_000 && p.sequence < q + 64 && (p.sequence == q ==> first <= now)
    case Expire(now) => now < first + 5_000_000_000
    case Clear => false
    case Close => false
    case OthersCharge(usage) => RoomFor(usage, bytes)
  }

  ghost predicate PromptRun(events: seq<Event>, q: uint64, first: int) {
    && |PiecesOf(events)| <= 8
    && forall e :: e in events ==> Prompt(e, q, first, RunBytes(events))
  }

  /** A receiver that holds nothing, has accepted nothing that rules q out, and has room for these bytes. */
  ghost predicate Ready(s: State, q: uint64, bytes: nat) {
    && s.pending == map[] && !s.closed && RoomFor(s.usage, bytes)
    && forall a :: a in s.accepted ==> a != q && a < q + 64
  }

  // ---------- What one packet can do to a receiver ----------

  /** The usage may have fallen, or grown by these bytes at most. */
  ghost predicate Within(after: Option<Usage>, before: Option<Usage>, bytes: nat) {
    (after.Some? ==> before.Some?) && (after.Some? && before.Some? ==>
      && after.value.ruleLimit == before.value.ruleLimit && after.value.processLimit == before.value.processLimit
      && after.value.rule <= before.value.rule + bytes && after.value.process <= before.value.process + bytes)
  }

  /** The sets stay as old as they are; only this one may be new, begun now. */
  ghost predicate SetsFrom(after: map<uint64, Assembly>, before: map<uint64, Assembly>, sequence: uint64, now: int) {
    forall r :: r in after ==>
      (r in before && after[r].createdAt == before[r].createdAt) || (r == sequence && after[r].createdAt == now)
  }

  /** What an arrival can change. */
  ghost predicate Modest(after: State, before: State, sequence: uint64, now: int, bytes: nat) {
    && after.closed == before.closed && Within(after.usage, before.usage, bytes)
    && SetsFrom(after.pending, before.pending, sequence, now)
    && before.accepted <= after.accepted <= before.accepted + {sequence}
  }

  lemma DroppedModest(s: State, q: uint64, sequence: uint64, now: int)
    ensures Modest(Dropped(s, q), s, sequence, now, 0)
  {}

  lemma SweptModest(s: State, sequence: uint64, now: int)
    ensures Modest(Swept(s, now), s, sequence, now, 0)
  {}

  lemma ModestTwice(a: State, b: State, c: State, sequence: uint64, now: int, m: nat, n: nat)
    requires Modest(a, b, sequence, now, m) && Modest(b, c, sequence, now, n)
    ensures Modest(a, c, sequence, now, m + n)
  {}

  lemma StoredModest(s: State, a: Assembly, p: Packet, now: int)
    requires p.fragment < a.fragments && a.chunks[p.fragment].None?
    requires a.createdAt == now || (p.sequence in s.pending && a.createdAt == s.pending[p.sequence].createdAt)
    ensures Modest(Stored(s, a, p).state, s, p.sequence, now, |p.payload|)
  {
    var (usage, granted) := BudgetReserved(s.usage, |p.payload|);
    if !granted {
      DroppedModest(s, p.sequence, p.sequence, now);
    } else {
      var a' := WithChunk(a, p.fragment, p.payload);
      var s' := s.(pending := s.pending[p.sequence := a'], usage := usage);
      assert Modest(s', s, p.sequence, now, |p.payload|);
      if Complete(a') {
        var done := Dropped(s', p.sequence);
        DroppedModest(s', p.sequence, p.sequence, now);
        ModestTwice(done, s', s, p.sequence, now, 0, |p.payload|);
        FinishedModest(done, s, p.sequence, Join(AllChunks(a')), now, |p.payload|);
      }
    }
  }

  lemma FinishedModest(done: State, s: State, sequence: uint64, payload: seq<byte>, now: int, bytes: nat)
    requires Modest(done, s, sequence, now, bytes)
    ensures Modest(Finished(done, sequence, payload).state, s, sequence, now, bytes)
  {}

  lemma PlacedModest(s: State, p: Packet, now: int, victim: uint64)
    requires ValidFragmentMetadata(p.fragment, p.fragments) && p.fragments != 0
    ensures Modest(Placed(s, p, now, victim).state, s, p.sequence, now, |p.payload|)
  {
    var isNew := p.sequence !in s.pending;
    var s1 := if isNew && |s.pending| >= MAX_PENDING_FRAGMENT_SETS then Dropped(s, victim) else s;
    var a := if isNew then NewAssembly(p.fragments, now) else s.pending[p.sequence];
    DroppedModest(s, victim, p.sequence, now);
    DroppedModest(s1, p.sequence, p.sequence, now);
    ModestTwice(Dropped(s1, p.sequence), s1, s, p.sequence, now, 0, 0);
    if a.fragments == p.fragments && a.chunks[p.fragment].None? && a.total + |p.payload| <= MAX_DATAGRAM_PAYLOAD {
      StoredModest(s1, a, p, now);
      ModestTwice(Stored(s1, a, p).state, s1, s, p.sequence, now, |p.payload|, 0);
    }
  }

  lemma AcceptedModest(s: State, p: Packet, now: int, victim: uint64)
    ensures Modest(Accepted(s, p, now, victim).state, s, p.sequence, now, |p.payload|)
    ensures !IsPart(s, p) ==> Accepted(s, p, now, victim).state.pending == s.pending
  {
    if IsPart(s, p) {
      SweptModest(s, p.sequence, now);
      PlacedModest(Swept(s, now), p, now, victim);
      ModestTwice(Accepted(s, p, now, victim).state, Swept(s, now), s, p.sequence, now, |p.payload|, 0);
    }
  }

  // ---------- Through a prompt run ----------

  /** What stays true in front of the rest of a prompt run. */
  ghost predicate Fit(s: State, q: uint64, first: int, pieces: set<uint64>, left: nat) {
    && !s.closed && s.pending.Keys <= pieces && RoomFor(s.usage, left)
    && (q in s.pending ==> first <= s.pending[q].createdAt)
    && forall a :: a in s.accepted ==> a < q + 64
  }

  lemma FewerKeys<T, V>(m: map<T, V>, k: T, keys: set<T>)
    requires m.Keys <= keys && k in keys && k !in m
    ensures |m| < |keys|
  {
    Smaller(m.Keys + {k}, keys);
    assert |m.Keys + {k}| == |m.Keys| + 1 && |m| == |m.Keys|;
  }

  lemma {:induction false} Smaller<T>(a: set<T>, b: set<T>)
    requires a <= b
    ensures |a| <= |b|
    decreases a
  {
    if a != {} {
      var x :| x in a;
      Smaller(a - {x}, b - {x});
    }
  }

  lemma SweptFit(s: State, q: uint64, first: int, pieces: set<uint64>, left: nat, now: int)
    requires Fit(s, q, first, pieces, left) && now < first + 5_000_000_000
    ensures Fit(Swept(s, now), q, first, pieces, left)
    ensures q in s.pending ==> q in Swept(s, now).pending
  {
    SweptModest(s, q, now);
  }

  /** A prompt arrival is calm for q. */
  lemma PromptCalm(s: State, p: Packet, now: int, victim: uint64, q: uint64, first: int, pieces: set<uint64>, left: nat)
    requires Fit(s, q, first, pieces, left) && |pieces| <= 8 && left >= |p.payload| && q != 0
    requires now < first + 5_000_000_000 && (p.sequence == q ==> first <= now) && (p.fragments > 0 ==> p.sequence in pieces)
    requires q !in s.accepted
    ensures CalmPacket(s, p, now, victim, q)
  {
    if IsPart(s, p) {
      SweptFit(s, q, first, pieces, left, now);
      var swept := Swept(s, now);
      if p.sequence !in swept.pending {
        FewerKeys(swept.pending, p.sequence, pieces);
      }
    }
  }

  lemma PromptFit(s: State, p: Packet, now: int, victim: uint64, q: uint64, first: int, pieces: set<uint64>, left: nat)
    requires Fit(s, q, first, pieces, left) && left >= |p.payload|
    requires p.sequence < q + 64 && (p.sequence == q ==> first <= now) && (p.fragments > 0 ==> p.sequence in pieces)
    ensures Fit(Accepted(s, p, now, victim).state, q, first, pieces, left - |p.payload|)
  {
    AcceptedModest(s, p, now, victim);
  }

  ghost function BytesLeft(events: seq<Event>, k: nat): int
    requires k <= |events|
  {
    RunBytes(events) - RunBytes(events[..k])
  }

  lemma {:induction false} BytesFall(events: seq<Event>, k: nat)
    requires k <= |events|
    ensures BytesLeft(events, k) >= 0
    ensures k < |events| ==> BytesLeft(events, k) == BytesLeft(events, k + 1) + EventBytes(events[k])
    decreases |events| - k
  {
    if k < |events| {
      assert events[..k + 1][..k] == events[..k];
      BytesFall(events, k + 1);
    } else {
      assert events[..k] == events;
    }
  }

  /** The receiver before the k-th event of a prompt run. */
  ghost predicate Midway(sent: map<uint64, seq<byte>>, s: State, events: seq<Event>, q: uint64, first: int, k: nat)
    requires k <= |events|
  {
    var now := StateAfter(s, events[..k]);
    && BytesLeft(events, k) >= 0 && Fit(now, q, first, PiecesOf(events), BytesLeft(events, k))
    && q !in now.accepted && FaithfulPending(sent, now.pending)
  }

  lemma MidwayCalm(sent: map<uint64, seq<byte>>, s: State, events: seq<Event>, q: uint64, first: int, k: nat)
    requires History(sent) && q in sent && k < |events| && Midway(sent, s, events, q, first, k) && PromptRun(events, q, first)
    ensures Calm(StateAfter(s, events[..k]), events[k], q)
  {
    var e := events[k];
    BytesFall(events, k);
    BytesFall(events, k + 1);
    assert Prompt(e, q, first, RunBytes(events));
    if e.Arrive? && e.packet.Some? {
      var p := e.packet.value;
      assert p.fragments > 0 ==> p.sequence in PiecesOf(events);
      PromptCalm(StateAfter(s, events[..k]), p, e.now, e.victim, q, first, PiecesOf(events), BytesLeft(events, k));
    }
  }

  lemma MidwayNext(sent: map<uint64, seq<byte>>, s: State, events: seq<Event>, q: uint64, first: int, k: nat)
    requires History(sent) && q in sent && k < |events| && Midway(sent, s, events, q, first, k) && PromptRun(events, q, first)
    requires AllGenuine(sent, events)
    requires var d := DeliveredAt(s, events, k); d.Some? ==> d.value.sequence != q
    ensures Midway(sent, s, events, q, first, k + 1)
  {
    var now, e := StateAfter(s, events[..k]), events[k];
    StateAfterNext(s, events, k);
    BytesFall(events, k);
    BytesFall(events, k + 1);
    StepFaithful(sent, now, e);
    assert Prompt(e, q, first, RunBytes(events));
    match e
    case Arrive(None, _, _) =>
    case Arrive(Some(p), at, victim) =>
      assert p.fragments > 0 ==> p.sequence in PiecesOf(events);
      PromptFit(now, p, at, victim, q, first, PiecesOf(events), BytesLeft(events, k));
    case Expire(at) => SweptFit(now, q, first, PiecesOf(events), BytesLeft(events, k), at);
    case OthersCharge(usage) => BytesFall(events, 0);
  }

  lemma CalmLonger(s: State, events: seq<Event>, q: uint64, k: nat)
    requires k < |events| && CalmRun(s, events[..k], q) && Calm(StateAfter(s, events[..k]), events[k], q)
    ensures CalmRun(s, events[..k + 1], q)
  {
    var run := events[..k + 1];
    forall j | 0 <= j < |run| ensures Calm(StateAfter(s, run[..j]), run[j], q) {
      assert run[..j] == events[..j];
      if j < k { assert events[..k][..j] == events[..j] && events[..k][j] == events[j]; }
    }
  }

  lemma LastFrameOf(sent: map<uint64, seq<byte>>, s: State, events: seq<Event>, q: uint64, k: nat)
    requires History(sent) && q in sent && q !in s.pending && k < |events| && AllGenuine(sent, events)
    requires CalmRun(s, events[..k + 1], q) && !AllArrived(events[..k], q, CountOf(sent[q]))
    ensures DeliversLast(sent, s, events, q, k)
  {
    var run := events[..k + 1];
    assert run[..k] == events[..k] && run[..k + 1] == run && run[k] == events[k];
    GenuineLastFrame(sent, s, run, q, k);
  }

  lemma StillMissing(events: seq<Event>, q: uint64, k: nat, count: nat)
    requires k < |events| && !AllArrived(events[..k + 1], q, count)
    ensures !AllArrived(events[..k], q, count)
  {
    var i: nat :| i < count && !Arrived(events[..k + 1], q, i);
    ArrivedNext(events, q, k, i);
  }

  lemma {:induction false} PromptPrefix(sent: map<uint64, seq<byte>>, s: State, events: seq<Event>, q: uint64, first: int, k: nat)
    requires History(sent) && q in sent && k <= |events| && AllGenuine(sent, events)
    requires PromptRun(events, q, first) && Ready(s, q, RunBytes(events)) && !AllArrived(events[..k], q, CountOf(sent[q]))
    ensures Midway(sent, s, events, q, first, k) && CalmRun(s, events[..k], q)
  {
    BytesFall(events, k);
    if k == 0 {
      assert events[..0] == [];
    } else {
      StillMissing(events, q, k - 1, CountOf(sent[q]));
      PromptPrefix(sent, s, events, q, first, k - 1);
      MidwayCalm(sent, s, events, q, first, k - 1);
      CalmLonger(s, events, q, k - 1);
      LastFrameOf(sent, s, events, q, k - 1);
      MidwayNext(sent, s, events, q, first, k - 1);
    }
  }

  /**
   In a prompt run an event delivers q exactly when it brings the last missing
   frame, and then delivers the sealed payload.
   */
  lemma PromptDelivery(sent: map<uint64, seq<byte>>, s: State, events: seq<Event>, q: uint64, first: int, k: nat)
    requires History(sent) && q in sent && k < |events| && AllGenuine(sent, events)
    requires PromptRun(events, q, first) && Ready(s, q, RunBytes(events)) && !AllArrived(events[..k], q, CountOf(sent[q]))
    ensures DeliversLast(sent, s, events, q, k)
  {
    PromptPrefix(sent, s, events, q, first, k);
    MidwayCalm(sent, s, events, q, first, k);
    CalmLonger(s, events, q, k);
    LastFrameOf(sent, s, events, q, k);
  }

  // ---------- At most eight at a time ----------

  /** Whatever is evicted is one of the oldest sets, if anything is held. */
  ghost predicate EvictsOldest(s: State, e: Event) {
    e.Arrive? && e.packet.Some? && s.pending != map[] ==>
      var pending := Swept(s, e.now).pending;
      pending != map[] ==> e.victim in pending && forall r :: r in pending ==> pending[e.victim].createdAt <= pending[r].createdAt
  }

  /** The sets that may be held after a piece is placed: those that were, without the evicted one, and its own. */
  ghost function MayHold(pending: map<uint64, Assembly>, sequence: uint64, victim: uint64): set<uint64> {
    (if Evicts(pending, sequence) then pending.Keys - {victim} else pending.Keys) + {sequence}
  }

  lemma PlacedKeys(s: State, p: Packet, now: int, victim: uint64)
    requires ValidFragmentMetadata(p.fragment, p.fragments) && p.fragments != 0
    ensures Placed(s, p, now, victim).state.pending.Keys <= MayHold(s.pending, p.sequence, victim)
  {
    var s1 := if Evicts(s.pending, p.sequence) then Dropped(s, victim) else s;
    var a := if p.sequence in s.pending then s.pending[p.sequence] else NewAssembly(p.fragments, now);
    if a.fragments == p.fragments && a.chunks[p.fragment].None? && a.total + |p.payload| <= MAX_DATAGRAM_PAYLOAD {
      StoredModest(s1, a, p, a.createdAt);
    }
  }

  lemma MayHoldEight(pending: map<uint64, Assembly>, sequence: uint64, victim: uint64)
    requires |pending| <= 8 && (Evicts(pending, sequence) ==> victim in pending)
    ensures |MayHold(pending, sequence, victim)| <= 8
  {
    assert |pending| == |pending.Keys|;
    if sequence in pending { assert pending.Keys + {sequence} == pending.Keys; }
  }

  lemma AcceptedSize(s: State, p: Packet, now: int, victim: uint64)
    requires |s.pending| <= 8 && EvictsOldest(s, Arrive(Some(p), now, victim))
    ensures |Accepted(s, p, now, victim).state.pending| <= 8
  {
    if IsPart(s, p) {
      var swept := Swept(s, now);
      Smaller(swept.pending.Keys, s.pending.Keys);
      assert |swept.pending| == |swept.pending.Keys| && |s.pending| == |s.pending.Keys|;
      MayHoldEight(swept.pending, p.sequence, victim);
      PlacedKeys(swept, p, now, victim);
      var after := Accepted(s, p, now, victim).state.pending;
      Smaller(after.Keys, MayHold(swept.pending, p.sequence, victim));
      assert |after| == |after.Keys|;
    }
  }

  /** In every run at most eight datagrams are being put together. */
  lemma {:induction false} AtMostEight(events: seq<Event>)
    requires forall k :: 0 <= k < |events| ==> EvictsOldest(StateAfter(NEW_RECEIVER, events[..k]), events[k])
    ensures |StateAfter(NEW_RECEIVER, events).pending| <= 8
  {
    if events != [] {
      var n := |events| - 1;
      forall k | 0 <= k < n ensures EvictsOldest(StateAfter(NEW_RECEIVER, events[..n][..k]), events[..n][k]) {
        assert events[..n][..k] == events[..k];
      }
      AtMostEight(events[..n]);
      var s, e := StateAfter(NEW_RECEIVER, events[..n]), events[n];
      assert EvictsOldest(s, e);
      match e
      case Arrive(Some(p), now, victim) => AcceptedSize(s, p, now, victim);
      case Expire(now) => Smaller(Swept(s, now).pending.Keys, s.pending.Keys);
      case _ =>
    }
  }
}
