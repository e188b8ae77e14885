/**
 A session end to end: any number of threads take numbers from one counter and
 seal a payload under each, the network hands over frames in any order and any
 number, its own among them, and the receiver opens and reassembles them.
 */
module EndToEnd {
  import opened Words
  import opened Options
  import opened ByteBudget
  import opened Wire
  import opened Sealing
  import opened Reassembly
  import opened Transport
  import opened QuickDelivery
  import SequenceCounters

  /** What happens to a receiver: a frame from the network, or a step of its own. */
  datatype Input = FromNetwork(frame: Frame, now: int, victim: uint64) | Expiry(now: int) | Reset | Shut | Charge(usage: Option<Usage>)

  ghost function AsEvent(c: Codec, input: Input): Event {
    match input
    case FromNetwork(frame, now, victim) =>
      var packet := OpenPacket(c, frame);
      Arrive(if packet.Ok? then Some(packet.value) else None, now, victim)
    case Expiry(now) => Expire(now)
    case Reset => Clear
    case Shut => Close
    case Charge(usage) => OthersCharge(usage)
  }

  ghost function AsEvents(c: Codec, inputs: seq<Input>): (events: seq<Event>)
    ensures |events| == |inputs|
  {
    seq(|inputs|, k requires 0 <= k < |inputs| => AsEvent(c, inputs[k]))
  }

  /** What the receiver makes of the k-th input. */
  ghost function Delivered(c: Codec, inputs: seq<Input>, k: nat): Option<Delivery>
    requires k < |inputs|
  {
    DeliveredAt(NEW_RECEIVER, AsEvents(c, inputs), k)
  }

  /** The numbers a counter has issued in a run of all threads. */
  ghost function Issued(events: seq<SequenceCounters.Event>, counter: SequenceCounters.CounterId): seq<uint64> {
    var s := SequenceCounters.Run(SequenceCounters.START, events);
    if counter in s.issued then s.issued[counter] else []
  }

  lemma IssuedDistinct(events: seq<SequenceCounters.Event>, counter: SequenceCounters.CounterId)
    ensures SequenceCounters.Increasing(Issued(events, counter)) && 0 !in Issued(events, counter)
  {
    SequenceCounters.ReachableInv(events);
    var s := SequenceCounters.Run(SequenceCounters.START, events);
    if counter in s.issued {
      assert SequenceCounters.CounterInv(s.initial[counter], s.issued[counter], s.counters[counter]);
    }
  }

  /** The i-th number; none is zero. */
  ghost function NumberOf(events: seq<SequenceCounters.Event>, counter: SequenceCounters.CounterId, i: nat): (q: uint64)
    requires i < |Issued(events, counter)|
    ensures q != 0
  {
    IssuedDistinct(events, counter);
    Issued(events, counter)[i]
  }

  /** The payloads by the number they were sealed under. */
  ghost function SealedUnder(sequences: seq<uint64>, payloads: seq<seq<byte>>): (sent: map<uint64, seq<byte>>)
    requires |sequences| == |payloads| && SequenceCounters.Increasing(sequences)
    ensures forall q :: q in sent <==> q in sequences
    ensures forall i :: 0 <= i < |sequences| ==> sent[sequences[i]] == payloads[i]
  {
    map i | 0 <= i < |sequences| :: sequences[i] := payloads[i]
  }

  /** A session: each issued number has sealed one payload of allowed size, as Sealing.SealDatagrams does it. */
  ghost predicate Session(events: seq<SequenceCounters.Event>, counter: SequenceCounters.CounterId, payloads: seq<seq<byte>>) {
    |payloads| == |Issued(events, counter)| && forall i :: 0 <= i < |payloads| ==> Sendable(payloads[i])
  }

  lemma SealedIsHistory(sequences: seq<uint64>, payloads: seq<seq<byte>>)
    requires |sequences| == |payloads| && SequenceCounters.Increasing(sequences) && 0 !in sequences
    requires forall i :: 0 <= i < |payloads| ==> Sendable(payloads[i])
    ensures History(SealedUnder(sequences, payloads))
  {
    var sent := SealedUnder(sequences, payloads);
    forall q | q in sent ensures Sendable(sent[q]) {
      var i :| 0 <= i < |sequences| && sequences[i] == q;
    }
  }

  ghost function SentBy(events: seq<SequenceCounters.Event>, counter: SequenceCounters.CounterId, payloads: seq<seq<byte>>)
      : (sent: map<uint64, seq<byte>>)
    requires Session(events, counter, payloads)
    ensures History(sent)
  {
    IssuedDistinct(events, counter);
    SealedIsHistory(Issued(events, counter), payloads);
    SealedUnder(Issued(events, counter), payloads)
  }

  /** The network cannot encrypt under the session's key. */
  ghost predicate NoForgery(c: Codec, sent: map<uint64, seq<byte>>, inputs: seq<Input>)
    requires History(sent)
  {
    forall k :: 0 <= k < |inputs| && inputs[k].FromNetwork? ==> Authentic(c, sent, inputs[k].frame)
  }

  lemma InputsOpened(c: Codec, sent: map<uint64, seq<byte>>, inputs: seq<Input>)
    requires History(sent) && NoForgery(c, sent, inputs)
    ensures AllOpened(c, sent, AsEvents(c, inputs))
  {
    var events := AsEvents(c, inputs);
    forall e | e in events && e.Arrive? && e.packet.Some? ensures Opened(c, sent, e.packet.value) {
      var k :| 0 <= k < |events| && events[k] == e;
      assert Authentic(c, sent, inputs[k].frame) && OpenPacket(c, inputs[k].frame) == Ok(e.packet.value);
    }
  }

  /**
   However the threads interleave and whatever the network does, every delivery
   is one of the payloads sealed, under the number it was sealed with, and no
   two deliveries are of the same one.
   */
  lemma SealedToDelivered(c: Codec, events: seq<SequenceCounters.Event>, counter: SequenceCounters.CounterId,
                          payloads: seq<seq<byte>>, inputs: seq<Input>, k: nat) returns (i: nat)
    requires Session(events, counter, payloads)
    requires NoForgery(c, SentBy(events, counter, payloads), inputs)
    requires k < |inputs| && Delivered(c, inputs, k).Some?
    ensures i < |payloads| && Delivered(c, inputs, k) == Some(Delivery(Issued(events, counter)[i], payloads[i]))
    ensures forall j :: 0 <= j < |inputs| && j != k && Delivered(c, inputs, j).Some? ==>
              Delivered(c, inputs, j).value.sequence != Issued(events, counter)[i]
  {
    var sent := SentBy(events, counter, payloads);
    InputsOpened(c, sent, inputs);
    DeliveriesAreSound(c, sent, AsEvents(c, inputs), k);
    IssuedDistinct(events, counter);
    var q := Delivered(c, inputs, k).value.sequence;
    i :| 0 <= i < |payloads| && Issued(events, counter)[i] == q;
    forall j | 0 <= j < |inputs| && j != k && Delivered(c, inputs, j).Some?
      ensures Delivered(c, inputs, j).value.sequence != q
    {
      if j < k {
        DeliveredAtMostOnce(c, sent, AsEvents(c, inputs), j, k);
      } else {
        DeliveredAtMostOnce(c, sent, AsEvents(c, inputs), k, j);
      }
    }
  }

  // ---------- Every undisturbed payload arrives ----------

  /** The j-th frame of the payload sealed under q, as it went out. */
  ghost function FrameOf(c: Codec, payload: seq<byte>, q: uint64, j: nat): Frame
    requires Sendable(payload) && q != 0 && j < CountOf(payload)
  {
    DatagramFrames(c, Datagram(c, payload), q)[j]
  }

  ghost predicate CameIn(inputs: seq<Input>, frame: Frame) {
    exists k :: 0 <= k < |inputs| && inputs[k].FromNetwork? && inputs[k].frame == frame
  }

  /** All frames of the payload have come in. */
  ghost predicate AllCameIn(c: Codec, inputs: seq<Input>, payload: seq<byte>, q: uint64)
    requires Sendable(payload) && q != 0
  {
    forall j: nat :: j < CountOf(payload) ==> CameIn(inputs, FrameOf(c, payload, q, j))
  }

  /** A packet of the session that the sender made is the fragment its numbers name. */
  lemma NamedFragment(c: Codec, sent: map<uint64, seq<byte>>, p: Packet)
    requires History(sent) && Genuine(sent, p) && c.Matches(p)
    ensures p.fragment < CountOf(sent[p.sequence]) && p == FragmentPacket(Datagram(c, sent[p.sequence]), p.sequence, p.fragment)
  {
    var payload := sent[p.sequence];
    if IsWhole(payload, p) {
      CountBounds(|payload|);
      assert Chunk(payload, 0) == payload;
    }
  }

  /** The frame of a fragment opens as that fragment. */
  lemma FrameOpens(c: Codec, payload: seq<byte>, q: uint64, j: nat)
    requires Sendable(payload) && q != 0 && j < CountOf(payload) && c.Addressable()
    ensures OpenPacket(c, FrameOf(c, payload, q, j)) == Ok(FragmentPacket(Datagram(c, payload), q, j))
  {
    FragmentSeals(c, Datagram(c, payload), q, j);
    SealRoundTrip(c, FragmentPacket(Datagram(c, payload), q, j));
  }

  /** What opens is the frame of the fragment it opens as. */
  lemma OpensAsItself(c: Codec, sent: map<uint64, seq<byte>>, f: Frame)
    requires History(sent) && Authentic(c, sent, f) && OpenPacket(c, f).Ok?
    ensures var p := OpenPacket(c, f).value;
      && p.sequence in sent && p.fragment < CountOf(sent[p.sequence])
      && f == FrameOf(c, sent[p.sequence], p.sequence, p.fragment)
  {
    OpenedIsGenuine(c, sent, f);
    OpenedWasSealed(c, f);
    var p := OpenPacket(c, f).value;
    NamedFragment(c, sent, p);
    FragmentSeals(c, Datagram(c, sent[p.sequence]), p.sequence, p.fragment);
  }

  /** The receiver has been brought a fragment exactly when its frame has come in. */
  lemma BroughtByFrame(c: Codec, sent: map<uint64, seq<byte>>, inputs: seq<Input>, q: uint64, j: nat)
    requires History(sent) && NoForgery(c, sent, inputs) && q in sent && j < CountOf(sent[q]) && c.Addressable()
    ensures Arrived(AsEvents(c, inputs), q, j) <==> CameIn(inputs, FrameOf(c, sent[q], q, j))
  {
    var events := AsEvents(c, inputs);
    FrameOpens(c, sent[q], q, j);
    if Arrived(events, q, j) {
      var e :| e in events && Brings(e, q, j);
      var k :| 0 <= k < |events| && events[k] == e;
      assert Authentic(c, sent, inputs[k].frame);
      OpensAsItself(c, sent, inputs[k].frame);
    }
    if CameIn(inputs, FrameOf(c, sent[q], q, j)) {
      var k :| 0 <= k < |inputs| && inputs[k].FromNetwork? && inputs[k].frame == FrameOf(c, sent[q], q, j);
      assert Brings(events[k], q, if CountOf(sent[q]) > 1 then j else 0);
      assert events[k] in events;
    }
  }

  lemma AllBrought(c: Codec, sent: map<uint64, seq<byte>>, inputs: seq<Input>, q: uint64)
    requires History(sent) && NoForgery(c, sent, inputs) && q in sent && c.Addressable()
    ensures AllArrived(AsEvents(c, inputs), q, CountOf(sent[q])) <==> AllCameIn(c, inputs, sent[q], q)
  {
    forall j: nat | j < CountOf(sent[q])
      ensures Arrived(AsEvents(c, inputs), q, j) <==> CameIn(inputs, FrameOf(c, sent[q], q, j))
    {
      BroughtByFrame(c, sent, inputs, q, j);
    }
  }

  lemma AllBroughtBy(c: Codec, sent: map<uint64, seq<byte>>, inputs: seq<Input>, q: uint64, k: nat)
    requires History(sent) && NoForgery(c, sent, inputs) && q in sent && c.Addressable() && k <= |inputs|
    ensures AllArrived(AsEvents(c, inputs)[..k], q, CountOf(sent[q])) <==> AllCameIn(c, inputs[..k], sent[q], q)
  {
    AllBrought(c, sent, inputs[..k], q);
    assert AsEvents(c, inputs)[..k] == AsEvents(c, inputs[..k]);
  }

  lemma PromptlyDelivered(c: Codec, sent: map<uint64, seq<byte>>, s: State, inputs: seq<Input>, q: uint64, first: int, k: nat)
    requires History(sent) && NoForgery(c, sent, inputs) && q in sent && k < |inputs| && c.Addressable()
    requires PromptRun(AsEvents(c, inputs), q, first) && Ready(s, q, RunBytes(AsEvents(c, inputs)))
    requires !AllCameIn(c, inputs[..k], sent[q], q)
    ensures var d := DeliveredAt(s, AsEvents(c, inputs), k);
      && (d.Some? && d.value.sequence == q <==> AllCameIn(c, inputs[..k + 1], sent[q], q))
      && (d.Some? && d.value.sequence == q ==> d.value.payload == sent[q])
  {
    InputsOpened(c, sent, inputs);
    OpenedAreGenuine(c, sent, AsEvents(c, inputs));
    AllBroughtBy(c, sent, inputs, q, k);
    AllBroughtBy(c, sent, inputs, q, k + 1);
    PromptDelivery(sent, s, AsEvents(c, inputs), q, first, k);
  }

  /** The run takes nothing of datagram q away: no timeout, eviction, refusal or window overrun. */
  ghost predicate Undisturbed(c: Codec, s: State, inputs: seq<Input>, q: uint64) {
    CalmRun(s, AsEvents(c, inputs), q)
  }

  /**
   A payload of a session whose ids fit the header is delivered, from any state
   that holds nothing of it and through any run that does not disturb it, with
   the input that completes its frames, and with no other.
   */
  lemma DeliveredWhenComplete(c: Codec, events: seq<SequenceCounters.Event>, counter: SequenceCounters.CounterId,
                              payloads: seq<seq<byte>>, s: State, inputs: seq<Input>, i: nat, k: nat)
    requires Session(events, counter, payloads) && i < |payloads| && k < |inputs| && c.Addressable()
    requires NoForgery(c, SentBy(events, counter, payloads), inputs)
    requires var q := NumberOf(events, counter, i); q !in s.pending && Undisturbed(c, s, inputs, q)
    requires !AllCameIn(c, inputs[..k], payloads[i], NumberOf(events, counter, i))
    ensures var (q, d) := (NumberOf(events, counter, i), DeliveredAt(s, AsEvents(c, inputs), k));
      && (d.Some? && d.value.sequence == q <==> AllCameIn(c, inputs[..k + 1], payloads[i], q))
      && (d.Some? && d.value.sequence == q ==> d.value.payload == payloads[i])
  {
    IssuedDistinct(events, counter);
    var sent, q := SentBy(events, counter, payloads), NumberOf(events, counter, i);
    InputsOpened(c, sent, inputs);
    AllBroughtBy(c, sent, inputs, q, k);
    AllBroughtBy(c, sent, inputs, q, k + 1);
    DeliveredWithLastFrame(c, sent, s, AsEvents(c, inputs), q, k);
  }

  /**
   The same from what comes in alone: the receiver holds nothing and has room
   for all bytes that open, everything happens within five seconds of the first
   frame of the payload, at most eight datagrams come in pieces, and no number
   is 64 or more ahead. Then the input that completes the frames delivers the
   payload, and no other does.
   */
  lemma DeliveredPromptly(c: Codec, events: seq<SequenceCounters.Event>, counter: SequenceCounters.CounterId,
                          payloads: seq<seq<byte>>, s: State, inputs: seq<Input>, first: int, i: nat, k: nat)
    requires Session(events, counter, payloads) && i < |payloads| && k < |inputs| && c.Addressable()
    requires NoForgery(c, SentBy(events, counter, payloads), inputs)
    requires PromptRun(AsEvents(c, inputs), NumberOf(events, counter, i), first)
    requires Ready(s, NumberOf(events, counter, i), RunBytes(AsEvents(c, inputs)))
    requires !AllCameIn(c, inputs[..k], payloads[i], NumberOf(events, counter, i))
    ensures var (q, d) := (NumberOf(events, counter, i), DeliveredAt(s, AsEvents(c, inputs), k));
      && (d.Some? && d.value.sequence == q <==> AllCameIn(c, inputs[..k + 1], payloads[i], q))
      && (d.Some? && d.value.sequence == q ==> d.value.payload == payloads[i])
  {
    IssuedDistinct(events, counter);
    PromptlyDelivered(c, SentBy(events, counter, payloads), s, inputs, NumberOf(events, counter, i), first, k);
  }
}
