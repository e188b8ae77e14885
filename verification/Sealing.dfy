/**
 Splitting a datagram into sealed frames that share one sequence.
 */
module Sealing {
  import opened Words
  import opened Options
  import opened Wire

  function FragmentCount(payloadSize: nat): Result<nat, WireError> {
    if payloadSize > MAX_DATAGRAM_PAYLOAD then Err(TooLarge)
    else if payloadSize <= FRAGMENT_PAYLOAD_SIZE then Ok(1)
    else
      var count := (payloadSize + FRAGMENT_PAYLOAD_SIZE - 1) / FRAGMENT_PAYLOAD_SIZE;
      if count > MAX_FRAGMENTS then Err(TooLarge) else Ok(count)
  }

  /** At most 57 frames; all but the last are full, and the last one is not empty. */
  lemma CountBounds(payloadSize: nat)
    ensures FragmentCount(payloadSize).Ok? <==> payloadSize <= 65507
    ensures FragmentCount(payloadSize).Ok? ==>
      var count := FragmentCount(payloadSize).value;
      && 1 <= count <= 57
      && payloadSize <= count * 1152
      && (count > 1 ==> (count - 1) * 1152 < payloadSize)
  {}

  function Chunk(payload: seq<byte>, i: nat): seq<byte>
    requires i * FRAGMENT_PAYLOAD_SIZE <= |payload|
  {
    var start := i * FRAGMENT_PAYLOAD_SIZE;
    var end := if start + FRAGMENT_PAYLOAD_SIZE < |payload| then start + FRAGMENT_PAYLOAD_SIZE else |payload|;
    payload[start..end]
  }

  function Join(chunks: seq<seq<byte>>): seq<byte> {
    if chunks == [] then [] else Join(chunks[..|chunks| - 1]) + chunks[|chunks| - 1]
  }

  ghost predicate Sendable(payload: seq<byte>) {
    |payload| <= MAX_DATAGRAM_PAYLOAD
  }

  function CountOf(payload: seq<byte>): (count: nat)
    requires Sendable(payload)
    ensures 1 <= count <= 57 && (count == 1 || (count - 1) * FRAGMENT_PAYLOAD_SIZE < |payload|)
  {
    CountBounds(|payload|);
    FragmentCount(|payload|).value
  }

  function ChunksOf(payload: seq<byte>): (chunks: seq<seq<byte>>)
    requires Sendable(payload)
    ensures |chunks| == CountOf(payload)
  {
    seq(CountOf(payload), i requires 0 <= i < CountOf(payload) => Chunk(payload, i))
  }

  function Cut(payload: seq<byte>, n: nat): (at: nat)
    ensures at <= |payload|
  {
    if n * FRAGMENT_PAYLOAD_SIZE < |payload| then n * FRAGMENT_PAYLOAD_SIZE else |payload|
  }

  lemma ChunkBetweenCuts(payload: seq<byte>, i: nat)
    requires i * FRAGMENT_PAYLOAD_SIZE <= |payload|
    ensures Cut(payload, i) <= Cut(payload, i + 1) && Chunk(payload, i) == payload[Cut(payload, i)..Cut(payload, i + 1)]
    ensures payload[..Cut(payload, i)] + Chunk(payload, i) == payload[..Cut(payload, i + 1)]
  {}

  lemma {:induction false} JoinPrefix(payload: seq<byte>, chunks: seq<seq<byte>>)
    requires forall i :: 0 <= i < |chunks| ==> i * FRAGMENT_PAYLOAD_SIZE <= |payload| && chunks[i] == Chunk(payload, i)
    ensures Join(chunks) == payload[..Cut(payload, |chunks|)]
  {
    if chunks != [] {
      var n := |chunks| - 1;
      JoinPrefix(payload, chunks[..n]);
      ChunkBetweenCuts(payload, n);
    }
  }

  /** Cutting loses nothing. */
  lemma ChunksJoin(payload: seq<byte>)
    requires Sendable(payload)
    ensures Join(ChunksOf(payload)) == payload
  {
    CountBounds(|payload|);
    JoinPrefix(payload, ChunksOf(payload));
  }

  /** The i-th wire packet of a datagram. */
  function FragmentPacket(p: Packet, sequence: uint64, i: nat): Packet
    requires Sendable(p.payload) && i < CountOf(p.payload)
  {
    var count := CountOf(p.payload);
    p.(sequence := sequence, payload := Chunk(p.payload, i),
       fragment := if count > 1 then i else 0,
       fragments := if count > 1 then count else 0)
  }

  ghost predicate Unsealed(p: Packet) {
    p.fragment == 0 && p.fragments == 0 && p.sequence == 0
  }

  lemma FragmentSeals(c: Codec, p: Packet, sequence: uint64, i: nat)
    requires c.Matches(p) && Sendable(p.payload) && sequence != 0 && i < CountOf(p.payload)
    ensures SealPacket(c, FragmentPacket(p, sequence, i)).Ok?
    ensures SealPacket(c, FragmentPacket(p, sequence, i)).value.Length() <= 1200
  {}

  /** All frames of a datagram sealed under one sequence. */
  ghost function DatagramFrames(c: Codec, p: Packet, sequence: uint64): (frames: seq<Frame>)
    requires c.Matches(p) && Sendable(p.payload) && sequence != 0
    ensures |frames| == CountOf(p.payload)
  {
    seq(CountOf(p.payload), i requires 0 <= i < CountOf(p.payload) =>
      FragmentSeals(c, p, sequence, i);
      SealPacket(c, FragmentPacket(p, sequence, i)).value)
  }

  class SequenceCounter {
    var value: uint64

    constructor (seed: uint64)
      ensures value == seed
    {
      value := seed;
    }

    /** One uncontended turn of the counter; SequenceCounters treats the contended ones. */
    method Next() returns (r: Result<uint64, WireError>)
      modifies this
      ensures old(value) == MAX_UINT64 ==> r == Err(Exhausted) && value == old(value)
      ensures old(value) < MAX_UINT64 ==> r == Ok(value) && value == old(value) + 1
    {
      if value == MAX_UINT64 {
        return Err(Exhausted);
      }
      value := value + 1;
      return Ok(value);
    }
  }

  method SealFragment(p: Packet, c: Codec, sequence: uint64, index: nat, count: nat) returns (frame: Frame)
    requires Unsealed(p) && c.Matches(p) && Sendable(p.payload) && sequence != 0 && index < count == CountOf(p.payload)
    ensures frame == DatagramFrames(c, p, sequence)[index] && frame.Length() <= 1200
  {
    var start := index * FRAGMENT_PAYLOAD_SIZE;
    var end := if start + FRAGMENT_PAYLOAD_SIZE < |p.payload| then start + FRAGMENT_PAYLOAD_SIZE else |p.payload|;
    var fragment := p.(sequence := sequence, payload := p.payload[start..end]);
    if count > 1 {
      fragment := fragment.(fragment := index, fragments := count);
    }
    assert fragment == FragmentPacket(p, sequence, index);
    FragmentSeals(c, p, sequence, index);
    return SealPacket(c, fragment).value;
  }

  /** Seals the fragments in order. */
  method SealFragments(p: Packet, c: Codec, sequence: uint64, count: nat) returns (frames: seq<Frame>)
    requires Unsealed(p) && c.Matches(p) && Sendable(p.payload) && sequence != 0 && count == CountOf(p.payload)
    ensures frames == DatagramFrames(c, p, sequence) && forall i :: 0 <= i < |frames| ==> frames[i].Length() <= 1200
  {
    frames := [];
    for index := 0 to count
      invariant |frames| == index && frames == DatagramFrames(c, p, sequence)[..index]
      invariant forall i :: 0 <= i < index ==> frames[i].Length() <= 1200
    {
      var frame := SealFragment(p, c, sequence, index, count);
      frames := frames + [frame];
    }
  }

  method SealDatagrams(p: Packet, c: Codec, counter: SequenceCounter) returns (r: Result<seq<Frame>, WireError>)
    modifies counter
    ensures r.Ok? <==>
      && p.fragment == 0 && p.fragments == 0 && p.sequence == 0 && |p.payload| <= 65507 && old(counter.value) < MAX_UINT64
      && p.packetType == c.packetType && p.tunnelID == c.tunnelID && p.ruleID == c.ruleID && p.sessionID == c.sessionID
    ensures r.Err? ==> counter.value == old(counter.value)
    ensures r.Ok? ==>
      && counter.value == old(counter.value) + 1
      && r.value == DatagramFrames(c, p, counter.value)
      && |r.value| <= 57 && |p.payload| <= |r.value| * 1152 && (|r.value| > 1 ==> (|r.value| - 1) * 1152 < |p.payload|)
      && forall i :: 0 <= i < |r.value| ==> r.value[i].Length() <= 1200
  {
    if p.fragment != 0 || p.fragments != 0 || p.sequence != 0 {
      return Err(BadFields);
    }
    if !c.Matches(p) {
      return Err(WrongContext);
    }
    CountBounds(|p.payload|);
    var counted := FragmentCount(|p.payload|);
    if counted.Err? {
      return Err(counted.error);
    }
    var count := counted.value;
    var next := counter.Next();
    if next.Err? {
      return Err(next.error);
    }
    var frames := SealFragments(p, c, next.value, count);
    return Ok(frames);
  }
}
