/**
 The wire format of a datagram: a 32-byte header in the clear, authenticated
 together with the sealed payload. Authenticated encryption is ideal: a body
 opens only under the key, nonce and header it was sealed with, and gives back
 exactly the sealed payload.
 */
module Wire {
  import opened Words
  import opened Options

  const MAGIC: seq<byte> := [0x46, 0x58, 0x50, 0x55]
  const VERSION: byte := 3
  const TYPE_DATA: byte := 1
  const TYPE_RETURN: byte := 2
  const HEADER_SIZE: nat := 32
  const AUTH_TAG_SIZE: nat := 16
  const MAX_DATAGRAM_PAYLOAD: nat := 65507
  const MAX_SINGLE_PAYLOAD: nat := MAX_DATAGRAM_PAYLOAD - HEADER_SIZE - AUTH_TAG_SIZE
  const MAX_WIRE_PACKET_SIZE: nat := 1200
  const FRAGMENT_PAYLOAD_SIZE: nat := MAX_WIRE_PACKET_SIZE - HEADER_SIZE - AUTH_TAG_SIZE
  const MAX_FRAGMENTS: nat := (MAX_DATAGRAM_PAYLOAD + FRAGMENT_PAYLOAD_SIZE - 1) / FRAGMENT_PAYLOAD_SIZE

  datatype Packet = Packet(
    packetType: byte, tunnelID: int, ruleID: int, sessionID: uint64,
    sequence: uint64, fragment: byte, fragments: byte, payload: seq<byte>)

  datatype WireError = TooSmall | BadHeader | BadFields | BadFragment | WrongContext | TooLarge | Unauthentic | Exhausted

  predicate ValidFragmentMetadata(fragment: byte, fragments: byte) {
    if fragments == 0 then fragment == 0
    else fragments >= 2 && fragments <= MAX_FRAGMENTS && fragment < fragments
  }

  predicate ValidContext(p: Packet) {
    && (p.packetType == TYPE_DATA || p.packetType == TYPE_RETURN)
    && p.tunnelID >= 0 && p.ruleID >= 0 && p.sessionID != 0
  }

  predicate ValidPacket(p: Packet) {
    ValidContext(p) && p.sequence != 0 && ValidFragmentMetadata(p.fragment, p.fragments)
  }

  // ---------- Header ----------

  /** The 32 header bytes of a packet; the two ids are cut to 32 bits. */
  function HeaderBytes(p: Packet): (header: seq<byte>)
    requires p.tunnelID >= 0 && p.ruleID >= 0
    ensures |header| == HEADER_SIZE
  {
    MAGIC + [VERSION, p.packetType, p.fragment, p.fragments]
    + BigEndian(p.tunnelID, 4) + BigEndian(p.ruleID, 4)
    + BigEndian(p.sessionID, 8) + BigEndian(p.sequence, 8)
  }

  function Field64(raw: seq<byte>, at: nat): uint64
    requires at + 8 <= |raw|
  {
    FromBigEndianBound(raw[at..at + 8]);
    FromBigEndian(raw[at..at + 8])
  }

  function Field32(raw: seq<byte>, at: nat): nat
    requires at + 4 <= |raw|
  {
    FromBigEndian(raw[at..at + 4])
  }

  lemma {:induction false} FromBigEndianBound(bytes: seq<byte>)
    ensures FromBigEndian(bytes) < Power256(|bytes|)
    ensures |bytes| == 8 ==> FromBigEndian(bytes) < TWO_TO_THE_64
  {
    if bytes != [] {
      FromBigEndianBound(bytes[..|bytes| - 1]);
    }
    Power256Values();
  }

  function ParseHeader(header: seq<byte>, bodyLength: nat): Result<Packet, WireError> {
    if |header| != HEADER_SIZE || bodyLength < AUTH_TAG_SIZE then Err(TooSmall)
    else if header[..4] != MAGIC || header[4] != VERSION then Err(BadHeader)
    else
      var p := Packet(header[5], Field32(header, 8), Field32(header, 12), Field64(header, 16), Field64(header, 24),
                      header[6], header[7], []);
      if !ValidContext(p) || p.sequence == 0 then Err(BadFields)
      else if !ValidFragmentMetadata(p.fragment, p.fragments) then Err(BadFragment)
      else Ok(p)
  }

  /** What survives the header: everything but the payload, with both ids modulo 2^32. */
  function Carried(p: Packet): Packet
    requires p.tunnelID >= 0 && p.ruleID >= 0
  {
    p.(tunnelID := p.tunnelID % TWO_TO_THE_32, ruleID := p.ruleID % TWO_TO_THE_32, payload := [])
  }

  /** Where everything stands in a header. */
  lemma HeaderSlices(p: Packet)
    requires p.tunnelID >= 0 && p.ruleID >= 0
    ensures var h := HeaderBytes(p);
      && h[..4] == [0x46, 0x58, 0x50, 0x55] && h[4] == 3 && h[5] == p.packetType && h[6] == p.fragment && h[7] == p.fragments
      && h[8..12] == BigEndian(p.tunnelID, 4) && h[12..16] == BigEndian(p.ruleID, 4)
      && h[16..24] == BigEndian(p.sessionID, 8) && h[24..32] == BigEndian(p.sequence, 8) && |h| == 32
  {}

  lemma FieldRoundTrip64(n: uint64)
    ensures FromBigEndian(BigEndian(n, 8)) == n
  {
    Power256Values();
    BigEndianRoundTrip(n, 8);
  }

  lemma FieldRoundTrip32(n: nat)
    ensures FromBigEndian(BigEndian(n, 4)) == n % TWO_TO_THE_32
  {
    Power256Values();
    BigEndianRoundTrip(n, 4);
  }

  /** Parsing a written header gives the packet back, up to the truncation of its ids. */
  lemma HeaderRoundTrip(p: Packet, bodyLength: nat)
    requires ValidPacket(p)
    ensures ParseHeader(HeaderBytes(p), bodyLength) == if bodyLength >= 16 then Ok(Carried(p)) else Err(TooSmall)
  {
    HeaderSlices(p);
    FieldRoundTrip32(p.tunnelID);
    FieldRoundTrip32(p.ruleID);
    FieldRoundTrip64(p.sessionID);
    FieldRoundTrip64(p.sequence);
  }

  lemma {:induction false} BigEndianCanonical(bytes: seq<byte>)
    ensures BigEndian(FromBigEndian(bytes), |bytes|) == bytes
  {
    if bytes != [] {
      var init, last := bytes[..|bytes| - 1], bytes[|bytes| - 1];
      BigEndianCanonical(init);
      assert (256 * FromBigEndian(init) + last) / 256 == FromBigEndian(init);
      assert bytes == init + [last];
    }
  }

  /** A header has one reading: the accepted bytes are exactly the ones that would be written. */
  lemma HeaderCanonical(header: seq<byte>, bodyLength: nat)
    requires ParseHeader(header, bodyLength).Ok?
    ensures ValidPacket(ParseHeader(header, bodyLength).value) && bodyLength >= 16
    ensures HeaderBytes(ParseHeader(header, bodyLength).value) == header
  {
    BigEndianCanonical(header[8..12]);
    BigEndianCanonical(header[12..16]);
    BigEndianCanonical(header[16..24]);
    BigEndianCanonical(header[24..32]);
    var p := ParseHeader(header, bodyLength).value;
    HeaderSlices(p);
    SameFields(header, HeaderBytes(p));
  }

  lemma SameFields(h: seq<byte>, h': seq<byte>)
    requires |h| == |h'| == 32 && h[..4] == h'[..4] && h[4..8] == h'[4..8] && h[8..12] == h'[8..12]
    requires h[12..16] == h'[12..16] && h[16..24] == h'[16..24] && h[24..32] == h'[24..32]
    ensures h == h'
  {
    assert h == h[..4] + h[4..8] + h[8..12] + h[12..16] + h[16..24] + h[24..32];
    assert h' == h'[..4] + h'[4..8] + h'[8..12] + h'[12..16] + h'[16..24] + h'[24..32];
  }

  method PutBytes(buffer: array<byte>, at: nat, bytes: seq<byte>)
    requires at + |bytes| <= buffer.Length
    modifies buffer
    ensures buffer[..at + |bytes|] == old(buffer[..at]) + bytes
    ensures buffer[at + |bytes|..] == old(buffer[at + |bytes|..])
  {
    for i := 0 to |bytes|
      invariant buffer[..at] == old(buffer[..at])
      invariant buffer[at..at + i] == bytes[..i]
      invariant buffer[at + i..] == old(buffer[at + i..])
    {
      buffer[at + i] := bytes[i];
    }
  }

  /** Writes the next field of a header behind the ones in `start`. */
  method PutField(header: array<byte>, start: seq<byte>, field: seq<byte>, ghost rest: seq<byte>)
    requires header.Length >= HEADER_SIZE && |start| + |field| <= HEADER_SIZE
    requires header[..|start|] == start && header[HEADER_SIZE..] == rest
    modifies header
    ensures header[..|start| + |field|] == start + field && header[HEADER_SIZE..] == rest
  {
    ghost var tail := header[|start| + |field|..];
    assert rest == tail[HEADER_SIZE - |start| - |field|..];
    PutBytes(header, |start|, field);
    assert header[HEADER_SIZE..] == header[|start| + |field|..][HEADER_SIZE - |start| - |field|..];
  }

  method WriteHeader(header: array<byte>, p: Packet) returns (ok: bool)
    modifies header
    ensures ok <==>
      && header.Length >= 32 && (p.packetType == 1 || p.packetType == 2) && p.tunnelID >= 0 && p.ruleID >= 0
      && p.sessionID != 0 && p.sequence != 0
      && ((p.fragment == 0 && p.fragments == 0) || (2 <= p.fragments <= 57 && p.fragment < p.fragments))
    ensures ok ==> header[..] == HeaderBytes(p) + old(header[32..])
    ensures !ok ==> header[..] == old(header[..])
  {
    if header.Length < HEADER_SIZE || !ValidPacket(p) {
      return false;
    }
    ghost var rest := header[HEADER_SIZE..];
    PutField(header, [], MAGIC, rest);
    PutField(header, MAGIC, [VERSION, p.packetType, p.fragment, p.fragments], rest);
    var start := MAGIC + [VERSION, p.packetType, p.fragment, p.fragments];
    PutField(header, start, BigEndian(p.tunnelID, 4), rest);
    start := start + BigEndian(p.tunnelID, 4);
    PutField(header, start, BigEndian(p.ruleID, 4), rest);
    start := start + BigEndian(p.ruleID, 4);
    PutField(header, start, BigEndian(p.sessionID, 8), rest);
    start := start + BigEndian(p.sessionID, 8);
    PutField(header, start, BigEndian(p.sequence, 8), rest);
    assert header[..] == header[..HEADER_SIZE] + header[HEADER_SIZE..];
    return true;
  }

  // ---------- Nonce ----------

  function Nonce(sequence: uint64, fragment: byte): (nonce: seq<byte>)
    ensures |nonce| == 12
  {
    [0, 0, 0, fragment] + BigEndian(sequence, 8)
  }

  lemma NonceInjective(s: uint64, f: byte, s': uint64, f': byte)
    ensures Nonce(s, f) == Nonce(s', f') ==> s == s' && f == f'
  {
    if Nonce(s, f) == Nonce(s', f') {
      assert Nonce(s, f)[3] == f && Nonce(s', f')[3] == f';
      assert Nonce(s, f)[4..] == BigEndian(s, 8) && Nonce(s', f')[4..] == BigEndian(s', 8);
      FieldRoundTrip64(s);
      FieldRoundTrip64(s');
    }
  }

  /**
   Fills a nonce buffer. The first three bytes and whatever lies behind the
   twelfth stay, so that a zeroed buffer gets the nonce; a short one is left alone.
   */
  method FillNonce(nonce: array<byte>, sequence: uint64, fragment: byte)
    modifies nonce
    ensures nonce.Length < 12 ==> nonce[..] == old(nonce[..])
    ensures nonce.Length >= 12 ==> nonce[..] == old(nonce[..3]) + [fragment] + BigEndian(sequence, 8) + old(nonce[12..])
    ensures nonce.Length >= 12 && old(nonce[..3]) == [0, 0, 0] ==> nonce[..] == Nonce(sequence, fragment) + old(nonce[12..])
  {
    if nonce.Length < 12 {
      return;
    }
    nonce[3] := fragment;
    ghost var start := nonce[..4];
    PutBytes(nonce, 4, BigEndian(sequence, 8));
    assert nonce[..12] == start + BigEndian(sequence, 8);
    assert nonce[..] == nonce[..12] + nonce[12..];
  }

  // ---------- Sealing ----------

  /** The key of one session direction. Deriving it from its context is injective. */
  datatype Key = Key(secret: string, packetType: byte, tunnelID: nat, ruleID: nat, sessionID: uint64)

  datatype Body =
    | Sealed(key: Key, nonce: seq<byte>, associated: seq<byte>, plaintext: seq<byte>)
    | Forged(bytes: seq<byte>)

  function BodyLength(body: Body): nat {
    match body
    case Sealed(_, _, _, plaintext) => |plaintext| + AUTH_TAG_SIZE
    case Forged(bytes) => |bytes|
  }

  /** A datagram on the wire, split behind its 32nd byte. */
  datatype Frame = Frame(header: seq<byte>, body: Body) {
    function Length(): nat { |header| + BodyLength(body) }
  }

  datatype CodecFields = Codec(packetType: byte, tunnelID: int, ruleID: int, sessionID: uint64, secret: string) {
    predicate Valid() {
      && (packetType == TYPE_DATA || packetType == TYPE_RETURN)
      && tunnelID >= 0 && ruleID >= 0 && sessionID != 0 && secret != ""
    }

    predicate Matches(p: Packet) {
      p.packetType == packetType && p.tunnelID == tunnelID && p.ruleID == ruleID && p.sessionID == sessionID
    }

    function DerivedKey(): Key
      requires Valid()
    {
      Key(secret, packetType, tunnelID % TWO_TO_THE_32, ruleID % TWO_TO_THE_32, sessionID)
    }

    /** Both ids fit the 32-bit header fields. */
    predicate Addressable() {
      tunnelID < TWO_TO_THE_32 && ruleID < TWO_TO_THE_32
    }
  }

  /** Codecs exist only for valid contexts. */
  type Codec = c: CodecFields | c.Valid() witness Codec(1, 0, 0, 1, "k")

  function NewCodec(secret: string, p: Packet): Result<Codec, WireError> {
    if !ValidContext(p) || secret == "" then Err(BadFields)
    else Ok(Codec(p.packetType, p.tunnelID, p.ruleID, p.sessionID, secret))
  }

  function SealPacket(c: Codec, p: Packet): Result<Frame, WireError> {
    if !c.Matches(p) then Err(WrongContext)
    else if |p.payload| > MAX_SINGLE_PAYLOAD then Err(TooLarge)
    else if !ValidPacket(p) then Err(BadFields)
    else
      var header := HeaderBytes(p);
      Ok(Frame(header, Sealed(c.DerivedKey(), Nonce(p.sequence, p.fragment), header, p.payload)))
  }

  /** A codec seals the packets of its own session that are well formed and fit a datagram. */
  lemma SealsExactly(c: Codec, p: Packet)
    ensures SealPacket(c, p).Ok? <==>
      && p.packetType == c.packetType && p.tunnelID == c.tunnelID && p.ruleID == c.ruleID && p.sessionID == c.sessionID
      && p.sequence != 0 && |p.payload| <= 65459
      && ((p.fragment == 0 && p.fragments == 0) || (2 <= p.fragments <= 57 && p.fragment < p.fragments))
    ensures SealPacket(c, p).Ok? ==> SealPacket(c, p).value.Length() == |p.payload| + 48
  {}

  function Unseal(key: Key, nonce: seq<byte>, associated: seq<byte>, body: Body): Option<seq<byte>> {
    match body
    case Sealed(k, n, a, plaintext) => if k == key && n == nonce && a == associated then Some(plaintext) else None
    case Forged(_) => None
  }

  function OpenPacket(c: Codec, f: Frame): Result<Packet, WireError> {
    match ParseHeader(f.header, BodyLength(f.body))
    case Err(e) => Err(e)
    case Ok(p) =>
      if !c.Matches(p) then Err(WrongContext)
      else
        match Unseal(c.DerivedKey(), Nonce(p.sequence, p.fragment), f.header, f.body)
        case None => Err(Unauthentic)
        case Some(plaintext) => Ok(p.(payload := plaintext))
  }

  /** Opening inverts sealing exactly when both ids of the session fit the header. */
  lemma SealRoundTrip(c: Codec, p: Packet)
    requires SealPacket(c, p).Ok?
    ensures OpenPacket(c, SealPacket(c, p).value) == Ok(p) <==> c.Addressable()
    ensures !c.Addressable() ==> OpenPacket(c, SealPacket(c, p).value) == Err(WrongContext)
  {
    HeaderRoundTrip(p, |p.payload| + AUTH_TAG_SIZE);
    IdFits(c.tunnelID);
    IdFits(c.ruleID);
  }

  lemma IdFits(id: nat)
    ensures id % TWO_TO_THE_32 == id <==> id < TWO_TO_THE_32
  {}

  /** What opens is the frame this codec makes of the packet that comes out. */
  lemma OpenedWasSealed(c: Codec, f: Frame)
    requires OpenPacket(c, f).Ok?
    ensures var p := OpenPacket(c, f).value;
      && c.Matches(p) && ValidPacket(p)
      && f.header == HeaderBytes(p)
      && f.body == Sealed(c.DerivedKey(), Nonce(p.sequence, p.fragment), HeaderBytes(p), p.payload)
      && (|p.payload| <= MAX_SINGLE_PAYLOAD ==> SealPacket(c, p) == Ok(f))
  {
    HeaderCanonical(f.header, BodyLength(f.body));
    var p := ParseHeader(f.header, BodyLength(f.body)).value;
    assert HeaderBytes(p.(payload := f.body.plaintext)) == HeaderBytes(p);
  }

  // ---------- Sessions that share a key ----------

  /** The contexts agree up to multiples of 2^32 in their ids. */
  predicate Congruent(c: Codec, c': Codec) {
    && c.secret == c'.secret && c.packetType == c'.packetType && c.sessionID == c'.sessionID
    && c.tunnelID % TWO_TO_THE_32 == c'.tunnelID % TWO_TO_THE_32 && c.ruleID % TWO_TO_THE_32 == c'.ruleID % TWO_TO_THE_32
  }

  /**
   A frame opens under exactly the addressable codec congruent to the one that
   sealed it, and then carries that codec's ids.
   */
  lemma OpensAcross(sealer: Codec, p: Packet, opener: Codec)
    requires SealPacket(sealer, p).Ok?
    ensures OpenPacket(opener, SealPacket(sealer, p).value).Ok? <==> Congruent(sealer, opener) && opener.Addressable()
    ensures Congruent(sealer, opener) && opener.Addressable() ==>
      OpenPacket(opener, SealPacket(sealer, p).value) == Ok(p.(tunnelID := opener.tunnelID, ruleID := opener.ruleID))
  {
    HeaderRoundTrip(p, |p.payload| + AUTH_TAG_SIZE);
    IdFits(opener.tunnelID);
    IdFits(opener.ruleID);
  }

  /** The codec of tunnel 2^32 seals frames that it cannot open itself and that tunnel 0 opens. */
  lemma UnaddressableCodec()
    ensures var far, near := Codec(TYPE_DATA, TWO_TO_THE_32, 1, 7, "key"), Codec(TYPE_DATA, 0, 1, 7, "key");
      var p := Packet(TYPE_DATA, TWO_TO_THE_32, 1, 7, 1, 0, 0, [42]);
      && SealPacket(far, p).Ok?
      && OpenPacket(far, SealPacket(far, p).value) == Err(WrongContext)
      && OpenPacket(near, SealPacket(far, p).value) == Ok(p.(tunnelID := 0))
  {
    var far, near: Codec := Codec(TYPE_DATA, TWO_TO_THE_32, 1, 7, "key"), Codec(TYPE_DATA, 0, 1, 7, "key");
    var p := Packet(TYPE_DATA, TWO_TO_THE_32, 1, 7, 1, 0, 0, [42]);
    SealRoundTrip(far, p);
    OpensAcross(far, p, near);
  }

  /** Sealing with a codec made for the packet itself. */
  function SealWithKey(p: Packet, secret: string): Result<Frame, WireError> {
    match NewCodec(secret, p)
    case Err(e) => Err(e)
    case Ok(c) => SealPacket(c, p)
  }

  /** Opening with a codec made for the header that arrives. */
  function OpenWithKey(f: Frame, secret: string): Result<Packet, WireError> {
    match ParseHeader(f.header, BodyLength(f.body))
    case Err(e) => Err(e)
    case Ok(p) => match NewCodec(secret, p) case Err(e) => Err(e) case Ok(c) => OpenPacket(c, f)
  }

  /** The codec made for a packet and the one made for what its header carries. */
  lemma CarriedCodec(p: Packet, secret: string)
    requires NewCodec(secret, p).Ok?
    ensures NewCodec(secret, Carried(p)).Ok?
    ensures Congruent(NewCodec(secret, p).value, NewCodec(secret, Carried(p)).value) && NewCodec(secret, Carried(p)).value.Addressable()
  {
    IdFits(p.tunnelID % TWO_TO_THE_32);
    IdFits(p.ruleID % TWO_TO_THE_32);
  }

  /** With a codec made for each packet every id opens, and comes back modulo 2^32. */
  lemma KeyedRoundTrip(p: Packet, secret: string)
    requires SealWithKey(p, secret).Ok?
    ensures OpenWithKey(SealWithKey(p, secret).value, secret) == Ok(Carried(p).(payload := p.payload))
    ensures OpenWithKey(SealWithKey(p, secret).value, secret) == Ok(p) <==> p.tunnelID < TWO_TO_THE_32 && p.ruleID < TWO_TO_THE_32
  {
    var sealer := NewCodec(secret, p).value;
    var frame := SealPacket(sealer, p).value;
    HeaderRoundTrip(p, |p.payload| + AUTH_TAG_SIZE);
    IdFits(p.tunnelID);
    IdFits(p.ruleID);
    assert ParseHeader(frame.header, BodyLength(frame.body)) == Ok(Carried(p));
    CarriedCodec(p, secret);
    OpensAcross(sealer, p, NewCodec(secret, Carried(p)).value);
  }
}
