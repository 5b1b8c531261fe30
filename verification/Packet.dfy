/** The LLP packet and its codec (crates/llp-core/src/packet.rs). */
module Packet {
  import opened Bytes
  import opened Wrappers
  import opened Profiles
  import opened Buffers

  const PROTOCOL_VERSION: byte := 1
  const HEADER_SIZE := 24
  const AUTH_TAG_SIZE := 16
  const MIN_PACKET_SIZE := HEADER_SIZE + AUTH_TAG_SIZE
  const MAX_PACKET_SIZE := 65536
  const MAX_PADDING_SIZE := 1024
  const MAX_PAYLOAD_SIZE := MAX_PACKET_SIZE - MIN_PACKET_SIZE - 1024

  const FLAG_DATA: byte := 1

  type Block16 = b: bytes | |b| == 16 witness seq(16, _ => 0)

  // PacketFlags names all eight bits, so that every flag octet is valid.
  datatype PacketHeader = PacketHeader(
    version: byte, flags: byte, payloadLength: u16, sessionId: u64,
    sequenceNumber: u32, timestamp: u32, profile: MimicryProfile, paddingLength: u16)

  datatype LlpPacket = LlpPacket(header: PacketHeader, payload: bytes, padding: bytes, authTag: Block16) {
    function TotalSize(): nat {
      HEADER_SIZE + |payload| + |padding| + AUTH_TAG_SIZE
    }

    /** The header as serialization writes it: lengths filled in and cast to u16. */
    function FilledHeader(): PacketHeader {
      header.(payloadLength := |payload| % 0x1_0000, paddingLength := |padding| % 0x1_0000)
    }
  }

  datatype PacketError =
    | InsufficientData(required: nat, available: nat)
    | InvalidPacketSize(expected: nat, actual: nat)
    | PacketTooLarge(size: nat)
    | UnsupportedVersion(version: byte)
    | UnsupportedMimicryProfile(id: u16)
    | InvalidPaddingSize(size: nat)

  function New(header: PacketHeader, payload: bytes, padding: bytes, authTag: Block16): Result<LlpPacket, PacketError> {
    if |payload| > MAX_PAYLOAD_SIZE then Failure(PacketTooLarge(|payload|))
    else if |padding| > MAX_PADDING_SIZE then Failure(InvalidPaddingSize(|padding|))
    else Success(LlpPacket(header, payload, padding, authTag))
  }

  function HeaderBytes(h: PacketHeader): (b: bytes)
    ensures |b| == HEADER_SIZE
  {
    [h.version] + [h.flags] + BigEndian(2, h.payloadLength) + BigEndian(8, h.sessionId)
    + BigEndian(4, h.sequenceNumber) + BigEndian(4, h.timestamp)
    + BigEndian(2, h.profile.ToU16()) + BigEndian(2, h.paddingLength)
  }

  function PacketBytes(p: LlpPacket): bytes {
    HeaderBytes(p.FilledHeader()) + p.payload + p.padding + p.authTag
  }

  function Uint(d: bytes, from: nat, to: nat): (v: nat)
    requires from <= to <= |d|
    ensures v < Span(to - from)
  {
    FromBigEndian(d[from..to])
  }

  function ParseHeader(d: bytes): Result<PacketHeader, PacketError> {
    SpanValues();
    if |d| < HEADER_SIZE then Failure(InsufficientData(HEADER_SIZE, |d|))
    else if d[0] != PROTOCOL_VERSION then Failure(UnsupportedVersion(d[0]))
    else match FromU16(Uint(d, 20, 22))
      case None => Failure(UnsupportedMimicryProfile(Uint(d, 20, 22)))
      case Some(profile) =>
        if Uint(d, 22, 24) > MAX_PADDING_SIZE then Failure(InvalidPaddingSize(Uint(d, 22, 24)))
        else Success(PacketHeader(d[0], d[1], Uint(d, 2, 4), Uint(d, 4, 12), Uint(d, 12, 16),
                                  Uint(d, 16, 20), profile, Uint(d, 22, 24)))
  }

  function ParsePacket(d: bytes): Result<LlpPacket, PacketError> {
    if |d| < MIN_PACKET_SIZE then Failure(InvalidPacketSize(MIN_PACKET_SIZE, |d|))
    else match ParseHeader(d)
      case Failure(e) => Failure(e)
      case Success(h) =>
        var size := MIN_PACKET_SIZE + h.payloadLength + h.paddingLength;
        if |d| != size then Failure(InvalidPacketSize(size, |d|))
        else
          var body := HEADER_SIZE + h.payloadLength;
          Success(LlpPacket(h, d[HEADER_SIZE..body], d[body..body + h.paddingLength],
                            d[body + h.paddingLength..size]))
  }

  lemma Limits()
    ensures PROTOCOL_VERSION == 1 && FLAG_DATA == 1 && HEADER_SIZE == 24 && AUTH_TAG_SIZE == 16
    ensures MAX_PACKET_SIZE == 65536 && MAX_PADDING_SIZE == 1024 && MAX_PAYLOAD_SIZE == 64472
  {
  }

  /** Which packets can be built, and why the others cannot. */
  lemma NewExactly(header: PacketHeader, payload: bytes, padding: bytes, authTag: Block16)
    ensures New(header, payload, padding, authTag) ==
            if |payload| > 64472 then Failure(PacketTooLarge(|payload|))
            else if |padding| > 1024 then Failure(InvalidPaddingSize(|padding|))
            else Success(LlpPacket(header, payload, padding, authTag))
  {
  }

  /** Which octets of a header hold which field. */
  lemma HeaderLayout(h: PacketHeader)
    ensures var d := HeaderBytes(h);
            && |d| == 24 && d[0] == h.version && d[1] == h.flags
            && d[2..4] == BigEndian(2, h.payloadLength) && d[4..12] == BigEndian(8, h.sessionId)
            && d[12..16] == BigEndian(4, h.sequenceNumber) && d[16..20] == BigEndian(4, h.timestamp)
            && d[20..22] == BigEndian(2, h.profile.ToU16()) && d[22..24] == BigEndian(2, h.paddingLength)
  {
  }

  /** Which octets of a packet hold which part. */
  lemma PacketLayout(p: LlpPacket)
    ensures var d, padded := PacketBytes(p), 24 + |p.payload|;
            && |d| == padded + |p.padding| + 16
            && d[2..4] == BigEndian(2, |p.payload| % 0x1_0000) && d[22..24] == BigEndian(2, |p.padding| % 0x1_0000)
            && d[24..padded] == p.payload && d[padded..padded + |p.padding|] == p.padding
            && d[padded + |p.padding|..] == p.authTag
  {
    HeaderLayout(p.FilledHeader());
    Parts(HeaderBytes(p.FilledHeader()), p.payload, p.padding, p.authTag);
    var d := PacketBytes(p);
    assert d[..24] == HeaderBytes(p.FilledHeader());
    assert d[2..4] == d[..24][2..4] && d[22..24] == d[..24][22..24];
  }

  /** What becomes of any input, told from its octets. */
  lemma ParsesExactly(d: bytes)
    ensures |d| < 40 ==> ParsePacket(d) == Failure(InvalidPacketSize(40, |d|))
    ensures |d| >= 40 && d[0] != 1 ==> ParsePacket(d) == Failure(UnsupportedVersion(d[0]))
    ensures |d| >= 40 && d[0] == 1 ==>
              var profile := 256 * d[20] as int + d[21];
              var padding := 256 * d[22] as int + d[23];
              var size := 40 + 256 * d[2] as int + d[3] + padding;
              if profile > 3 then ParsePacket(d) == Failure(UnsupportedMimicryProfile(profile))
              else if padding > 1024 then ParsePacket(d) == Failure(InvalidPaddingSize(padding))
              else if |d| != size then ParsePacket(d) == Failure(InvalidPacketSize(size, |d|))
              else ParsePacket(d).Success?
  {
    SpanValues();
    if |d| >= 40 {
      assert d[20..22] == [d[20], d[21]] && d[22..24] == [d[22], d[23]] && d[2..4] == [d[2], d[3]];
      TwoOctets(d[20], d[21]);
      TwoOctets(d[22], d[23]);
      TwoOctets(d[2], d[3]);
    }
  }

  lemma Grow(start: bytes, b: bytes, more: bytes) returns (c: bytes)
    ensures c == b + more && start + b + more == start + c
  {
    c := b + more;
    assert start + b + more == start + c;
  }

  method SerializeHeader(h: PacketHeader, buf: BytesMut)
    modifies buf
    ensures buf.data == old(buf.data) + HeaderBytes(h)
  {
    ghost var start, b := buf.data, [h.version];
    buf.Put([h.version]);
    buf.Put([h.flags]);
    b := Grow(start, b, [h.flags]);
    buf.PutUint(2, h.payloadLength);
    b := Grow(start, b, BigEndian(2, h.payloadLength));
    buf.PutUint(8, h.sessionId);
    b := Grow(start, b, BigEndian(8, h.sessionId));
    buf.PutUint(4, h.sequenceNumber);
    b := Grow(start, b, BigEndian(4, h.sequenceNumber));
    buf.PutUint(4, h.timestamp);
    b := Grow(start, b, BigEndian(4, h.timestamp));
    buf.PutUint(2, h.profile.ToU16());
    b := Grow(start, b, BigEndian(2, h.profile.ToU16()));
    buf.PutUint(2, h.paddingLength);
    b := Grow(start, b, BigEndian(2, h.paddingLength));
  }

  method DeserializeHeader(cursor: Cursor) returns (r: Result<PacketHeader, PacketError>)
    requires cursor.pos == 0
    modifies cursor
    ensures r == ParseHeader(cursor.data)
    ensures r.Success? ==> cursor.pos == HEADER_SIZE
  {
    SpanValues();
    ghost var d := cursor.data;
    if |cursor.data| < HEADER_SIZE {
      return Failure(InsufficientData(HEADER_SIZE, |cursor.data|));
    }
    assert FromBigEndian(d[0..1]) == d[0] && FromBigEndian(d[1..2]) == d[1] by {
      assert d[0..1] == [d[0]] && d[1..2] == [d[1]];
    }
    var version := cursor.GetUint(1);
    if version != PROTOCOL_VERSION {
      return Failure(UnsupportedVersion(version));
    }
    var flags := cursor.GetUint(1);
    var payloadLength := cursor.GetUint(2);
    var sessionId := cursor.GetUint(8);
    var sequenceNumber := cursor.GetUint(4);
    var timestamp := cursor.GetUint(4);
    var profileId := cursor.GetUint(2);
    var profile := FromU16(profileId);
    if profile.None? {
      return Failure(UnsupportedMimicryProfile(profileId));
    }
    var paddingLength := cursor.GetUint(2);
    if paddingLength > MAX_PADDING_SIZE {
      return Failure(InvalidPaddingSize(paddingLength));
    }
    return Success(PacketHeader(version, flags, payloadLength, sessionId, sequenceNumber,
                                timestamp, profile.value, paddingLength));
  }

  method Serialize(p: LlpPacket) returns (r: Result<bytes, PacketError>)
    ensures p.TotalSize() > MAX_PACKET_SIZE ==> r == Failure(PacketTooLarge(p.TotalSize()))
    ensures p.TotalSize() <= MAX_PACKET_SIZE ==> r == Success(PacketBytes(p))
  {
    if p.TotalSize() > MAX_PACKET_SIZE {
      return Failure(PacketTooLarge(p.TotalSize()));
    }
    var buf := new BytesMut();
    var header := p.header.(payloadLength := |p.payload| % 0x1_0000, paddingLength := |p.padding| % 0x1_0000);
    SerializeHeader(header, buf);
    assert buf.data == HeaderBytes(p.FilledHeader());
    buf.Put(p.payload);
    buf.Put(p.padding);
    buf.Put(p.authTag);
    return Success(buf.data);
  }

  method Deserialize(data: bytes) returns (r: Result<LlpPacket, PacketError>)
    ensures r == ParsePacket(data)
  {
    if |data| < MIN_PACKET_SIZE {
      return Failure(InvalidPacketSize(MIN_PACKET_SIZE, |data|));
    }
    var cursor := new Cursor(data);
    var parsed := DeserializeHeader(cursor);
    if parsed.Failure? {
      return Failure(parsed.error);
    }
    var header := parsed.value;
    var expected := HEADER_SIZE + header.payloadLength + header.paddingLength + AUTH_TAG_SIZE;
    if |data| != expected {
      return Failure(InvalidPacketSize(expected, |data|));
    }
    var payload := cursor.Take(header.payloadLength);
    var padding := cursor.Take(header.paddingLength);
    var authTag := cursor.Take(AUTH_TAG_SIZE);
    return Success(LlpPacket(header, payload, padding, authTag));
  }

  /** Serialized headers parse back, whatever follows, exactly when their version
      and padding length are acceptable, and are refused otherwise. */
  lemma HeaderRoundTrip(h: PacketHeader, rest: bytes)
    ensures ParseHeader(HeaderBytes(h) + rest) == Success(h)
            <==> h.version == PROTOCOL_VERSION && h.paddingLength <= MAX_PADDING_SIZE
    ensures ParseHeader(HeaderBytes(h) + rest).Success?
            <==> h.version == PROTOCOL_VERSION && h.paddingLength <= MAX_PADDING_SIZE
  {
    SpanValues();
    var d := HeaderBytes(h) + rest;
    assert d[2..4] == BigEndian(2, h.payloadLength);
    assert d[4..12] == BigEndian(8, h.sessionId);
    assert d[12..16] == BigEndian(4, h.sequenceNumber);
    assert d[16..20] == BigEndian(4, h.timestamp);
    assert d[20..22] == BigEndian(2, h.profile.ToU16());
    assert d[22..24] == BigEndian(2, h.paddingLength);
    BigEndianRoundTrip(2, h.payloadLength);
    BigEndianRoundTrip(8, h.sessionId);
    BigEndianRoundTrip(4, h.sequenceNumber);
    BigEndianRoundTrip(4, h.timestamp);
    BigEndianRoundTrip(2, h.profile.ToU16());
    BigEndianRoundTrip(2, h.paddingLength);
  }

  /** A parsed header serializes to the octets it was parsed from. */
  lemma HeaderIsCanonical(d: bytes)
    requires ParseHeader(d).Success?
    ensures HeaderBytes(ParseHeader(d).value) == d[..HEADER_SIZE]
  {
    BigEndianOfValue(d[2..4]);
    BigEndianOfValue(d[4..12]);
    BigEndianOfValue(d[12..16]);
    BigEndianOfValue(d[16..20]);
    BigEndianOfValue(d[20..22]);
    BigEndianOfValue(d[22..24]);
  }

  /** Packets that `new` builds always serialize, no u16 cast loses anything, and
      the size bound is attained. */
  lemma NewPacketsFit(header: PacketHeader, payload: bytes, padding: bytes, authTag: Block16)
    requires New(header, payload, padding, authTag).Success?
    ensures var p := New(header, payload, padding, authTag).value;
            && p.TotalSize() <= MAX_PACKET_SIZE
            && p.FilledHeader().payloadLength == |payload| && p.FilledHeader().paddingLength == |padding|
            && (p.TotalSize() == MAX_PACKET_SIZE <==> |payload| == MAX_PAYLOAD_SIZE && |padding| == MAX_PADDING_SIZE)
  {
  }

  lemma Parts(a: bytes, b: bytes, c: bytes, e: bytes)
    ensures var d := a + b + c + e;
            var i, j, k := |a|, |a| + |b|, |a| + |b| + |c|;
            && d == a + (b + c + e) && |d| == k + |e|
            && d[i..j] == b && d[j..k] == c && d[k..|d|] == e
  {
  }

  lemma Whole(d: bytes, p: LlpPacket)
    requires |d| == p.TotalSize() && HeaderBytes(p.header) == d[..HEADER_SIZE]
    requires p.header.payloadLength == |p.payload| && p.header.paddingLength == |p.padding|
    requires var body := HEADER_SIZE + |p.payload|;
             p.payload == d[HEADER_SIZE..body] && p.padding == d[body..body + |p.padding|]
             && p.authTag == d[body + |p.padding|..|d|]
    ensures p.FilledHeader() == p.header && PacketBytes(p) == d
  {
  }

  lemma BodyParses(header: bytes, h: PacketHeader, payload: bytes, padding: bytes, authTag: Block16)
    requires |header| == HEADER_SIZE && h.payloadLength == |payload| && h.paddingLength == |padding|
    ensures ParsePacket(header + payload + padding + authTag) == Success(LlpPacket(h, payload, padding, authTag))
            <==> ParseHeader(header + payload + padding + authTag) == Success(h)
  {
    Parts(header, payload, padding, authTag);
  }

  lemma ParsedLengthsAreReal(d: bytes)
    requires ParsePacket(d).Success?
    ensures var p := ParsePacket(d).value;
            p.header.payloadLength == |p.payload| && p.header.paddingLength == |p.padding|
  {
  }

  lemma UntruncatedRoundTrip(p: LlpPacket, h: PacketHeader)
    requires h == p.FilledHeader() && h.payloadLength == |p.payload| && h.paddingLength == |p.padding|
    ensures ParsePacket(PacketBytes(p)) == Success(p.(header := h))
            <==> h.version == PROTOCOL_VERSION && |p.padding| <= MAX_PADDING_SIZE
    ensures ParsePacket(PacketBytes(p)).Failure?
            <==> h.version != PROTOCOL_VERSION || |p.padding| > MAX_PADDING_SIZE
  {
    var header, body := HeaderBytes(h), p.payload + p.padding + p.authTag;
    HeaderRoundTrip(h, body);
    assert header + body == header + p.payload + p.padding + p.authTag;
    BodyParses(header, h, p.payload, p.padding, p.authTag);
  }

  /** Parsing undoes serialization, up to the filled-in lengths, exactly for
      version-1 packets with acceptable padding and a payload whose length fits. */
  lemma PacketRoundTrip(p: LlpPacket)
    ensures ParsePacket(PacketBytes(p)) == Success(p.(header := p.FilledHeader()))
            <==> p.header.version == PROTOCOL_VERSION && |p.payload| < 0x1_0000 && |p.padding| <= MAX_PADDING_SIZE
  {
    if |p.payload| < 0x1_0000 && |p.padding| < 0x1_0000 {
      UntruncatedRoundTrip(p, p.FilledHeader());
    } else if ParsePacket(PacketBytes(p)).Success? {
      ParsedLengthsAreReal(PacketBytes(p));
    }
  }

  /** Of the packets that serialize, those of another version or with more than 1024
      octets of padding are refused when parsed. */
  lemma SerializedPacketsParse(p: LlpPacket)
    requires p.TotalSize() <= MAX_PACKET_SIZE
    ensures ParsePacket(PacketBytes(p)) == Success(p.(header := p.FilledHeader()))
            <==> p.header.version == PROTOCOL_VERSION && |p.padding| <= MAX_PADDING_SIZE
    ensures ParsePacket(PacketBytes(p)).Failure?
            <==> p.header.version != PROTOCOL_VERSION || |p.padding| > MAX_PADDING_SIZE
  {
    UntruncatedRoundTrip(p, p.FilledHeader());
  }

  /** Such packets can be built, since the fields are public: this one has 1025 octets
      of padding. */
  lemma LongPaddingIsLost(header: PacketHeader, authTag: Block16)
    requires header.version == PROTOCOL_VERSION
    ensures var p := LlpPacket(header, [], seq(1025, _ => 0), authTag);
            p.TotalSize() <= MAX_PACKET_SIZE && ParsePacket(PacketBytes(p)).Failure?
  {
    SerializedPacketsParse(LlpPacket(header, [], seq(1025, _ => 0), authTag));
  }

  /** Serialization undoes parsing for accepted inputs of at most 65536 octets;
      longer accepted inputs are refused when serialized again. */
  lemma PacketIsCanonical(d: bytes)
    requires ParsePacket(d).Success?
    ensures var p := ParsePacket(d).value;
            && PacketBytes(p) == d && p.FilledHeader() == p.header
            && (p.TotalSize() <= MAX_PACKET_SIZE <==> |d| <= MAX_PACKET_SIZE)
  {
    HeaderIsCanonical(d);
    Whole(d, ParsePacket(d).value);
  }

  /** Longer inputs are indeed accepted. */
  lemma LongPacketsAreAccepted(header: PacketHeader, authTag: Block16)
    requires header.version == PROTOCOL_VERSION
    ensures exists d: bytes :: |d| > MAX_PACKET_SIZE && ParsePacket(d).Success?
  {
    var p := LlpPacket(header, seq(0xFFFF, _ => 0), [], authTag);
    PacketRoundTrip(p);
    assert |PacketBytes(p)| > MAX_PACKET_SIZE;
  }
}
