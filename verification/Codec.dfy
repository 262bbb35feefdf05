/** The authenticated frame codec: a 65-byte big-endian header as associated data, then the sealed payload. */
module Codecs {
  import opened Common
  import opened Struct
  import opened Frames

  const MAGIC: Bytes := [72, 51, 84, 78]
  const VERSION: byte := 3

  /** The AEAD cipher under the shared key and the keyed prefix hash of the nonce. */
  datatype Suite = Suite(
    seal: (Bytes, Bytes, Bytes) -> Bytes,
    open: (Bytes, Bytes, Bytes) -> Option<Bytes>,
    prefix: Bytes -> Bytes)

  /** Deterministic authenticated encryption with a 16-byte tag; opening accepts exactly what sealing made. */
  ghost predicate Lawful(s: Suite) {
    && (forall n, p, a :: |s.seal(n, p, a)| == |p| + AEAD_TAG_SIZE)
    && (forall n, p, a :: s.open(n, s.seal(n, p, a), a) == Some(p))
    && (forall n, c, a :: s.open(n, c, a).Some? ==> c == s.seal(n, s.open(n, c, a).value, a))
    && (forall x :: |s.prefix(x)| == 4)
  }

  /** Sealing with an empty tag: no protection, but it shows that the laws can be met. */
  function PlainSuite(): Suite {
    var tag := seq(AEAD_TAG_SIZE, _ => 0);
    Suite((n, p, a) => p + tag,
          (n, c: Bytes, a) => if |c| >= AEAD_TAG_SIZE && c[|c| - AEAD_TAG_SIZE..] == tag then Some(c[..|c| - AEAD_TAG_SIZE]) else None,
          x => [0, 0, 0, 0])
  }

  lemma LawsCanBeMet()
    ensures Lawful(PlainSuite())
  {
    var s := PlainSuite();
    forall n, p: Bytes, a
      ensures s.open(n, s.seal(n, p, a), a) == Some(p)
    {
      assert s.seal(n, p, a)[..|p|] == p;
    }
    forall n, c: Bytes, a | s.open(n, c, a).Some?
      ensures c == s.seal(n, s.open(n, c, a).value, a)
    {
      assert c == c[..|c| - AEAD_TAG_SIZE] + c[|c| - AEAD_TAG_SIZE..];
    }
  }

  datatype Codec = Codec(suite: Suite, tunnelId: Bytes, session: int, skew: nat) {
    ghost predicate Valid() {
      Lawful(suite) && |tunnelId| == 16 && 0 <= session < 0x1_0000_0000_0000_0000
    }
  }

  /** The arguments of one encode call. */
  datatype Request = Request(
    kind: int,
    sequence: int,
    payload: Bytes,
    timestamp: int,
    messageId: int,
    messageLen: Option<int>,
    index: int,
    count: int,
    flags: int)

  datatype EncodeError =
    | UnknownKind | UnknownFlags | FragmentTooLong | BadMessageId | MessageTooLong
    | BadCount | BadParityIndex | BadIndex | ControlFragmented | OutOfRange | NotAnAck

  datatype DecodeError =
    | TooShort | BadMagic | WrongTunnel | BadKind | BadFlags | BadPayloadLength | LengthMismatch
    | BadMessageLength | BadFragmentCount | BadParityMetadata | BadFragmentMetadata | BadControl
    | AuthenticationFailed | PlaintextMismatch | Skewed | BadAck

  predicate Fits64(n: int) {
    0 <= n < 0x1_0000_0000_0000_0000
  }

  const WIDTHS: seq<nat> := [4, 1, 1, 1, 16, 8, 8, 8, 8, 4, 2, 2, 2]

  /** The thirteen header fields of a frame whose payload has `length` bytes. */
  function HeaderFields(f: Frame, length: nat): seq<Bytes>
    requires 0 <= f.kind < 256 && 0 <= f.flags < 256 && f.session >= 0 && f.sequence >= 0 && f.timestamp >= 0
    requires f.messageId >= 0 && f.messageLen >= 0 && f.index >= 0 && f.count >= 0
  {
    [MAGIC, [VERSION], [f.kind], [f.flags], f.tunnelId,
     BE(f.session, 8), BE(f.sequence, 8), BE(f.timestamp, 8), BE(f.messageId, 8),
     BE(f.messageLen, 4), BE(f.index, 2), BE(f.count, 2), BE(length, 2)]
  }

  /** The nonce: a short hash of the context, then the sequence number in full. */
  function Nonce(suite: Suite, session: int, sequence: int, kind: int, flags: int, index: int): Bytes
    requires session >= 0 && sequence >= 0 && 0 <= kind < 256 && 0 <= flags < 256 && index >= 0
  {
    suite.prefix(Pack([BE(session, 8), [kind], [flags], BE(index, 2)])) + BE(sequence, 8)
  }

  /** The frame an encode call describes. */
  function Described(c: Codec, r: Request): Frame {
    var length := if r.messageLen.Some? then r.messageLen.value else |r.payload|;
    Frame(r.kind, r.flags, c.tunnelId, c.session, r.sequence, r.timestamp, r.messageId, length, r.index, r.count, r.payload)
  }

  function EncodeGuards(f: Frame): Result<(), EncodeError> {
    if !(DATA_UP <= f.kind <= ACK_DOWN) then Err(UnknownKind)
    else if f.flags != 0 && f.flags != FLAG_PARITY then Err(UnknownFlags)
    else if |f.payload| > MAX_FRAGMENT_PAYLOAD then Err(FragmentTooLong)
    else if !Fits64(f.messageId) then Err(BadMessageId)
    else if !(0 <= f.messageLen <= MAX_MESSAGE_SIZE) then Err(MessageTooLong)
    else if !(1 <= f.count <= MAX_FRAGMENTS) then Err(BadCount)
    else if f.IsParity() && (f.count < 2 || f.index != f.count) then Err(BadParityIndex)
    else if !f.IsParity() && !(0 <= f.index < f.count) then Err(BadIndex)
    else if !f.IsData() && (f.flags != 0 || f.messageId != 0 || f.index != 0 || f.count != 1 || f.messageLen != |f.payload|) then
      Err(ControlFragmented)
    else if !Fits64(f.session) || !Fits64(f.sequence) || !Fits64(f.timestamp) then Err(OutOfRange)
    else Ok(())
  }

  /** Header and sealed payload of a frame that has passed the guards. */
  function Seal(s: Suite, f: Frame): Bytes
    requires EncodeGuards(f).Ok?
  {
    var aad := Pack(HeaderFields(f, |f.payload|));
    aad + s.seal(Nonce(s, f.session, f.sequence, f.kind, f.flags, f.index), f.payload, aad)
  }

  function Encode(c: Codec, r: Request): Result<Bytes, EncodeError> {
    var f := Described(c, r);
    match EncodeGuards(f)
    case Err(e) => Err(e)
    case Ok(_) => Ok(Seal(c.suite, f))
  }

  /** The frame a header describes, before its payload is known. */
  function ReadHeader(packet: Bytes): (Frame, nat)
    requires |packet| >= HEADER_SIZE
  {
    assert Total(WIDTHS) == HEADER_SIZE by {
      WidthsTotal();
    }
    var h := Unpack(WIDTHS, packet);
    (Frame(h[2][0], h[3][0], h[4], FromBE(h[5]), FromBE(h[6]), FromBE(h[7]), FromBE(h[8]),
           FromBE(h[9]), FromBE(h[10]), FromBE(h[11]), []),
     FromBE(h[12]))
  }

  predicate GoodMagic(packet: Bytes)
    requires |packet| >= HEADER_SIZE
  {
    packet[..4] == MAGIC && packet[4] == VERSION
  }

  function Decode(c: Codec, packet: Bytes, now: int): Result<Frame, DecodeError> {
    if |packet| < FRAME_OVERHEAD then Err(TooShort)
    else
      var (f, length) := ReadHeader(packet);
      if !GoodMagic(packet) then Err(BadMagic)
      else if f.tunnelId != c.tunnelId then Err(WrongTunnel)
      else if !(DATA_UP <= f.kind <= ACK_DOWN) then Err(BadKind)
      else if f.flags != 0 && f.flags != FLAG_PARITY then Err(BadFlags)
      else if length > MAX_FRAGMENT_PAYLOAD then Err(BadPayloadLength)
      else if |packet| != HEADER_SIZE + length + AEAD_TAG_SIZE then Err(LengthMismatch)
      else if f.messageLen > MAX_MESSAGE_SIZE then Err(BadMessageLength)
      else if !(1 <= f.count <= MAX_FRAGMENTS) then Err(BadFragmentCount)
      else if f.IsParity() && (f.count < 2 || f.index != f.count) then Err(BadParityMetadata)
      else if !f.IsParity() && f.index >= f.count then Err(BadFragmentMetadata)
      else if !f.IsData() && (f.flags != 0 || f.messageId != 0 || f.index != 0 || f.count != 1 || f.messageLen != length) then
        Err(BadControl)
      else
        var aad, sealed := packet[..HEADER_SIZE], packet[HEADER_SIZE..];
        var plain := c.suite.open(Nonce(c.suite, f.session, f.sequence, f.kind, f.flags, f.index), sealed, aad);
        if plain.None? then Err(AuthenticationFailed)
        else if |plain.value| != length then Err(PlaintextMismatch)
        else if now - f.timestamp > c.skew || f.timestamp - now > c.skew then Err(Skewed)
        else Ok(f.(payload := plain.value))
  }

  function EncodeAck(c: Codec, kind: int, sequence: int, timestamp: int, session: int, messageId: int): Result<Bytes, EncodeError> {
    if kind != ACK_UP && kind != ACK_DOWN then Err(NotAnAck)
    else if !Fits64(session) || !Fits64(messageId) then Err(OutOfRange)
    else Encode(c, AckRequest(kind, sequence, timestamp, session, messageId))
  }

  function AckRequest(kind: int, sequence: int, timestamp: int, session: nat, messageId: nat): Request {
    Request(kind, sequence, Pack([BE(session, 8), BE(messageId, 8)]), timestamp, 0, None, 0, 1, 0)
  }

  function DecodeAck(f: Frame): Result<(int, int), DecodeError> {
    if (f.kind != ACK_UP && f.kind != ACK_DOWN) || |f.payload| != 16 then Err(BadAck)
    else Ok((FromBE(f.payload[..8]), FromBE(f.payload[8..])))
  }

  /** A request is encoded exactly when its frame is well formed and its numbers fit 64 bits. */
  lemma EncodesExactly(c: Codec, r: Request)
    requires c.Valid()
    ensures Encode(c, r).Ok? <==> Described(c, r).WellFormed() && Fits64(r.sequence) && Fits64(r.timestamp)
    ensures r.messageLen == None ==> Described(c, r).messageLen == |r.payload|
  {
    hide Seal, Lawful;
  }

  // ------------------------------------------------------------------------------- the round trips

  lemma WidthsTotal()
    ensures Total(WIDTHS) == HEADER_SIZE
  {
    TotalStep(2, []);
    TotalStep(2, [2]);
    TotalStep(2, [2, 2]);
    TotalStep(4, [2, 2, 2]);
    TotalStep(8, [4, 2, 2, 2]);
    TotalStep(8, [8, 4, 2, 2, 2]);
    TotalStep(8, [8, 8, 4, 2, 2, 2]);
    TotalStep(8, [8, 8, 8, 4, 2, 2, 2]);
    TotalStep(16, [8, 8, 8, 8, 4, 2, 2, 2]);
    TotalStep(1, [16, 8, 8, 8, 8, 4, 2, 2, 2]);
    TotalStep(1, [1, 16, 8, 8, 8, 8, 4, 2, 2, 2]);
    TotalStep(1, [1, 1, 16, 8, 8, 8, 8, 4, 2, 2, 2]);
    TotalStep(4, [1, 1, 1, 16, 8, 8, 8, 8, 4, 2, 2, 2]);
  }

  lemma TotalStep(w: nat, rest: seq<nat>)
    ensures Total([w] + rest) == w + Total(rest)
  {
    assert ([w] + rest)[1..] == rest;
  }

  /** Reading back a written header gives the frame's fields and the payload length. */
  lemma HeaderRead(f: Frame, rest: Bytes)
    requires EncodeGuards(f).Ok? && |f.tunnelId| == 16
    ensures var packet := Pack(HeaderFields(f, |f.payload|)) + rest;
            && |Pack(HeaderFields(f, |f.payload|))| == HEADER_SIZE
            && ReadHeader(packet) == (f.(payload := []), |f.payload|)
            && GoodMagic(packet)
  {
    hide Pack, Unpack, Total, BE, FromBE, Pow256, GoodMagic;
    var fields := HeaderFields(f, |f.payload|);
    WidthsTotal();
    UnpackPack(fields, WIDTHS, rest);
    Powers();
    ReadWritten(f.session, 8);
    ReadWritten(f.sequence, 8);
    ReadWritten(f.timestamp, 8);
    ReadWritten(f.messageId, 8);
    ReadWritten(f.messageLen, 4);
    ReadWritten(f.index, 2);
    ReadWritten(f.count, 2);
    ReadWritten(|f.payload|, 2);
    MagicFirst(fields, rest);
  }

  lemma MagicFirst(fields: seq<Bytes>, rest: Bytes)
    requires |fields| >= 2 && fields[0] == MAGIC && fields[1] == [VERSION]
    ensures |Pack(fields)| >= 5
    ensures |Pack(fields)| >= HEADER_SIZE ==> GoodMagic(Pack(fields) + rest)
  {
    assert Pack(fields) == MAGIC + ([VERSION] + Pack(fields[1..][1..]));
  }

  /** Decoding undoes encoding: for every request that passes the guards, a receiver with the same key
      and tunnel gets exactly the described frame while the clocks agree, and only a skew error when not. */
  lemma DecodeEncode(c: Codec, d: Codec, r: Request, now: int)
    requires c.Valid() && d.Valid() && d.suite == c.suite && d.tunnelId == c.tunnelId
    requires Encode(c, r).Ok?
    ensures var f := Described(c, r);
            Decode(d, Encode(c, r).value, now)
            == if now - f.timestamp > d.skew || f.timestamp - now > d.skew then Err(Skewed) else Ok(f)
    ensures Described(c, r).WellFormed()
  {
    DecodeSeal(d, Described(c, r), now);
  }

  lemma DecodeSeal(d: Codec, f: Frame, now: int)
    requires d.Valid() && f.tunnelId == d.tunnelId && EncodeGuards(f).Ok?
    ensures Decode(d, Seal(d.suite, f), now)
            == if now - f.timestamp > d.skew || f.timestamp - now > d.skew then Err(Skewed) else Ok(f)
    ensures |Seal(d.suite, f)| == FRAME_OVERHEAD + |f.payload|
  {
    hide Pack, HeaderFields, ReadHeader, GoodMagic, Nonce;
    var aad := Pack(HeaderFields(f, |f.payload|));
    var nonce := Nonce(d.suite, f.session, f.sequence, f.kind, f.flags, f.index);
    var sealed := d.suite.seal(nonce, f.payload, aad);
    HeaderRead(f, sealed);
    var packet := aad + sealed;
    assert packet[..HEADER_SIZE] == aad && packet[HEADER_SIZE..] == sealed;
  }

  /** A header that was read and passed the checks is the header written for the frame read. */
  lemma HeaderWritten(packet: Bytes)
    requires |packet| >= HEADER_SIZE && GoodMagic(packet)
    ensures var (f, length) := ReadHeader(packet);
            && Pack(HeaderFields(f, length)) == packet[..HEADER_SIZE]
            && Fits64(f.session) && Fits64(f.sequence) && Fits64(f.timestamp) && Fits64(f.messageId)
            && |f.tunnelId| == 16 && f.payload == [] && f.messageLen >= 0 && f.index >= 0
  {
    hide Pack, Unpack, Total, BE, FromBE, Pow256, GoodMagic;
    WidthsTotal();
    var h := Unpack(WIDTHS, packet);
    PackUnpack(WIDTHS, packet);
    Powers();
    forall i | 5 <= i < 13
      ensures BE(FromBE(h[i]), WIDTHS[i]) == h[i] && FromBE(h[i]) < Pow256(WIDTHS[i])
    {
      WrittenRead(h[i]);
      FromBEBound(h[i]);
    }
    MagicFields(packet);
    var (f, length) := ReadHeader(packet);
    assert h[2] == [f.kind] && h[3] == [f.flags];
    assert HeaderFields(f, length) == h;
  }

  lemma MagicFields(packet: Bytes)
    requires |packet| >= Total(WIDTHS) == HEADER_SIZE && GoodMagic(packet)
    ensures Unpack(WIDTHS, packet)[0] == MAGIC && Unpack(WIDTHS, packet)[1] == [VERSION]
  {
    assert WIDTHS[1..][0] == 1;
    assert Unpack(WIDTHS, packet)[1] == packet[4..][..1];
  }

  /** Re-encoding the fields of an accepted frame, under its own session, gives the same packet. */
  lemma EncodeDecode(d: Codec, packet: Bytes, now: int)
    requires d.Valid() && Decode(d, packet, now).Ok?
    ensures var f := Decode(d, packet, now).value;
            && f.WellFormed() && f.tunnelId == d.tunnelId
            && EncodeGuards(f).Ok? && packet == Seal(d.suite, f)
            && -(d.skew as int) <= now - f.timestamp <= d.skew
  {
    hide Pack, HeaderFields, ReadHeader, GoodMagic, Nonce;
    HeaderWritten(packet);
    var (h, length) := ReadHeader(packet);
    var f := Decode(d, packet, now).value;
    assert f == h.(payload := f.payload) && |f.payload| == length;
    SameHeader(h, f);
    assert packet == packet[..HEADER_SIZE] + packet[HEADER_SIZE..];
  }

  lemma SameHeader(h: Frame, f: Frame)
    requires f == h.(payload := f.payload) && EncodeGuards(f).Ok?
    ensures HeaderFields(h, |f.payload|) == HeaderFields(f, |f.payload|)
  {
  }

  function RequestOf(f: Frame): Request {
    Request(f.kind, f.sequence, f.payload, f.timestamp, f.messageId, Some(f.messageLen), f.index, f.count, f.flags)
  }

  /** A packet is accepted exactly when it is the encoding of some in-time frame of this tunnel. */
  lemma AcceptsExactlyEncodings(d: Codec, packet: Bytes, now: int, f: Frame)
    requires d.Valid()
    ensures Decode(d, packet, now) == Ok(f) <==>
              f.tunnelId == d.tunnelId
              && Encode(d.(session := f.session), RequestOf(f)) == Ok(packet)
              && -(d.skew as int) <= now - f.timestamp <= d.skew
  {
    hide Seal, Nonce;
    var c := d.(session := f.session);
    assert f.tunnelId == d.tunnelId ==> Described(c, RequestOf(f)) == f;
    if Decode(d, packet, now) == Ok(f) {
      EncodeDecode(d, packet, now);
    }
    if f.tunnelId == d.tunnelId && Encode(c, RequestOf(f)) == Ok(packet) {
      DecodeSeal(d, f, now);
    }
  }

  /** An acknowledgement carries the acknowledged session and message id through both codecs. */
  lemma AckRoundTrip(c: Codec, d: Codec, kind: int, sequence: int, timestamp: int, session: int, messageId: int, now: int)
    requires c.Valid() && d.Valid() && d.suite == c.suite && d.tunnelId == c.tunnelId
    requires EncodeAck(c, kind, sequence, timestamp, session, messageId).Ok?
    requires -(d.skew as int) <= now - timestamp <= d.skew
    ensures var r := Decode(d, EncodeAck(c, kind, sequence, timestamp, session, messageId).value, now);
            && r.Ok? && r.value.kind == kind && r.value.sequence == sequence && r.value.session == c.session
            && DecodeAck(r.value) == Ok((session, messageId))
  {
    DecodeEncode(c, d, AckRequest(kind, sequence, timestamp, session, messageId), now);
    AckPayload(session, messageId);
  }

  lemma AckPayload(session: nat, messageId: nat)
    requires Fits64(session) && Fits64(messageId)
    ensures var p := Pack([BE(session, 8), BE(messageId, 8)]);
            |p| == 16 && FromBE(p[..8]) == session && FromBE(p[8..]) == messageId
  {
    var a, b := BE(session, 8), BE(messageId, 8);
    assert [a, b][1..] == [b];
    var none: seq<Bytes> := [];
    assert [b][1..] == none;
    assert Pack([b]) == b + Pack(none);
    var p := Pack([a, b]);
    assert p == a + b;
    assert p[..8] == a && p[8..] == b;
    Powers();
    ReadWritten(session, 8);
    ReadWritten(messageId, 8);
  }

  /** An acknowledgement is encoded exactly under one of the two kinds and with numbers of 64 bits. */
  lemma EncodeAckExactly(c: Codec, kind: int, sequence: int, timestamp: int, session: int, messageId: int)
    requires c.Valid()
    ensures EncodeAck(c, kind, sequence, timestamp, session, messageId).Ok? <==>
              (kind == 5 || kind == 6) && Fits64(session) && Fits64(messageId) && Fits64(sequence) && Fits64(timestamp)
  {
    if Fits64(session) && Fits64(messageId) {
      AckPayload(session, messageId);
    }
    hide Seal, Lawful, Pack, BE;
  }

  /** A frame is read as the acknowledgement of a message exactly when it is of one of the two kinds and its
      payload is that session and message id, eight bytes each. */
  lemma DecodeAckExactly(f: Frame, session: int, messageId: int)
    ensures DecodeAck(f) == Ok((session, messageId)) <==>
              (f.kind == 5 || f.kind == 6) && Fits64(session) && Fits64(messageId) && f.payload == BE(session, 8) + BE(messageId, 8)
  {
    Powers();
    if DecodeAck(f) == Ok((session, messageId)) {
      WrittenRead(f.payload[..8]);
      WrittenRead(f.payload[8..]);
      FromBEBound(f.payload[..8]);
      FromBEBound(f.payload[8..]);
      assert f.payload == f.payload[..8] + f.payload[8..];
    }
    if Fits64(session) && Fits64(messageId) && f.payload == BE(session, 8) + BE(messageId, 8) {
      ReadWritten(session, 8);
      ReadWritten(messageId, 8);
      assert f.payload[..8] == BE(session, 8) && f.payload[8..] == BE(messageId, 8);
    }
    hide BE, FromBE, Pow256;
  }

  /** Every packet fits an Ethernet payload of 1500 bytes with its IPv4 and UDP headers, and its length
      is the payload's plus the fixed overhead. */
  lemma PacketSize(c: Codec, r: Request)
    requires c.Valid() && Encode(c, r).Ok?
    ensures |Encode(c, r).value| == FRAME_OVERHEAD + |r.payload| <= 1472
  {
    DecodeSeal(c, Described(c, r), r.timestamp);
  }

  /** Different sequence numbers give different nonces, whatever the rest of the frame. */
  lemma NonceDistinct(s: Suite, s1: int, q1: int, k1: int, f1: int, i1: int, s2: int, q2: int, k2: int, f2: int, i2: int)
    requires Lawful(s) && Fits64(q1) && Fits64(q2) && q1 != q2
    requires s1 >= 0 && s2 >= 0 && 0 <= k1 < 256 && 0 <= k2 < 256 && 0 <= f1 < 256 && 0 <= f2 < 256 && i1 >= 0 && i2 >= 0
    ensures Nonce(s, s1, q1, k1, f1, i1) != Nonce(s, s2, q2, k2, f2, i2)
  {
    var n1, n2 := Nonce(s, s1, q1, k1, f1, i1), Nonce(s, s2, q2, k2, f2, i2);
    hide Pack;
    assert n1[4..] == BE(q1, 8) && n2[4..] == BE(q2, 8);
    Powers();
    ReadWritten(q1, 8);
    ReadWritten(q2, 8);
  }

  // --------------------------------------------------------------------------------- byte positions

  /** Where the thirteen fields begin. */
  lemma Places()
    ensures Before(WIDTHS, 0) == 0 && Before(WIDTHS, 1) == 4 && Before(WIDTHS, 2) == 5 && Before(WIDTHS, 3) == 6
    ensures Before(WIDTHS, 4) == 7 && Before(WIDTHS, 5) == 23 && Before(WIDTHS, 6) == 31 && Before(WIDTHS, 7) == 39
    ensures Before(WIDTHS, 8) == 47 && Before(WIDTHS, 9) == 55 && Before(WIDTHS, 10) == 59 && Before(WIDTHS, 11) == 61
    ensures Before(WIDTHS, 12) == 63
  {
    assert Before(WIDTHS, 2) == Before(WIDTHS, 1) + 1;
    assert Before(WIDTHS, 4) == Before(WIDTHS, 3) + 1;
    assert Before(WIDTHS, 6) == Before(WIDTHS, 5) + 8;
    assert Before(WIDTHS, 8) == Before(WIDTHS, 7) + 8;
    assert Before(WIDTHS, 10) == Before(WIDTHS, 9) + 4;
  }

  function NumberAt(s: Bytes, from: nat, to: nat): nat
    requires from <= to <= |s|
  {
    FromBE(s[from..to])
  }

  lemma HeaderFits(f: Frame)
    requires EncodeGuards(f).Ok? && |f.tunnelId| == 16
    ensures Fits(HeaderFields(f, |f.payload|), WIDTHS)
    ensures |Pack(HeaderFields(f, |f.payload|))| == HEADER_SIZE
  {
    hide Pack, Total, BE, Pow256;
    var fields := HeaderFields(f, |f.payload|);
    WidthsTotal();
    PackLength(fields, WIDTHS);
  }

  /** Each field of a written header stands in its own place. */
  lemma HeaderPlaced(f: Frame)
    requires EncodeGuards(f).Ok? && |f.tunnelId| == 16
    ensures var aad := Pack(HeaderFields(f, |f.payload|));
            && |aad| == HEADER_SIZE
            && aad[0..4] == MAGIC && aad[4..5] == [VERSION] && aad[5..6] == [f.kind] && aad[6..7] == [f.flags]
            && aad[7..23] == f.tunnelId && aad[23..31] == BE(f.session, 8) && aad[31..39] == BE(f.sequence, 8)
            && aad[39..47] == BE(f.timestamp, 8) && aad[47..55] == BE(f.messageId, 8) && aad[55..59] == BE(f.messageLen, 4)
            && aad[59..61] == BE(f.index, 2) && aad[61..63] == BE(f.count, 2) && aad[63..65] == BE(|f.payload|, 2)
  {
    var fields := HeaderFields(f, |f.payload|);
    HeaderFits(f);
    Places();
    hide Pack, Before, BE, EncodeGuards;
    forall i | 0 <= i < 13
      ensures var at := Before(WIDTHS, i); at + WIDTHS[i] <= |Pack(fields)| && Pack(fields)[at..at + WIDTHS[i]] == fields[i]
    {
      PackAt(fields, WIDTHS, i);
    }
    assert |fields| == 13;
  }

  lemma HeaderNumbers(f: Frame)
    requires EncodeGuards(f).Ok?
    ensures FromBE(BE(f.session, 8)) == f.session && FromBE(BE(f.sequence, 8)) == f.sequence
    ensures FromBE(BE(f.timestamp, 8)) == f.timestamp && FromBE(BE(f.messageId, 8)) == f.messageId
    ensures FromBE(BE(f.messageLen, 4)) == f.messageLen && FromBE(BE(f.index, 2)) == f.index
    ensures FromBE(BE(f.count, 2)) == f.count && FromBE(BE(|f.payload|, 2)) == |f.payload|
  {
    hide BE, FromBE, Pow256;
    Powers();
    ReadWritten(f.session, 8);
    ReadWritten(f.sequence, 8);
    ReadWritten(f.timestamp, 8);
    ReadWritten(f.messageId, 8);
    ReadWritten(f.messageLen, 4);
    ReadWritten(f.index, 2);
    ReadWritten(f.count, 2);
    ReadWritten(|f.payload|, 2);
  }

  /** The bytes of a context: session, kind, flags, index. */
  function Context(session: int, kind: int, flags: int, index: int): (x: Bytes)
    requires session >= 0 && 0 <= kind < 256 && 0 <= flags < 256 && index >= 0
    ensures |x| == 12
  {
    BE(session, 8) + [kind] + [flags] + BE(index, 2)
  }

  lemma NonceIs(s: Suite, session: int, sequence: int, kind: int, flags: int, index: int)
    requires session >= 0 && sequence >= 0 && 0 <= kind < 256 && 0 <= flags < 256 && index >= 0
    ensures Nonce(s, session, sequence, kind, flags, index) == s.prefix(Context(session, kind, flags, index)) + BE(sequence, 8)
  {
    FourFields(BE(session, 8), [kind], [flags], BE(index, 2));
  }

  lemma FourFields(a: Bytes, b: Bytes, c: Bytes, d: Bytes)
    ensures Pack([a, b, c, d]) == a + b + c + d
  {
    PackStep(d, []);
    PackStep(c, [d]);
    PackStep(b, [c, d]);
    PackStep(a, [b, c, d]);
    assert [d] + [] == [d] && [c] + [d] == [c, d] && [b] + [c, d] == [b, c, d] && [a] + [b, c, d] == [a, b, c, d];
    assert Pack([]) == [];
  }

  lemma PackStep(a: Bytes, rest: seq<Bytes>)
    ensures Pack([a] + rest) == a + Pack(rest)
  {
    assert ([a] + rest)[1..] == rest;
  }

  /** Every encoded packet, byte by byte: magic and version, kind, flags, tunnel, then the numbers, big-endian,
      each in its place; behind the 65 header bytes the payload sealed with them as associated data, under a
      nonce made of the 4-byte prefix of session, kind, flags and index and of the sequence number. */
  lemma PacketLayout(c: Codec, r: Request)
    requires c.Valid() && Encode(c, r).Ok?
    ensures var p := Encode(c, r).value;
            && |p| == 81 + |r.payload|
            && p[0..4] == [72, 51, 84, 78] && p[4] == 3 && p[5] == r.kind && p[6] == r.flags && p[7..23] == c.tunnelId
            && NumberAt(p, 23, 31) == c.session && NumberAt(p, 31, 39) == r.sequence && NumberAt(p, 39, 47) == r.timestamp
            && NumberAt(p, 47, 55) == r.messageId
            && NumberAt(p, 55, 59) == (if r.messageLen.Some? then r.messageLen.value else |r.payload|)
            && NumberAt(p, 59, 61) == r.index && NumberAt(p, 61, 63) == r.count && NumberAt(p, 63, 65) == |r.payload|
            && p[65..] == c.suite.seal(c.suite.prefix(p[23..31] + p[5..7] + p[59..61]) + p[31..39], r.payload, p[..65])
  {
    var f := Described(c, r);
    SealLayout(c.suite, f);
    HeaderNumbers(f);
    hide Seal, EncodeGuards, BE, FromBE, Lawful;
    var p := Seal(c.suite, f);
    assert p == Encode(c, r).value;
    assert p[4] == p[4..5][0] && p[5] == p[5..6][0] && p[6] == p[6..7][0];
  }

  lemma SealLayout(s: Suite, f: Frame)
    requires Lawful(s) && EncodeGuards(f).Ok? && |f.tunnelId| == 16
    ensures var p := Seal(s, f);
            && |p| == 81 + |f.payload|
            && p[0..4] == MAGIC && p[4..5] == [VERSION] && p[5..6] == [f.kind] && p[6..7] == [f.flags]
            && p[7..23] == f.tunnelId && p[23..31] == BE(f.session, 8) && p[31..39] == BE(f.sequence, 8)
            && p[39..47] == BE(f.timestamp, 8) && p[47..55] == BE(f.messageId, 8) && p[55..59] == BE(f.messageLen, 4)
            && p[59..61] == BE(f.index, 2) && p[61..63] == BE(f.count, 2) && p[63..65] == BE(|f.payload|, 2)
            && p[65..] == s.seal(s.prefix(p[23..31] + p[5..7] + p[59..61]) + p[31..39], f.payload, p[..65])
  {
    var aad := Pack(HeaderFields(f, |f.payload|));
    var nonce := Nonce(s, f.session, f.sequence, f.kind, f.flags, f.index);
    HeaderPlaced(f);
    NonceIs(s, f.session, f.sequence, f.kind, f.flags, f.index);
    hide Pack, HeaderFields, Nonce, BE;
    var p := Seal(s, f);
    var sealed := s.seal(nonce, f.payload, aad);
    assert p == aad + sealed;
    FrontSlices(aad, sealed, p);
    assert p[5..7] == p[5..6] + p[6..7];
    assert p[23..31] + p[5..7] + p[59..61] == Context(f.session, f.kind, f.flags, f.index);
  }

  lemma FrontSlices(aad: Bytes, rest: Bytes, p: Bytes)
    requires p == aad + rest
    ensures p[..|aad|] == aad && p[|aad|..] == rest
    ensures forall i, j :: 0 <= i <= j <= |aad| ==> p[i..j] == aad[i..j]
  {
  }

  /** A context determines what it is made of. */
  lemma ContextInjective(s1: int, k1: int, f1: int, i1: int, s2: int, k2: int, f2: int, i2: int)
    requires Fits64(s1) && Fits64(s2) && 0 <= k1 < 256 && 0 <= k2 < 256 && 0 <= f1 < 256 && 0 <= f2 < 256
    requires 0 <= i1 < 0x1_0000 && 0 <= i2 < 0x1_0000
    ensures Context(s1, k1, f1, i1) == Context(s2, k2, f2, i2) <==> s1 == s2 && k1 == k2 && f1 == f2 && i1 == i2
  {
    var x, y := Context(s1, k1, f1, i1), Context(s2, k2, f2, i2);
    Powers();
    ReadWritten(s1, 8);
    ReadWritten(s2, 8);
    ReadWritten(i1, 2);
    ReadWritten(i2, 2);
    hide BE, FromBE, Pow256;
    assert x[..8] == BE(s1, 8) && y[..8] == BE(s2, 8);
    assert x[8] == k1 && y[8] == k2 && x[9] == f1 && y[9] == f2;
    assert x[10..] == BE(i1, 2) && y[10..] == BE(i2, 2);
  }

  /** Two nonces are equal exactly when the numbers are and the prefixes of the two contexts are. */
  lemma NonceEqualIff(s: Suite, s1: int, q1: int, k1: int, f1: int, i1: int, s2: int, q2: int, k2: int, f2: int, i2: int)
    requires Lawful(s) && Fits64(q1) && Fits64(q2)
    requires s1 >= 0 && s2 >= 0 && 0 <= k1 < 256 && 0 <= k2 < 256 && 0 <= f1 < 256 && 0 <= f2 < 256 && i1 >= 0 && i2 >= 0
    ensures Nonce(s, s1, q1, k1, f1, i1) == Nonce(s, s2, q2, k2, f2, i2) <==>
              q1 == q2 && s.prefix(Context(s1, k1, f1, i1)) == s.prefix(Context(s2, k2, f2, i2))
  {
    NonceIs(s, s1, q1, k1, f1, i1);
    NonceIs(s, s2, q2, k2, f2, i2);
    Powers();
    ReadWritten(q1, 8);
    ReadWritten(q2, 8);
    hide Nonce, BE, FromBE, Pow256, Context;
    var a, b := s.prefix(Context(s1, k1, f1, i1)), s.prefix(Context(s2, k2, f2, i2));
    assert |a| == 4 && |b| == 4;
    assert (a + BE(q1, 8))[..4] == a && (b + BE(q2, 8))[..4] == b;
    assert (a + BE(q1, 8))[4..] == BE(q1, 8) && (b + BE(q2, 8))[4..] == BE(q2, 8);
  }
}
