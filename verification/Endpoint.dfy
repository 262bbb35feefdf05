/** One agent as a value: what sending, receiving and the periodic pump do to its state and which packets
    they put on the wire. Sequence numbers and clock readings are arguments, so that any interleaving
    of the agent's threads is covered. */
module Endpoints {
  import opened Common
  import opened Dicts
  import opened Frames
  import opened Fragmentation
  import opened Recovery
  import opened Replay
  import opened Reassembly
  import opened Codecs
  import opened Struct
  import opened Sending

  datatype Role = Iran | Foreign {
    function DataOut(): int { if Iran? then DATA_UP else DATA_DOWN }
    function DataIn(): int { if Iran? then DATA_DOWN else DATA_UP }
    function AckOut(): int { if Iran? then ACK_DOWN else ACK_UP }
    function AckIn(): int { if Iran? then ACK_UP else ACK_DOWN }
  }

  /** The sequence number drawn for one frame and the clock reading stamped on it. */
  datatype Slot = Slot(sequence: int, timestamp: int)

  datatype Endpoint = Endpoint(
    codec: Codec,
    role: Role,
    reliable: bool,
    fragmentSize: nat,
    fec: bool,
    innerKnown: bool,
    sender: Sender,
    replay: Window,
    table: Table)

  predicate SlotOk(slot: Slot) {
    Fits64(slot.sequence) && Fits64(slot.timestamp)
  }

  // --------------------------------------------------------------------------------------- sending

  function DataFrame(c: Codec, kind: int, messageId: int, spec: FragmentSpec, slot: Slot): Frame {
    Frame(kind, spec.flags, c.tunnelId, c.session, slot.sequence, slot.timestamp, messageId,
          spec.messageLen, spec.index, spec.count, spec.payload)
  }

  function DataRequest(kind: int, messageId: int, spec: FragmentSpec, slot: Slot): Request {
    Request(kind, slot.sequence, spec.payload, slot.timestamp, messageId, Some(spec.messageLen), spec.index, spec.count, spec.flags)
  }

  /** The frames of one message, one per fragment. */
  function DataFrames(c: Codec, kind: int, messageId: int, specs: seq<FragmentSpec>, slots: seq<Slot>): seq<Frame>
    requires |slots| == |specs|
  {
    seq(|specs|, i requires 0 <= i < |specs| => DataFrame(c, kind, messageId, specs[i], slots[i]))
  }

  function SealAll(s: Suite, frames: seq<Frame>): seq<Bytes>
    requires forall i :: 0 <= i < |frames| ==> EncodeGuards(frames[i]).Ok?
  {
    seq(|frames|, i requires 0 <= i < |frames| => Seal(s, frames[i]))
  }

  /** Every fragment of every message within the size limit passes all the encoder's guards, the
      packet carrying it is at most 1472 bytes, and the frame carries the message. */
  lemma FragmentPasses(c: Codec, kind: int, messageId: int, m: Message, i: nat, slot: Slot)
    requires c.Valid() && (kind == DATA_UP || kind == DATA_DOWN) && Fits64(messageId) && SlotOk(slot)
    requires m.Valid() && i < |m.Specs()|
    ensures var f := DataFrame(c, kind, messageId, m.Specs()[i], slot);
            && EncodeGuards(f).Ok?
            && f.WellFormed()
            && Carries(f, m)
            && Encode(c, DataRequest(kind, messageId, m.Specs()[i], slot)) == Ok(Seal(c.suite, f))
            && |Seal(c.suite, f)| <= 1472
  {
    CountBound(m.payload, m.fragmentSize);
    var f := DataFrame(c, kind, messageId, m.Specs()[i], slot);
    PieceSizes(m, i);
    hide Chop, Parity, Seal, Lawful;
    assert Described(c, DataRequest(kind, messageId, m.Specs()[i], slot)) == f;
    assert EncodeGuards(f).Ok?;
    PacketSize(c, DataRequest(kind, messageId, m.Specs()[i], slot));
  }

  lemma PieceSizes(m: Message, i: nat)
    requires m.Valid() && i < |m.Specs()|
    ensures |m.Specs()[i].payload| <= m.fragmentSize
  {
    hide Column;
    if i < |m.Pieces()| {
      ChopAt(m.payload, m.fragmentSize, i);
    }
  }

  datatype SendResult = Sent(out: seq<Bytes>) | Refused(reason: Enqueued) | Invalid(error: FragmentError)

  /** One message from the application: fragmented, encoded once, then queued, or sent at once when
      reliability is off. The Iran agent has by then learned its inner peer. */
  function SendData(e: Endpoint, payload: Bytes, messageId: int, slots: seq<Slot>, now: real): (SendResult, Endpoint)
    requires e.codec.Valid() && Fits64(messageId) && 256 <= e.fragmentSize <= MAX_FRAGMENT_PAYLOAD
    requires |payload| <= MAX_MESSAGE_SIZE ==> |slots| == |Message(payload, e.fragmentSize, e.fec).Specs()|
    requires forall i :: 0 <= i < |slots| ==> SlotOk(slots[i])
  {
    var e1 := e.(innerKnown := true);
    if |payload| > MAX_MESSAGE_SIZE then (Invalid(FragmentError.MessageTooLong), e1)
    else
      var packets := MessagePackets(e, payload, messageId, slots);
      if !e.reliable then (Sent(packets), e1)
      else
        var (r, s) := Enqueue(e.sender, messageId, packets, now);
        (if r == Queued then Sent([]) else Refused(r), e1.(sender := s))
  }

  function MessagePackets(e: Endpoint, payload: Bytes, messageId: int, slots: seq<Slot>): seq<Bytes>
    requires e.codec.Valid() && Fits64(messageId) && Message(payload, e.fragmentSize, e.fec).Valid()
    requires |slots| == |Message(payload, e.fragmentSize, e.fec).Specs()|
    requires forall i :: 0 <= i < |slots| ==> SlotOk(slots[i])
  {
    var m := Message(payload, e.fragmentSize, e.fec);
    var frames := DataFrames(e.codec, e.role.DataOut(), messageId, m.Specs(), slots);
    assert forall i :: 0 <= i < |frames| ==> EncodeGuards(frames[i]).Ok? by {
      forall i | 0 <= i < |frames|
        ensures EncodeGuards(frames[i]).Ok?
      {
        FragmentPasses(e.codec, e.role.DataOut(), messageId, m, i, slots[i]);
      }
    }
    SealAll(e.codec.suite, frames)
  }

  function ControlFrame(c: Codec, kind: int, payload: Bytes, slot: Slot): Frame {
    Frame(kind, 0, c.tunnelId, c.session, slot.sequence, slot.timestamp, 0, |payload|, 0, 1, payload)
  }

  /** A reply that is owed, before it has a sequence number. */
  datatype Reply = AckOf(session: nat, messageId: nat) | PongTo(timestamp: int)

  predicate ReplyOk(reply: Reply) {
    match reply
    case AckOf(session, messageId) => Fits64(session) && Fits64(messageId)
    case PongTo(timestamp) => Fits64(timestamp)
  }

  function ReplyFrame(c: Codec, role: Role, reply: Reply, slot: Slot): Frame {
    match reply
    case AckOf(session, messageId) => ControlFrame(c, role.AckOut(), Pack([BE(session, 8), BE(messageId, 8)]), slot)
    case PongTo(timestamp) => ControlFrame(c, PONG, [], slot.(timestamp := timestamp))
  }

  /** Every reply passes the encoder's guards, under this process's session and the number drawn for it. */
  lemma ReplyPasses(c: Codec, role: Role, reply: Reply, slot: Slot)
    requires c.Valid() && SlotOk(slot) && ReplyOk(reply)
    ensures var f := ReplyFrame(c, role, reply, slot);
            && EncodeGuards(f).Ok? && f.tunnelId == c.tunnelId && f.session == c.session && f.sequence == slot.sequence
            && f.kind == (if reply.AckOf? then role.AckOut() else PONG)
            && f.kind == (if reply.PongTo? then 4 else if role.Iran? then 6 else 5)
            && (reply.AckOf? ==> DecodeAck(f) == Ok((reply.session as int, reply.messageId as int)) && f.timestamp == slot.timestamp)
            && (reply.PongTo? ==> f.timestamp == reply.timestamp && f.payload == [])
  {
    if reply.AckOf? {
      AckPayload(reply.session, reply.messageId);
    }
    hide Lawful;
  }

  // ------------------------------------------------------------------------------------- receiving

  /** What one received packet led to. `reply` is what is owed to the other side, if anything. */
  datatype Reaction =
    | Dropped
    | Replayed(frame: Frame, reply: Option<Reply>)
    | Acked(frame: Frame, known: bool)
    | Ignored(frame: Frame)
    | Ponged(frame: Frame, reply: Option<Reply>)
    | Reassembled(frame: Frame, verdict: Verdict, delivered: Option<Bytes>, reply: Option<Reply>)

  function Owed(r: Reaction): Option<Reply> {
    match r
    case Replayed(_, reply) => reply
    case Ponged(_, reply) => reply
    case Reassembled(_, _, _, reply) => reply
    case _ => None
  }

  /** The bodies of the two receive loops, one packet. `now` is the monotonic clock, `wall` the
      timestamp clock. */
  function Receive(e: Endpoint, packet: Bytes, wall: int, now: real): (Reaction, Endpoint)
    requires TableInv(e.table) && e.codec.Valid()
  {
    match Decode(e.codec, packet, wall)
    case Err(_) => (Dropped, e)
    case Ok(f) =>
      EncodeDecode(e.codec, packet, wall);
      Handle(e, f, now)
  }

  function Handle(e: Endpoint, f: Frame, now: real): (Reaction, Endpoint)
    requires TableInv(e.table) && f.WellFormed() && f.session >= 0
  {
    var (ok, w) := Accept(e.replay, FrameId(f.session, f.sequence));
    var e1 := e.(replay := w);
    var ack := AckOf(f.session, f.messageId);
    if !ok then
      if f.kind != e.role.DataIn() then (Replayed(f, None), e1)
      else
        var t := Purge(e.table, now);
        (Replayed(f, if KeyOf(f) in t.completed.items then Some(ack) else None), e1.(table := t))
    else if f.kind == e.role.AckIn() then
      match DecodeAck(f)
      case Err(_) => (Ignored(f), e1)
      case Ok((session, messageId)) =>
        if session != e.codec.session then (Acked(f, false), e1)
        else
          var (known, s) := Acknowledge(e.sender, messageId);
          (Acked(f, known), e1.(sender := s))
    else if f.kind == PING && e.role.Foreign? then (Ponged(f, Some(PongTo(f.timestamp))), e1)
    else if f.kind != e.role.DataIn() then (Ignored(f), e1)
    else
      var (v, t) := Add(e.table, f, now);
      var e2 := e1.(table := t);
      if !v.Complete? || !e.innerKnown then (Reassembled(f, v, None, None), e2)
      else (Reassembled(f, v, Some(v.payload), if e.reliable then Some(ack) else None), e2)
  }

  /** The periodic work: retransmissions and first transmissions, then the reassembly timeout. */
  function Tick(e: Endpoint, now: real): (seq<Outbound>, Endpoint)
    requires TableInv(e.table)
  {
    if !e.reliable then ([], e)
    else
      var (s, es, _) := Pump(e.sender, now);
      (Packets(es), e.(sender := s, table := Purge(e.table, now)))
  }

  ghost predicate EndpointInv(e: Endpoint) {
    && e.codec.Valid()
    && 256 <= e.fragmentSize <= MAX_FRAGMENT_PAYLOAD
    && SenderInv(e.sender)
    && TableInv(e.table)
    && e.replay.size >= MIN_SIZE
  }

  /** Without reliability there is no periodic work. */
  lemma TickIdle(e: Endpoint, now: real)
    requires EndpointInv(e) && !e.reliable
    ensures Tick(e, now) == ([], e)
  {
  }

  /** What the periodic work changes. */
  lemma TickParts(e: Endpoint, now: real)
    requires EndpointInv(e) && e.reliable
    ensures TableInv(e.table)
    ensures Tick(e, now) == (Packets(Pump(e.sender, now).1), e.(sender := Pump(e.sender, now).0, table := Purge(e.table, now)))
    ensures EndpointInv(Tick(e, now).1)
  {
    PumpInv(e.sender, now);
    PurgeInv(e.table, now);
    hide Pump, Purge, Packets, SenderInv, TableInv, Lawful;
  }

  /** What is owed for an accepted packet is always something the encoder takes. */
  lemma OwedOk(e: Endpoint, f: Frame, now: real)
    requires EndpointInv(e) && EncodeGuards(f).Ok? && f.WellFormed()
    ensures var owed := Owed(Handle(e, f, now).0);
            owed.Some? ==> ReplyOk(owed.value) && (owed.value.AckOf? ==> owed.value == AckOf(f.session, f.messageId))
  {
    hide Accept, Add, Purge, Acknowledge, DecodeAck, SenderInv, TableInv, Lawful;
  }

  /** A key just completed is in the completed table with the time of completion. */
  lemma CompletedRemembered(t: Table, f: Frame, now: real)
    requires TableInv(t) && f.WellFormed()
    ensures var (v, t') := Add(t, f, now);
            v.Complete? ==> KeyOf(f) in t'.completed.items && t'.completed.items[KeyOf(f)] == now && t'.ttl == t.ttl
  {
    PurgeInv(t, now);
    hide Purge, Contribute, MakeRoom, NoDup;
    var p, key := Purge(t, now), KeyOf(f);
    if key in p.open.items {
      ContributeRemembered(p, key, p.open.items[key].(updatedAt := now), f, now);
    } else if key !in p.completed.items {
      MakeRoomOldest(p);
      ContributeRemembered(MakeRoom(p), key, NewAssembly(f, now), f, now);
    }
    assert p.ttl == t.ttl && MakeRoom(p).ttl == t.ttl by {
      SameTtl(t, now);
    }
  }

  lemma SameTtl(t: Table, now: real)
    requires TableInv(t) && TableInv(Purge(t, now))
    ensures Purge(t, now).ttl == t.ttl && MakeRoom(Purge(t, now)).ttl == t.ttl
  {
    hide DropStale, Oldest;
  }

  lemma ContributeRemembered(t: Table, key: Key, a: Assembly, f: Frame, now: real)
    requires t.maxMessages >= 1 && t.completed.Valid() && key !in t.completed.items && f.WellFormed()
    ensures var (v, t') := Contribute(t, key, a, f, now);
            v.Complete? ==> key in t'.completed.items && t'.completed.items[key] == now && t'.ttl == t.ttl
  {
    hide Assemble, Insert, WithoutAll, Trim;
    PutValid(t.completed, key, now);
    var d := t.completed.Put(key, now);
    assert d.order[|d.order| - 1] == key;
    TrimNewest(d, 2 * t.maxMessages, key);
  }
}
