/** What one agent owes the other: a message that has become recoverable is handed to the application and
    acknowledged, and the acknowledgement takes the message off the sender's hands. */
module Service {
  import opened Common
  import opened Dicts
  import opened Frames
  import opened Fragmentation
  import opened Recovery
  import opened Replay
  import opened Reassembly
  import opened Exactness
  import opened Codecs
  import opened Struct
  import opened Sending
  import opened Endpoints

  lemma TableOf(e: Endpoint)
    requires EndpointInv(e)
    ensures TableInv(e.table)
  {
  }

  /** What happens to a data frame that the replay window lets through: a completion is handed over exactly
      when the inner peer is known, and acknowledged then and only then. */
  lemma FreshData(e: Endpoint, f: Frame, now: real)
    requires EndpointInv(e) && f.kind == e.role.DataIn() && f.WellFormed() && f.session >= 0
    requires Accept(e.replay, FrameId(f.session, f.sequence)).0
    ensures var (r, e') := Handle(e, f, now);
            var (v, t) := Add(e.table, f, now);
            && e' == e.(replay := Accept(e.replay, FrameId(f.session, f.sequence)).1, table := t)
            && r == Reassembled(f, v, if v.Complete? && e.innerKnown then Some(v.payload) else None,
                                if v.Complete? && e.innerKnown && e.reliable then Some(AckOf(f.session, f.messageId)) else None)
  {
    hide Accept, Add, SenderInv, TableInv, Lawful, Purge;
  }

  /** A fresh data frame of a message whose entry the purge spares makes it complete at exactly the arrival
      that makes it recoverable; it is then delivered, with the submitted bytes, if and only if the inner
      peer is known. */
  lemma DeliversWhenRecoverable(e: Endpoint, f: Frame, m: Message, have: set<nat>, now: real)
    requires EndpointInv(e) && f.kind == e.role.DataIn() && f.WellFormed() && f.session >= 0
    requires Accept(e.replay, FrameId(f.session, f.sequence)).0
    requires m.Valid() && Carries(f, m) && TracksKey(e.table, m, have, KeyOf(f)) && Spared(e.table, Arrival(f, now), KeyOf(f))
    ensures var (r, e') := Handle(e, f, now);
            var n, more := |m.Pieces()|, have + {f.index as nat};
            var due := Enough(n, more) && !Enough(n, have);
            && r.Reassembled?
            && (r.verdict.Complete? <==> due)
            && r.delivered == (if due && e.innerKnown then Some(m.payload) else None)
            && r.reply == (if due && e.innerKnown && e.reliable then Some(AckOf(f.session, f.messageId)) else None)
            && TracksKey(e'.table, m, more, KeyOf(f))
  {
    var more := have + {f.index as nat};
    hide *;
    TableOf(e);
    SparedKey(e.table, m, have, Arrival(f, now));
    FreshData(e, f, now);
    DemandedIs(m, have, more);
  }

  lemma DemandedIs(m: Message, have: set<nat>, more: set<nat>)
    requires m.Valid()
    ensures Demanded(m, have, more).Complete? <==> Enough(|m.Pieces()|, more) && !Enough(|m.Pieces()|, have)
    ensures Demanded(m, have, more).Complete? ==> Demanded(m, have, more).payload == m.payload
  {
    hide Enough, AllData, Chop;
  }

  lemma AfterData(e: Endpoint, h: seq<FrameId>, f: Frame, now: real)
    requires EndpointInv(e) && Represents(e.replay, h) && f.WellFormed() && f.session >= 0
    requires Handle(e, f, now).0.Reassembled?
    ensures f.kind == e.role.DataIn() && Accept(e.replay, FrameId(f.session, f.sequence)).0
    ensures EndpointInv(Handle(e, f, now).1)
    ensures !Accept(Handle(e, f, now).1.replay, FrameId(f.session, f.sequence)).0
  {
    var id := FrameId(f.session, f.sequence);
    AcceptRefines(e.replay, h, id);
    AddInv(e.table, f, now);
    assert f.kind == e.role.DataIn() && Accept(e.replay, id).0 by {
      hide Accept, Add, SenderInv, TableInv, Lawful, Purge, Represents, Admits;
    }
    FreshData(e, f, now);
    AcceptRefines(Accept(e.replay, id).1, h + [id], id);
    hide Accept, Add, SenderInv, TableInv, Lawful, Purge, Represents, Handle;
    assert id in h + [id];
  }

  /** An acknowledgement means "completely reassembled", not "forwarded". A message is handed to the
      application when it completes if and only if the inner peer is known at that moment; but whichever it
      was, a frame of it received again in time is acknowledged. */
  lemma ConsumedThenAcknowledged(e: Endpoint, h: seq<FrameId>, f: Frame, now: real, later: real)
    requires EndpointInv(e) && Represents(e.replay, h) && f.WellFormed() && f.session >= 0
    requires Handle(e, f, now).0.Reassembled? && Handle(e, f, now).0.verdict.Complete?
    requires later - now <= e.table.ttl
    ensures EndpointInv(Handle(e, f, now).1)
    ensures var (r, e1) := Handle(e, f, now);
            && (r.delivered.Some? <==> e.innerKnown)
            && (!e.innerKnown ==> r.reply == None)
            && Handle(e1, f, later).0 == Replayed(f, Some(AckOf(f.session, f.messageId)))
            && Handle(e1, f, later).1.innerKnown == e.innerKnown
  {
    AfterData(e, h, f, now);
    FreshData(e, f, now);
    CompletedRemembered(e.table, f, now);
    var e1 := Handle(e, f, now).1;
    PurgeOnlyExpired(e1.table, later, KeyOf(f)) by {
      TableOf(e1);
    }
    ReplayedData(e1, f, later);
    hide Accept, Add, Purge, SenderInv, TableInv, Lawful, Handle, Represents;
  }

  /** What happens to a data frame that the replay window refuses. */
  lemma ReplayedData(e: Endpoint, f: Frame, now: real)
    requires EndpointInv(e) && f.kind == e.role.DataIn() && f.WellFormed() && f.session >= 0
    requires !Accept(e.replay, FrameId(f.session, f.sequence)).0
    ensures var (r, e') := Handle(e, f, now);
            && r == Replayed(f, if KeyOf(f) in Purge(e.table, now).completed.items then Some(AckOf(f.session, f.messageId)) else None)
            && e' == e.(replay := Accept(e.replay, FrameId(f.session, f.sequence)).1, table := Purge(e.table, now))
  {
    hide Accept, Add, Purge, SenderInv, TableInv, Lawful;
  }

  /** Whenever an agent owes an acknowledgement, the frame it answers is data of a message that its table
      now lists as completed. */
  lemma AcknowledgedIsCompleted(e: Endpoint, f: Frame, now: real)
    requires EndpointInv(e) && f.WellFormed() && f.session >= 0
    ensures var (r, e') := Handle(e, f, now);
            Owed(r).Some? && Owed(r).value.AckOf? ==>
              f.kind == e.role.DataIn() && KeyOf(f) in e'.table.completed.items && Owed(r).value == AckOf(f.session, f.messageId)
  {
    hide *;
    TableOf(e);
    AckCases(e, f, now);
    CompletedRemembered(e.table, f, now);
  }

  /** The two occasions of an acknowledgement: a replayed frame of a completed message, and completion. */
  lemma AckCases(e: Endpoint, f: Frame, now: real)
    requires EndpointInv(e) && f.WellFormed() && f.session >= 0
    ensures var (r, e') := Handle(e, f, now);
            Owed(r).Some? && Owed(r).value.AckOf? ==>
              && f.kind == e.role.DataIn() && Owed(r).value == AckOf(f.session, f.messageId)
              && (KeyOf(f) in e'.table.completed.items
                  || (Add(e.table, f, now).0.Complete? && e'.table == Add(e.table, f, now).1))
  {
    hide Accept, Add, Purge, Acknowledge, DecodeAck, SenderInv, TableInv, Lawful;
  }

  /** The acknowledgement of a message that the other agent's running process has in flight, once it
      arrives in time and unseen, is recognised and ends that message's retransmissions. */
  lemma AcknowledgementEndsRetransmission(p: Endpoint, from: Codec, messageId: nat, slot: Slot, wall: int, now: real)
    requires EndpointInv(p) && from.Valid() && p.codec.suite == from.suite && p.codec.tunnelId == from.tunnelId
    requires SlotOk(slot) && Fits64(messageId)
    requires Accept(p.replay, FrameId(from.session, slot.sequence)).0
    requires -(p.codec.skew as int) <= wall - slot.timestamp <= p.codec.skew
    ensures var ack := ReplyFrame(from, if p.role.Iran? then Foreign else Iran, AckOf(p.codec.session, messageId), slot);
            && EncodeGuards(ack).Ok?
            && var (r, p') := Receive(p, Seal(from.suite, ack), wall, now);
            && r == Acked(ack, messageId in p.sender.pending.items)
            && p' == p.(replay := Accept(p.replay, FrameId(from.session, slot.sequence)).1,
                        sender := Acknowledge(p.sender, messageId).1)
            && messageId !in p'.sender.pending.items
            && (forall k :: k in p'.sender.pending.items <==> k != messageId && k in p.sender.pending.items)
  {
    var other := if p.role.Iran? then Foreign else Iran;
    var reply := AckOf(p.codec.session, messageId);
    var ack := ReplyFrame(from, other, reply, slot);
    ReplyPasses(from, other, reply, slot);
    DecodeSeal(p.codec, ack, wall);
    hide Accept, Add, Purge, Decode, Seal, EncodeGuards, SenderInv, TableInv, Lawful, Grow, WithoutAll, DecodeAck, ReplyFrame;
  }

  /** A packet of the same tunnel that arrives in time is received as the frame it was sealed from. */
  lemma ReceivedAs(e: Endpoint, f: Frame, wall: int, now: real)
    requires EndpointInv(e) && EncodeGuards(f).Ok? && f.tunnelId == e.codec.tunnelId && f.WellFormed()
    requires -(e.codec.skew as int) <= wall - f.timestamp <= e.codec.skew
    ensures Receive(e, Seal(e.codec.suite, f), wall, now) == Handle(e, f, now)
  {
    DecodeSeal(e.codec, f, wall);
    hide Seal, Decode, EncodeGuards, Handle, SenderInv, TableInv, Lawful, Frame.WellFormed;
  }

  // ----------------------------------------------------------------------------------- submissions

  /** What becomes of a message from the application: an oversized one is an error; without reliability its
      packets go out at once; with it they are queued, and none goes out before the pump sends it, or the
      message is refused. In every case the inner peer is known from then on, and nothing else changes. */
  lemma SendOutcome(e: Endpoint, payload: Bytes, messageId: int, slots: seq<Slot>, now: real)
    requires e.codec.Valid() && Fits64(messageId) && 256 <= e.fragmentSize <= MAX_FRAGMENT_PAYLOAD
    requires |payload| <= MAX_MESSAGE_SIZE ==> |slots| == |Message(payload, e.fragmentSize, e.fec).Specs()|
    requires forall i :: 0 <= i < |slots| ==> SlotOk(slots[i])
    ensures var (r, e') := SendData(e, payload, messageId, slots, now);
            var known := e.(innerKnown := true);
            if |payload| > 60000 then r == Invalid(FragmentError.MessageTooLong) && e' == known
            else
              var packets := MessagePackets(e, payload, messageId, slots);
              if !e.reliable then r == Sent(packets) && e' == known
              else
                && e' == known.(sender := e'.sender) && e'.sender.pending == e.sender.pending && e'.sender.cwnd == e.sender.cwnd
                && (if r == Sent([]) then e'.sender.queue == e.sender.queue + [Transmission(messageId, packets, now, None, None, 0)]
                    else r.Refused? && e'.sender == e.sender)
  {
    hide MessagePackets, Known;
  }

  // --------------------------------------------------------------------------------- control frames

  /** What a packet that does not decode leads to. */
  lemma Undecodable(e: Endpoint, packet: Bytes, wall: int, now: real)
    requires EndpointInv(e) && Decode(e.codec, packet, wall).Err?
    ensures Receive(e, packet, wall, now) == (Dropped, e)
  {
    hide Decode, SenderInv, TableInv, Lawful;
  }

  /** The frame is an acknowledgement for the running process. */
  predicate ForThisProcess(e: Endpoint, f: Frame) {
    f.kind == e.role.AckIn() && DecodeAck(f).Ok? && DecodeAck(f).value.0 == e.codec.session
  }

  /** What a frame does to the in-flight table: nothing, unless it is a fresh acknowledgement for the running
      process, which takes out the message it names. */
  lemma OnlyOwnAcknowledged(e: Endpoint, f: Frame, now: real)
    requires EndpointInv(e) && f.WellFormed() && f.session >= 0
    ensures var (r, e') := Handle(e, f, now);
            if Accept(e.replay, FrameId(f.session, f.sequence)).0 && ForThisProcess(e, f) then
              && (r, e'.sender) == (Acked(f, DecodeAck(f).value.1 in e.sender.pending.items), Acknowledge(e.sender, DecodeAck(f).value.1).1)
              && (forall k :: k in e'.sender.pending.items <==> k in e.sender.pending.items && k != DecodeAck(f).value.1)
            else e'.sender == e.sender && (r.Acked? ==> !r.known)
  {
    hide Accept, Add, Purge, DecodeAck, SenderInv, TableInv, Lawful, Grow, WithoutAll;
  }

  /** An acknowledgement for another session, or one that cannot be read, changes nothing but the replay
      window. */
  lemma StaleAcknowledgementIgnored(e: Endpoint, f: Frame, now: real)
    requires EndpointInv(e) && f.WellFormed() && f.session >= 0
    requires Accept(e.replay, FrameId(f.session, f.sequence)).0 && f.kind == e.role.AckIn() && !ForThisProcess(e, f)
    ensures var (r, e') := Handle(e, f, now);
            && e' == e.(replay := Accept(e.replay, FrameId(f.session, f.sequence)).1)
            && r == (if DecodeAck(f).Ok? then Acked(f, false) else Ignored(f))
            && Owed(r) == None
  {
    hide Accept, Add, Purge, Acknowledge, DecodeAck, SenderInv, TableInv, Lawful;
  }

  /** So does any other fresh frame that is neither data for this side nor a PING at the Foreign side; in
      particular a PONG. */
  lemma OthersIgnored(e: Endpoint, f: Frame, now: real)
    requires EndpointInv(e) && f.WellFormed() && f.session >= 0
    requires Accept(e.replay, FrameId(f.session, f.sequence)).0
    requires f.kind != e.role.AckIn() && f.kind != e.role.DataIn() && !(f.kind == PING && e.role.Foreign?)
    ensures Handle(e, f, now) == (Ignored(f), e.(replay := Accept(e.replay, FrameId(f.session, f.sequence)).1))
  {
    hide Accept, Add, Purge, Acknowledge, DecodeAck, SenderInv, TableInv, Lawful;
  }

  /** A frame that is not data and is received again changes nothing but the replay window. */
  lemma ReplayedControl(e: Endpoint, f: Frame, now: real)
    requires EndpointInv(e) && f.WellFormed() && f.session >= 0
    requires !Accept(e.replay, FrameId(f.session, f.sequence)).0 && f.kind != e.role.DataIn()
    ensures Handle(e, f, now) == (Replayed(f, None), e.(replay := Accept(e.replay, FrameId(f.session, f.sequence)).1))
  {
    hide Accept, Add, Purge, Acknowledge, DecodeAck, SenderInv, TableInv, Lawful;
  }

  lemma FreshPing(e: Endpoint, f: Frame, now: real)
    requires EndpointInv(e) && f.WellFormed() && f.session >= 0 && f.kind == PING && e.role.Foreign?
    requires Accept(e.replay, FrameId(f.session, f.sequence)).0
    ensures Handle(e, f, now) == (Ponged(f, Some(PongTo(f.timestamp))), e.(replay := Accept(e.replay, FrameId(f.session, f.sequence)).1))
  {
    hide Accept, Add, Purge, Acknowledge, DecodeAck, SenderInv, TableInv, Lawful;
  }

  lemma PingPasses(c: Codec, slot: Slot)
    requires c.Valid() && SlotOk(slot)
    ensures var f := ControlFrame(c, PING, [], slot);
            && EncodeGuards(f).Ok? && f.WellFormed() && f.tunnelId == c.tunnelId && f.kind == PING == 3 && f.payload == []
            && f.session == c.session >= 0 && f.sequence == slot.sequence && f.timestamp == slot.timestamp
  {
    hide Lawful;
  }

  /** Every PING of the other agent that arrives in time and unseen is owed a reply, and the packet sealed for
      that reply, under whatever number, decodes on the other side to a PONG that carries the PING's own
      timestamp. */
  lemma PingAnswered(e: Endpoint, from: Codec, slot: Slot, wall: int, now: real, reply: Slot, back: int)
    requires EndpointInv(e) && e.role.Foreign? && from.Valid() && from.suite == e.codec.suite && from.tunnelId == e.codec.tunnelId
    requires SlotOk(slot) && SlotOk(reply)
    requires Accept(e.replay, FrameId(from.session, slot.sequence)).0
    requires -(e.codec.skew as int) <= wall - slot.timestamp <= e.codec.skew
    requires -(from.skew as int) <= back - slot.timestamp <= from.skew
    ensures var ping, pong := ControlFrame(from, PING, [], slot), PongTo(slot.timestamp);
            && EncodeGuards(ping).Ok?
            && Owed(Receive(e, Seal(from.suite, ping), wall, now).0) == Some(pong)
            && EncodeGuards(ReplyFrame(e.codec, Foreign, pong, reply)).Ok?
            && var r := Decode(from, Seal(e.codec.suite, ReplyFrame(e.codec, Foreign, pong, reply)), back);
            && r.Ok? && r.value.kind == 4 && r.value.timestamp == slot.timestamp
            && r.value.session == e.codec.session && r.value.sequence == reply.sequence
  {
    var ping, pong := ControlFrame(from, PING, [], slot), PongTo(slot.timestamp);
    hide *;
    CodecOf(e);
    PingPasses(from, slot);
    ReceivedAs(e, ping, wall, now);
    FreshPing(e, ping, now);
    PongDecodes(e.codec, from, slot, reply, back);
    OwedPong(ping, pong);
  }

  lemma OwedPong(f: Frame, reply: Reply)
    ensures Owed(Ponged(f, Some(reply))) == Some(reply)
  {
  }

  lemma CodecOf(e: Endpoint)
    requires EndpointInv(e)
    ensures e.codec.Valid() && TableInv(e.table)
  {
  }

  lemma PongDecodes(c: Codec, d: Codec, slot: Slot, reply: Slot, back: int)
    requires c.Valid() && d.Valid() && d.suite == c.suite && d.tunnelId == c.tunnelId && SlotOk(slot) && SlotOk(reply)
    requires -(d.skew as int) <= back - slot.timestamp <= d.skew
    ensures var f := ReplyFrame(c, Foreign, PongTo(slot.timestamp), reply);
            && EncodeGuards(f).Ok?
            && var r := Decode(d, Seal(c.suite, f), back);
            && r.Ok? && r.value.kind == 4 && r.value.timestamp == slot.timestamp
            && r.value.session == c.session && r.value.sequence == reply.sequence
  {
    ReplyPasses(c, Foreign, PongTo(slot.timestamp), reply);
    DecodeSeal(d, ReplyFrame(c, Foreign, PongTo(slot.timestamp), reply), back);
    hide Decode, Seal, EncodeGuards, Lawful, ReplyFrame, DecodeAck;
  }
}
