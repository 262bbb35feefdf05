/** What has gone on the wire: in every run all packets of every message in flight, and without reliability
    all packets ever built. */
module Wires {
  import opened Common
  import opened Dicts
  import opened Frames
  import opened Fragmentation
  import opened Recovery
  import opened Replay
  import opened Reassembly
  import opened Codecs
  import opened Sending
  import opened Endpoints
  import opened Counters
  import opened Service
  import opened RoundTrips
  import opened Tunnel

  ghost predicate AllOn(wire: set<Bytes>, packets: seq<Bytes>) {
    forall i :: 0 <= i < |packets| ==> packets[i] in wire
  }

  /** These are the packets of the message submitted under this id by the running process, sealed under these
      numbers and timestamps. */
  ghost predicate SealedAs(e: Endpoint, submitted: map<Key, Message>, id: int, packets: seq<Bytes>, slots: seq<Slot>) {
    var key := Key(e.codec.session, id);
    && key in submitted
    && submitted[key].fragmentSize == e.fragmentSize && submitted[key].fec == e.fec
    && CanSend(e, submitted[key].payload, id, slots)
    && packets == MessagePackets(e, submitted[key].payload, id, slots)
  }

  ghost predicate Whole(n: Node, id: int, packets: seq<Bytes>) {
    exists slots :: SealedAs(n.e, n.submitted, id, packets, slots)
  }

  ghost predicate QueueWhole(n: Node) {
    forall i :: 0 <= i < |n.e.sender.queue| ==> Whole(n, n.e.sender.queue[i].id, n.e.sender.queue[i].packets)
  }

  ghost predicate FlightOut(n: Node, id: int)
    requires id in n.e.sender.pending.items
  {
    Whole(n, id, n.e.sender.pending.items[id].packets) && AllOn(n.wire, n.e.sender.pending.items[id].packets)
  }

  ghost predicate BuiltOut(n: Node, id: FrameId)
    requires id in n.built
  {
    EncodeGuards(n.built[id]).Ok? && Seal(n.e.codec.suite, n.built[id]) in n.wire
  }

  ghost predicate WireInv(n: Node) {
    && QueueWhole(n)
    && (forall id :: id in n.e.sender.pending.items ==> FlightOut(n, id))
    && (!n.e.reliable ==> forall id :: id in n.built ==> BuiltOut(n, id))
  }

  /** The same process, with at least the same messages. */
  ghost predicate Onward(n: Node, n': Node) {
    && n'.e.codec == n.e.codec && n'.e.role == n.e.role && n'.e.fragmentSize == n.e.fragmentSize && n'.e.fec == n.e.fec
    && n'.e.reliable == n.e.reliable
    && (forall k :: k in n.submitted ==> k in n'.submitted && n'.submitted[k] == n.submitted[k])
    && n.wire <= n'.wire
  }

  lemma SamePackets(e: Endpoint, e': Endpoint, payload: Bytes, id: int, slots: seq<Slot>)
    requires e'.codec == e.codec && e'.role == e.role && e'.fragmentSize == e.fragmentSize && e'.fec == e.fec
    requires CanSend(e, payload, id, slots)
    ensures CanSend(e', payload, id, slots) && MessagePackets(e', payload, id, slots) == MessagePackets(e, payload, id, slots)
  {
    hide FragmentsOf, SealAll, DataFrames, EncodeGuards, Lawful;
  }

  lemma WholeOnward(n: Node, n': Node, id: int, packets: seq<Bytes>)
    requires Onward(n, n') && Whole(n, id, packets)
    ensures Whole(n', id, packets)
  {
    hide MessagePackets, CanSend;
    var slots :| SealedAs(n.e, n.submitted, id, packets, slots);
    SamePackets(n.e, n'.e, n.submitted[Key(n.e.codec.session, id)].payload, id, slots);
    assert SealedAs(n'.e, n'.submitted, id, packets, slots);
  }

  /** Every message that the new sender holds was held before under the same id with the same packets; and one
      that is newly in flight has gone out. */
  ghost predicate HeldFrom(s: Sender, s': Sender, out: set<Bytes>) {
    && (forall i :: 0 <= i < |s'.queue| ==> Queued(s, s'.queue[i].id, s'.queue[i].packets))
    && (forall id :: id in s'.pending.items ==>
          || (id in s.pending.items && s.pending.items[id].packets == s'.pending.items[id].packets)
          || (Queued(s, id, s'.pending.items[id].packets) && AllOn(out, s'.pending.items[id].packets)))
  }

  ghost predicate Queued(s: Sender, id: int, packets: seq<Bytes>) {
    exists i :: 0 <= i < |s.queue| && s.queue[i].id == id && s.queue[i].packets == packets
  }

  lemma QueuedWhole(n: Node, id: int, packets: seq<Bytes>)
    requires QueueWhole(n) && Queued(n.e.sender, id, packets)
    ensures Whole(n, id, packets)
  {
    hide Whole;
  }

  lemma AllOnMore(wire: set<Bytes>, more: set<Bytes>, packets: seq<Bytes>)
    requires wire <= more && AllOn(wire, packets)
    ensures AllOn(more, packets)
  {
  }

  /** Steps that leave the process as it is but for its sender, and only add to the wire. */
  lemma HeldKeeps(n: Node, n': Node, out: set<Bytes>)
    requires WireInv(n) && Onward(n, n') && HeldFrom(n.e.sender, n'.e.sender, out) && out <= n'.wire
    requires !n.e.reliable ==> forall id :: id in n'.built ==> BuiltOut(n', id)
    ensures WireInv(n')
  {
    hide Whole, AllOn, BuiltOut, Onward, Queued, QueueWhole;
    forall i | 0 <= i < |n'.e.sender.queue|
      ensures Whole(n', n'.e.sender.queue[i].id, n'.e.sender.queue[i].packets)
    {
      QueuedWhole(n, n'.e.sender.queue[i].id, n'.e.sender.queue[i].packets);
      WholeOnward(n, n', n'.e.sender.queue[i].id, n'.e.sender.queue[i].packets);
    }
    forall id | id in n'.e.sender.pending.items
      ensures FlightOut(n', id)
    {
      var packets := n'.e.sender.pending.items[id].packets;
      if id in n.e.sender.pending.items && n.e.sender.pending.items[id].packets == packets {
        assert FlightOut(n, id);
        WireGrows(n, n');
        AllOnMore(n.wire, n'.wire, packets);
      } else {
        QueuedWhole(n, id, packets);
        AllOnMore(out, n'.wire, packets);
      }
      WholeOnward(n, n', id, packets);
    }
    assert QueueWhole(n') by {
      QueueOf(n');
    }
    OnwardReliable(n, n');
  }

  lemma WireGrows(n: Node, n': Node)
    requires Onward(n, n')
    ensures n.wire <= n'.wire
  {
  }

  lemma OnwardReliable(n: Node, n': Node)
    requires Onward(n, n')
    ensures n'.e.reliable == n.e.reliable
  {
  }

  lemma QueueOf(n: Node)
    requires forall i :: 0 <= i < |n.e.sender.queue| ==> Whole(n, n.e.sender.queue[i].id, n.e.sender.queue[i].packets)
    ensures QueueWhole(n)
  {
    hide Whole;
  }

  lemma SameHeld(s: Sender)
    ensures HeldFrom(s, s, {})
  {
  }

  lemma AckHeld(s: Sender, id: int)
    ensures HeldFrom(s, Acknowledge(s, id).1, {})
  {
    hide Grow, WithoutAll;
  }

  // ----------------------------------------------------------------------------------------- a pump

  ghost predicate SentOut(es: seq<Emission>, packets: seq<Bytes>) {
    exists i :: 0 <= i < |es| && es[i].packets == packets
  }

  /** What is emitted goes on the wire, every packet of it. */
  lemma EmittedOn(es: seq<Emission>, out: seq<Outbound>, packets: seq<Bytes>)
    requires OutInOrder(es, out) && SentOut(es, packets)
    ensures AllOn(Payloads(out), packets)
  {
    hide Offset;
    var k :| 0 <= k < |es| && es[k].packets == packets;
    forall j | 0 <= j < |packets|
      ensures packets[j] in Payloads(out)
    {
      assert PlacedAt(out, Offset(es, k) + j, es[k].packets[j], es[k].retransmission);
      assert out[Offset(es, k) + j] in out;
    }
  }

  lemma {:induction false} SweepHeld(s: Sender, ids: seq<int>, now: real)
    ensures var s' := Sweep(s, ids, now).0;
            && s'.queue == s.queue
            && (forall id :: id in s'.pending.items ==> id in s.pending.items && s'.pending.items[id].packets == s.pending.items[id].packets)
  {
    hide Due, Halve, WithoutAll;
    if ids != [] {
      SweepHeld(s, ids[..|ids| - 1], now);
    }
  }

  lemma {:induction false} LaunchHeld(s: Sender, window: int, now: real)
    ensures var (s', es) := Launch(s, window, now);
            && (forall i :: 0 <= i < |s'.queue| ==> Queued(s, s'.queue[i].id, s'.queue[i].packets))
            && (forall id :: id in s'.pending.items ==>
                  || (id in s.pending.items && s.pending.items[id].packets == s'.pending.items[id].packets)
                  || (Queued(s, id, s'.pending.items[id].packets) && SentOut(es, s'.pending.items[id].packets)))
    decreases |s.queue|
  {
    if s.queue != [] && |s.pending.items| < window {
      var (s1, e) := LaunchOne(s, now);
      LaunchHeld(s1, window, now);
      var (s', es) := Launch(s1, window, now);
      forall id, packets | Queued(s1, id, packets)
        ensures Queued(s, id, packets)
      {
        var i :| 0 <= i < |s1.queue| && s1.queue[i].id == id && s1.queue[i].packets == packets;
        assert s.queue[i + 1] == s1.queue[i];
      }
      forall packets | SentOut(es, packets)
        ensures SentOut([e] + es, packets)
      {
        var i :| 0 <= i < |es| && es[i].packets == packets;
        assert ([e] + es)[i + 1] == es[i];
      }
      assert Queued(s, e.id, e.packets);
      assert ([e] + es)[0] == e;
      assert SentOut([e] + es, e.packets);
      hide Queued, SentOut, Launch;
    }
  }

  lemma SentLater(sent: seq<Emission>, launched: seq<Emission>, packets: seq<Bytes>)
    requires SentOut(launched, packets)
    ensures SentOut(sent + launched, packets)
  {
    var i :| 0 <= i < |launched| && launched[i].packets == packets;
    assert (sent + launched)[|sent| + i] == launched[i];
  }

  lemma PumpHeld(s: Sender, now: real)
    ensures var (s', es, _) := Pump(s, now); HeldFrom(s, s', Payloads(Packets(es)))
  {
    hide Sweep, Launch, LaunchWindow, Packets, Queued, SentOut, AllOn, OutInOrder;
    var (s1, sent, gone) := Sweep(s, s.pending.order, now);
    SweepHeld(s, s.pending.order, now);
    LaunchHeld(s1, LaunchWindow(s1), now);
    var (s', launched) := Launch(s1, LaunchWindow(s1), now);
    SameQueued(s, s1);
    PacketsInOrder(sent + launched);
    forall id | id in s'.pending.items && SentOut(launched, s'.pending.items[id].packets)
      ensures AllOn(Payloads(Packets(sent + launched)), s'.pending.items[id].packets)
    {
      SentLater(sent, launched, s'.pending.items[id].packets);
      EmittedOn(sent + launched, Packets(sent + launched), s'.pending.items[id].packets);
    }
  }

  lemma SameQueued(s: Sender, s1: Sender)
    requires s1.queue == s.queue
    ensures forall id, packets :: Queued(s1, id, packets) <==> Queued(s, id, packets)
  {
  }

  // -------------------------------------------------------------------------------------- the events

  /** Nothing built, submitted or sent, and the same sender in the same process. */
  ghost predicate Still(n: Node, n': Node) {
    && n'.e.codec == n.e.codec && n'.e.role == n.e.role && n'.e.fragmentSize == n.e.fragmentSize && n'.e.fec == n.e.fec
    && n'.e.reliable == n.e.reliable && n'.submitted == n.submitted && n'.built == n.built && n'.wire == n.wire
  }

  lemma StillOnward(n: Node, n': Node)
    requires Still(n, n')
    ensures Onward(n, n')
    ensures WireInv(n) && !n.e.reliable ==> forall id :: id in n'.built ==> BuiltOut(n', id)
  {
    hide QueueWhole, FlightOut, EncodeGuards, Seal;
  }

  lemma StillKeeps(n: Node, n': Node)
    requires WireInv(n) && Still(n, n') && HeldFrom(n.e.sender, n'.e.sender, {})
    ensures WireInv(n')
  {
    hide *;
    StillOnward(n, n');
    NothingWithin(n'.wire);
    HeldKeeps(n, n', {});
  }

  lemma NothingWithin(wire: set<Bytes>)
    ensures {} <= wire
  {
  }

  lemma IdleKeeps(n: Node, n': Node)
    requires WireInv(n) && Still(n, n') && n'.e.sender == n.e.sender
    ensures WireInv(n')
  {
    hide *;
    SameHeld(n.e.sender);
    StillKeeps(n, n');
  }

  lemma CountersStill(n: Node)
    ensures Still(n, n.(numbers := n.numbers.Draw())) && Still(n, n.(ids := n.ids.Draw()))
    ensures Still(n, n.(e := n.e.(innerKnown := true))) && n.e.(innerKnown := true).sender == n.e.sender
  {
  }

  lemma EmitOnward(n: Node, f: Frame)
    requires EncodeGuards(f).Ok?
    ensures var n' := Emit(n, f);
            && Onward(n, n') && n'.e.sender == n.e.sender
            && (forall id :: id in n'.built ==> BuiltOut(n', id) || (id in n.built && n'.built[id] == n.built[id]))
            && (forall id :: id in n.built && BuiltOut(n, id) && id in n'.built && n'.built[id] == n.built[id] ==> BuiltOut(n', id))
  {
    hide EncodeGuards, Seal;
  }

  lemma EmitKeeps(n: Node, f: Frame)
    requires WireInv(n) && EncodeGuards(f).Ok?
    ensures WireInv(Emit(n, f))
  {
    EmitOnward(n, f);
    SameHeld(n.e.sender);
    NothingWithin(Emit(n, f).wire);
    hide HeldFrom, Onward, Emit, QueueWhole, FlightOut, EncodeGuards, BuiltOut;
    HeldKeeps(n, Emit(n, f), {});
  }

  lemma OwedStill(n: Node, owed: multiset<Reply>)
    ensures Still(n, n.(owed := owed))
  {
  }

  lemma AnswerKeeps(n: Node, reply: Reply, slot: Slot)
    requires WireInv(n) && EndpointInv(n.e) && CanAnswer(n, reply, slot)
    ensures WireInv(AnswerStep(n, reply, slot))
  {
    hide *;
    AnswerParts(n, reply, slot);
    var f := ReplyFrame(n.e.codec, n.e.role, reply, slot);
    EmitKeeps(n, f);
    OwedStill(Emit(n, f), n.owed - multiset{reply});
    IdleKeeps(Emit(n, f), AnswerStep(n, reply, slot));
  }

  lemma RecordStill(n: Node, f: Frame, now: real)
    requires EndpointInv(n.e) && f.WellFormed() && f.session >= 0
    ensures var (r, e) := Handle(n.e, f, now);
            && Still(n, Record(n, f, r, e)) && Record(n, f, r, e).e == e
            && HeldFrom(n.e.sender, e.sender, {})
  {
    HandleConfig(n.e, f, now);
    hide Handle, EndpointInv, Acknowledge, HeldFrom, Owed, TakenOut;
    var e := Handle(n.e, f, now).1;
    if e.sender == n.e.sender {
      SameHeld(n.e.sender);
    } else {
      var id :| e.sender == Acknowledge(n.e.sender, id).1;
      AckHeld(n.e.sender, id);
    }
  }

  lemma ArriveKeeps(n: Node, packet: Bytes, wall: int, now: real)
    requires WireInv(n) && EndpointInv(n.e)
    ensures WireInv(ArriveStep(n, packet, wall, now))
  {
    hide *;
    ArriveParts(n, packet, wall, now);
    var d := Decode(n.e.codec, packet, wall);
    if d.Ok? {
      SessionPositive(n, packet, wall);
      RecordStill(n, d.value, now);
      HandleStepIs(n, d.value, now);
      StillKeeps(n, HandleStep(n, d.value, now));
    }
  }

  lemma SessionPositive(n: Node, packet: Bytes, wall: int)
    requires EndpointInv(n.e) && Decode(n.e.codec, packet, wall).Ok?
    ensures Decode(n.e.codec, packet, wall).value.session >= 0
  {
    EncodeDecode(n.e.codec, packet, wall);
    hide Decode, Seal, SenderInv, TableInv, Lawful;
  }

  lemma PumpedOnward(n: Node, now: real)
    requires EndpointInv(n.e) && n.e.reliable
    ensures var n' := PumpedStep(n, now);
            && Onward(n, n') && n'.e.sender == Pump(n.e.sender, now).0
            && Payloads(Packets(Pump(n.e.sender, now).1)) <= n'.wire
  {
    TickParts(n.e, now);
    hide Tick, Pump, Purge, EndpointInv, Packets, Payloads;
  }

  lemma PumpedKeeps(n: Node, now: real)
    requires WireInv(n) && EndpointInv(n.e)
    ensures WireInv(PumpedStep(n, now))
  {
    if n.e.reliable {
      hide *;
      PumpedOnward(n, now);
      PumpHeld(n.e.sender, now);
      OnwardReliable(n, PumpedStep(n, now));
      HeldKeeps(n, PumpedStep(n, now), Payloads(Packets(Pump(n.e.sender, now).1)));
    } else {
      assert PumpedStep(n, now).wire == n.wire;
      hide WireInv, EndpointInv;
      assert PumpedStep(n, now) == n;
    }
  }

  lemma RebootKeeps(n: Node, session: int, window: nat, kept: nat, restored: Window, last: nat, lastId: nat)
    requires WireInv(n) && CanReboot(n, session, window, kept, restored)
    ensures WireInv(RebootStep(n, session, window, kept, restored, last, lastId))
  {
    hide Whole, FlightOut, EncodeGuards, Seal, Represents;
    var n' := RebootStep(n, session, window, kept, restored, last, lastId);
    forall id | !n.e.reliable && id in n'.built
      ensures BuiltOut(n', id)
    {
      assert BuiltOut(n, id);
    }
  }

  // --------------------------------------------------------------------------------- a submission

  /** What a submission does to the process and its books. */
  lemma SubmitParts(n: Node, payload: Bytes, messageId: nat, slots: seq<Slot>, now: real)
    requires EndpointInv(n.e) && CanSubmit(n, payload, messageId, slots)
    ensures CanSend(n.e, payload, messageId, slots)
    ensures var n' := SubmitStep(n, payload, messageId, slots, now);
            var m := Message(payload, n.e.fragmentSize, n.e.fec);
            var packets := MessagePackets(n.e, payload, messageId, slots);
            && n'.submitted == n.submitted[Key(n.e.codec.session, messageId) := m]
            && n'.built == n.built + Bundle(DataFrames(n.e.codec, n.e.role.DataOut(), messageId, m.Specs(), slots))
            && n'.e.codec == n.e.codec && n'.e.role == n.e.role && n'.e.fragmentSize == n.e.fragmentSize && n'.e.fec == n.e.fec
            && n'.e.reliable == n.e.reliable
            && n.wire <= n'.wire
            && (if n.e.reliable then n'.e.sender == Enqueue(n.e.sender, messageId, packets, now).1
                else n'.e.sender == n.e.sender && AllOn(n'.wire, packets))
  {
    hide SenderInv, TableInv, MessagePackets, Enqueue, Bundle, DataFrames, FragmentsOf, Lawful;
  }

  lemma QueuedOne(s: Sender, id: int, packets: seq<Bytes>, now: real)
    ensures var s' := Enqueue(s, id, packets, now).1;
            && s'.pending == s.pending
            && (forall i :: 0 <= i < |s'.queue| ==>
                  Queued(s, s'.queue[i].id, s'.queue[i].packets) || (s'.queue[i].id == id && s'.queue[i].packets == packets))
  {
    var s' := Enqueue(s, id, packets, now).1;
    forall i | 0 <= i < |s.queue|
      ensures Queued(s, s.queue[i].id, s.queue[i].packets)
    {
    }
    hide Queued, Sending.Known;
  }

  lemma SubmittedWhole(n: Node, payload: Bytes, messageId: nat, slots: seq<Slot>, now: real)
    requires EndpointInv(n.e) && CanSubmit(n, payload, messageId, slots)
    ensures CanSend(n.e, payload, messageId, slots)
    ensures Whole(SubmitStep(n, payload, messageId, slots, now), messageId, MessagePackets(n.e, payload, messageId, slots))
  {
    SubmitParts(n, payload, messageId, slots, now);
    var n' := SubmitStep(n, payload, messageId, slots, now);
    hide SubmitStep, EndpointInv, CanSubmit, MessagePackets, Bundle, DataFrames, Enqueue, AllOn, CanSend;
    SamePackets(n.e, n'.e, payload, messageId, slots);
    assert SealedAs(n'.e, n'.submitted, messageId, MessagePackets(n.e, payload, messageId, slots), slots);
  }

  lemma SubmitOnward(n: Node, payload: Bytes, messageId: nat, slots: seq<Slot>, now: real)
    requires EndpointInv(n.e) && NumbersOk(n) && CanSubmit(n, payload, messageId, slots)
    ensures Onward(n, SubmitStep(n, payload, messageId, slots, now))
  {
    hide *;
    SubmitParts(n, payload, messageId, slots, now);
    BookedIs(n, payload, messageId, slots);
    DrawnFresh(n, slots);
    OneMoreOnward(n, SubmitStep(n, payload, messageId, slots, now), Key(n.e.codec.session, messageId),
                  Message(payload, n.e.fragmentSize, n.e.fec));
  }

  lemma OneMoreOnward(n: Node, n': Node, key: Key, m: Message)
    requires n'.submitted == n.submitted[key := m] && key !in n.submitted && n.wire <= n'.wire
    requires n'.e.codec == n.e.codec && n'.e.role == n.e.role && n'.e.fragmentSize == n.e.fragmentSize && n'.e.fec == n.e.fec
    requires n'.e.reliable == n.e.reliable
    ensures Onward(n, n')
  {
  }

  /** Without reliability the packets of a submission go out at once. */
  lemma SubmitBuilt(n: Node, payload: Bytes, messageId: nat, slots: seq<Slot>, now: real, id: FrameId)
    requires EndpointInv(n.e) && NumbersOk(n) && CanSubmit(n, payload, messageId, slots) && !n.e.reliable
    requires forall k :: k in n.built ==> BuiltOut(n, k)
    requires id in SubmitStep(n, payload, messageId, slots, now).built
    ensures BuiltOut(SubmitStep(n, payload, messageId, slots, now), id)
  {
    var m := Message(payload, n.e.fragmentSize, n.e.fec);
    var frames := DataFrames(n.e.codec, n.e.role.DataOut(), messageId, m.Specs(), slots);
    SubmitParts(n, payload, messageId, slots, now);
    PacketsAre(n, payload, messageId, slots);
    BundleHas(frames, id);
    hide SubmitStep, EndpointInv, NumbersOk, MessagePackets, Bundle, DataFrames, Enqueue, CanSend, EncodeGuards, Seal, CanSubmit;
    if id in Bundle(frames) {
      var i :| 0 <= i < |frames| && IdOf(frames[i]) == id && Bundle(frames)[id] == frames[i];
    } else {
      assert BuiltOut(n, id);
    }
  }

  lemma SubmitKeeps(n: Node, payload: Bytes, messageId: nat, slots: seq<Slot>, now: real)
    requires WireInv(n) && EndpointInv(n.e) && NumbersOk(n) && CanSubmit(n, payload, messageId, slots)
    ensures WireInv(SubmitStep(n, payload, messageId, slots, now))
  {
    var n' := SubmitStep(n, payload, messageId, slots, now);
    SubmitParts(n, payload, messageId, slots, now);
    SubmitOnward(n, payload, messageId, slots, now);
    SubmittedWhole(n, payload, messageId, slots, now);
    var packets := MessagePackets(n.e, payload, messageId, slots);
    if n.e.reliable {
      hide *;
      QueuedOne(n.e.sender, messageId, packets, now);
      SubmitReliable(n, n', messageId, packets);
    } else {
      assert forall id :: id in n.built ==> BuiltOut(n, id);
      forall id | id in n'.built
        ensures BuiltOut(n', id)
      {
        SubmitBuilt(n, payload, messageId, slots, now, id);
      }
      hide *;
      SameHeld(n.e.sender);
      NothingWithin(n'.wire);
      HeldKeeps(n, n', {});
    }
  }

  lemma SubmitReliable(n: Node, n': Node, id: int, packets: seq<Bytes>)
    requires WireInv(n) && Onward(n, n') && n.e.reliable && n'.e.sender.pending == n.e.sender.pending && Whole(n', id, packets)
    requires forall i :: 0 <= i < |n'.e.sender.queue| ==>
               Queued(n.e.sender, n'.e.sender.queue[i].id, n'.e.sender.queue[i].packets)
               || (n'.e.sender.queue[i].id == id && n'.e.sender.queue[i].packets == packets)
    ensures WireInv(n')
  {
    hide Whole, AllOn, BuiltOut, Onward, Queued, QueueWhole;
    forall i | 0 <= i < |n'.e.sender.queue|
      ensures Whole(n', n'.e.sender.queue[i].id, n'.e.sender.queue[i].packets)
    {
      var t := n'.e.sender.queue[i];
      if Queued(n.e.sender, t.id, t.packets) {
        QueuedWhole(n, t.id, t.packets);
        WholeOnward(n, n', t.id, t.packets);
      }
    }
    forall k | k in n'.e.sender.pending.items
      ensures FlightOut(n', k)
    {
      var held := n.e.sender.pending.items[k].packets;
      assert FlightOut(n, k);
      WholeOnward(n, n', k, held);
      WireGrows(n, n');
      AllOnMore(n.wire, n'.wire, held);
    }
    QueueOf(n');
    OnwardReliable(n, n');
  }

  // ------------------------------------------------------------------------------------- whole runs

  lemma NodeStepKeeps(n: Node, incoming: set<Bytes>, ev: Event)
    requires WireInv(n) && EndpointInv(n.e) && NumbersOk(n)
    ensures WireInv(NodeStep(n, incoming, ev))
  {
    hide *;
    match ev
    case Draw =>
      CountersStill(n);
      DrawIs(n, incoming);
      IdleKeeps(n, NodeStep(n, incoming, ev));
    case DrawId =>
      CountersStill(n);
      DrawIdIs(n, incoming);
      IdleKeeps(n, NodeStep(n, incoming, ev));
    case Learn =>
      CountersStill(n);
      LearnIs(n, incoming);
      IdleKeeps(n, NodeStep(n, incoming, ev));
    case Submit(payload, messageId, slots, now) =>
      SubmitIs(n, incoming, payload, messageId, slots, now);
      if CanSubmit(n, payload, messageId, slots) {
        SubmitKeeps(n, payload, messageId, slots, now);
      }
    case Pumped(now) =>
      PumpedIs(n, incoming, now);
      PumpedKeeps(n, now);
    case Ping(slot) =>
      PingIs(n, incoming, slot);
      if CanPing(n, slot) {
        EmitKeeps(n, ControlFrame(n.e.codec, PING, [], slot));
      }
    case Arrive(packet, wall, now) =>
      ArriveIs(n, incoming, packet, wall, now);
      ArriveKeeps(n, packet, wall, now);
    case Answer(reply, slot) =>
      AnswerIs(n, incoming, reply, slot);
      if CanAnswer(n, reply, slot) {
        AnswerKeeps(n, reply, slot);
      }
    case Reboot(session, window, kept, restored, last, lastId) =>
      RebootIs(n, incoming, session, window, kept, restored, last, lastId);
      if CanReboot(n, session, window, kept, restored) {
        RebootKeeps(n, session, window, kept, restored, last, lastId);
      }
  }

  lemma NewbornWire(n: Node)
    requires Newborn(n)
    ensures WireInv(n)
  {
    hide EndpointInv, Fresh, EmptyTable, Whole;
  }

  lemma StartNewborn(s: System)
    requires Start(s)
    ensures Newborn(s.x) && Newborn(s.y)
  {
    hide Newborn, Paired;
  }

  lemma SysParts(s: System)
    requires SysInv(s)
    ensures EndpointInv(s.x.e) && NumbersOk(s.x) && EndpointInv(s.y.e) && NumbersOk(s.y)
  {
    hide EndpointInv, NumbersOk, PairInv, DebtsOk, OutcomesOk;
  }

  lemma StepIs(s: System, m: Move)
    requires SysInv(s)
    ensures EndpointInv(s.x.e) && EndpointInv(s.y.e)
    ensures Step(s, m) == match m
                          case OnX(ev) => s.(x := NodeStep(s.x, s.y.wire, ev))
                          case OnY(ev) => s.(y := NodeStep(s.y, s.x.wire, ev))
  {
    hide NodeStep, PairInv, BooksInv, EndpointInv;
  }

  lemma StepWire(s: System, m: Move)
    requires SysInv(s) && WireInv(s.x) && WireInv(s.y)
    ensures WireInv(Step(s, m).x) && WireInv(Step(s, m).y)
  {
    hide *;
    SysParts(s);
    StepIs(s, m);
    match m
    case OnX(ev) => NodeStepKeeps(s.x, s.y.wire, ev);
    case OnY(ev) => NodeStepKeeps(s.y, s.x.wire, ev);
  }

  lemma {:induction false} RunWire(s: System, moves: seq<Move>)
    requires Start(s)
    ensures WireInv(Exec(s, moves).x) && WireInv(Exec(s, moves).y)
  {
    hide WireInv, Step, SysInv, Start;
    if moves == [] {
      StartNewborn(s);
      NewbornWire(s.x);
      NewbornWire(s.y);
    } else {
      RunWire(s, moves[..|moves| - 1]);
      StepWire(Exec(s, moves[..|moves| - 1]), moves[|moves| - 1]);
    }
  }

  /** The message in flight under this id is a submitted one, its packets are all of its fragments, sealed, and
      all of them are on the wire. */
  ghost predicate InFlightSent(n: Node, id: int) {
    id in n.e.sender.pending.items ==>
      exists slots :: SealedAs(n.e, n.submitted, id, n.e.sender.pending.items[id].packets, slots)
                      && AllOn(n.wire, n.e.sender.pending.items[id].packets)
  }

  lemma SentOf(n: Node, id: int)
    requires WireInv(n)
    ensures InFlightSent(n, id)
  {
    hide QueueWhole, BuiltOut, SealedAs, AllOn;
    if id in n.e.sender.pending.items {
      assert FlightOut(n, id);
    }
  }

  /** Over every run, each message in flight has all its packets on the wire, one for each fragment of what was
      submitted under its id. */
  lemma InFlightOnWire(s: System, moves: seq<Move>, id: int)
    requires Start(s)
    ensures InFlightSent(Exec(s, moves).x, id) && InFlightSent(Exec(s, moves).y, id)
  {
    hide *;
    RunWire(s, moves);
    SentOf(Exec(s, moves).x, id);
    SentOf(Exec(s, moves).y, id);
  }

  /** The packet decodes at the other side, whenever it is in time there, to this fragment of this message. */
  ghost predicate Brings(d: Codec, packet: Bytes, key: Key, spec: FragmentSpec) {
    exists timestamp :: BringsStamped(d, packet, timestamp, key, spec)
  }

  ghost predicate BringsStamped(d: Codec, packet: Bytes, timestamp: int, key: Key, spec: FragmentSpec) {
    forall wall :: DecodesWhen(d, packet, timestamp, wall, key, spec)
  }

  ghost predicate DecodesWhen(d: Codec, packet: Bytes, timestamp: int, wall: int, key: Key, spec: FragmentSpec) {
    InTime(d, timestamp, wall) ==>
      var r := Decode(d, packet, wall);
      r.Ok? && r.value.timestamp == timestamp && KeyOf(r.value) == key && CarriesSpec(r.value, spec)
  }

  lemma PacketBrings(e: Endpoint, payload: Bytes, id: int, slots: seq<Slot>, specs: seq<FragmentSpec>, j: nat, d: Codec)
    requires CanSend(e, payload, id, slots) && SameTunnel(d, e.codec) && CutOf(payload, e.fragmentSize, e.fec, specs) && j < |specs|
    ensures |MessagePackets(e, payload, id, slots)| == |specs| == |slots|
    ensures Brings(d, MessagePackets(e, payload, id, slots)[j], Key(e.codec.session, id), specs[j])
  {
    var packets := MessagePackets(e, payload, id, slots);
    hide *;
    PacketCarries(e, payload, id, slots, specs, j, d, 0);
    var timestamp := slots[j].timestamp;
    forall wall
      ensures DecodesWhen(d, packets[j], timestamp, wall, Key(e.codec.session, id), specs[j])
    {
      PacketCarries(e, payload, id, slots, specs, j, d, wall);
      DecodesOf(d, packets[j], timestamp, wall, Key(e.codec.session, id), specs[j]);
    }
    BringsOf(d, packets[j], timestamp, Key(e.codec.session, id), specs[j]);
  }

  lemma DecodesOf(d: Codec, packet: Bytes, timestamp: int, wall: int, key: Key, spec: FragmentSpec)
    requires Decode(d, packet, wall).Ok? <==> InTime(d, timestamp, wall)
    requires var r := Decode(d, packet, wall); r.Ok? ==> r.value.timestamp == timestamp && KeyOf(r.value) == key && CarriesSpec(r.value, spec)
    ensures DecodesWhen(d, packet, timestamp, wall, key, spec)
  {
    hide Decode, CarriesSpec, InTime;
  }

  lemma BringsOf(d: Codec, packet: Bytes, timestamp: int, key: Key, spec: FragmentSpec)
    requires forall wall :: DecodesWhen(d, packet, timestamp, wall, key, spec)
    ensures Brings(d, packet, key, spec)
  {
    hide DecodesWhen;
    assert BringsStamped(d, packet, timestamp, key, spec);
  }

  /** Over every run, while a message is in flight the wire holds, for each fragment that what was submitted is
      cut into, a packet that the other side decodes, whenever it arrives in time, to that fragment of that
      message. */
  lemma InFlightRecoverable(s: System, moves: seq<Move>, id: int, specs: seq<FragmentSpec>, j: nat)
    requires Start(s) && id in Exec(s, moves).x.e.sender.pending.items
    ensures var t := Exec(s, moves);
            var key, packets := Key(t.x.e.codec.session, id), t.x.e.sender.pending.items[id].packets;
            && key in t.x.submitted
            && (CutOf(t.x.submitted[key].payload, t.x.e.fragmentSize, t.x.e.fec, specs) ==>
                  && |packets| == |specs|
                  && (j < |specs| ==> packets[j] in t.x.wire && Brings(t.y.e.codec, packets[j], key, specs[j])))
  {
    hide *;
    var t := Exec(s, moves);
    InFlightOnWire(s, moves, id);
    SameTunnels(t);
    var slots := SlotsOf(t.x, id);
    var key, packets := Key(t.x.e.codec.session, id), t.x.e.sender.pending.items[id].packets;
    if CutOf(t.x.submitted[key].payload, t.x.e.fragmentSize, t.x.e.fec, specs) {
      PacketCount(t.x.e, t.x.submitted[key].payload, id, slots, specs);
      if j < |specs| {
        PacketBrings(t.x.e, t.x.submitted[key].payload, id, slots, specs, j, t.y.e.codec);
      }
    }
  }

  lemma PacketCount(e: Endpoint, payload: Bytes, id: int, slots: seq<Slot>, specs: seq<FragmentSpec>)
    requires CanSend(e, payload, id, slots) && CutOf(payload, e.fragmentSize, e.fec, specs)
    ensures |MessagePackets(e, payload, id, slots)| == |specs|
  {
    CutUnique(payload, e.fragmentSize, e.fec, specs);
    hide FragmentsOf, Seal, EncodeGuards, Lawful, CutOf;
  }

  lemma SlotsOf(n: Node, id: int) returns (slots: seq<Slot>)
    requires InFlightSent(n, id) && id in n.e.sender.pending.items
    ensures var key := Key(n.e.codec.session, id);
            && key in n.submitted && CanSend(n.e, n.submitted[key].payload, id, slots)
            && n.e.sender.pending.items[id].packets == MessagePackets(n.e, n.submitted[key].payload, id, slots)
    ensures forall j :: 0 <= j < |n.e.sender.pending.items[id].packets| ==> n.e.sender.pending.items[id].packets[j] in n.wire
  {
    hide CanSend, MessagePackets;
    slots :| SealedAs(n.e, n.submitted, id, n.e.sender.pending.items[id].packets, slots)
             && AllOn(n.wire, n.e.sender.pending.items[id].packets);
  }

  lemma SameTunnels(s: System)
    requires SysInv(s)
    ensures SameTunnel(s.y.e.codec, s.x.e.codec)
  {
    hide SenderInv, TableInv, FrameOk, Tunnel.Known, StoredKnown, MessageOk, BooksInv, Lawful;
  }

  /** Over every run of a side without reliability, every packet it has ever built has gone on the wire. */
  lemma UnreliableSentAtOnce(s: System, moves: seq<Move>, id: FrameId)
    requires Start(s) && !Exec(s, moves).x.e.reliable && id in Exec(s, moves).x.built
    ensures var x := Exec(s, moves).x;
            EncodeGuards(x.built[id]).Ok? && Seal(x.e.codec.suite, x.built[id]) in x.wire
  {
    RunWire(s, moves);
    hide Exec, QueueWhole, FlightOut, EncodeGuards, Seal, NodeInv, PairInv, BooksInv;
    assert BuiltOut(Exec(s, moves).x, id);
  }
}
