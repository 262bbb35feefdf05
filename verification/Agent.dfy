/** The agent object: counters, replay window, reassembler and sender, driven by the receive loop, the
    application and the periodic pump. Only the two draws are locked in the source, so between the draws of
    one call other threads may draw: `others(i)` is how many numbers they take before the call's i-th. */
module Agents {
  import opened Common
  import opened Frames
  import opened Fragmentation
  import opened Recovery
  import opened Replay
  import opened Reassembly
  import opened Codecs
  import opened Sending
  import opened Endpoints
  import opened Counters

  /** The counter after n draws of one call, with other threads' draws in front of each. */
  function Reach(last: nat, others: nat -> nat, n: nat): (r: nat)
    ensures r >= last + n
  {
    if n == 0 then last else Reach(last, others, n - 1) + others(n - 1) + 1
  }

  /** The slots that n draws of one call obtain. */
  function DrawnSlots(last: nat, others: nat -> nat, clock: nat -> int, n: nat): seq<Slot> {
    seq(n, i requires 0 <= i < n => Slot(Reach(last, others, i + 1), clock(i)))
  }

  lemma {:induction false} ReachGrows(last: nat, others: nat -> nat, i: nat, j: nat)
    requires i <= j
    ensures Reach(last, others, i) + (j - i) <= Reach(last, others, j)
  {
    if i < j {
      ReachGrows(last, others, i, j - 1);
    }
  }

  lemma ReachNone(last: nat, others: nat -> nat)
    ensures Reach(last, others, 0) == last
  {
  }

  lemma ReachStep(last: nat, others: nat -> nat, i: nat)
    ensures Reach(last, others, i + 1) == Reach(last, others, i) + others(i) + 1
  {
  }

  class Agent {
    const codec: Codec
    const role: Role
    const reliable: bool
    const fragmentSize: nat
    const fec: bool
    const replay: ReplayWindow
    const reassembler: Reassembler
    const sender: ReliableSender
    var sequence: nat
    var messageId: nat
    var innerKnown: bool
    /** The frames the replay window has accepted; the numbers that are drawn but not used, most of them by
        other threads; and the frames that this object's calls have sealed. */
    ghost var history: seq<FrameId>
    ghost var out: set<nat>
    ghost var sealed: seq<Frame>

    ghost function State(): Endpoint
      reads this, replay, reassembler, sender
    {
      Endpoint(codec, role, reliable, fragmentSize, fec, innerKnown, sender.s, replay.State(), reassembler.State())
    }

    ghost function Numbers(): Counter
      reads this
    {
      Counter(sequence, out)
    }

    ghost predicate Valid()
      reads this, replay, reassembler, sender
    {
      && EndpointInv(State())
      && Represents(replay.State(), history)
      && OncePerNumber(Numbers(), codec.session, sealed)
    }

    constructor (codec: Codec, role: Role, reliable: bool, fragmentSize: nat, fec: bool,
                 replay: ReplayWindow, reassembler: Reassembler, sender: ReliableSender, sequence: nat, messageId: nat)
      requires codec.Valid() && 256 <= fragmentSize <= MAX_FRAGMENT_PAYLOAD
      requires replay.size >= MIN_SIZE && replay.State() == Fresh(replay.size)
      requires reassembler.Valid() && sender.Valid()
      ensures Valid() && sealed == []
      ensures this.sequence == sequence && this.messageId == messageId && innerKnown == role.Foreign?
      ensures this.replay == replay && this.reassembler == reassembler && this.sender == sender
      ensures State() == Endpoint(codec, role, reliable, fragmentSize, fec, role.Foreign?, sender.s, replay.State(), reassembler.State())
    {
      this.codec, this.role, this.reliable, this.fragmentSize, this.fec := codec, role, reliable, fragmentSize, fec;
      this.replay, this.reassembler, this.sender := replay, reassembler, sender;
      this.sequence, this.messageId, this.innerKnown := sequence, messageId, role.Foreign?;
      history, out, sealed := [], {}, [];
    }

    method NextSequence() returns (q: nat)
      modifies this`sequence, this`out
      ensures q == sequence == old(sequence) + 1
      ensures Numbers() == old(Numbers()).Draw()
    {
      sequence := sequence + 1;
      out := out + {sequence};
      return sequence;
    }

    method NextMessageId() returns (q: nat)
      modifies this`messageId
      ensures q == messageId == old(messageId) + 1
    {
      messageId := messageId + 1;
      return messageId;
    }

    /** Other threads draw n numbers, for frames of their own. */
    method OthersDraw(n: nat)
      requires OncePerNumber(Numbers(), codec.session, sealed)
      modifies this`sequence, this`out
      ensures sequence == old(sequence) + n && OncePerNumber(Numbers(), codec.session, sealed)
    {
      for i := 0 to n
        invariant sequence == old(sequence) + i && OncePerNumber(Numbers(), codec.session, sealed)
      {
        DrawOnce(Numbers(), codec.session, sealed);
        var _ := NextSequence();
      }
    }

    /** Draws one number, after `others` draws by other threads. */
    method DrawAfter(others: nat) returns (q: nat)
      requires OncePerNumber(Numbers(), codec.session, sealed)
      modifies this`sequence, this`out
      ensures q == sequence == old(sequence) + others + 1 && q in out
      ensures OncePerNumber(Numbers(), codec.session, sealed)
    {
      OthersDraw(others);
      DrawOnce(Numbers(), codec.session, sealed);
      q := NextSequence();
    }

    /** The number drawn is used for this frame. */
    ghost method Use(f: Frame)
      requires OncePerNumber(Numbers(), codec.session, sealed)
      requires EncodeGuards(f).Ok? && f.session == codec.session && f.sequence in out
      modifies this`out, this`sealed
      ensures sealed == old(sealed) + [f] && OncePerNumber(Numbers(), codec.session, sealed)
    {
      SealOnce(Numbers(), codec.session, sealed, f);
      out := out - {f.sequence};
      sealed := sealed + [f];
    }

    /** Draws a message id, then one sequence number per fragment, and encodes every fragment once. */
    method BuildDataPackets(payload: Bytes, clock: nat -> int, others: nat -> nat) returns (id: nat, r: Result<seq<Bytes>, FragmentError>)
      requires Valid() && Fits64(messageId + 1) && Fits64(Reach(sequence, others, MAX_FRAGMENTS))
      requires forall i: nat :: Fits64(clock(i))
      modifies this`sequence, this`messageId, this`out, this`sealed
      ensures Valid() && id == messageId == old(messageId) + 1
      ensures |payload| > MAX_MESSAGE_SIZE ==> r == Err(FragmentError.MessageTooLong) && sequence == old(sequence) && sealed == old(sealed)
      ensures |payload| <= MAX_MESSAGE_SIZE ==>
                var m := Message(payload, fragmentSize, fec);
                var slots := DrawnSlots(old(sequence), others, clock, |m.Specs()|);
                && |m.Specs()| <= 236
                && sequence == Reach(old(sequence), others, |m.Specs()|)
                && (forall i :: 0 <= i < |slots| ==> SlotOk(slots[i]))
                && r == Ok(MessagePackets(old(State()), payload, id, slots))
                && sealed == old(sealed) + DataFrames(codec, role.DataOut(), id, m.Specs(), slots)
    {
      hide Represents, OncePerNumber, FragmentsOf, EndpointInv, Chop, MessagePackets, DataFrames;
      ValidCodec(State());
      id := NextMessageId();
      var fragments := FragmentMessage(payload, fragmentSize, fec);
      if fragments.Err? {
        return id, Err(fragments.error);
      }
      ghost var m := Message(payload, fragmentSize, fec);
      SpecCount(m);
      ReachGrows(sequence, others, |m.Specs()|, MAX_FRAGMENTS);
      SlotsOk(sequence, others, clock, |m.Specs()|);
      var packets := EncodeFragments(m, fragments.value, id, clock, others);
      SealedAre(old(State()), m, id, DrawnSlots(old(sequence), others, clock, |fragments.value|), packets);
      return id, Ok(packets);
    }

    method EncodeFragments(ghost m: Message, specs: seq<FragmentSpec>, id: nat, clock: nat -> int, others: nat -> nat)
      returns (packets: seq<Bytes>)
      requires codec.Valid() && m.Valid() && specs == m.Specs() && Fits64(id) && Fits64(Reach(sequence, others, |specs|))
      requires forall i: nat :: Fits64(clock(i))
      requires OncePerNumber(Numbers(), codec.session, sealed)
      modifies this`sequence, this`out, this`sealed
      ensures sequence == Reach(old(sequence), others, |specs|) && |packets| == |specs|
      ensures OncePerNumber(Numbers(), codec.session, sealed)
      ensures var frames := DataFrames(codec, role.DataOut(), id, specs, DrawnSlots(old(sequence), others, clock, |specs|));
              && sealed == old(sealed) + frames
              && forall i :: 0 <= i < |specs| ==> EncodeGuards(frames[i]).Ok? && packets[i] == Seal(codec.suite, frames[i])
    {
      hide FragmentsOf, Encode, Seal, EncodeGuards, Carries, Lawful, OncePerNumber, Chop, Reach, DataFrame;
      ghost var done: seq<Frame> := [];
      ReachNone(sequence, others);
      packets := [];
      for i := 0 to |specs|
        invariant sequence == Reach(old(sequence), others, i) && |packets| == |done| == i
        invariant forall j :: 0 <= j < i ==>
                    && done[j] == DataFrame(codec, role.DataOut(), id, specs[j], Slot(Reach(old(sequence), others, j + 1), clock(j)))
                    && EncodeGuards(done[j]).Ok? && packets[j] == Seal(codec.suite, done[j])
        invariant sealed == old(sealed) + done
        invariant OncePerNumber(Numbers(), codec.session, sealed)
      {
        ReachStep(old(sequence), others, i);
        ReachGrows(old(sequence), others, i + 1, |specs|);
        var packet := EncodeFragment(m, specs[i], id, i, clock(i), others(i));
        done := done + [DataFrame(codec, role.DataOut(), id, specs[i], Slot(sequence, clock(i)))];
        packets := packets + [packet];
      }
      assert done == DataFrames(codec, role.DataOut(), id, specs, DrawnSlots(old(sequence), others, clock, |specs|));
    }

    method EncodeFragment(ghost m: Message, spec: FragmentSpec, id: nat, ghost i: nat, clock: int, others: nat) returns (packet: Bytes)
      requires codec.Valid() && m.Valid() && i < |m.Specs()| && spec == m.Specs()[i] && Fits64(id)
      requires Fits64(clock) && Fits64(sequence + others + 1)
      requires OncePerNumber(Numbers(), codec.session, sealed)
      modifies this`sequence, this`out, this`sealed
      ensures sequence == old(sequence) + others + 1
      ensures OncePerNumber(Numbers(), codec.session, sealed)
      ensures var f := DataFrame(codec, role.DataOut(), id, spec, Slot(sequence, clock));
              sealed == old(sealed) + [f] && EncodeGuards(f).Ok? && packet == Seal(codec.suite, f)
    {
      hide FragmentsOf, Encode, Seal, EncodeGuards, Carries, Lawful, OncePerNumber, Chop;
      var q := DrawAfter(others);
      FragmentPasses(codec, role.DataOut(), id, m, i, Slot(q, clock));
      packet := Encode(codec, DataRequest(role.DataOut(), id, spec, Slot(q, clock))).value;
      Use(DataFrame(codec, role.DataOut(), id, spec, Slot(q, clock)));
    }

    /** One message from the application. The pump and the receive loop may run between building and
        queueing; they do so as calls of their own between `BuildDataPackets` and `Dispatch`. */
    method Send(payload: Bytes, clock: nat -> int, others: nat -> nat, now: real) returns (r: SendResult)
      requires Valid() && Fits64(messageId + 1) && Fits64(Reach(sequence, others, MAX_FRAGMENTS))
      requires forall i: nat :: Fits64(clock(i))
      modifies this, sender
      ensures Valid() && messageId == old(messageId) + 1
      ensures var n := if |payload| <= MAX_MESSAGE_SIZE then |Message(payload, fragmentSize, fec).Specs()| else 0;
              && sequence == Reach(old(sequence), others, n)
              && (forall i :: 0 <= i < n ==> SlotOk(DrawnSlots(old(sequence), others, clock, n)[i]))
              && (r, State()) == SendData(old(State()), payload, messageId, DrawnSlots(old(sequence), others, clock, n), now)
    {
      LearnInner();
      var id, built := BuildDataPackets(payload, clock, others);
      if built.Err? {
        return Invalid(built.error);
      }
      r := Dispatch(id, built.value, now);
    }

    /** A datagram from the application shows where its peer is. */
    method LearnInner()
      requires Valid()
      modifies this`innerKnown
      ensures Valid() && State() == old(State()).(innerKnown := true)
    {
      innerKnown := true;
    }

    /** The packets of one message are queued, or sent at once when reliability is off. */
    method Dispatch(id: nat, packets: seq<Bytes>, now: real) returns (r: SendResult)
      requires Valid()
      modifies sender
      ensures Valid()
      ensures if reliable then
                var (queued, s) := Enqueue(old(sender.s), id, packets, now);
                State() == old(State()).(sender := s) && r == if queued == Queued then Sent([]) else Refused(queued)
              else State() == old(State()) && r == Sent(packets)
    {
      if !reliable {
        return Sent(packets);
      }
      var queued := sender.TryEnqueue(id, packets, now);
      return if queued == Queued then Sent([]) else Refused(queued);
    }

    /** One received packet; a sequence number is drawn only for a reply, after `others` draws by other
        threads. */
    method OnPacket(packet: Bytes, wall: int, now: real, clock: int, others: nat) returns (r: Reaction, packets: seq<Bytes>)
      requires Valid() && Fits64(sequence + others + 1) && Fits64(clock)
      modifies this, replay, reassembler, sender
      ensures Valid() && messageId == old(messageId)
      ensures (r, State()) == Receive(old(State()), packet, wall, now)
      ensures Owed(r).None? ==> sequence == old(sequence) && packets == [] && sealed == old(sealed)
      ensures Owed(r).Some? ==>
                var f := ReplyFrame(codec, role, Owed(r).value, Slot(sequence, clock));
                && sequence == old(sequence) + others + 1
                && EncodeGuards(f).Ok? && packets == [Seal(codec.suite, f)] && sealed == old(sealed) + [f]
    {
      hide EndpointInv, Represents, OncePerNumber, Handle, Decode, Seal, ReplyOk;
      ghost var e := State();
      ValidCodec(e);
      var decoded := Decode(codec, packet, wall);
      if decoded.Err? {
        return Dropped, [];
      }
      EncodeDecode(codec, packet, wall);
      var f := decoded.value;
      OwedOk(e, f, now);
      r := Process(f, now);
      packets := [];
      if Owed(r).Some? {
        var packet := Answer(Owed(r).value, clock, others);
        packets := [packet];
      }
    }

    /** The reply that is owed is encoded and goes out. */
    method Answer(reply: Reply, clock: int, others: nat) returns (packet: Bytes)
      requires Valid() && ReplyOk(reply) && Fits64(sequence + others + 1) && Fits64(clock)
      modifies this`sequence, this`out, this`sealed
      ensures Valid() && State() == old(State()) && sequence == old(sequence) + others + 1
      ensures var f := ReplyFrame(codec, role, reply, Slot(sequence, clock));
              EncodeGuards(f).Ok? && packet == Seal(codec.suite, f) && sealed == old(sealed) + [f]
    {
      hide EndpointInv, Represents, OncePerNumber, Seal, ReplyFrame;
      ValidCodec(State());
      var q := DrawAfter(others);
      ReplyPasses(codec, role, reply, Slot(q, clock));
      var f := ReplyFrame(codec, role, reply, Slot(q, clock));
      packet := Seal(codec.suite, f);
      Use(f);
    }

    method Process(f: Frame, now: real) returns (r: Reaction)
      requires Valid() && f.WellFormed() && f.session >= 0
      modifies this`history, replay, reassembler, sender
      ensures Valid()
      ensures (r, State()) == Handle(old(State()), f, now)
    {
      hide Accept, Add, Purge, Acknowledge, DecodeAck, SenderInv, TableInv, Represents, OncePerNumber;
      ghost var e := State();
      ValidParts(e);
      var ok := replay.TryAccept(f.sequence, f.session, history);
      if ok {
        history := history + [FrameId(f.session, f.sequence)];
      }
      if !ok {
        if f.kind == role.DataIn() {
          var done := reassembler.IsCompleted(f.session, f.messageId, now);
          return Replayed(f, if done then Some(AckOf(f.session, f.messageId)) else None);
        }
        return Replayed(f, None);
      }
      if f.kind == role.AckIn() {
        var ack := DecodeAck(f);
        if ack.Err? {
          return Ignored(f);
        }
        if ack.value.0 != codec.session {
          return Acked(f, false);
        }
        var known, _ := sender.Confirm(ack.value.1, now);
        return Acked(f, known);
      }
      if f.kind == PING && role.Foreign? {
        return Ponged(f, Some(PongTo(f.timestamp)));
      }
      if f.kind != role.DataIn() {
        return Ignored(f);
      }
      var v := reassembler.AddFrame(f, now);
      if !v.Complete? || !innerKnown {
        return Reassembled(f, v, None, None);
      }
      return Reassembled(f, v, Some(v.payload), if reliable then Some(AckOf(f.session, f.messageId)) else None);
    }

    /** The periodic work. */
    method Pulse(now: real) returns (out: seq<Outbound>)
      requires Valid()
      modifies reassembler, sender
      ensures Valid()
      ensures (out, State()) == Tick(old(State()), now)
    {
      if !reliable {
        return [];
      }
      hide Represents, Pump, Packets, OncePerNumber, SenderInv, TableInv, Lawful, Purge, EndpointInv, Tick;
      ghost var e := State();
      ValidParts(e);
      TickParts(e, now);
      var n;
      out, n := sender.PumpNow(now);
      var _ := reassembler.PurgeNow(now);
      assert State() == e.(sender := Pump(e.sender, now).0, table := Purge(e.table, now));
    }

    /** A control frame of the Iran agent's keepalive loop. */
    method KeepAlive(clock: int, others: nat) returns (packet: Bytes)
      requires Valid() && Fits64(sequence + others + 1) && Fits64(clock)
      modifies this`sequence, this`out, this`sealed
      ensures Valid() && State() == old(State()) && sequence == old(sequence) + others + 1
      ensures var f := ControlFrame(codec, PING, [], Slot(sequence, clock));
              EncodeGuards(f).Ok? && packet == Seal(codec.suite, f) && sealed == old(sealed) + [f]
    {
      hide Represents, OncePerNumber;
      ValidCodec(State());
      var q := DrawAfter(others);
      var f := ControlFrame(codec, PING, [], Slot(q, clock));
      packet := Seal(codec.suite, f);
      Use(f);
    }
  }

  lemma SlotsOk(last: nat, others: nat -> nat, clock: nat -> int, n: nat)
    requires Fits64(Reach(last, others, n)) && forall i: nat :: Fits64(clock(i))
    ensures var slots := DrawnSlots(last, others, clock, n); forall i :: 0 <= i < n ==> SlotOk(slots[i])
  {
    forall i | 0 <= i < n
      ensures SlotOk(DrawnSlots(last, others, clock, n)[i])
    {
      ReachGrows(last, others, i + 1, n);
    }
  }

  lemma SpecCount(m: Message)
    requires m.Valid()
    ensures |m.Specs()| <= 236
  {
    CountBound(m.payload, m.fragmentSize);
  }

  lemma SealedAre(e: Endpoint, m: Message, id: int, slots: seq<Slot>, packets: seq<Bytes>)
    requires e.codec.Valid() && m == Message(m.payload, e.fragmentSize, e.fec) && m.Valid() && Fits64(id)
    requires |slots| == |m.Specs()| == |packets| && forall i :: 0 <= i < |slots| ==> SlotOk(slots[i])
    requires var frames := DataFrames(e.codec, e.role.DataOut(), id, m.Specs(), slots);
             forall i :: 0 <= i < |packets| ==> EncodeGuards(frames[i]).Ok? && packets[i] == Seal(e.codec.suite, frames[i])
    ensures packets == MessagePackets(e, m.payload, id, slots)
  {
    hide FragmentsOf, EncodeGuards, Seal, Lawful;
  }

  lemma ValidCodec(e: Endpoint)
    requires EndpointInv(e)
    ensures e.codec.Valid() && 256 <= e.fragmentSize <= MAX_FRAGMENT_PAYLOAD && TableInv(e.table)
  {
  }

  lemma ValidParts(e: Endpoint)
    requires EndpointInv(e)
    ensures TableInv(e.table) && SenderInv(e.sender) && e.replay.size >= MIN_SIZE
  {
  }
}
