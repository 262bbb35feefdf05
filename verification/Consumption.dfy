/** A concrete run in which a message is acknowledged and never forwarded: it completes before the Iran side
    has learned its inner peer, and is acknowledged when its frame arrives again. */
module Consumption {
  import opened Common
  import opened Dicts
  import opened Frames
  import opened Fragmentation
  import opened Recovery
  import opened Replay
  import opened Reassembly
  import opened Lingering
  import opened Codecs
  import opened Sending
  import opened Endpoints
  import opened Counters
  import opened Service
  import opened Tunnel

  const KEY: Key := Key(2, 1)
  const SLOT: Slot := Slot(1, 0)

  ghost function IranCodec(): Codec {
    DefaultNode(Iran, 1).e.codec
  }

  ghost function ForeignCodec(): Codec {
    DefaultNode(Foreign, 2).e.codec
  }

  /** The one frame of an empty message, and its packet. */
  ghost function TheFrame(): Frame {
    DataFrame(ForeignCodec(), DATA_DOWN, 1, FragmentSpec([], 0, 0, 1, 0), SLOT)
  }

  ghost function ThePacket(): Bytes {
    assert EncodeGuards(TheFrame()).Ok?;
    Seal(PlainSuite(), TheFrame())
  }

  ghost function TheAck(): Frame {
    ReplyFrame(IranCodec(), Iran, AckOf(2, 1), SLOT)
  }

  lemma CodecsValid()
    ensures IranCodec().Valid() && ForeignCodec().Valid()
    ensures IranCodec().suite == ForeignCodec().suite == PlainSuite() && IranCodec().tunnelId == ForeignCodec().tunnelId
  {
    LawsCanBeMet();
    hide PlainSuite, Lawful;
  }

  lemma EmptySpecs()
    ensures var m := Message([], 1200, true);
            m.Valid() && m.Specs() == [FragmentSpec([], 0, 0, 1, 0)]
  {
  }

  lemma OnePacket(e: Endpoint)
    requires e == DefaultNode(Foreign, 2).e && EndpointInv(e) && Message([], 1200, true).Valid()
    requires |Message([], 1200, true).Specs()| == 1
    ensures MessagePackets(e, [], 1, [SLOT]) == [ThePacket()]
  {
    EmptySpecs();
    hide FragmentsOf, SenderInv, TableInv, Lawful, Seal, Message.Specs;
  }

  /** The Foreign side submits the message under the first number and the first id. */
  lemma Submitted(n: Node)
    requires n == DefaultNode(Foreign, 2).(numbers := Counter(1, {1}), ids := Counter(1, {1})) && EndpointInv(n.e)
    ensures CanSubmit(n, [], 1, [SLOT])
    ensures SubmitStep(n, [], 1, [SLOT], 0.0).e
         == n.e.(sender := n.e.sender.(queue := [Transmission(1, [ThePacket()], 0.0, None, None, 0)]))
    ensures SubmitStep(n, [], 1, [SLOT], 0.0).acked == {}
  {
    hide FragmentsOf, SenderInv, TableInv, Lawful, MessagePackets, Seal, Bundle, Message.Specs, PlainSuite, ThePacket;
    EmptySpecs();
    OnePacket(n.e);
  }

  lemma LaunchLast(s: Sender, window: int, now: real)
    requires SenderInv(s) && |s.queue| == 1 && s.pending == Dict([], map[]) && window >= 1
    ensures var (s1, e) := LaunchOne(s, now); Launch(s, window, now) == (s1, [e])
  {
    var (s1, e) := LaunchOne(s, now);
    assert Launch(s1, window, now) == (s1, []);
    assert [e] + [] == [e];
  }

  lemma PumpOne(s: Sender, now: real)
    requires SenderInv(s) && |s.queue| == 1 && s.pending == Dict([], map[])
    ensures var (s', es, _) := Pump(s, now);
            var t := s.queue[0];
            es == [Emission(t.id, t.packets, false, now)] && t.id in s'.pending.items
  {
    WindowBound(s);
    LaunchLast(s, LaunchWindow(s), now);
    assert Sweep(s, s.pending.order, now) == (s, [], []);
    hide LaunchWindow, SenderInv, Launch;
    var none: seq<Emission> := [];
    assert none + Launch(s, LaunchWindow(s), now).1 == Launch(s, LaunchWindow(s), now).1;
  }

  lemma FirstOut(id: int, p: Bytes, now: real)
    ensures p in Payloads(Packets([Emission(id, [p], false, now)]))
  {
    var e := Emission(id, [p], false, now);
    PacketsOne(e);
    assert Packets([e])[0] == Outbound(p, false);
    assert Outbound(p, false) in Packets([e]);
  }

  /** The pump puts it on the wire and in flight. */
  lemma PumpedOut(n: Node)
    requires EndpointInv(n.e) && n.e.reliable && n.e.sender.pending == Dict([], map[])
    requires n.e.sender.queue == [Transmission(1, [ThePacket()], 0.0, None, None, 0)]
    ensures var n' := PumpedStep(n, 0.0);
            && ThePacket() in n'.wire && 1 in n'.e.sender.pending.items
            && n'.e.codec == n.e.codec && n'.e.role == n.e.role && n'.e.replay == n.e.replay && n'.acked == n.acked
  {
    PumpOne(n.e.sender, 0.0);
    FirstOut(1, ThePacket(), 0.0);
    hide Pump, TableInv, SenderInv, Lawful, Purge, ThePacket, Packets, Payloads;
  }

  lemma FrameFacts()
    ensures var f := TheFrame();
            && EncodeGuards(f).Ok? && Whole(f) && KeyOf(f) == KEY && f.kind == DATA_DOWN && f.session == 2 && f.messageId == 1
            && f.tunnelId == IranCodec().tunnelId && f.sequence == 1 && f.timestamp == 0
    ensures ThePacket() == Seal(PlainSuite(), TheFrame())
  {
  }

  /** A packet of the same tunnel that arrives in time is handled as the frame it was sealed from. */
  lemma ArrivesAs(n: Node, f: Frame, wall: int, now: real)
    requires EndpointInv(n.e) && EncodeGuards(f).Ok? && f.tunnelId == n.e.codec.tunnelId && f.WellFormed()
    requires -(n.e.codec.skew as int) <= wall - f.timestamp <= n.e.codec.skew
    ensures ArriveStep(n, Seal(n.e.codec.suite, f), wall, now) == HandleStep(n, f, now)
  {
    DecodeSeal(n.e.codec, f, wall);
    hide Seal, Decode, EncodeGuards, HandleStep, SenderInv, TableInv, Lawful, Frame.WellFormed;
  }

  /** The first arrival on the Iran side, which knows no inner peer yet. */
  lemma FirstArrival(n: Node)
    requires n == DefaultNode(Iran, 1) && EndpointInv(n.e) && TheFrame().WellFormed()
    ensures var f := TheFrame();
            && Handle(n.e, f, 0.0).0 == Reassembled(f, Complete([], false), None, None)
            && Represents(n.e.replay, [])
  {
    var f, e := TheFrame(), n.e;
    FrameFacts();
    IranFacts(n);
    hide ThePacket, TheFrame, Seal, EncodeGuards, Decode, SenderInv, TableInv, Lawful, PlainSuite, Frame.WellFormed, IranCodec;
    WholeCompletes(e.table, f, 0.0);
    Unseen(e.replay, f);
    FreshData(e, f, 0.0);
    hide Handle, Add, Accept, Represents;
  }

  lemma RecordedFirst(n: Node, f: Frame, e: Endpoint)
    requires KeyOf(f) == KEY && n.owed == multiset{} && n.forwarded == {}
    ensures var n1 := Record(n, f, Reassembled(f, Complete([], false), None, None), e);
            n1.owed == multiset{} && n1.forwarded == {} && KEY in n1.finished && n1.numbers == n.numbers && n1.e == e
  {
  }

  lemma RecordedAgain(n: Node, f: Frame, e: Endpoint)
    requires n.owed == multiset{} && n.forwarded == {} && KEY in n.finished
    ensures var n1 := Record(n, f, Replayed(f, Some(AckOf(2, 1))), e);
            n1.owed == multiset{AckOf(2, 1)} && n1.forwarded == {} && KEY in n1.finished && n1.numbers == n.numbers && n1.e == e
  {
  }

  /** On the Iran side, which knows no inner peer yet, it completes and is neither forwarded nor acknowledged;
      received again, it is acknowledged. */
  lemma Consumed(n: Node)
    requires n == DefaultNode(Iran, 1) && EndpointInv(n.e)
    ensures var n1 := ArriveStep(n, ThePacket(), 0, 0.0);
            && EndpointInv(n1.e)
            && var n2 := ArriveStep(n1, ThePacket(), 0, 0.0);
            && n2.owed == multiset{AckOf(2, 1)} && n2.forwarded == {} && KEY in n2.finished
            && n2.numbers == n.numbers && n2.e.codec == n.e.codec && n2.e.role == n.e.role
  {
    var f := TheFrame();
    FrameFacts();
    IranFacts(n);
    assert f.WellFormed() && f.session >= 0;
    hide *;
    FirstArrival(n);
    ConsumedThenAcknowledged(n.e, [], f, 0.0, 0.0);
    ArrivesAs(n, f, 0, 0.0);
    HandleStepIs(n, f, 0.0);
    HandleConfig(n.e, f, 0.0);
    var e1 := Handle(n.e, f, 0.0).1;
    RecordedFirst(n, f, e1);
    var n1 := HandleStep(n, f, 0.0);
    ArrivesAs(n1, f, 0, 0.0);
    HandleStepIs(n1, f, 0.0);
    HandleConfig(n1.e, f, 0.0);
    RecordedAgain(n1, f, Handle(e1, f, 0.0).1);
  }

  lemma IranFacts(n: Node)
    requires n == DefaultNode(Iran, 1)
    ensures var e := n.e;
            && e.codec == IranCodec() && e.codec.suite == PlainSuite() && e.role == Iran && !e.innerKnown
            && e.table == START && TableInv(START) && e.replay == Fresh(4096) && e.codec.skew == 600000
            && n.owed == multiset{} && n.forwarded == {}
  {
    hide PlainSuite;
  }

  lemma Unseen(w: Window, f: Frame)
    requires w == Fresh(4096) && f.sequence >= 0
    ensures Represents(w, []) && Accept(w, FrameId(f.session, f.sequence)).0
  {
  }

  /** The acknowledgement goes out. */
  lemma Answered(n: Node)
    requires EndpointInv(n.e) && n.numbers == Counter(0, {}) && n.owed == multiset{AckOf(2, 1)}
    requires n.e.codec == IranCodec() && n.e.role == Iran
    ensures var d := n.(numbers := n.numbers.Draw());
            && CanAnswer(d, AckOf(2, 1), SLOT)
            && EncodeGuards(TheAck()).Ok?
            && ReplyFrame(d.e.codec, d.e.role, AckOf(2, 1), SLOT) == TheAck()
            && Emit(d, TheAck()).wire == n.wire + {Seal(PlainSuite(), TheAck())}
  {
    CodecsValid();
    ReplyPasses(IranCodec(), Iran, AckOf(2, 1), SLOT);
    hide EncodeGuards, Seal, PlainSuite, SenderInv, TableInv, Lawful, DefaultNode;
  }

  lemma AckFacts()
    ensures var f := TheAck();
            && EncodeGuards(f).Ok? && f.WellFormed() && f.tunnelId == ForeignCodec().tunnelId && f.timestamp == 0
            && f.session == 1 && f.sequence == 1 && DecodeAck(f) == Ok((2, 1))
    ensures ForeignCodec().skew == 600000 && ForeignCodec().session == 2 && IranCodec().session == 1
  {
    CodecsValid();
    ReplyPasses(IranCodec(), Iran, AckOf(2, 1), SLOT);
    AckPayload(2, 1);
    hide PlainSuite, Lawful, DecodeAck;
  }

  /** And ends the message on the Foreign side. */
  lemma Accounted(n: Node)
    requires EndpointInv(n.e) && n.e.codec == ForeignCodec() && n.e.role == Foreign
    requires n.e.replay == Fresh(4096) && 1 in n.e.sender.pending.items && EncodeGuards(TheAck()).Ok?
    ensures KEY in ArriveStep(n, Seal(PlainSuite(), TheAck()), 0, 0.0).acked
  {
    CodecsValid();
    AckFacts();
    UnseenAck(n.e.replay);
    hide EncodeGuards, Seal, PlainSuite, EndpointInv, Lawful, DefaultNode, IranCodec, ForeignCodec, Decode, Handle, Accept, DecodeAck,
         Acknowledge, Receive, ArriveStep, Frame.WellFormed;
    AcknowledgementEndsRetransmission(n.e, IranCodec(), 1, SLOT, 0, 0.0);
    hide ReplyFrame, TheAck;
    ReceivedAs(n.e, TheAck(), 0, 0.0);
    ArrivesAs(n, TheAck(), 0, 0.0);
    HandleStepIs(n, TheAck(), 0.0);
    TakenIn(n.e, Handle(n.e, TheAck(), 0.0).1, 1);
  }

  lemma TakenIn(e: Endpoint, e': Endpoint, id: int)
    requires id in e.sender.pending.items && id !in e'.sender.pending.items
    ensures Key(e.codec.session, id) in TakenOut(e, e')
  {
  }

  lemma UnseenAck(w: Window)
    requires w == Fresh(4096)
    ensures Accept(w, FrameId(1, 1)).0
  {
  }

  lemma ForeignFacts()
    ensures ForeignCodec().skew == 600000 && ForeignCodec().session == 2 && IranCodec().session == 1
    ensures DefaultNode(Foreign, 2).e.replay == Fresh(4096) && DefaultNode(Foreign, 2).e.reliable
    ensures DefaultNode(Foreign, 2).e.sender.pending == Dict([], map[]) && DefaultNode(Foreign, 2).e.innerKnown
    ensures DefaultNode(Foreign, 2).e.codec == ForeignCodec() && DefaultNode(Foreign, 2).e.role == Foreign
    ensures DefaultNode(Foreign, 2).acked == {} && DefaultNode(Iran, 1).numbers == Counter(0, {})
    ensures DefaultNode(Foreign, 2).numbers == DefaultNode(Foreign, 2).ids == Counter(0, {})
  {
    hide PlainSuite;
  }

  lemma ExecSnoc(s: System, moves: seq<Move>, m: Move)
    requires Start(s)
    ensures Exec(s, moves + [m]) == Step(Exec(s, moves), m)
  {
    hide Step, SysInv, Start, NodeInv, PairInv, BooksInv;
    assert (moves + [m])[..|moves|] == moves;
  }

  lemma ExecNone(s: System)
    requires Start(s)
    ensures Exec(s, []) == s
  {
    hide Step, SysInv, Start, NodeInv, PairInv, BooksInv;
  }

  lemma StepX(s: System, ev: Event)
    requires SysInv(s)
    ensures EndpointInv(s.x.e) && Step(s, OnX(ev)) == s.(x := NodeStep(s.x, s.y.wire, ev))
  {
    hide NodeStep, PairInv, BooksInv, EndpointInv;
  }

  lemma StepY(s: System, ev: Event)
    requires SysInv(s)
    ensures EndpointInv(s.y.e) && Step(s, OnY(ev)) == s.(y := NodeStep(s.y, s.x.wire, ev))
  {
    hide NodeStep, PairInv, BooksInv, EndpointInv;
  }

  ghost function TheStart(): System {
    System(DefaultNode(Iran, 1), DefaultNode(Foreign, 2))
  }

  /** After moves on one side the other side is as it was. */
  lemma MoveY(moves: seq<Move>, ev: Event)
    requires Start(TheStart())
    ensures var t, t' := Exec(TheStart(), moves), Exec(TheStart(), moves + [OnY(ev)]);
            EndpointInv(t.y.e) && t' == t.(y := NodeStep(t.y, t.x.wire, ev))
  {
    hide NodeStep, SysInv, Step, Start, Exec, EndpointInv;
    ExecSnoc(TheStart(), moves, OnY(ev));
    StepY(Exec(TheStart(), moves), ev);
  }

  lemma MoveX(moves: seq<Move>, ev: Event)
    requires Start(TheStart())
    ensures var t, t' := Exec(TheStart(), moves), Exec(TheStart(), moves + [OnX(ev)]);
            EndpointInv(t.x.e) && t' == t.(x := NodeStep(t.x, t.y.wire, ev))
  {
    hide NodeStep, SysInv, Step, Start, Exec, EndpointInv;
    ExecSnoc(TheStart(), moves, OnX(ev));
    StepX(Exec(TheStart(), moves), ev);
  }

  lemma EndOf(s: System)
    requires SysInv(s)
    ensures EndpointInv(s.x.e) && EndpointInv(s.y.e)
  {
    hide PairInv, BooksInv, EndpointInv;
  }

  lemma MoveSubmit(moves: seq<Move>)
    requires Start(TheStart()) && EndpointInv(Exec(TheStart(), moves).y.e)
    requires CanSubmit(Exec(TheStart(), moves).y, [], 1, [SLOT])
    ensures var t, t' := Exec(TheStart(), moves), Exec(TheStart(), moves + [OnY(Submit([], 1, [SLOT], 0.0))]);
            t'.x == t.x && t'.y == SubmitStep(t.y, [], 1, [SLOT], 0.0)
  {
    hide Start, Exec, EndpointInv, NodeStep, ArriveStep, SubmitStep, PumpedStep, CanSubmit, CanAnswer, ReplyFrame, TheAck, EncodeGuards, Seal,
         DefaultNode, TheStart, Emit;
    SubmitIs(Exec(TheStart(), moves).y, Exec(TheStart(), moves).x.wire, [], 1, [SLOT], 0.0);
    MoveY(moves, Submit([], 1, [SLOT], 0.0));
  }

  lemma MovePumped(moves: seq<Move>)
    requires Start(TheStart())
    ensures var t, t' := Exec(TheStart(), moves), Exec(TheStart(), moves + [OnY(Pumped(0.0))]);
            EndpointInv(t.y.e) && t'.x == t.x && t'.y == PumpedStep(t.y, 0.0)
  {
    hide Start, Exec, EndpointInv, NodeStep, ArriveStep, SubmitStep, PumpedStep, CanSubmit, CanAnswer, ReplyFrame, TheAck, EncodeGuards, Seal,
         DefaultNode, TheStart, Emit;
    EndOf(Exec(TheStart(), moves));
    PumpedIs(Exec(TheStart(), moves).y, Exec(TheStart(), moves).x.wire, 0.0);
    MoveY(moves, Pumped(0.0));
  }

  lemma MoveArriveX(moves: seq<Move>, p: Bytes)
    requires Start(TheStart()) && p in Exec(TheStart(), moves).y.wire
    ensures var t, t' := Exec(TheStart(), moves), Exec(TheStart(), moves + [OnX(Arrive(p, 0, 0.0))]);
            EndpointInv(t.x.e) && t'.y == t.y && t'.x == ArriveStep(t.x, p, 0, 0.0)
  {
    hide Start, Exec, EndpointInv, NodeStep, ArriveStep, SubmitStep, PumpedStep, CanSubmit, CanAnswer, ReplyFrame, TheAck, EncodeGuards, Seal,
         DefaultNode, TheStart, Emit;
    EndOf(Exec(TheStart(), moves));
    ArriveIs(Exec(TheStart(), moves).x, Exec(TheStart(), moves).y.wire, p, 0, 0.0);
    MoveX(moves, Arrive(p, 0, 0.0));
  }

  lemma MoveArriveY(moves: seq<Move>, p: Bytes)
    requires Start(TheStart()) && p in Exec(TheStart(), moves).x.wire
    ensures var t, t' := Exec(TheStart(), moves), Exec(TheStart(), moves + [OnY(Arrive(p, 0, 0.0))]);
            EndpointInv(t.y.e) && t'.x == t.x && t'.y == ArriveStep(t.y, p, 0, 0.0)
  {
    hide Start, Exec, EndpointInv, NodeStep, ArriveStep, SubmitStep, PumpedStep, CanSubmit, CanAnswer, ReplyFrame, TheAck, EncodeGuards, Seal,
         DefaultNode, TheStart, Emit;
    EndOf(Exec(TheStart(), moves));
    ArriveIs(Exec(TheStart(), moves).y, Exec(TheStart(), moves).x.wire, p, 0, 0.0);
    MoveY(moves, Arrive(p, 0, 0.0));
  }

  lemma MoveDrawX(moves: seq<Move>)
    requires Start(TheStart())
    ensures var t, t' := Exec(TheStart(), moves), Exec(TheStart(), moves + [OnX(Draw)]);
            EndpointInv(t.x.e) && t'.y == t.y && t'.x == t.x.(numbers := t.x.numbers.Draw())
  {
    hide Start, Exec, EndpointInv, NodeStep, ArriveStep, SubmitStep, PumpedStep, CanSubmit, CanAnswer, ReplyFrame, TheAck, EncodeGuards, Seal,
         DefaultNode, TheStart, Emit;
    EndOf(Exec(TheStart(), moves));
    DrawIs(Exec(TheStart(), moves).x, Exec(TheStart(), moves).y.wire);
    MoveX(moves, Draw);
  }

  lemma MoveAnswerX(moves: seq<Move>)
    requires Start(TheStart()) && CanAnswer(Exec(TheStart(), moves).x, AckOf(2, 1), SLOT)
    requires var n := Exec(TheStart(), moves).x;
             ReplyFrame(n.e.codec, n.e.role, AckOf(2, 1), SLOT) == TheAck() && EncodeGuards(TheAck()).Ok?
    ensures var t, t' := Exec(TheStart(), moves), Exec(TheStart(), moves + [OnX(Answer(AckOf(2, 1), SLOT))]);
            t'.y == t.y && t'.x.wire == Emit(t.x, TheAck()).wire && t'.x.forwarded == t.x.forwarded && t'.x.finished == t.x.finished
  {
    hide *;
    EndOf(Exec(TheStart(), moves));
    var n := Exec(TheStart(), moves).x;
    AnswerIs(n, Exec(TheStart(), moves).y.wire, AckOf(2, 1), SLOT);
    AnswerParts(n, AckOf(2, 1), SLOT);
    EmitParts(n, TheAck());
    MoveX(moves, Answer(AckOf(2, 1), SLOT));
  }

  const DRAWS: seq<Move> := [OnY(DrawId)] + [OnY(Draw)]

  lemma AfterDraws()
    requires Start(TheStart())
    ensures var t := Exec(TheStart(), DRAWS);
            && EndpointInv(t.y.e) && t.x == DefaultNode(Iran, 1)
            && t.y == DefaultNode(Foreign, 2).(numbers := Counter(1, {1}), ids := Counter(1, {1}))
  {
    ForeignFacts();
    hide Start, Exec, DefaultNode, EndpointInv;
    var none: seq<Move> := [];
    ExecNone(TheStart());
    MoveY(none, DrawId);
    assert none + [OnY(DrawId)] == [OnY(DrawId)];
    MoveY([OnY(DrawId)], Draw);
    hide ForeignCodec;
    var y := DefaultNode(Foreign, 2);
    assert y.ids.Draw() == Counter(1, {1}) && y.numbers.Draw() == Counter(1, {1});
    MovePumped(DRAWS);
  }

  ghost function SubmitMoves(): seq<Move> {
    DRAWS + [OnY(Submit([], 1, [SLOT], 0.0))]
  }

  lemma AfterSubmit()
    requires Start(TheStart())
    ensures var t := Exec(TheStart(), SubmitMoves());
            && t.x == DefaultNode(Iran, 1)
            && t.y.e.sender.queue == [Transmission(1, [ThePacket()], 0.0, None, None, 0)] && t.y.e.sender.pending == Dict([], map[])
            && t.y.e.reliable && t.y.e.codec == ForeignCodec() && t.y.e.role == Foreign && t.y.e.replay == Fresh(4096)
  {
    AfterDraws();
    ForeignFacts();
    hide Start, Exec, DefaultNode, EndpointInv, SubmitStep, CanSubmit, ThePacket, ForeignCodec, IranCodec;
    Submitted(Exec(TheStart(), DRAWS).y);
    MoveSubmit(DRAWS);
  }

  /** The Foreign side draws, submits and pumps. */
  ghost function SendMoves(): seq<Move> {
    SubmitMoves() + [OnY(Pumped(0.0))]
  }

  lemma AfterSending()
    requires Start(TheStart())
    ensures var t := Exec(TheStart(), SendMoves());
            && t.x == DefaultNode(Iran, 1)
            && ThePacket() in t.y.wire && 1 in t.y.e.sender.pending.items
            && t.y.e.codec == ForeignCodec() && t.y.e.role == Foreign && t.y.e.replay == Fresh(4096)
  {
    AfterSubmit();
    hide Start, Exec, DefaultNode, EndpointInv, PumpedStep, ThePacket, ForeignCodec, SubmitMoves;
    MovePumped(SubmitMoves());
    PumpedOut(Exec(TheStart(), SubmitMoves()).y);
  }

  /** Its packet arrives twice. */
  ghost function TwiceMoves(): seq<Move> {
    SendMoves() + [OnX(Arrive(ThePacket(), 0, 0.0))] + [OnX(Arrive(ThePacket(), 0, 0.0))]
  }

  lemma AfterTwice()
    requires Start(TheStart())
    ensures var t := Exec(TheStart(), TwiceMoves());
            && t.y == Exec(TheStart(), SendMoves()).y
            && t.x.owed == multiset{AckOf(2, 1)} && t.x.forwarded == {} && KEY in t.x.finished
            && t.x.numbers == Counter(0, {}) && t.x.e.codec == IranCodec() && t.x.e.role == Iran
  {
    AfterSending();
    IranFacts(DefaultNode(Iran, 1));
    hide Start, Exec, DefaultNode, EndpointInv, ArriveStep, ThePacket, ForeignCodec, IranCodec, SendMoves, PlainSuite, START, EmptyTable;
    MoveArriveX(SendMoves(), ThePacket());
    MoveArriveX(SendMoves() + [OnX(Arrive(ThePacket(), 0, 0.0))], ThePacket());
    Consumed(Exec(TheStart(), SendMoves()).x);
  }

  /** And the acknowledgement owed goes out. */
  ghost function AnswerMoves(): seq<Move> {
    TwiceMoves() + [OnX(Draw)] + [OnX(Answer(AckOf(2, 1), SLOT))]
  }

  lemma AfterAnswering()
    requires Start(TheStart())
    ensures var t := Exec(TheStart(), AnswerMoves());
            && t.y == Exec(TheStart(), SendMoves()).y
            && EncodeGuards(TheAck()).Ok? && Seal(PlainSuite(), TheAck()) in t.x.wire
            && KEY in t.x.finished && t.x.forwarded == {}
  {
    AfterTwice();
    hide Start, Exec, DefaultNode, EndpointInv, ForeignCodec, IranCodec, SendMoves, TwiceMoves, CanAnswer, PlainSuite, Seal,
         EncodeGuards, TheAck, ReplyFrame, Emit;
    MoveDrawX(TwiceMoves());
    Answered(Exec(TheStart(), TwiceMoves()).x);
    MoveAnswerX(TwiceMoves() + [OnX(Draw)]);
  }

  /** The whole run, nine moves. */
  ghost function AckMoves(): seq<Move> {
    AnswerMoves() + [OnY(Arrive(Seal(PlainSuite(), TheAck()), 0, 0.0))]
  }

  lemma AckPasses()
    ensures EncodeGuards(TheAck()).Ok?
  {
    AckFacts();
  }

  lemma AfterAck()
    requires Start(TheStart()) && EncodeGuards(TheAck()).Ok?
    ensures KEY in Exec(TheStart(), AckMoves()).y.acked && KEY !in Exec(TheStart(), AckMoves()).x.forwarded
  {
    hide Start, Exec, DefaultNode, EndpointInv, ArriveStep, ForeignCodec, PlainSuite, Seal, EncodeGuards, TheAck, AnswerMoves, SendMoves,
         TheStart, START;
    AfterSending();
    AfterAnswering();
    MoveArriveY(AnswerMoves(), Seal(PlainSuite(), TheAck()));
    Accounted(Exec(TheStart(), AnswerMoves()).y);
  }

  /** So "acknowledged implies forwarded" fails, with the source's default limits. */
  lemma AcknowledgedNeverForwarded()
    ensures Start(TheStart()) && EncodeGuards(TheAck()).Ok?
    ensures KEY in Exec(TheStart(), AckMoves()).y.acked && KEY !in Exec(TheStart(), AckMoves()).x.forwarded
  {
    AckPasses();
    StartCanBeMet();
    assert Start(TheStart());
    hide *;
    AfterAck();
  }
}
