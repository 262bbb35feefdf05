/** The two agents and the network between them: any packet ever put on the wire may arrive any number
    of times, in any order, at any clock reading, or never. */
module Tunnel {
  import opened Common
  import opened Dicts
  import opened Frames
  import opened Fragmentation
  import opened Recovery
  import opened Replay
  import opened Reassembly
  import opened Delivery
  import opened Codecs
  import opened Sending
  import opened Endpoints
  import opened Counters
  import opened Service

  datatype Delivered = Delivered(key: Key, payload: Bytes)

  /** One completion by the reassembler, and whether the inner peer was known at that moment. */
  datatype Outcome = Outcome(key: Key, innerKnown: bool)

  /** One side of the tunnel: the running process `e`, its two counters and the replies it still owes, and
      the record of what this side has done.
      `built`, `submitted`, `wire`, `finished`, `forwarded`, `outcomes`, `acked` and `sessions` cover all its
      processes; `completions` and `delivered` only the running one. `hist` is what the replay window
      remembers: the frames accepted by the running process, after those that the checkpoint it started
      from covered. `acked` are the messages that received frames have taken out of an in-flight table. */
  datatype Node = Node(
    e: Endpoint,
    numbers: Counter,
    ids: Counter,
    owed: multiset<Reply>,
    built: map<FrameId, Frame>,
    submitted: map<Key, Message>,
    wire: set<Bytes>,
    hist: seq<FrameId>,
    completions: seq<Key>,
    delivered: seq<Delivered>,
    finished: set<Key>,
    forwarded: set<Key>,
    outcomes: set<Outcome>,
    acked: set<Key>,
    sessions: set<int>)

  /** The locked stretches of the source's threads. Any thread may draw at any time; a message is built
      under any numbers its thread has drawn, and so is a reply. */
  datatype Event =
    | Draw
    | DrawId
    | Learn
    | Submit(payload: Bytes, messageId: nat, slots: seq<Slot>, now: real)
    | Pumped(now: real)
    | Ping(slot: Slot)
    | Arrive(packet: Bytes, wall: int, now: real)
    | Answer(reply: Reply, slot: Slot)
    | Reboot(session: int, window: nat, kept: nat, restored: Window, last: nat, lastId: nat)

  function IdOf(f: Frame): FrameId {
    FrameId(f.session, f.sequence)
  }

  /** Different numbers, all drawn from the process's counter and not used yet. */
  ghost predicate Drawn(n: Node, slots: seq<Slot>) {
    && (forall i :: 0 <= i < |slots| ==> SlotOk(slots[i]) && slots[i].sequence in n.numbers.out)
    && (forall i, j :: 0 <= i < j < |slots| ==> slots[i].sequence != slots[j].sequence)
  }

  function NumbersOf(slots: seq<Slot>): set<nat> {
    set i | 0 <= i < |slots| && slots[i].sequence >= 0 :: slots[i].sequence
  }

  /** The frames of one submitted message, by id. */
  ghost function Bundle(frames: seq<Frame>): map<FrameId, Frame>
  {
    if frames == [] then map[]
    else Bundle(frames[..|frames| - 1])[IdOf(frames[|frames| - 1]) := frames[|frames| - 1]]
  }

  ghost predicate CanSubmit(n: Node, payload: Bytes, messageId: nat, slots: seq<Slot>)
    requires EndpointInv(n.e)
  {
    && |payload| <= MAX_MESSAGE_SIZE
    && Fits64(messageId) && messageId in n.ids.out
    && Drawn(n, slots)
    && |slots| == |Message(payload, n.e.fragmentSize, n.e.fec).Specs()|
  }

  /** The books after adding the frames of one new message. */
  ghost function AddMessage(n: Node, frames: seq<Frame>, key: Key, m: Message): Node {
    n.(built := n.built + Bundle(frames), submitted := n.submitted[key := m])
  }

  /** The books of a submission, before the packets are queued or sent. */
  ghost function Booked(n: Node, payload: Bytes, messageId: nat, slots: seq<Slot>): Node
    requires EndpointInv(n.e) && CanSubmit(n, payload, messageId, slots)
  {
    var m := Message(payload, n.e.fragmentSize, n.e.fec);
    AddMessage(n, DataFrames(n.e.codec, n.e.role.DataOut(), messageId, m.Specs(), slots), Key(n.e.codec.session, messageId), m)
  }

  ghost function SubmitStep(n: Node, payload: Bytes, messageId: nat, slots: seq<Slot>, now: real): Node
    requires EndpointInv(n.e) && CanSubmit(n, payload, messageId, slots)
  {
    var (r, e) := SendData(n.e, payload, messageId, slots, now);
    Booked(n, payload, messageId, slots).(
      e := e,
      numbers := n.numbers.Use(NumbersOf(slots)),
      ids := n.ids.Use({messageId}),
      wire := n.wire + if r.Sent? then set p | p in r.out else {})
  }

  function Payloads(out: seq<Outbound>): set<Bytes> {
    set o | o in out :: o.payload
  }

  ghost function PumpedStep(n: Node, now: real): Node
    requires EndpointInv(n.e)
  {
    var (out, e) := Tick(n.e, now);
    n.(e := e, wire := n.wire + Payloads(out))
  }

  /** A frame built by this node goes on the wire, and its number is used. */
  ghost function Emit(n: Node, f: Frame): Node
    requires EncodeGuards(f).Ok?
  {
    n.(built := n.built[IdOf(f) := f], wire := n.wire + {Seal(n.e.codec.suite, f)}, numbers := n.numbers.Use({f.sequence as nat}))
  }

  ghost function ArriveStep(n: Node, packet: Bytes, wall: int, now: real): Node
    requires EndpointInv(n.e)
  {
    match Decode(n.e.codec, packet, wall)
    case Err(_) => n
    case Ok(f) =>
      EncodeDecode(n.e.codec, packet, wall);
      HandleStep(n, f, now)
  }

  ghost function HandleStep(n: Node, f: Frame, now: real): Node
    requires EndpointInv(n.e) && EncodeGuards(f).Ok? && f.WellFormed()
  {
    var (r, e) := Handle(n.e, f, now);
    Record(n, f, r, e)
  }

  /** The bookkeeping of one received frame. */
  ghost function Record(n: Node, f: Frame, r: Reaction, e: Endpoint): Node {
    var complete := r.Reassembled? && r.verdict.Complete?;
    var handed := r.Reassembled? && r.delivered.Some?;
    n.(e := e,
       owed := if Owed(r).Some? then n.owed + multiset{Owed(r).value} else n.owed,
       hist := if r.Dropped? || r.Replayed? then n.hist else n.hist + [IdOf(f)],
       completions := if complete then n.completions + [KeyOf(f)] else n.completions,
       finished := if complete then n.finished + {KeyOf(f)} else n.finished,
       outcomes := if complete then n.outcomes + {Outcome(KeyOf(f), n.e.innerKnown)} else n.outcomes,
       delivered := if handed then n.delivered + [Delivered(KeyOf(f), r.delivered.value)] else n.delivered,
       forwarded := if handed then n.forwarded + {KeyOf(f)} else n.forwarded,
       acked := n.acked + TakenOut(n.e, e))
  }

  /** The messages of the running process that left its in-flight table. */
  function TakenOut(e: Endpoint, e': Endpoint): set<Key> {
    set id | id in e.sender.pending.items && id !in e'.sender.pending.items :: Key(e.codec.session, id)
  }

  /** A checkpoint of the replay window covers some prefix of the frames it remembers, perhaps none. */
  ghost predicate CanReboot(n: Node, session: int, window: nat, kept: nat, restored: Window) {
    && session !in n.sessions && Fits64(session) && 1 <= window <= n.e.sender.maxWindow
    && kept <= |n.hist| && restored.size == n.e.replay.size && Represents(restored, n.hist[..kept])
  }

  /** The process is restarted with empty tables, under a session id this side has never used, from a
      checkpoint of the replay window or with a fresh one. Its counters start anywhere. */
  ghost function RebootStep(n: Node, session: int, window: nat, kept: nat, restored: Window, last: nat, lastId: nat): Node
    requires CanReboot(n, session, window, kept, restored)
  {
    var e := n.e;
    n.(e := Endpoint(e.codec.(session := session), e.role, e.reliable, e.fragmentSize, e.fec, e.role.Foreign?,
                     NewSenderLike(e.sender, window), restored,
                     EmptyTable(e.table.timeout, e.table.maxMessages, e.table.ttl)),
       numbers := Counter(last, {}), ids := Counter(lastId, {}), owed := multiset{},
       hist := n.hist[..kept], completions := [], delivered := [],
       sessions := n.sessions + {session})
  }

  function NewSenderLike(s: Sender, window: nat): Sender {
    Sender(s.timeout, s.maxAttempts, s.maxPending, s.maxWindow, window as real, [], Dict([], map[]))
  }

  /** One step of one side; `incoming` is the set of packets the other side has put on the wire. An
      event that cannot happen in this state changes nothing. */
  ghost function NodeStep(n: Node, incoming: set<Bytes>, ev: Event): Node
    requires EndpointInv(n.e)
  {
    match ev
    case Draw => n.(numbers := n.numbers.Draw())
    case DrawId => n.(ids := n.ids.Draw())
    case Learn => n.(e := n.e.(innerKnown := true))
    case Submit(payload, messageId, slots, now) =>
      if CanSubmit(n, payload, messageId, slots) then SubmitStep(n, payload, messageId, slots, now) else n
    case Pumped(now) => PumpedStep(n, now)
    case Ping(slot) =>
      if CanPing(n, slot) then Emit(n, ControlFrame(n.e.codec, PING, [], slot)) else n
    case Arrive(packet, wall, now) =>
      if packet in incoming then ArriveStep(n, packet, wall, now) else n
    case Answer(reply, slot) =>
      if CanAnswer(n, reply, slot) then AnswerStep(n, reply, slot) else n
    case Reboot(session, window, kept, restored, last, lastId) =>
      if CanReboot(n, session, window, kept, restored) then RebootStep(n, session, window, kept, restored, last, lastId) else n
  }

  /** A reply that is owed is sealed under a number drawn for it. */
  ghost function AnswerStep(n: Node, reply: Reply, slot: Slot): Node
    requires EndpointInv(n.e) && CanAnswer(n, reply, slot)
  {
    ReplyPasses(n.e.codec, n.e.role, reply, slot);
    Emit(n, ReplyFrame(n.e.codec, n.e.role, reply, slot)).(owed := n.owed - multiset{reply})
  }

  ghost predicate CanPing(n: Node, slot: Slot)
    requires EndpointInv(n.e)
    ensures CanPing(n, slot) ==> EncodeGuards(ControlFrame(n.e.codec, PING, [], slot)).Ok?
  {
    hide SenderInv, TableInv, Lawful;
    n.e.role.Iran? && SlotOk(slot) && slot.sequence in n.numbers.out
  }

  ghost predicate CanAnswer(n: Node, reply: Reply, slot: Slot) {
    reply in n.owed && ReplyOk(reply) && SlotOk(slot) && slot.sequence in n.numbers.out
  }

  // ------------------------------------------------------------------------------- what a side keeps

  /** A frame this side has built: filed under its own id, accepted by the encoder; a data frame is a
      genuine fragment of a submitted message, an acknowledgement names a message this side finished. */
  ghost predicate FrameOk(n: Node, id: FrameId)
    requires id in n.built
  {
    var f := n.built[id];
    && IdOf(f) == id && f.session in n.sessions
    && f.tunnelId == n.e.codec.tunnelId && EncodeGuards(f).Ok?
    && (f.kind == n.e.role.DataOut() || f.kind == n.e.role.AckOut() || f.kind == PING || f.kind == PONG)
    && (f.kind == n.e.role.DataOut() ==> Genuine(f, n.submitted))
    && (f.kind == n.e.role.AckOut() ==> DecodeAck(f).Ok? && Key(DecodeAck(f).value.0, DecodeAck(f).value.1) in n.finished)
  }

  /** The packet is one this side has built. */
  ghost predicate Known(n: Node, p: Bytes) {
    exists id :: id in n.built && EncodeGuards(n.built[id]).Ok? && p == Seal(n.e.codec.suite, n.built[id])
  }

  ghost predicate AllKnown(n: Node, ps: seq<Bytes>) {
    forall i :: 0 <= i < |ps| ==> Known(n, ps[i])
  }

  ghost predicate StoredKnown(n: Node, s: Sender) {
    && (forall i :: 0 <= i < |s.queue| ==> AllKnown(n, s.queue[i].packets))
    && (forall id :: id in s.pending.items ==> AllKnown(n, s.pending.items[id].packets))
  }

  /** The ids of the built data frames of one message. */
  ghost function DataIds(built: map<FrameId, Frame>, kind: int, key: Key): set<FrameId> {
    set id | id in built && built[id].kind == kind && KeyOf(built[id]) == key
  }

  /** A message is built once: it never has more frames than fragments. */
  ghost predicate MessageOk(n: Node, key: Key)
    requires key in n.submitted
  {
    && n.submitted[key].Valid()
    && |DataIds(n.built, n.e.role.DataOut(), key)| <= |n.submitted[key].Specs()|
  }

  ghost predicate NodeInv(n: Node) {
    && EndpointInv(n.e)
    && n.e.codec.session in n.sessions
    && (forall id :: id in n.built ==> FrameOk(n, id))
    && (forall p :: p in n.wire ==> Known(n, p))
    && StoredKnown(n, n.e.sender)
    && (forall key :: key in n.submitted ==> MessageOk(n, key))
  }

  /** Numbers and message ids still out have not been used in this session, nor have those not drawn yet;
      an acknowledgement is owed only for a finished message; the Foreign side always knows its inner peer;
      and a finished message has been forwarded exactly when it once completed with the inner peer known. */
  ghost predicate BooksInv(n: Node) {
    NumbersOk(n) && DebtsOk(n) && OutcomesOk(n)
  }

  ghost predicate NumbersOk(n: Node) {
    && n.numbers.Valid() && n.ids.Valid()
    && (forall id :: id in n.built && id.session == n.e.codec.session ==>
          0 <= id.sequence <= n.numbers.last && id.sequence !in n.numbers.out)
    && (forall k :: k in n.submitted && k.session == n.e.codec.session ==>
          0 <= k.messageId <= n.ids.last && k.messageId !in n.ids.out)
    && (forall k :: k in n.submitted ==> k.session in n.sessions)
  }

  ghost predicate DebtsOk(n: Node) {
    forall r :: r in n.owed ==> ReplyOk(r) && (r.AckOf? ==> Key(r.session, r.messageId) in n.finished)
  }

  ghost predicate OutcomesOk(n: Node) {
    && (n.e.role.Foreign? ==> n.e.innerKnown && forall k :: Outcome(k, false) !in n.outcomes)
    && Reckoned(n.finished, n.forwarded, n.outcomes)
  }

  ghost predicate Reckoned(finished: set<Key>, forwarded: set<Key>, outcomes: set<Outcome>) {
    && (forall k :: k in finished <==> Outcome(k, true) in outcomes || Outcome(k, false) in outcomes)
    && (forall k :: k in forwarded <==> Outcome(k, true) in outcomes)
  }

  lemma ReckonedAdd(finished: set<Key>, forwarded: set<Key>, outcomes: set<Outcome>, key: Key, known: bool)
    requires Reckoned(finished, forwarded, outcomes)
    ensures Reckoned(finished + {key}, if known then forwarded + {key} else forwarded, outcomes + {Outcome(key, known)})
  {
  }

  lemma BooksSame(n: Node, n': Node)
    requires BooksInv(n) && NumbersOk(n') && n'.owed <= n.owed && n'.finished == n.finished
    requires n'.forwarded == n.forwarded && n'.outcomes == n.outcomes
    requires n'.e.role == n.e.role && (n.e.innerKnown ==> n'.e.innerKnown)
    ensures BooksInv(n')
  {
    hide NumbersOk, Reckoned, ReplyOk;
  }

  /** The counters supply what has never been used. */
  lemma DrawnFresh(n: Node, slots: seq<Slot>)
    requires NumbersOk(n) && Drawn(n, slots)
    ensures forall i :: 0 <= i < |slots| ==> FrameId(n.e.codec.session, slots[i].sequence) !in n.built
    ensures forall k :: k in n.ids.out ==> Key(n.e.codec.session, k) !in n.submitted
  {
  }

  lemma NodeParts(n: Node)
    requires NodeInv(n)
    ensures EndpointInv(n.e) && n.e.codec.session in n.sessions && StoredKnown(n, n.e.sender)
    ensures forall id :: id in n.built ==> FrameOk(n, id)
    ensures forall p :: p in n.wire ==> Known(n, p)
    ensures forall key :: key in n.submitted ==> MessageOk(n, key)
  {
    hide EndpointInv, FrameOk, Known, StoredKnown, MessageOk;
  }

  lemma NodeOf(n: Node)
    requires EndpointInv(n.e) && n.e.codec.session in n.sessions && StoredKnown(n, n.e.sender)
    requires forall id :: id in n.built ==> FrameOk(n, id)
    requires forall p :: p in n.wire ==> Known(n, p)
    requires forall key :: key in n.submitted ==> MessageOk(n, key)
    ensures NodeInv(n)
  {
    hide EndpointInv, FrameOk, Known, StoredKnown, MessageOk;
  }

  /** Only additions to what this side has built, submitted and finished. */
  ghost predicate Grew(n: Node, n': Node) {
    && n'.e.codec.suite == n.e.codec.suite && n'.e.codec.tunnelId == n.e.codec.tunnelId && n'.e.role == n.e.role
    && (forall id :: id in n.built ==> id in n'.built && n'.built[id] == n.built[id])
    && (forall k :: k in n.submitted ==> k in n'.submitted && n'.submitted[k] == n.submitted[k])
    && n.finished <= n'.finished
    && n.sessions <= n'.sessions
  }

  lemma KnownGrew(n: Node, n': Node)
    requires Grew(n, n')
    ensures forall p :: Known(n, p) ==> Known(n', p)
  {
    hide Seal, EncodeGuards;
    forall p | Known(n, p)
      ensures Known(n', p)
    {
      var id :| id in n.built && EncodeGuards(n.built[id]).Ok? && p == Seal(n.e.codec.suite, n.built[id]);
      assert id in n'.built;
    }
  }

  lemma FrameGrew(n: Node, n': Node, id: FrameId)
    requires id in n.built && FrameOk(n, id) && Grew(n, n')
    ensures FrameOk(n', id)
  {
    hide EncodeGuards, DecodeAck;
    var f := n.built[id];
    if f.kind == n.e.role.DataOut() {
      assert n'.submitted[KeyOf(f)] == n.submitted[KeyOf(f)];
    }
  }

  lemma StoredGrew(n: Node, n': Node, s: Sender)
    requires StoredKnown(n, s) && Grew(n, n')
    ensures StoredKnown(n', s)
  {
    hide Known;
    KnownGrew(n, n');
  }

  // ------------------------------------------------------- what a side keeps about the other side's

  function CountOf(m: Message): nat
    requires m.Valid()
  {
    |m.Pieces()|
  }

  /** The accepted data frames of one message. */
  ghost function AcceptedIds(n: Node, o: Node, key: Key): set<FrameId> {
    set id | id in n.hist && id in DataIds(o.built, o.e.role.DataOut(), key)
  }

  /** The frames that some completions of a message of `count` pieces have used up. */
  function Spent(completions: nat, count: nat): nat {
    completions * count
  }

  /** Every completion has used up `count` accepted frames of its own, and the frames held in an open
      assembly are further ones. */
  ghost predicate Account(n: Node, o: Node, key: Key) {
    if key in o.submitted && o.submitted[key].Valid() then
      Spent(multiset(n.completions)[key], CountOf(o.submitted[key])) + HeldCount(n.e.table, key) <= |AcceptedIds(n, o, key)|
    else multiset(n.completions)[key] == 0
  }

  function DeliveredKeys(d: seq<Delivered>): seq<Key> {
    seq(|d|, i requires 0 <= i < |d| => d[i].key)
  }

  ghost predicate DeliveredOk(n: Node, o: Node) {
    && (forall i :: 0 <= i < |n.delivered| ==>
          n.delivered[i].key in o.submitted && n.delivered[i].payload == o.submitted[n.delivered[i].key].payload)
    && multiset(DeliveredKeys(n.delivered)) <= multiset(n.completions)
  }

  ghost predicate HistoryOk(n: Node, o: Node) {
    && Represents(n.e.replay, n.hist) && NoDup(n.hist)
    && (forall id :: id in n.hist ==> id in o.built)
  }

  ghost predicate Paired(n: Node, o: Node) {
    n.e.codec.suite == o.e.codec.suite && n.e.codec.tunnelId == o.e.codec.tunnelId && n.e.role != o.e.role
  }

  ghost predicate PairInv(n: Node, o: Node) {
    && Paired(n, o)
    && HistoryOk(n, o)
    && GenuineTable(n.e.table, o.submitted)
    && (forall k :: k in n.e.table.completed.items ==> k in n.finished)
    && (forall key :: Account(n, o, key))
    && DeliveredOk(n, o)
    && n.acked <= o.finished
  }

  /** What one side has accepted stays accounted for while the other side only builds more. */
  lemma PairGrew(n: Node, o: Node, o': Node)
    requires PairInv(n, o) && NodeInv(o) && Grew(o, o')
    requires forall k :: k in o'.submitted ==> o'.submitted[k].Valid()
    ensures PairInv(n, o')
  {
    hide Represents, NoDup;
    forall key
      ensures Account(n, o', key)
    {
      assert Account(n, o, key);
      AccountGrew(n, o, o', key);
    }
    TableGrew(n.e.table, o, o');
  }

  lemma TableGrew(t: Table, o: Node, o': Node)
    requires GenuineTable(t, o.submitted) && Grew(o, o')
    ensures GenuineTable(t, o'.submitted)
  {
    hide Holds;
    forall k | k in t.open.items
      ensures GenuineEntry(t, o'.submitted, k)
    {
      assert GenuineEntry(t, o.submitted, k);
    }
  }

  lemma AccountGrew(n: Node, o: Node, o': Node, key: Key)
    requires Account(n, o, key) && Grew(o, o') && HistoryOk(n, o) && GenuineTable(n.e.table, o.submitted)
    requires key in o.submitted ==> o.submitted[key].Valid()
    ensures Account(n, o', key)
  {
    hide Represents, NoDup, Holds;
    assert AcceptedIds(n, o, key) == AcceptedIds(n, o', key);
    assert key in n.e.table.open.items ==> GenuineEntry(n.e.table, o.submitted, key);
  }

  // -------------------------------------------------------------------------------- one frame arrives

  /** The frame is one the other side has built. */
  ghost predicate FromPeer(n: Node, o: Node, f: Frame) {
    IdOf(f) in o.built && o.built[IdOf(f)] == f && FrameOk(o, IdOf(f)) && f.WellFormed()
  }

  /** Replay and history move together. */
  lemma HandleHistory(n: Node, o: Node, f: Frame, now: real)
    requires EndpointInv(n.e) && HistoryOk(n, o) && FromPeer(n, o, f)
    ensures var (r, e) := Handle(n.e, f, now);
            && HistoryOk(Record(n, f, r, e), o)
            && e.replay.size == n.e.replay.size
            && (!r.Replayed? ==> IdOf(f) !in n.hist)
            && !r.Dropped?
  {
    hide Represents, Accept, Add, Purge, Acknowledge, DecodeAck, TableInv, SenderInv, FrameOk;
    AcceptRefines(n.e.replay, n.hist, IdOf(f));
    if IdOf(f) !in n.hist {
      SnocNoDup(n.hist, IdOf(f));
    }
  }

  lemma GenuineData(n: Node, o: Node, f: Frame)
    requires Paired(n, o) && FromPeer(n, o, f) && f.kind == n.e.role.DataIn()
    ensures f.kind == o.e.role.DataOut() && Genuine(f, o.submitted)
  {
    hide EncodeGuards, Genuine, DecodeAck;
  }

  /** What a frame does to the tables: an accepted data frame is added, a replayed one at most purges. */
  lemma HandleCases(e: Endpoint, f: Frame, now: real)
    requires EndpointInv(e) && f.WellFormed() && f.session >= 0
    ensures var (r, e') := Handle(e, f, now);
            && (r.Reassembled? ==> f.kind == e.role.DataIn() && (r.verdict, e'.table) == Add(e.table, f, now))
            && (!r.Reassembled? ==> e'.table == e.table || e'.table == Purge(e.table, now))
  {
    hide Accept, Add, Purge, Acknowledge, DecodeAck, TableInv, SenderInv;
  }

  /** An accepted data frame goes through the reassembly tables; nothing else adds to them. */
  lemma HandleTable(n: Node, o: Node, f: Frame, now: real)
    requires EndpointInv(n.e) && Paired(n, o) && GenuineTable(n.e.table, o.submitted) && FromPeer(n, o, f)
    requires forall k :: k in n.e.table.completed.items ==> k in n.finished
    ensures var (r, e) := Handle(n.e, f, now);
            && TableInv(e.table)
            && GenuineTable(e.table, o.submitted)
            && (forall k :: k in e.table.completed.items ==> k in Record(n, f, r, e).finished)
            && (r.Reassembled? ==> f.kind == o.e.role.DataOut() && Genuine(f, o.submitted)
                                   && SoundStep(n.e.table, r.verdict, e.table, o.submitted, f))
            && (!r.Reassembled? ==> Shrunk(n.e.table, e.table))
  {
    HandleCases(n.e, f, now);
    PurgeInv(n.e.table, now);
    PurgeGenuine(n.e.table, o.submitted, now);
    if f.kind == n.e.role.DataIn() {
      GenuineData(n, o, f);
      GenuineAdd(n.e.table, o.submitted, f, now);
      AddInv(n.e.table, f, now);
    }
    hide Handle, Add, Purge, HeldCount, GenuineEntry, EncodeGuards, Carries, FrameOk, NoDup, SenderInv, Genuine;
  }

  /** A data frame accepted for the first time is one more accepted frame of its message. */
  lemma AcceptedOne(n: Node, n1: Node, o: Node, f: Frame)
    requires FromPeer(n, o, f) && f.kind == o.e.role.DataOut()
    requires n1.hist == n.hist + [IdOf(f)] && IdOf(f) !in n.hist
    ensures |AcceptedIds(n1, o, KeyOf(f))| == |AcceptedIds(n, o, KeyOf(f))| + 1
  {
    hide FrameOk;
    assert AcceptedIds(n1, o, KeyOf(f)) == AcceptedIds(n, o, KeyOf(f)) + {IdOf(f)};
  }

  /** What the account of a submitted message says. */
  lemma AccountIs(n: Node, o: Node, key: Key)
    requires key in o.submitted && o.submitted[key].Valid()
    ensures Account(n, o, key) <==>
              Spent(multiset(n.completions)[key], CountOf(o.submitted[key])) + HeldCount(n.e.table, key) <= |AcceptedIds(n, o, key)|
  {
    hide Spent, CountOf, HeldCount, AcceptedIds;
  }

  lemma StepIs(t: Table, v: Verdict, t': Table, msgs: Messages, f: Frame)
    requires Genuine(f, msgs) && SoundStep(t, v, t', msgs, f)
    ensures var key := KeyOf(f);
            && key in msgs && msgs[key].Valid() && f.count == CountOf(msgs[key])
            && HeldCount(t', key) <= HeldCount(t, key) + 1
            && (v.Complete? ==> HeldCount(t', key) == 0 && f.count <= HeldCount(t, key) + 1)
  {
    CarriesCount(f, msgs[KeyOf(f)]);
    hide HeldCount, GenuineTable, Carries, CountOf, Frame.WellFormed;
  }

  lemma CompletionsMore(completions: seq<Key>, key: Key)
    ensures multiset(completions + [key])[key] == multiset(completions)[key] + 1
  {
  }

  /** The message of the frame: one more accepted frame pays for one more held, or for a completion. */
  lemma AccountOwn(n: Node, n1: Node, o: Node, f: Frame, v: Verdict)
    requires Account(n, o, KeyOf(f)) && FromPeer(n, o, f) && f.kind == o.e.role.DataOut() && Genuine(f, o.submitted)
    requires SoundStep(n.e.table, v, n1.e.table, o.submitted, f)
    requires n1.hist == n.hist + [IdOf(f)] && IdOf(f) !in n.hist
    requires n1.completions == if v.Complete? then n.completions + [KeyOf(f)] else n.completions
    ensures Account(n1, o, KeyOf(f))
  {
    hide *;
    StepIs(n.e.table, v, n1.e.table, o.submitted, f);
    AccountIs(n, o, KeyOf(f));
    AccountIs(n1, o, KeyOf(f));
    AcceptedOne(n, n1, o, f);
    CompletionsMore(n.completions, KeyOf(f));
    OneMore(multiset(n.completions)[KeyOf(f)], CountOf(o.submitted[KeyOf(f)]));
  }

  lemma CarriesCount(f: Frame, m: Message)
    requires m.Valid() && Carries(f, m)
    ensures f.count == CountOf(m)
  {
  }

  lemma OneMore(k: nat, c: nat)
    ensures Spent(k + 1, c) == Spent(k, c) + c
  {
  }

  lemma AccountOther(n: Node, n1: Node, o: Node, f: Frame, v: Verdict, key: Key)
    requires key != KeyOf(f) && KeyOf(f) in o.submitted && Account(n, o, key) && FromPeer(n, o, f)
    requires SoundStep(n.e.table, v, n1.e.table, o.submitted, f)
    requires n1.hist == n.hist + [IdOf(f)]
    requires n1.completions == if v.Complete? then n.completions + [KeyOf(f)] else n.completions
    ensures Account(n1, o, key)
  {
    hide HeldCount, GenuineTable, Chop, FrameOk, CountOf;
    assert AcceptedIds(n1, o, key) == AcceptedIds(n, o, key);
  }

  /** Counting: a new accepted frame of the message pays for whatever it adds. */
  lemma AccountStep(n: Node, n1: Node, o: Node, f: Frame, v: Verdict, key: Key)
    requires Account(n, o, key) && FromPeer(n, o, f) && f.kind == o.e.role.DataOut() && Genuine(f, o.submitted)
    requires SoundStep(n.e.table, v, n1.e.table, o.submitted, f)
    requires n1.hist == n.hist + [IdOf(f)] && IdOf(f) !in n.hist
    requires n1.completions == if v.Complete? then n.completions + [KeyOf(f)] else n.completions
    ensures Account(n1, o, key)
  {
    hide Account, SoundStep, FromPeer;
    if key == KeyOf(f) {
      AccountOwn(n, n1, o, f, v);
    } else {
      AccountOther(n, n1, o, f, v, key);
    }
  }

  /** A frame that does not reach the tables leaves every account in order. */
  lemma AccountShrunk(n: Node, n1: Node, o: Node, key: Key)
    requires Account(n, o, key) && Shrunk(n.e.table, n1.e.table)
    requires n.hist <= n1.hist && n1.completions == n.completions
    ensures Account(n1, o, key)
  {
    hide HeldCount, Chop;
    assert AcceptedIds(n, o, key) <= AcceptedIds(n1, o, key);
    SubsetCard(AcceptedIds(n, o, key), AcceptedIds(n1, o, key));
  }

  lemma PairParts(n: Node, o: Node)
    requires PairInv(n, o)
    ensures Paired(n, o) && HistoryOk(n, o) && GenuineTable(n.e.table, o.submitted) && DeliveredOk(n, o) && n.acked <= o.finished
    ensures forall k :: k in n.e.table.completed.items ==> k in n.finished
    ensures forall key :: Account(n, o, key)
  {
    hide Paired, HistoryOk, GenuineTable, DeliveredOk, Account;
  }

  lemma RecordAccount(n: Node, o: Node, f: Frame, r: Reaction, e: Endpoint)
    requires (forall key :: Account(n, o, key)) && FromPeer(n, o, f)
    requires !r.Dropped? && (!r.Replayed? ==> IdOf(f) !in n.hist)
    requires r.Reassembled? ==> f.kind == o.e.role.DataOut() && Genuine(f, o.submitted)
                                && SoundStep(n.e.table, r.verdict, e.table, o.submitted, f)
    requires !r.Reassembled? ==> Shrunk(n.e.table, e.table)
    ensures forall key :: Account(Record(n, f, r, e), o, key)
  {
    hide SoundStep, Shrunk, Genuine, FromPeer, Account, DecodeAck, Owed;
    var n1 := Record(n, f, r, e);
    forall key
      ensures Account(n1, o, key)
    {
      assert Account(n, o, key);
      if r.Reassembled? {
        AccountStep(n, n1, o, f, r.verdict, key);
      } else {
        AccountShrunk(n, n1, o, key);
      }
    }
  }

  lemma HandleAccount(n: Node, o: Node, f: Frame, now: real)
    requires EndpointInv(n.e) && PairInv(n, o) && FromPeer(n, o, f)
    ensures var (r, e) := Handle(n.e, f, now);
            forall key :: Account(Record(n, f, r, e), o, key)
  {
    var (r, e) := Handle(n.e, f, now);
    hide *;
    PairParts(n, o);
    HandleHistory(n, o, f, now);
    HandleTable(n, o, f, now);
    RecordAccount(n, o, f, r, e);
  }

  lemma OnlyCompleteDelivered(e: Endpoint, f: Frame, now: real)
    requires EndpointInv(e) && f.WellFormed() && f.session >= 0
    ensures var r := Handle(e, f, now).0;
            r.Reassembled? && r.delivered.Some? ==> r.verdict.Complete? && r.delivered.value == r.verdict.payload
  {
    hide Accept, Add, Purge, Acknowledge, DecodeAck;
  }

  lemma DeliverStep(n: Node, n1: Node, o: Node, d: Delivered)
    requires DeliveredOk(n, o) && d.key in o.submitted && d.payload == o.submitted[d.key].payload
    requires n1.delivered == n.delivered + [d] && n1.completions == n.completions + [d.key]
    ensures DeliveredOk(n1, o)
  {
    assert DeliveredKeys(n1.delivered) == DeliveredKeys(n.delivered) + [d.key];
  }

  lemma RecordDelivered(n: Node, o: Node, f: Frame, r: Reaction, e: Endpoint)
    requires DeliveredOk(n, o)
    requires r.Reassembled? ==> KeyOf(f) in o.submitted && SoundStep(n.e.table, r.verdict, e.table, o.submitted, f)
    requires r.Reassembled? && r.delivered.Some? ==> r.verdict.Complete? && r.delivered.value == r.verdict.payload
    ensures DeliveredOk(Record(n, f, r, e), o)
  {
    hide GenuineTable, HeldCount, DecodeAck, Owed;
    if r.Reassembled? && r.delivered.Some? {
      hide DeliveredOk;
      DeliverStep(n, Record(n, f, r, e), o, Delivered(KeyOf(f), r.delivered.value));
    } else {
      var n1 := Record(n, f, r, e);
      assert n1.delivered == n.delivered && multiset(n.completions) <= multiset(n1.completions);
    }
  }

  lemma GenuineKnown(f: Frame, msgs: Messages)
    requires Genuine(f, msgs)
    ensures KeyOf(f) in msgs
  {
  }

  /** Only a completed payload is delivered, and it is the submitted one. */
  lemma HandleDelivered(n: Node, o: Node, f: Frame, now: real)
    requires EndpointInv(n.e) && PairInv(n, o) && FromPeer(n, o, f)
    ensures var (r, e) := Handle(n.e, f, now);
            DeliveredOk(Record(n, f, r, e), o)
  {
    var (r, e) := Handle(n.e, f, now);
    hide *;
    PairParts(n, o);
    HandleTable(n, o, f, now);
    OnlyCompleteDelivered(n.e, f, now);
    if r.Reassembled? {
      GenuineKnown(f, o.submitted);
    }
    RecordDelivered(n, o, f, r, e);
  }

  /** What an acknowledgement took out of the in-flight table was finished by the other side. */
  lemma HandleAcked(n: Node, o: Node, f: Frame, now: real)
    requires EndpointInv(n.e) && PairInv(n, o) && FromPeer(n, o, f)
    ensures var (r, e) := Handle(n.e, f, now);
            Record(n, f, r, e).acked <= o.finished
  {
    FromPeerWellFormed(n, o, f);
    OnlyOwnAcknowledged(n.e, f, now);
    var (r, e) := Handle(n.e, f, now);
    hide Handle, Accept, Add, Purge, Acknowledge, HistoryOk, GenuineTable, Account, DeliveredOk, TableInv, SenderInv, EncodeGuards, DecodeAck;
    forall key | key in TakenOut(n.e, e)
      ensures key in o.finished
    {
      assert ForThisProcess(n.e, f);
      assert key == Key(DecodeAck(f).value.0, DecodeAck(f).value.1);
    }
  }

  lemma RecordPair(n: Node, o: Node, f: Frame, r: Reaction, e: Endpoint)
    requires Paired(n, o) && e.codec == n.e.codec && e.role == n.e.role
    requires var n1 := Record(n, f, r, e);
             && HistoryOk(n1, o) && GenuineTable(e.table, o.submitted) && DeliveredOk(n1, o) && n1.acked <= o.finished
             && (forall k :: k in e.table.completed.items ==> k in n1.finished)
             && (forall key :: Account(n1, o, key))
    ensures PairInv(Record(n, f, r, e), o)
  {
    hide HistoryOk, GenuineTable, Account, DeliveredOk, DecodeAck, Owed;
  }

  lemma HandlePair(n: Node, o: Node, f: Frame, now: real)
    requires EndpointInv(n.e) && PairInv(n, o) && FromPeer(n, o, f)
    ensures var (r, e) := Handle(n.e, f, now);
            PairInv(Record(n, f, r, e), o)
  {
    var (r, e) := Handle(n.e, f, now);
    hide *;
    PairParts(n, o);
    FromPeerWellFormed(n, o, f);
    HandleHistory(n, o, f, now);
    HandleTable(n, o, f, now);
    HandleAccount(n, o, f, now);
    HandleDelivered(n, o, f, now);
    HandleAcked(n, o, f, now);
    HandleConfig(n.e, f, now);
    RecordPair(n, o, f, r, e);
  }

  lemma FromPeerWellFormed(n: Node, o: Node, f: Frame)
    requires FromPeer(n, o, f)
    ensures f.WellFormed() && f.session >= 0
  {
    hide Genuine, DecodeAck;
  }

  lemma HandleConfig(e: Endpoint, f: Frame, now: real)
    requires EndpointInv(e) && f.WellFormed() && f.session >= 0
    ensures var e' := Handle(e, f, now).1;
            && e'.codec == e.codec && e'.role == e.role && e'.fragmentSize == e.fragmentSize && e'.fec == e.fec
            && e'.reliable == e.reliable
            && (e'.sender == e.sender || exists id :: e'.sender == Acknowledge(e.sender, id).1)
  {
    hide Accept, Add, Purge, Acknowledge, DecodeAck, SenderInv, TableInv, Lawful;
  }

  // ----------------------------------------------------------------------------- one side takes a step

  lemma EmitFrame(n: Node, f: Frame)
    requires EncodeGuards(f).Ok? && IdOf(f) !in n.built
    requires f.tunnelId == n.e.codec.tunnelId && f.session in n.sessions && f.kind != n.e.role.DataOut()
    requires f.kind == n.e.role.AckOut() || f.kind == PING || f.kind == PONG
    requires f.kind == n.e.role.AckOut() ==> DecodeAck(f).Ok? && Key(DecodeAck(f).value.0, DecodeAck(f).value.1) in n.finished
    ensures var n' := Emit(n, f);
            && Grew(n, n') && FrameOk(n', IdOf(f)) && Known(n', Seal(n.e.codec.suite, f))
            && forall key :: DataIds(n'.built, n.e.role.DataOut(), key) == DataIds(n.built, n.e.role.DataOut(), key)
  {
    hide EncodeGuards, DecodeAck, Seal;
    assert IdOf(f) in Emit(n, f).built;
  }

  /** Putting one new frame on the wire. */
  lemma EmitKeeps(n: Node, f: Frame)
    requires NodeInv(n) && EncodeGuards(f).Ok? && IdOf(f) !in n.built
    requires f.tunnelId == n.e.codec.tunnelId && f.session in n.sessions && f.kind != n.e.role.DataOut()
    requires f.kind == n.e.role.AckOut() || f.kind == PING || f.kind == PONG
    requires f.kind == n.e.role.AckOut() ==> DecodeAck(f).Ok? && Key(DecodeAck(f).value.0, DecodeAck(f).value.1) in n.finished
    ensures NodeInv(Emit(n, f)) && Grew(n, Emit(n, f))
  {
    hide EncodeGuards, DecodeAck, EndpointInv, Seal, FrameOk, Known, StoredKnown, DataIds;
    var n' := Emit(n, f);
    EmitFrame(n, f);
    KnownGrew(n, n');
    StoredGrew(n, n', n.e.sender);
    forall id | id in n'.built
      ensures FrameOk(n', id)
    {
      if id != IdOf(f) {
        FrameGrew(n, n', id);
      }
    }
    forall key | key in n'.submitted
      ensures MessageOk(n', key)
    {
      assert MessageOk(n, key);
    }
  }

  lemma RecordGrew(n: Node, f: Frame, now: real)
    requires EndpointInv(n.e) && f.WellFormed() && f.session >= 0
    ensures var (r, e) := Handle(n.e, f, now);
            Grew(n, Record(n, f, r, e))
  {
    HandleConfig(n.e, f, now);
    hide Handle, EndpointInv, DecodeAck, Acknowledge;
  }

  /** Recording a received frame keeps this side's own books. */
  lemma RecordKeeps(n: Node, o: Node, f: Frame, now: real)
    requires NodeInv(n) && PairInv(n, o) && FromPeer(n, o, f)
    ensures var (r, e) := Handle(n.e, f, now);
            NodeInv(Record(n, f, r, e)) && Grew(n, Record(n, f, r, e))
  {
    HandleConfig(n.e, f, now);
    HandleTable(n, o, f, now);
    HandleHistory(n, o, f, now);
    RecordGrew(n, f, now);
    hide Handle, Acknowledge, PairInv, FromPeer, HistoryOk, GenuineTable, SoundStep, Shrunk, FrameOk, Known,
         StoredKnown, MessageOk, Grew, DecodeAck, TableInv, SenderInv;
    var (r, e) := Handle(n.e, f, now);
    AckKeeps(n, e.sender);
    GrewKeeps(n, Record(n, f, r, e));
  }

  lemma AckKeeps(n: Node, s: Sender)
    requires NodeInv(n) && (s == n.e.sender || exists id :: s == Acknowledge(n.e.sender, id).1)
    ensures SenderInv(s) && StoredKnown(n, s)
  {
    hide Known, FrameOk, MessageOk, SenderInv;
    if s != n.e.sender {
      var id :| s == Acknowledge(n.e.sender, id).1;
      AcknowledgeInv(n.e.sender, id);
    }
  }

  /** A frame sealed under a number that is out uses that number up. */
  lemma EmitBooks(n: Node, f: Frame)
    requires BooksInv(n) && EncodeGuards(f).Ok? && f.session == n.e.codec.session && f.sequence in n.numbers.out
    ensures BooksInv(Emit(n, f)) && IdOf(f) !in n.built
  {
    hide EncodeGuards, Seal;
  }

  /** Nothing built, submitted or put on the wire. */
  lemma GrewKeeps(n: Node, n': Node)
    requires NodeInv(n) && Grew(n, n') && EndpointInv(n'.e) && StoredKnown(n, n'.e.sender)
    requires n'.built == n.built && n'.submitted == n.submitted && n'.e.codec.session in n'.sessions
    requires forall p :: p in n'.wire ==> Known(n, p)
    ensures NodeInv(n')
  {
    hide EndpointInv;
    KnownGrew(n, n');
    StoredGrew(n, n', n'.e.sender);
    hide Known, StoredKnown;
    forall id | id in n'.built
      ensures FrameOk(n', id)
    {
      FrameGrew(n, n', id);
    }
    hide FrameOk;
    forall key | key in n'.submitted
      ensures MessageOk(n', key)
    {
      assert MessageOk(n, key);
    }
  }

  /** What is known about the other side does not depend on this side's own wire. */
  lemma PairLocal(n: Node, n': Node, o: Node)
    requires PairInv(n, o)
    requires n'.e.codec == n.e.codec && n'.e.role == n.e.role && n'.e.replay == n.e.replay
    requires n'.hist == n.hist && n'.completions == n.completions && n'.delivered == n.delivered && n'.acked == n.acked
    requires n.finished <= n'.finished
    requires n'.e.table == n.e.table
    ensures PairInv(n', o)
  {
    hide Represents, NoDup, GenuineTable, HeldCount, FrameOk, CountOf, DataIds;
    forall key
      ensures Account(n', o, key)
    {
      assert Account(n, o, key);
      assert AcceptedIds(n', o, key) == AcceptedIds(n, o, key);
    }
  }

  /** An acknowledgement is only ever owed for a message this side has finished. */
  lemma OwedFinished(n: Node, o: Node, f: Frame, now: real)
    requires EndpointInv(n.e) && PairInv(n, o) && FromPeer(n, o, f) && EncodeGuards(f).Ok? && DebtsOk(n)
    ensures var (r, e) := Handle(n.e, f, now); DebtsOk(Record(n, f, r, e))
  {
    OwedOk(n.e, f, now);
    HandleTable(n, o, f, now);
    AcknowledgedIsCompleted(n.e, f, now);
    hide Handle, PairInv, FromPeer, EndpointInv, EncodeGuards, DecodeAck, SoundStep, Shrunk, GenuineTable, TableInv;
  }

  /** A completion is forwarded exactly when the inner peer is known. */
  lemma HandleForwards(e: Endpoint, f: Frame, now: real)
    requires EndpointInv(e) && f.WellFormed() && f.session >= 0
    ensures var (r, e') := Handle(e, f, now);
            && e'.innerKnown == e.innerKnown && e'.role == e.role
            && (r.Reassembled? ==> (r.delivered.Some? <==> r.verdict.Complete? && e.innerKnown))
  {
    hide Accept, Add, Purge, Acknowledge, DecodeAck, SenderInv, TableInv, Lawful;
  }

  lemma OutcomesRecorded(n: Node, f: Frame, now: real)
    requires EndpointInv(n.e) && f.WellFormed() && f.session >= 0 && OutcomesOk(n)
    ensures var (r, e) := Handle(n.e, f, now); OutcomesOk(Record(n, f, r, e))
  {
    HandleForwards(n.e, f, now);
    ReckonedAdd(n.finished, n.forwarded, n.outcomes, KeyOf(f), n.e.innerKnown);
    hide Handle, EndpointInv, DecodeAck, Reckoned, Owed;
  }

  lemma RecordNumbers(n: Node, f: Frame, now: real)
    requires EndpointInv(n.e) && f.WellFormed() && f.session >= 0 && NumbersOk(n)
    ensures var (r, e) := Handle(n.e, f, now); NumbersOk(Record(n, f, r, e))
  {
    HandleConfig(n.e, f, now);
    hide Handle, EndpointInv, DecodeAck, Acknowledge, Owed;
  }

  lemma HandleStepIs(n: Node, f: Frame, now: real)
    requires EndpointInv(n.e) && EncodeGuards(f).Ok? && f.WellFormed()
    ensures var (r, e) := Handle(n.e, f, now); HandleStep(n, f, now) == Record(n, f, r, e)
  {
    hide Handle, Record, EncodeGuards, EndpointInv;
  }

  lemma BooksParts(n: Node)
    requires BooksInv(n)
    ensures NumbersOk(n) && DebtsOk(n) && OutcomesOk(n)
  {
    hide NumbersOk, DebtsOk, OutcomesOk;
  }

  lemma BooksFrom(n: Node)
    requires NumbersOk(n) && DebtsOk(n) && OutcomesOk(n)
    ensures BooksInv(n)
  {
    hide NumbersOk, DebtsOk, OutcomesOk;
  }

  lemma HandleStepKeeps(n: Node, o: Node, f: Frame, now: real)
    requires NodeInv(n) && PairInv(n, o) && BooksInv(n) && FromPeer(n, o, f) && EncodeGuards(f).Ok? && EndpointInv(n.e) && f.WellFormed()
    ensures var n' := HandleStep(n, f, now);
            NodeInv(n') && Grew(n, n') && PairInv(n', o) && BooksInv(n')
  {
    hide *;
    FromPeerWellFormed(n, o, f);
    HandleStepIs(n, f, now);
    BooksParts(n);
    RecordKeeps(n, o, f, now);
    HandlePair(n, o, f, now);
    OwedFinished(n, o, f, now);
    OutcomesRecorded(n, f, now);
    RecordNumbers(n, f, now);
    BooksFrom(HandleStep(n, f, now));
  }

  lemma GrewTwice(a: Node, b: Node, c: Node)
    requires Grew(a, b) && Grew(b, c)
    ensures Grew(a, c)
  {
  }

  /** A packet of the other side's decodes to the frame it was built from, or not at all. */
  lemma DecodeKnown(n: Node, o: Node, packet: Bytes, wall: int)
    requires EndpointInv(n.e) && Paired(n, o) && Known(o, packet)
    requires forall id :: id in o.built ==> FrameOk(o, id)
    ensures Decode(n.e.codec, packet, wall).Ok? ==>
              FromPeer(n, o, Decode(n.e.codec, packet, wall).value) && EncodeGuards(Decode(n.e.codec, packet, wall).value).Ok?
  {
    var id :| id in o.built && EncodeGuards(o.built[id]).Ok? && packet == Seal(o.e.codec.suite, o.built[id]);
    assert FrameOk(o, id);
    hide EncodeGuards, Seal, Decode, SenderInv, TableInv, Genuine;
    DecodeSeal(n.e.codec, o.built[id], wall);
    if Decode(n.e.codec, packet, wall).Ok? {
      EncodeDecode(n.e.codec, packet, wall);
    }
  }

  lemma ArriveParts(n: Node, packet: Bytes, wall: int, now: real)
    requires EndpointInv(n.e)
    ensures var d := Decode(n.e.codec, packet, wall);
            && (d.Err? ==> ArriveStep(n, packet, wall, now) == n)
            && (d.Ok? ==> EncodeGuards(d.value).Ok? && d.value.WellFormed()
                          && ArriveStep(n, packet, wall, now) == HandleStep(n, d.value, now))
  {
    if Decode(n.e.codec, packet, wall).Ok? {
      EncodeDecode(n.e.codec, packet, wall);
    }
    hide EndpointInv, Decode, HandleStep, EncodeGuards;
  }

  lemma ArriveKeeps(n: Node, o: Node, packet: Bytes, wall: int, now: real)
    requires NodeInv(n) && EndpointInv(n.e) && BooksInv(n) && NodeInv(o) && PairInv(n, o) && packet in o.wire
    ensures var n' := ArriveStep(n, packet, wall, now);
            NodeInv(n') && Grew(n, n') && PairInv(n', o) && BooksInv(n')
  {
    hide *;
    NodeParts(o);
    PairParts(n, o);
    SessionIn(n);
    DecodeKnown(n, o, packet, wall);
    ArriveParts(n, packet, wall, now);
    if Decode(n.e.codec, packet, wall).Ok? {
      HandleStepKeeps(n, o, Decode(n.e.codec, packet, wall).value, now);
    }
  }

  // ---------------------------------------------------------------------------------- submitting

  lemma {:induction false} BundleHas(frames: seq<Frame>, id: FrameId)
    ensures id in Bundle(frames) ==> exists i :: 0 <= i < |frames| && IdOf(frames[i]) == id && Bundle(frames)[id] == frames[i]
    ensures |Bundle(frames)| <= |frames|
  {
    if frames != [] {
      var n := |frames| - 1;
      BundleHas(frames[..n], id);
      PutSize(Bundle(frames[..n]), IdOf(frames[n]), frames[n]);
      if id in Bundle(frames) && id != IdOf(frames[n]) {
        var i :| 0 <= i < n && IdOf(frames[..n][i]) == id && Bundle(frames[..n])[id] == frames[..n][i];
        assert IdOf(frames[i]) == id;
      }
    }
  }

  lemma {:induction false} BundleAt(frames: seq<Frame>, i: nat)
    requires i < |frames|
    requires forall j, k :: 0 <= j < k < |frames| ==> IdOf(frames[j]) != IdOf(frames[k])
    ensures IdOf(frames[i]) in Bundle(frames) && Bundle(frames)[IdOf(frames[i])] == frames[i]
  {
    var n := |frames| - 1;
    if i < n {
      BundleAt(frames[..n], i);
    }
  }

  ghost predicate Fragments(n: Node, frames: seq<Frame>, key: Key, m: Message) {
    && m.Valid() && |frames| == |m.Specs()|
    && (forall i :: 0 <= i < |frames| ==>
          && EncodeGuards(frames[i]).Ok? && frames[i].WellFormed() && Carries(frames[i], m)
          && KeyOf(frames[i]) == key && frames[i].tunnelId == n.e.codec.tunnelId && frames[i].kind == n.e.role.DataOut()
          && IdOf(frames[i]) !in n.built)
    && (forall j, k :: 0 <= j < k < |frames| ==> IdOf(frames[j]) != IdOf(frames[k]))
  }

  lemma SubmitFragments(n: Node, payload: Bytes, messageId: nat, slots: seq<Slot>)
    requires EndpointInv(n.e) && NumbersOk(n) && CanSubmit(n, payload, messageId, slots)
    ensures var m := Message(payload, n.e.fragmentSize, n.e.fec);
            Fragments(n, DataFrames(n.e.codec, n.e.role.DataOut(), messageId, m.Specs(), slots), Key(n.e.codec.session, messageId), m)
  {
    var m := Message(payload, n.e.fragmentSize, n.e.fec);
    var frames := DataFrames(n.e.codec, n.e.role.DataOut(), messageId, m.Specs(), slots);
    DrawnFresh(n, slots);
    hide EncodeGuards, Carries, FragmentsOf, SenderInv, TableInv, Encode, Seal, NumbersOk;
    forall i | 0 <= i < |frames|
      ensures EncodeGuards(frames[i]).Ok? && frames[i].WellFormed() && Carries(frames[i], m)
    {
      FragmentPasses(n.e.codec, n.e.role.DataOut(), messageId, m, i, slots[i]);
    }
  }

  lemma BundleNew(n: Node, frames: seq<Frame>, key: Key, m: Message, id: FrameId)
    requires Fragments(n, frames, key, m) && id in n.built
    ensures id !in Bundle(frames)
  {
    BundleHas(frames, id);
    hide EncodeGuards, Carries, FragmentsOf, Bundle;
  }

  lemma AddGrew(n: Node, frames: seq<Frame>, key: Key, m: Message)
    requires Fragments(n, frames, key, m) && key !in n.submitted
    ensures Grew(n, AddMessage(n, frames, key, m))
  {
    hide Fragments, Bundle;
    forall id | id in n.built
      ensures id !in Bundle(frames)
    {
      BundleNew(n, frames, key, m, id);
    }
  }

  lemma AddFrames(n: Node, frames: seq<Frame>, key: Key, m: Message, id: FrameId)
    requires Fragments(n, frames, key, m) && key !in n.submitted && key.session in n.sessions
    requires id in Bundle(frames)
    ensures FrameOk(AddMessage(n, frames, key, m), id)
  {
    hide EncodeGuards, Carries, DecodeAck;
    BundleHas(frames, id);
  }

  lemma AddCount(n: Node, frames: seq<Frame>, key: Key, m: Message, k: Key)
    requires NodeInv(n) && Fragments(n, frames, key, m) && key !in n.submitted
    requires k in AddMessage(n, frames, key, m).submitted
    ensures MessageOk(AddMessage(n, frames, key, m), k)
  {
    hide EncodeGuards, Carries, EndpointInv, DecodeAck, Known, StoredKnown, FragmentsOf;
    var n' := AddMessage(n, frames, key, m);
    var kind := n.e.role.DataOut();
    BundleHas(frames, FrameId(0, 0));
    forall id | id in DataIds(n'.built, kind, k)
      ensures if k == key then id in Bundle(frames) else id in DataIds(n.built, kind, k)
    {
      BundleHas(frames, id);
      if id in n.built && id !in Bundle(frames) {
        assert FrameOk(n, id);
      }
    }
    if k == key {
      SubsetCard(DataIds(n'.built, kind, k), Bundle(frames).Keys);
    } else {
      assert MessageOk(n, k);
      SubsetCard(DataIds(n'.built, kind, k), DataIds(n.built, kind, k));
    }
  }

  /** The packets of the added frames are this side's. */
  lemma AddKnown(n: Node, frames: seq<Frame>, key: Key, m: Message, i: nat)
    requires Fragments(n, frames, key, m) && i < |frames|
    ensures Known(AddMessage(n, frames, key, m), Seal(n.e.codec.suite, frames[i]))
  {
    BundleAt(frames, i);
    hide Seal, Bundle, Carries, FragmentsOf;
    assert IdOf(frames[i]) in AddMessage(n, frames, key, m).built;
  }

  lemma AddFrame(n: Node, frames: seq<Frame>, key: Key, m: Message, id: FrameId)
    requires Fragments(n, frames, key, m) && key !in n.submitted && key.session in n.sessions
    requires id in AddMessage(n, frames, key, m).built && (id in n.built ==> FrameOk(n, id))
    ensures FrameOk(AddMessage(n, frames, key, m), id)
  {
    AddGrew(n, frames, key, m);
    hide FrameOk, Grew, Fragments, Bundle;
    if id in Bundle(frames) {
      AddFrames(n, frames, key, m, id);
    } else {
      FrameGrew(n, AddMessage(n, frames, key, m), id);
    }
  }

  lemma GuardsOf(n: Node, frames: seq<Frame>, key: Key, m: Message)
    requires Fragments(n, frames, key, m)
    ensures forall i :: 0 <= i < |frames| ==> EncodeGuards(frames[i]).Ok?
  {
    hide EncodeGuards, Carries, FragmentsOf;
  }

  lemma AddKeeps(n: Node, frames: seq<Frame>, key: Key, m: Message)
    requires NodeInv(n) && Fragments(n, frames, key, m) && key !in n.submitted && key.session in n.sessions
    ensures NodeInv(AddMessage(n, frames, key, m)) && Grew(n, AddMessage(n, frames, key, m))
    ensures forall i :: 0 <= i < |frames| ==>
              EncodeGuards(frames[i]).Ok? && Known(AddMessage(n, frames, key, m), Seal(n.e.codec.suite, frames[i]))
  {
    var n' := AddMessage(n, frames, key, m);
    assert n'.e == n.e && n'.sessions == n.sessions && n'.wire == n.wire;
    hide *;
    NodeParts(n);
    GuardsOf(n, frames, key, m);
    AddGrew(n, frames, key, m);
    KnownGrew(n, n');
    StoredGrew(n, n', n.e.sender);
    forall i | 0 <= i < |frames|
      ensures EncodeGuards(frames[i]).Ok? && Known(n', Seal(n.e.codec.suite, frames[i]))
    {
      AddKnown(n, frames, key, m, i);
    }
    forall id | id in n'.built
      ensures FrameOk(n', id)
    {
      AddFrame(n, frames, key, m, id);
    }
    forall k | k in n'.submitted
      ensures MessageOk(n', k)
    {
      AddCount(n, frames, key, m, k);
    }
    NodeOf(n');
  }

  /** Enqueueing, or sending at once, does to this side's process only what follows. */
  lemma SendConfig(n: Node, payload: Bytes, messageId: nat, slots: seq<Slot>, now: real)
    requires EndpointInv(n.e) && CanSubmit(n, payload, messageId, slots)
    ensures var (r, e) := SendData(n.e, payload, messageId, slots, now);
            var packets := MessagePackets(n.e, payload, messageId, slots);
            && e == n.e.(innerKnown := true, sender := e.sender)
            && (e.sender == n.e.sender || e.sender == Enqueue(n.e.sender, messageId, packets, now).1)
            && (r.Sent? ==> forall p :: p in r.out ==> p in packets)
  {
    hide SenderInv, TableInv, MessagePackets, Enqueue;
  }

  lemma QueueKnown(n: Node, s: Sender, messageId: int, packets: seq<Bytes>, now: real)
    requires StoredKnown(n, s) && AllKnown(n, packets)
    ensures StoredKnown(n, Enqueue(s, messageId, packets, now).1)
  {
    hide Known;
  }

  lemma PacketsAre(n: Node, payload: Bytes, messageId: nat, slots: seq<Slot>)
    requires EndpointInv(n.e) && NumbersOk(n) && CanSubmit(n, payload, messageId, slots)
    ensures var m := Message(payload, n.e.fragmentSize, n.e.fec);
            var frames := DataFrames(n.e.codec, n.e.role.DataOut(), messageId, m.Specs(), slots);
            var packets := MessagePackets(n.e, payload, messageId, slots);
            && |packets| == |frames|
            && (forall i :: 0 <= i < |frames| ==> EncodeGuards(frames[i]).Ok? && packets[i] == Seal(n.e.codec.suite, frames[i]))
  {
    var m := Message(payload, n.e.fragmentSize, n.e.fec);
    var frames := DataFrames(n.e.codec, n.e.role.DataOut(), messageId, m.Specs(), slots);
    SubmitFragments(n, payload, messageId, slots);
    GuardsOf(n, frames, Key(n.e.codec.session, messageId), m);
    hide FragmentsOf, Seal, DataFrames, Fragments, EndpointInv, NumbersOk, EncodeGuards, Drawn;
  }

  lemma BookedIs(n: Node, payload: Bytes, messageId: nat, slots: seq<Slot>)
    requires EndpointInv(n.e) && CanSubmit(n, payload, messageId, slots)
    ensures var m := Message(payload, n.e.fragmentSize, n.e.fec);
            var frames := DataFrames(n.e.codec, n.e.role.DataOut(), messageId, m.Specs(), slots);
            Booked(n, payload, messageId, slots) == AddMessage(n, frames, Key(n.e.codec.session, messageId), m)
    ensures Drawn(n, slots) && messageId in n.ids.out
  {
    hide EndpointInv, AddMessage, DataFrames, Drawn;
  }

  lemma BookedKeeps(n: Node, payload: Bytes, messageId: nat, slots: seq<Slot>)
    requires NodeInv(n) && EndpointInv(n.e) && NumbersOk(n) && CanSubmit(n, payload, messageId, slots)
    ensures NodeInv(Booked(n, payload, messageId, slots)) && Grew(n, Booked(n, payload, messageId, slots))
    ensures AllKnown(Booked(n, payload, messageId, slots), MessagePackets(n.e, payload, messageId, slots))
  {
    var m := Message(payload, n.e.fragmentSize, n.e.fec);
    var frames := DataFrames(n.e.codec, n.e.role.DataOut(), messageId, m.Specs(), slots);
    hide *;
    NodeParts(n);
    SubmitFragments(n, payload, messageId, slots);
    BookedIs(n, payload, messageId, slots);
    DrawnFresh(n, slots);
    PacketsAre(n, payload, messageId, slots);
    AddKeeps(n, frames, Key(n.e.codec.session, messageId), m);
    AllKnownOf(Booked(n, payload, messageId, slots), MessagePackets(n.e, payload, messageId, slots));
  }

  lemma AllKnownOf(n: Node, ps: seq<Bytes>)
    requires forall i :: 0 <= i < |ps| ==> Known(n, ps[i])
    ensures AllKnown(n, ps)
  {
    hide Known;
  }

  lemma SubmitKeeps(n: Node, o: Node, payload: Bytes, messageId: nat, slots: seq<Slot>, now: real)
    requires NodeInv(n) && PairInv(n, o) && NumbersOk(n) && CanSubmit(n, payload, messageId, slots)
    ensures var n' := SubmitStep(n, payload, messageId, slots, now);
            NodeInv(n') && Grew(n, n') && PairInv(n', o)
  {
    var n1 := Booked(n, payload, messageId, slots);
    var n' := SubmitStep(n, payload, messageId, slots, now);
    BookedKeeps(n, payload, messageId, slots);
    SubmitEndpoint(n, payload, messageId, slots, now);
    SubmitParts(n, payload, messageId, slots, now);
    hide *;
    SubmitGrew(n, n1, n');
    GrewKeeps(n1, n');
    PairLocal(n, n', o);
  }

  /** What a submission leaves as it was. */
  lemma SubmitParts(n: Node, payload: Bytes, messageId: nat, slots: seq<Slot>, now: real)
    requires EndpointInv(n.e) && n.e.codec.session in n.sessions && CanSubmit(n, payload, messageId, slots)
    ensures var n1, n' := Booked(n, payload, messageId, slots), SubmitStep(n, payload, messageId, slots, now);
            && n'.built == n1.built && n'.submitted == n1.submitted && n'.finished == n1.finished == n.finished
            && n'.sessions == n1.sessions == n.sessions
            && n'.e.codec == n1.e.codec == n.e.codec && n'.e.role == n1.e.role == n.e.role
            && n'.e.replay == n.e.replay && n'.e.table == n.e.table
            && n'.hist == n.hist && n'.completions == n.completions && n'.delivered == n.delivered && n'.acked == n.acked
            && n'.owed == n.owed && n'.forwarded == n.forwarded && n'.outcomes == n.outcomes
            && (n.e.innerKnown ==> n'.e.innerKnown)
            && n'.e.codec.session in n'.sessions
  {
    SendConfig(n, payload, messageId, slots, now);
    hide SendData, EndpointInv, CanSubmit, DataFrames, FragmentsOf, Bundle;
  }

  /** The sender holds and the wire gets only packets of this side's. */
  lemma SubmitEndpoint(n: Node, payload: Bytes, messageId: nat, slots: seq<Slot>, now: real)
    requires NodeInv(n) && CanSubmit(n, payload, messageId, slots)
    requires var n1 := Booked(n, payload, messageId, slots);
             NodeInv(n1) && AllKnown(n1, MessagePackets(n.e, payload, messageId, slots))
    ensures var n1, n' := Booked(n, payload, messageId, slots), SubmitStep(n, payload, messageId, slots, now);
            && EndpointInv(n'.e) && StoredKnown(n1, n'.e.sender)
            && forall p :: p in n'.wire ==> Known(n1, p)
  {
    var packets := MessagePackets(n.e, payload, messageId, slots);
    var n1 := Booked(n, payload, messageId, slots);
    SendConfig(n, payload, messageId, slots, now);
    EnqueueInv(n.e.sender, messageId, packets, now);
    StoredOf(n1);
    QueueKnown(n1, n1.e.sender, messageId, packets, now);
    hide SendData, MessagePackets, Enqueue, SenderInv, TableInv, FragmentsOf, DataFrames, FrameOk, Known, MessageOk,
         Bundle, StoredKnown, CanSubmit;
  }

  lemma SubmitGrew(n: Node, n1: Node, n': Node)
    requires Grew(n, n1) && n'.built == n1.built && n'.submitted == n1.submitted && n'.finished == n1.finished
    requires n'.sessions == n1.sessions && n'.e.codec == n1.e.codec && n'.e.role == n1.e.role
    ensures Grew(n1, n') && Grew(n, n')
  {
  }

  /** The numbers and the message id of a submission are used up by it. */
  lemma SubmitNumbers(n: Node, payload: Bytes, messageId: nat, slots: seq<Slot>, id: FrameId)
    requires EndpointInv(n.e) && NumbersOk(n) && CanSubmit(n, payload, messageId, slots)
    requires id in Booked(n, payload, messageId, slots).built && id.session == n.e.codec.session
    ensures 0 <= id.sequence <= n.numbers.last && id.sequence !in n.numbers.Use(NumbersOf(slots)).out
  {
    var m := Message(payload, n.e.fragmentSize, n.e.fec);
    var frames := DataFrames(n.e.codec, n.e.role.DataOut(), messageId, m.Specs(), slots);
    BundleHas(frames, id);
    hide FragmentsOf, EndpointInv;
    if id in Bundle(frames) {
      var i :| 0 <= i < |frames| && IdOf(frames[i]) == id && Bundle(frames)[id] == frames[i];
      assert slots[i].sequence in n.numbers.out && slots[i].sequence as nat in NumbersOf(slots);
    } else {
      assert id in n.built;
    }
  }

  lemma BookedIds(n: Node, payload: Bytes, messageId: nat, slots: seq<Slot>)
    requires EndpointInv(n.e) && NumbersOk(n) && n.e.codec.session in n.sessions && CanSubmit(n, payload, messageId, slots)
    ensures forall id :: id in Booked(n, payload, messageId, slots).built && id.session == n.e.codec.session ==>
                           0 <= id.sequence <= n.numbers.last && id.sequence !in n.numbers.Use(NumbersOf(slots)).out
    ensures forall k :: k in Booked(n, payload, messageId, slots).submitted ==> k.session in n.sessions
    ensures forall k :: k in Booked(n, payload, messageId, slots).submitted && k.session == n.e.codec.session ==>
                          0 <= k.messageId <= n.ids.last && k.messageId !in n.ids.Use({messageId}).out
  {
    forall id | id in Booked(n, payload, messageId, slots).built && id.session == n.e.codec.session
      ensures 0 <= id.sequence <= n.numbers.last && id.sequence !in n.numbers.Use(NumbersOf(slots)).out
    {
      SubmitNumbers(n, payload, messageId, slots, id);
    }
    hide DataFrames, Bundle, EndpointInv, FragmentsOf, Drawn;
  }

  lemma SubmitNumbersOk(n: Node, payload: Bytes, messageId: nat, slots: seq<Slot>, now: real)
    requires EndpointInv(n.e) && NumbersOk(n) && n.e.codec.session in n.sessions && CanSubmit(n, payload, messageId, slots)
    ensures NumbersOk(SubmitStep(n, payload, messageId, slots, now))
  {
    SubmitParts(n, payload, messageId, slots, now);
    BookedIds(n, payload, messageId, slots);
    hide SendData, Booked, EndpointInv, CanSubmit, NumbersOf;
  }

  lemma SubmitBooks(n: Node, payload: Bytes, messageId: nat, slots: seq<Slot>, now: real)
    requires EndpointInv(n.e) && n.e.codec.session in n.sessions && BooksInv(n) && CanSubmit(n, payload, messageId, slots)
    ensures BooksInv(SubmitStep(n, payload, messageId, slots, now))
  {
    hide *;
    BooksParts(n);
    SubmitNumbersOk(n, payload, messageId, slots, now);
    SubmitParts(n, payload, messageId, slots, now);
    BooksSame(n, SubmitStep(n, payload, messageId, slots, now));
  }

  // ------------------------------------------------------------------------------------- pumping

  ghost predicate AllSentKnown(n: Node, es: seq<Emission>) {
    forall i :: 0 <= i < |es| ==> AllKnown(n, es[i].packets)
  }

  lemma {:induction false} SweepKnown(n: Node, s: Sender, ids: seq<int>, now: real)
    requires StoredKnown(n, s)
    ensures StoredKnown(n, Sweep(s, ids, now).0) && AllSentKnown(n, Sweep(s, ids, now).1)
  {
    hide Known, Due, Halve, WithoutAll;
    if ids != [] {
      SweepKnown(n, s, ids[..|ids| - 1], now);
    }
  }

  lemma {:induction false} LaunchKnown(n: Node, s: Sender, window: int, now: real)
    requires StoredKnown(n, s)
    ensures StoredKnown(n, Launch(s, window, now).0) && AllSentKnown(n, Launch(s, window, now).1)
    decreases |s.queue|
  {
    hide Known;
    if s.queue != [] && |s.pending.items| < window {
      LaunchKnown(n, LaunchOne(s, now).0, window, now);
    }
  }

  lemma {:induction false} PacketsKnown(n: Node, es: seq<Emission>)
    requires AllSentKnown(n, es)
    ensures forall p :: p in Payloads(Packets(es)) ==> Known(n, p)
  {
    hide Known;
    if es != [] {
      var k := |es| - 1;
      PacketsKnown(n, es[..k]);
      forall p | p in Payloads(Packets(es))
        ensures Known(n, p)
      {
        var o :| o in Packets(es) && o.payload == p;
        if o in Packets(es[..k]) {
          assert p in Payloads(Packets(es[..k]));
        } else {
          assert o in Wrap(es[k].packets, es[k].retransmission);
        }
      }
    }
  }

  lemma PumpKnown(n: Node, now: real)
    requires NodeInv(n)
    ensures StoredKnown(n, Pump(n.e.sender, now).0)
    ensures forall p :: p in Payloads(Packets(Pump(n.e.sender, now).1)) ==> Known(n, p)
  {
    var s := n.e.sender;
    hide NodeInv, StoredKnown, Sweep, Launch, LaunchWindow, Known;
    assert StoredKnown(n, s) by {
      StoredOf(n);
    }
    SweepKnown(n, s, s.pending.order, now);
    var s1 := Sweep(s, s.pending.order, now).0;
    LaunchKnown(n, s1, LaunchWindow(s1), now);
    PacketsKnown(n, Pump(s, now).1);
  }

  lemma StoredOf(n: Node)
    requires NodeInv(n)
    ensures StoredKnown(n, n.e.sender)
  {
  }

  /** Timeouts only take fragments away. */
  lemma PurgePair(n: Node, o: Node, n': Node, now: real)
    requires EndpointInv(n.e) && PairInv(n, o)
    requires n'.e.codec == n.e.codec && n'.e.role == n.e.role && n'.e.replay == n.e.replay
    requires n'.hist == n.hist && n'.completions == n.completions && n'.delivered == n.delivered && n'.acked == n.acked
    requires n'.finished == n.finished && n'.e.table == Purge(n.e.table, now)
    ensures PairInv(n', o)
  {
    PurgeGenuine(n.e.table, o.submitted, now);
    hide Represents, NoDup, GenuineTable, HeldCount, Purge, TableInv, SenderInv;
    forall key
      ensures Account(n', o, key)
    {
      assert Account(n, o, key);
      AccountShrunk(n, n', o, key);
    }
  }

  /** What a pump changes. */
  lemma PumpedParts(n: Node, now: real)
    requires EndpointInv(n.e) && n.e.reliable
    ensures var n' := PumpedStep(n, now);
            && EndpointInv(n'.e) && n'.e.sender == Pump(n.e.sender, now).0 && n'.e.table == Purge(n.e.table, now)
            && n'.e.codec == n.e.codec && n'.e.role == n.e.role && n'.e.replay == n.e.replay
            && n'.hist == n.hist && n'.completions == n.completions && n'.delivered == n.delivered && n'.acked == n.acked
            && n'.finished == n.finished && n'.built == n.built && n'.submitted == n.submitted && n'.sessions == n.sessions
            && n'.wire == n.wire + Payloads(Packets(Pump(n.e.sender, now).1))
            && Grew(n, n')
  {
    TickParts(n.e, now);
    hide Tick, Pump, Purge, EndpointInv, Packets, Payloads;
  }

  lemma PumpedReliable(n: Node, o: Node, now: real)
    requires NodeInv(n) && PairInv(n, o) && EndpointInv(n.e) && n.e.reliable
    ensures var n' := PumpedStep(n, now);
            NodeInv(n') && Grew(n, n') && PairInv(n', o)
  {
    hide *;
    NodeParts(n);
    PumpedParts(n, now);
    PumpKnown(n, now);
    PurgePair(n, o, PumpedStep(n, now), now);
    GrewKeeps(n, PumpedStep(n, now));
  }

  lemma PumpedKeeps(n: Node, o: Node, now: real)
    requires NodeInv(n) && PairInv(n, o)
    ensures var n' := PumpedStep(n, now);
            NodeInv(n') && Grew(n, n') && PairInv(n', o)
  {
    var n' := PumpedStep(n, now);
    if n.e.reliable {
      PumpedReliable(n, o, now);
    } else {
      hide NodeInv, PairInv;
      assert n'.wire == n.wire;
    }
  }

  lemma PumpedBooks(n: Node, now: real)
    requires NodeInv(n) && BooksInv(n)
    ensures BooksInv(PumpedStep(n, now))
  {
    hide Pump, Purge, Packets, SenderInv, TableInv;
  }

  // -------------------------------------------------------------------------------- restarting

  /** A restarted process remembers what its checkpoint covers, and nothing it forgot makes the books
      wrong. */
  lemma RebootKeeps(n: Node, o: Node, session: int, window: nat, kept: nat, restored: Window, last: nat, lastId: nat)
    requires NodeInv(n) && PairInv(n, o) && CanReboot(n, session, window, kept, restored)
    ensures var n' := RebootStep(n, session, window, kept, restored, last, lastId);
            NodeInv(n') && Grew(n, n') && PairInv(n', o)
  {
    hide *;
    RebootConfig(n, session, window, kept, restored, last, lastId);
    GrewKeeps(n, RebootStep(n, session, window, kept, restored, last, lastId));
    RebootPair(n, o, session, window, kept, restored, last, lastId);
  }

  lemma RebootConfig(n: Node, session: int, window: nat, kept: nat, restored: Window, last: nat, lastId: nat)
    requires NodeInv(n) && CanReboot(n, session, window, kept, restored)
    ensures var n' := RebootStep(n, session, window, kept, restored, last, lastId);
            && EndpointInv(n'.e) && StoredKnown(n, n'.e.sender) && Grew(n, n')
            && n'.built == n.built && n'.submitted == n.submitted && n'.e.codec.session in n'.sessions
            && forall p :: p in n'.wire ==> Known(n, p)
  {
    hide Known, FrameOk, MessageOk, Represents, Lawful, Genuine;
  }

  lemma RebootPair(n: Node, o: Node, session: int, window: nat, kept: nat, restored: Window, last: nat, lastId: nat)
    requires PairInv(n, o) && CanReboot(n, session, window, kept, restored)
    ensures PairInv(RebootStep(n, session, window, kept, restored, last, lastId), o)
  {
    hide CountOf, DataIds, Represents;
    var n' := RebootStep(n, session, window, kept, restored, last, lastId);
    forall key
      ensures Account(n', o, key)
    {
      assert multiset(n'.completions)[key] == 0;
    }
    assert DeliveredKeys(n'.delivered) == [];
  }

  /** Nothing is built or submitted under a session that has not been used. */
  lemma RebootBooks(n: Node, session: int, window: nat, kept: nat, restored: Window, last: nat, lastId: nat)
    requires NodeInv(n) && BooksInv(n) && CanReboot(n, session, window, kept, restored)
    ensures BooksInv(RebootStep(n, session, window, kept, restored, last, lastId))
  {
    hide Represents, EndpointInv, StoredKnown, MessageOk, Known;
    forall id | id in n.built
      ensures id.session != session
    {
      assert FrameOk(n, id);
    }
  }

  lemma CounterKeeps(n: Node, o: Node, numbers: Counter, ids: Counter, innerKnown: bool)
    requires NodeInv(n) && PairInv(n, o)
    ensures var n' := n.(numbers := numbers, ids := ids, e := n.e.(innerKnown := innerKnown));
            NodeInv(n') && Grew(n, n') && PairInv(n', o)
  {
    var n' := n.(numbers := numbers, ids := ids, e := n.e.(innerKnown := innerKnown));
    SameBut(n.e, innerKnown);
    hide PairInv, FrameOk, Known, MessageOk, EndpointInv;
    GrewKeeps(n, n');
    PairLocal(n, n', o);
  }

  lemma SameBut(e: Endpoint, innerKnown: bool)
    requires EndpointInv(e)
    ensures EndpointInv(e.(innerKnown := innerKnown))
  {
  }

  lemma PingKeeps(n: Node, o: Node, slot: Slot)
    requires NodeInv(n) && BooksInv(n) && PairInv(n, o) && CanPing(n, slot)
    ensures var n' := Emit(n, ControlFrame(n.e.codec, PING, [], slot));
            NodeInv(n') && Grew(n, n') && PairInv(n', o) && BooksInv(n')
  {
    var f := ControlFrame(n.e.codec, PING, [], slot);
    EmitBooks(n, f);
    assert f.tunnelId == n.e.codec.tunnelId && f.session in n.sessions;
    hide NodeInv, PairInv, BooksInv, EncodeGuards, EndpointInv;
    EmitKeeps(n, f);
    PairLocal(n, Emit(n, f), o);
  }

  lemma LessOwed(n: Node, o: Node, owed: multiset<Reply>)
    requires NodeInv(n) && BooksInv(n) && PairInv(n, o) && owed <= n.owed
    ensures var n' := n.(owed := owed);
            NodeInv(n') && Grew(n, n') && PairInv(n', o) && BooksInv(n')
  {
    var n' := n.(owed := owed);
    SameNumbers(n, n');
    SameParts(n, n');
    hide *;
    BooksSame(n, n');
    GrewKeeps(n, n');
    PairLocal(n, n', o);
  }

  lemma SameNumbers(n: Node, n': Node)
    requires BooksInv(n) && n'.numbers == n.numbers && n'.ids == n.ids && n'.built == n.built && n'.submitted == n.submitted
    requires n'.sessions == n.sessions && n'.e.codec == n.e.codec
    ensures NumbersOk(n')
  {
  }

  lemma SameParts(n: Node, n': Node)
    requires NodeInv(n) && n'.e == n.e && n'.built == n.built && n'.submitted == n.submitted && n'.finished == n.finished
    requires n'.sessions == n.sessions && n'.wire == n.wire
    ensures EndpointInv(n'.e) && StoredKnown(n, n'.e.sender) && n'.e.codec.session in n'.sessions && Grew(n, n')
    ensures forall p :: p in n'.wire ==> Known(n, p)
  {
    hide EndpointInv, StoredKnown, Known, FrameOk, MessageOk;
  }

  lemma AnswerParts(n: Node, reply: Reply, slot: Slot)
    requires EndpointInv(n.e) && CanAnswer(n, reply, slot)
    ensures var f := ReplyFrame(n.e.codec, n.e.role, reply, slot);
            && EncodeGuards(f).Ok? && f.tunnelId == n.e.codec.tunnelId && f.session == n.e.codec.session
            && f.sequence in n.numbers.out && f.kind == (if reply.AckOf? then n.e.role.AckOut() else PONG)
            && (reply.AckOf? ==> DecodeAck(f) == Ok((reply.session as int, reply.messageId as int)))
            && AnswerStep(n, reply, slot) == Emit(n, f).(owed := n.owed - multiset{reply})
    ensures reply in n.owed && n.e.role.AckOut() != n.e.role.DataOut() && PONG != n.e.role.DataOut() && PONG != n.e.role.AckOut()
  {
    ReplyPasses(n.e.codec, n.e.role, reply, slot);
    hide EndpointInv, EncodeGuards, ReplyFrame, DecodeAck, Emit;
  }

  lemma DebtOf(n: Node, reply: Reply)
    requires BooksInv(n) && reply in n.owed
    ensures reply.AckOf? ==> Key(reply.session, reply.messageId) in n.finished
  {
  }

  lemma EmitParts(n: Node, f: Frame)
    requires EncodeGuards(f).Ok?
    ensures var n' := Emit(n, f);
            && n'.e == n.e && n'.hist == n.hist && n'.completions == n.completions && n'.delivered == n.delivered
            && n'.acked == n.acked && n'.finished == n.finished && n'.owed == n.owed && n'.forwarded == n.forwarded
            && n'.wire == n.wire + {Seal(n.e.codec.suite, f)}
  {
  }

  lemma AnswerKeeps(n: Node, o: Node, reply: Reply, slot: Slot)
    requires NodeInv(n) && BooksInv(n) && PairInv(n, o) && EndpointInv(n.e) && CanAnswer(n, reply, slot)
    ensures var n' := AnswerStep(n, reply, slot);
            NodeInv(n') && Grew(n, n') && PairInv(n', o) && BooksInv(n')
  {
    var f := ReplyFrame(n.e.codec, n.e.role, reply, slot);
    hide *;
    NodeParts(n);
    AnswerParts(n, reply, slot);
    DebtOf(n, reply);
    EmitBooks(n, f);
    EmitParts(n, f);
    EmitKeeps(n, f);
    PairLocal(n, Emit(n, f), o);
    LessOwed(Emit(n, f), o, n.owed - multiset{reply});
    GrewTwice(n, Emit(n, f), AnswerStep(n, reply, slot));
  }

  lemma DrawNumbers(n: Node)
    requires NumbersOk(n)
    ensures NumbersOk(n.(numbers := n.numbers.Draw())) && NumbersOk(n.(ids := n.ids.Draw()))
    ensures n.e.(innerKnown := n.e.innerKnown) == n.e
  {
  }

  /** Drawing a number, drawing a message id, and learning the inner peer. */
  lemma DrawKeeps(n: Node, o: Node)
    requires NodeInv(n) && BooksInv(n) && PairInv(n, o)
    ensures var n' := n.(numbers := n.numbers.Draw());
            NodeInv(n') && Grew(n, n') && PairInv(n', o) && BooksInv(n')
  {
    hide *;
    BooksParts(n);
    DrawNumbers(n);
    CounterKeeps(n, o, n.numbers.Draw(), n.ids, n.e.innerKnown);
    BooksSame(n, n.(numbers := n.numbers.Draw()));
  }

  lemma DrawIdKeeps(n: Node, o: Node)
    requires NodeInv(n) && BooksInv(n) && PairInv(n, o)
    ensures var n' := n.(ids := n.ids.Draw());
            NodeInv(n') && Grew(n, n') && PairInv(n', o) && BooksInv(n')
  {
    hide *;
    BooksParts(n);
    DrawNumbers(n);
    CounterKeeps(n, o, n.numbers, n.ids.Draw(), n.e.innerKnown);
    BooksSame(n, n.(ids := n.ids.Draw()));
  }

  lemma LearnKeeps(n: Node, o: Node)
    requires NodeInv(n) && BooksInv(n) && PairInv(n, o)
    ensures var n' := n.(e := n.e.(innerKnown := true));
            NodeInv(n') && Grew(n, n') && PairInv(n', o) && BooksInv(n')
  {
    hide *;
    SameNumbers(n, n.(e := n.e.(innerKnown := true)));
    CounterKeeps(n, o, n.numbers, n.ids, true);
    BooksSame(n, n.(e := n.e.(innerKnown := true)));
  }

  lemma SessionIn(n: Node)
    requires NodeInv(n)
    ensures EndpointInv(n.e) && n.e.codec.session in n.sessions && Grew(n, n)
  {
    hide EndpointInv, FrameOk, Known, StoredKnown, MessageOk;
  }

  /** What each event does, and that it keeps the books. */
  lemma DrawIs(n: Node, incoming: set<Bytes>)
    requires EndpointInv(n.e)
    ensures NodeStep(n, incoming, Draw) == n.(numbers := n.numbers.Draw())
  {
    hide EndpointInv;
  }

  lemma DrawEvent(n: Node, o: Node, incoming: set<Bytes>)
    requires NodeInv(n) && BooksInv(n) && PairInv(n, o) && EndpointInv(n.e)
    ensures var n' := NodeStep(n, incoming, Draw);
            NodeInv(n') && Grew(n, n') && PairInv(n', o) && BooksInv(n')
  {
    hide *;
    SessionIn(n);
    DrawIs(n, incoming);
    DrawKeeps(n, o);
  }

  lemma DrawIdIs(n: Node, incoming: set<Bytes>)
    requires EndpointInv(n.e)
    ensures NodeStep(n, incoming, DrawId) == n.(ids := n.ids.Draw())
  {
    hide EndpointInv;
  }

  lemma DrawIdEvent(n: Node, o: Node, incoming: set<Bytes>)
    requires NodeInv(n) && BooksInv(n) && PairInv(n, o) && EndpointInv(n.e)
    ensures var n' := NodeStep(n, incoming, DrawId);
            NodeInv(n') && Grew(n, n') && PairInv(n', o) && BooksInv(n')
  {
    hide *;
    SessionIn(n);
    DrawIdIs(n, incoming);
    DrawIdKeeps(n, o);
  }

  lemma LearnIs(n: Node, incoming: set<Bytes>)
    requires EndpointInv(n.e)
    ensures NodeStep(n, incoming, Learn) == n.(e := n.e.(innerKnown := true))
  {
    hide EndpointInv;
  }

  lemma LearnEvent(n: Node, o: Node, incoming: set<Bytes>)
    requires NodeInv(n) && BooksInv(n) && PairInv(n, o) && EndpointInv(n.e)
    ensures var n' := NodeStep(n, incoming, Learn);
            NodeInv(n') && Grew(n, n') && PairInv(n', o) && BooksInv(n')
  {
    hide *;
    SessionIn(n);
    LearnIs(n, incoming);
    LearnKeeps(n, o);
  }

  lemma PumpedIs(n: Node, incoming: set<Bytes>, now: real)
    requires EndpointInv(n.e)
    ensures NodeStep(n, incoming, Pumped(now)) == PumpedStep(n, now)
  {
    hide EndpointInv, PumpedStep;
  }

  lemma PumpedEvent(n: Node, o: Node, incoming: set<Bytes>, now: real)
    requires NodeInv(n) && BooksInv(n) && PairInv(n, o) && EndpointInv(n.e)
    ensures var n' := NodeStep(n, incoming, Pumped(now));
            NodeInv(n') && Grew(n, n') && PairInv(n', o) && BooksInv(n')
  {
    hide *;
    SessionIn(n);
    PumpedIs(n, incoming, now);
    PumpedKeeps(n, o, now);
    PumpedBooks(n, now);
  }

  lemma SubmitIs(n: Node, incoming: set<Bytes>, payload: Bytes, messageId: nat, slots: seq<Slot>, now: real)
    requires EndpointInv(n.e)
    ensures NodeStep(n, incoming, Submit(payload, messageId, slots, now)) == if CanSubmit(n, payload, messageId, slots) then SubmitStep(n, payload, messageId, slots, now) else n
  {
    hide EndpointInv, CanSubmit, SubmitStep;
  }

  lemma SubmitEvent(n: Node, o: Node, incoming: set<Bytes>, payload: Bytes, messageId: nat, slots: seq<Slot>, now: real)
    requires NodeInv(n) && BooksInv(n) && PairInv(n, o) && EndpointInv(n.e)
    ensures var n' := NodeStep(n, incoming, Submit(payload, messageId, slots, now));
            NodeInv(n') && Grew(n, n') && PairInv(n', o) && BooksInv(n')
  {
    hide *;
    SessionIn(n);
    SubmitIs(n, incoming, payload, messageId, slots, now);
    if CanSubmit(n, payload, messageId, slots) {
      BooksParts(n);
      SubmitKeeps(n, o, payload, messageId, slots, now);
      SubmitBooks(n, payload, messageId, slots, now);
    }
  }

  lemma PingIs(n: Node, incoming: set<Bytes>, slot: Slot)
    requires EndpointInv(n.e)
    ensures NodeStep(n, incoming, Ping(slot)) == if CanPing(n, slot) then Emit(n, ControlFrame(n.e.codec, PING, [], slot)) else n
  {
    hide EndpointInv, CanPing, Emit, ControlFrame, EncodeGuards;
  }

  lemma PingEvent(n: Node, o: Node, incoming: set<Bytes>, slot: Slot)
    requires NodeInv(n) && BooksInv(n) && PairInv(n, o) && EndpointInv(n.e)
    ensures var n' := NodeStep(n, incoming, Ping(slot));
            NodeInv(n') && Grew(n, n') && PairInv(n', o) && BooksInv(n')
  {
    hide *;
    SessionIn(n);
    PingIs(n, incoming, slot);
    if CanPing(n, slot) {
      PingKeeps(n, o, slot);
    }
  }

  lemma ArriveIs(n: Node, incoming: set<Bytes>, packet: Bytes, wall: int, now: real)
    requires EndpointInv(n.e)
    ensures NodeStep(n, incoming, Arrive(packet, wall, now)) == if packet in incoming then ArriveStep(n, packet, wall, now) else n
  {
    hide EndpointInv, ArriveStep;
  }

  lemma ArriveEvent(n: Node, o: Node, packet: Bytes, wall: int, now: real)
    requires NodeInv(n) && BooksInv(n) && PairInv(n, o) && EndpointInv(n.e) && NodeInv(o)
    ensures var n' := NodeStep(n, o.wire, Arrive(packet, wall, now));
            NodeInv(n') && Grew(n, n') && PairInv(n', o) && BooksInv(n')
  {
    hide *;
    SessionIn(n);
    ArriveIs(n, o.wire, packet, wall, now);
    if packet in o.wire {
      ArriveKeeps(n, o, packet, wall, now);
    }
  }

  lemma AnswerIs(n: Node, incoming: set<Bytes>, reply: Reply, slot: Slot)
    requires EndpointInv(n.e)
    ensures NodeStep(n, incoming, Answer(reply, slot)) == if CanAnswer(n, reply, slot) then AnswerStep(n, reply, slot) else n
  {
    hide EndpointInv, CanAnswer, AnswerStep;
  }

  lemma AnswerEvent(n: Node, o: Node, incoming: set<Bytes>, reply: Reply, slot: Slot)
    requires NodeInv(n) && BooksInv(n) && PairInv(n, o) && EndpointInv(n.e)
    ensures var n' := NodeStep(n, incoming, Answer(reply, slot));
            NodeInv(n') && Grew(n, n') && PairInv(n', o) && BooksInv(n')
  {
    hide *;
    SessionIn(n);
    AnswerIs(n, incoming, reply, slot);
    if CanAnswer(n, reply, slot) {
      AnswerKeeps(n, o, reply, slot);
    }
  }

  lemma RebootIs(n: Node, incoming: set<Bytes>, session: int, window: nat, kept: nat, restored: Window, last: nat, lastId: nat)
    requires EndpointInv(n.e)
    ensures NodeStep(n, incoming, Reboot(session, window, kept, restored, last, lastId)) == if CanReboot(n, session, window, kept, restored) then RebootStep(n, session, window, kept, restored, last, lastId) else n
  {
    hide EndpointInv, CanReboot, RebootStep;
  }

  lemma RebootEvent(n: Node, o: Node, incoming: set<Bytes>, session: int, window: nat, kept: nat, restored: Window, last: nat, lastId: nat)
    requires NodeInv(n) && BooksInv(n) && PairInv(n, o) && EndpointInv(n.e)
    ensures var n' := NodeStep(n, incoming, Reboot(session, window, kept, restored, last, lastId));
            NodeInv(n') && Grew(n, n') && PairInv(n', o) && BooksInv(n')
  {
    hide *;
    SessionIn(n);
    RebootIs(n, incoming, session, window, kept, restored, last, lastId);
    if CanReboot(n, session, window, kept, restored) {
      RebootKeeps(n, o, session, window, kept, restored, last, lastId);
      RebootBooks(n, session, window, kept, restored, last, lastId);
    }
  }

  /** Every step of one side keeps its own books, its counters and what it knows of the other side. */
  lemma NodeStepKeeps(n: Node, o: Node, ev: Event)
    requires NodeInv(n) && BooksInv(n) && NodeInv(o) && PairInv(n, o)
    ensures EndpointInv(n.e)
    ensures var n' := NodeStep(n, o.wire, ev);
            NodeInv(n') && Grew(n, n') && PairInv(n', o) && BooksInv(n')
  {
    hide *;
    SessionIn(n);
    match ev
    case Draw => DrawEvent(n, o, o.wire);
    case DrawId => DrawIdEvent(n, o, o.wire);
    case Learn => LearnEvent(n, o, o.wire);
    case Submit(payload, messageId, slots, now) => SubmitEvent(n, o, o.wire, payload, messageId, slots, now);
    case Pumped(now) => PumpedEvent(n, o, o.wire, now);
    case Ping(slot) => PingEvent(n, o, o.wire, slot);
    case Arrive(packet, wall, now) => ArriveEvent(n, o, packet, wall, now);
    case Answer(reply, slot) => AnswerEvent(n, o, o.wire, reply, slot);
    case Reboot(session, window, kept, restored, last, lastId) =>
      RebootEvent(n, o, o.wire, session, window, kept, restored, last, lastId);
  }

  // ---------------------------------------------------------------------------------- both sides

  datatype System = System(x: Node, y: Node)

  datatype Move = OnX(ev: Event) | OnY(ev: Event)

  ghost predicate SysInv(s: System) {
    NodeInv(s.x) && NodeInv(s.y) && BooksInv(s.x) && BooksInv(s.y) && PairInv(s.x, s.y) && PairInv(s.y, s.x)
  }

  /** A process that has done nothing yet. */
  ghost predicate Newborn(n: Node) {
    && EndpointInv(n.e)
    && n.e.replay == Fresh(n.e.replay.size)
    && n.e.sender.queue == [] && n.e.sender.pending.items == map[]
    && n.e.table == EmptyTable(n.e.table.timeout, n.e.table.maxMessages, n.e.table.ttl)
    && n.e.innerKnown == n.e.role.Foreign?
    && n.numbers.out == {} && n.ids.out == {}
    && n == Node(n.e, n.numbers, n.ids, multiset{}, map[], map[], {}, [], [], [], {}, {}, {}, {}, {n.e.codec.session})
  }

  /** Both sides start with the same key and tunnel and in opposite roles. */
  ghost predicate Start(s: System) {
    Newborn(s.x) && Newborn(s.y) && Paired(s.x, s.y)
  }

  /** A newborn process with the source's default limits. */
  ghost function DefaultNode(role: Role, session: nat): Node {
    var e := Endpoint(Codec(PlainSuite(), seq(16, _ => 0), session, 600000), role, true, 1200, true, role.Foreign?,
                      NewSender(0.5, 8, 2048, 64, 512), Fresh(4096), EmptyTable(30.0, 1024, 120.0));
    Node(e, Counter(0, {}), Counter(0, {}), multiset{}, map[], map[], {}, [], [], [], {}, {}, {}, {}, {session})
  }

  /** The start condition can be met. */
  lemma StartCanBeMet()
    ensures Start(System(DefaultNode(Iran, 1), DefaultNode(Foreign, 2)))
  {
    LawsCanBeMet();
    hide PlainSuite, Lawful;
  }

  ghost function Step(s: System, m: Move): System
    requires SysInv(s)
  {
    match m
    case OnX(ev) => s.(x := NodeStep(s.x, s.y.wire, ev))
    case OnY(ev) => s.(y := NodeStep(s.y, s.x.wire, ev))
  }

  lemma StepKeeps(s: System, m: Move)
    requires SysInv(s)
    ensures SysInv(Step(s, m))
  {
    hide NodeInv, PairInv, BooksInv, NodeStep;
    var t := Step(s, m);
    match m
    case OnX(ev) =>
      NodeStepKeeps(s.x, s.y, ev);
      SubmittedValid(t.x);
      PairGrew(s.y, s.x, t.x);
    case OnY(ev) =>
      NodeStepKeeps(s.y, s.x, ev);
      SubmittedValid(t.y);
      PairGrew(s.x, s.y, t.y);
  }

  lemma SubmittedValid(n: Node)
    requires NodeInv(n)
    ensures forall k :: k in n.submitted ==> n.submitted[k].Valid()
  {
    hide FrameOk, Known, StoredKnown, EndpointInv;
    forall k | k in n.submitted
      ensures n.submitted[k].Valid()
    {
      assert MessageOk(n, k);
    }
  }

  lemma StartInv(s: System)
    requires Start(s)
    ensures SysInv(s)
  {
    StartPair(s.x, s.y);
    StartPair(s.y, s.x);
  }

  lemma StartPair(n: Node, o: Node)
    requires Newborn(n) && Newborn(o) && Paired(n, o)
    ensures NodeInv(n) && PairInv(n, o) && BooksInv(n)
  {
    hide SenderInv, TableInv, CountOf, DataIds;
    assert DeliveredKeys(n.delivered) == [];
    forall key
      ensures Account(n, o, key)
    {
    }
  }

  /** The state after a list of moves from a start. */
  ghost function Exec(s: System, moves: seq<Move>): (t: System)
    requires Start(s)
    ensures SysInv(t)
  {
    StartInv(s);
    if moves == [] then s
    else
      var p := Exec(s, moves[..|moves| - 1]);
      StepKeeps(p, moves[|moves| - 1]);
      Step(p, moves[|moves| - 1])
  }

  // ---------------------------------------------------------------------------- the main results

  /** No message has enough frames to be completed twice. */
  lemma CompletedOnce(n: Node, o: Node, key: Key)
    requires PairInv(n, o) && NodeInv(o)
    ensures multiset(n.completions)[key] <= 1
    ensures multiset(DeliveredKeys(n.delivered))[key] <= 1
  {
    hide HeldCount, DeliveredOk, HistoryOk, FrameOk, Known, StoredKnown, EndpointInv;
    assert Account(n, o, key);
    if key in o.submitted {
      assert MessageOk(o, key);
      var m := o.submitted[key];
      SubsetCard(AcceptedIds(n, o, key), DataIds(o.built, o.e.role.DataOut(), key));
      ChopNonEmpty(m.payload, m.fragmentSize);
      NotTwice(multiset(n.completions)[key], CountOf(m), |m.Specs()|);
    }
    assert multiset(DeliveredKeys(n.delivered)) <= multiset(n.completions) by {
      DeliveredFrom(n, o);
    }
  }

  lemma DeliveredFrom(n: Node, o: Node)
    requires PairInv(n, o)
    ensures DeliveredOk(n, o)
  {
  }

  lemma NotTwice(k: nat, count: nat, frames: nat)
    requires count >= 1 && k * count <= frames
    requires frames <= count + 1 && (count == 1 ==> frames <= 1)
    ensures k <= 1
  {
    assert k >= 2 ==> k * count >= 2 * count;
  }

  /** End to end, over every run with any loss, duplication, delay, reordering, timeout, eviction,
      acknowledgement and restart: within one lifetime of a receiver each message reaches its
      application at most once, and then with exactly the submitted bytes. */
  lemma DeliveredAtMostOnce(s: System, moves: seq<Move>, key: Key)
    requires Start(s)
    ensures var t := Exec(s, moves);
            && multiset(DeliveredKeys(t.x.delivered))[key] <= 1
            && multiset(DeliveredKeys(t.y.delivered))[key] <= 1
            && (forall i :: 0 <= i < |t.x.delivered| ==>
                 t.x.delivered[i].key in t.y.submitted && t.x.delivered[i].payload == t.y.submitted[t.x.delivered[i].key].payload)
            && (forall i :: 0 <= i < |t.y.delivered| ==>
                 t.y.delivered[i].key in t.x.submitted && t.y.delivered[i].payload == t.x.submitted[t.y.delivered[i].key].payload)
  {
    hide Exec, NodeInv, PairInv;
    var t := Exec(s, moves);
    CompletedOnce(t.x, t.y, key);
    CompletedOnce(t.y, t.x, key);
    DeliveredFrom(t.x, t.y);
    DeliveredFrom(t.y, t.x);
  }

  /** Over every run, whatever message of its own a received frame takes out of a side's in-flight table, the
      other side's reassembler has completed exactly that session and message id. */
  lemma AcknowledgedMeansFinished(s: System, moves: seq<Move>)
    requires Start(s)
    ensures var t := Exec(s, moves); t.x.acked <= t.y.finished && t.y.acked <= t.x.finished
  {
    hide Exec;
    var t := Exec(s, moves);
    assert SysInv(t);
  }

  /** What reassembly finished is what was forwarded, together with what was only ever completed while no
      inner peer was known; on the Foreign side there is no such message. */
  lemma ForwardedIff(s: System, moves: seq<Move>, key: Key)
    requires Start(s)
    ensures Reckoning(Exec(s, moves).x, key) && Reckoning(Exec(s, moves).y, key)
  {
    hide Exec, NodeInv, PairInv, BooksInv;
    BooksParts(Exec(s, moves).x);
    BooksParts(Exec(s, moves).y);
  }

  ghost predicate Reckoning(n: Node, key: Key) {
    && (key in n.forwarded <==> Outcome(key, true) in n.outcomes)
    && (key in n.finished && key !in n.forwarded <==> Outcome(key, false) in n.outcomes && Outcome(key, true) !in n.outcomes)
    && (n.e.role.Foreign? ==> (key in n.finished <==> key in n.forwarded))
  }

  /** In every run a message that one side counts as acknowledged has been handed to the other application
      if and only if one of its completions there happened with the inner peer known. The Foreign side
      always knows it, so what the Iran side counts as acknowledged has been forwarded. */
  lemma AcknowledgedForwardedIff(s: System, moves: seq<Move>, key: Key)
    requires Start(s)
    ensures var t := Exec(s, moves);
            && (key in t.x.acked ==> key in t.y.finished
                                     && (key in t.y.forwarded <==> Outcome(key, true) in t.y.outcomes)
                                     && (t.y.e.role.Foreign? ==> key in t.y.forwarded))
            && (key in t.y.acked ==> key in t.x.finished
                                     && (key in t.x.forwarded <==> Outcome(key, true) in t.x.outcomes)
                                     && (t.x.e.role.Foreign? ==> key in t.x.forwarded))
  {
    hide Exec;
    AcknowledgedMeansFinished(s, moves);
    ForwardedIff(s, moves, key);
  }

  /** Over every run, no packet of the other side's ever makes reassembly fail. */
  lemma ArrivalNeverFaults(s: System, moves: seq<Move>, packet: Bytes, wall: int, now: real)
    requires Start(s) && packet in Exec(s, moves).y.wire
    ensures var r := Receive(Exec(s, moves).x.e, packet, wall, now).0;
            r.Reassembled? ==> !r.verdict.Fault?
  {
    hide Exec;
    var t := Exec(s, moves);
    assert Known(t.y, packet);
    NoFault(t.x, t.y, packet, wall, now);
  }

  lemma NoFault(n: Node, o: Node, packet: Bytes, wall: int, now: real)
    requires NodeInv(n) && NodeInv(o) && PairInv(n, o) && Known(o, packet)
    ensures var r := Receive(n.e, packet, wall, now).0;
            r.Reassembled? ==> !r.verdict.Fault?
  {
    DecodeKnown(n, o, packet, wall);
    hide Known, StoredKnown, FrameOk, MessageOk, Handle, Decode, EncodeGuards, SenderInv, TableInv;
    if Decode(n.e.codec, packet, wall).Ok? {
      HandleTable(n, o, Decode(n.e.codec, packet, wall).value, now);
    }
  }
}
