/** The reliable sender: a bounded queue, an in-flight table, capped exponential backoff, a retry budget
    and an additive-increase multiplicative-decrease window. */
module Sending {
  import opened Common
  import opened Dicts

  datatype Transmission = Transmission(
    id: int,
    packets: seq<Bytes>,
    queuedAt: real,
    firstSent: Option<real>,
    lastSent: Option<real>,
    attempts: nat)

  datatype Outbound = Outbound(payload: Bytes, retransmission: bool)

  /** All packets of one message handed to the network at once. */
  datatype Emission = Emission(id: int, packets: seq<Bytes>, retransmission: bool, at: real)

  datatype Sender = Sender(
    timeout: real,
    maxAttempts: nat,
    maxPending: nat,
    maxWindow: nat,
    cwnd: real,
    queue: seq<Transmission>,
    pending: Dict<int, Transmission>)
  {
    predicate Empty() { queue == [] && |pending.items| == 0 }
  }

  function NewSender(timeout: real, maxRetries: nat, maxPending: nat, initialWindow: nat, maxWindow: nat): Sender {
    Sender(timeout, maxRetries + 1, maxPending, maxWindow, initialWindow as real, [], Dict([], map[]))
  }

  function Pow2(n: nat): nat {
    if n == 0 then 1 else 2 * Pow2(n - 1)
  }

  /** min(2 ** max(0, attempts - 1), 16) */
  function Backoff(attempts: nat): nat {
    Min(Pow2(Max(0, attempts - 1)), 16)
  }

  function MaxReal(a: real, b: real): real {
    if a >= b then a else b
  }

  predicate Due(t: Transmission, timeout: real, now: real) {
    t.lastSent.Some? && now - t.lastSent.value >= timeout * Backoff(t.attempts) as real
  }

  // --------------------------------------------------------------------------------- the operations

  datatype Enqueued = Queued | Full | NoPackets | DuplicateId

  predicate Known(s: Sender, id: int) {
    id in s.pending.items || exists i :: 0 <= i < |s.queue| && s.queue[i].id == id
  }

  function Enqueue(s: Sender, id: int, packets: seq<Bytes>, now: real): (Enqueued, Sender) {
    if packets == [] then (NoPackets, s)
    else if |s.queue| + |s.pending.items| >= s.maxPending then (Full, s)
    else if Known(s, id) then (DuplicateId, s)
    else (Queued, s.(queue := s.queue + [Transmission(id, packets, now, None, None, 0)]))
  }

  /** cwnd + 1 / max(1, cwnd), at most the largest window */
  function Grow(s: Sender): real {
    var c := s.cwnd + 1.0 / MaxReal(1.0, s.cwnd);
    if c <= s.maxWindow as real then c else s.maxWindow as real
  }

  function Acknowledge(s: Sender, id: int): (bool, Sender) {
    if id !in s.pending.items then (false, s)
    else (true, s.(pending := s.pending.Drop(id), cwnd := Grow(s)))
  }

  function Halve(c: real): real {
    MaxReal(1.0, c / 2.0)
  }

  /** One in-flight message looked at by the retransmission sweep: the new state, what is sent, and the
      messages given up. */
  function Visit(s: Sender, id: int, now: real): (Sender, seq<Emission>, seq<int>) {
    if id !in s.pending.items || !Due(s.pending.items[id], s.timeout, now) then (s, [], [])
    else
      var t := s.pending.items[id];
      if t.attempts >= s.maxAttempts then
        (s.(pending := s.pending.Drop(id), cwnd := Halve(s.cwnd)), [], [id])
      else
        (s.(pending := s.pending.Put(id, t.(attempts := t.attempts + 1, lastSent := Some(now))), cwnd := Halve(s.cwnd)),
         [Emission(id, t.packets, true, now)],
         [])
  }

  function Sweep(s: Sender, ids: seq<int>, now: real): (Sender, seq<Emission>, seq<int>) {
    if ids == [] then (s, [], [])
    else
      var (s1, sent, gone) := Sweep(s, ids[..|ids| - 1], now);
      var (s2, more, last) := Visit(s1, ids[|ids| - 1], now);
      (s2, sent + more, gone + last)
  }

  /** max(1, int(cwnd)) */
  function LaunchWindow(s: Sender): int {
    Max(1, s.cwnd.Floor)
  }

  function LaunchOne(s: Sender, now: real): (Sender, Emission)
    requires s.queue != []
  {
    var t := s.queue[0].(attempts := 1, firstSent := Some(now), lastSent := Some(now));
    (s.(queue := s.queue[1..], pending := s.pending.Put(t.id, t)), Emission(t.id, t.packets, false, now))
  }

  function Launch(s: Sender, window: int, now: real): (Sender, seq<Emission>)
    decreases |s.queue|
  {
    if s.queue == [] || |s.pending.items| >= window then (s, [])
    else
      var (s1, e) := LaunchOne(s, now);
      var (s2, es) := Launch(s1, window, now);
      (s2, [e] + es)
  }

  function Pump(s: Sender, now: real): (Sender, seq<Emission>, seq<int>) {
    var (s1, sent, gone) := Sweep(s, s.pending.order, now);
    var (s2, launched) := Launch(s1, LaunchWindow(s1), now);
    (s2, sent + launched, gone)
  }

  /** The packets of a list of emissions in the order they go out. */
  function Packets(es: seq<Emission>): seq<Outbound> {
    if es == [] then []
    else
      Packets(es[..|es| - 1]) + Wrap(es[|es| - 1].packets, es[|es| - 1].retransmission)
  }

  function Wrap(packets: seq<Bytes>, retransmission: bool): seq<Outbound> {
    seq(|packets|, i requires 0 <= i < |packets| => Outbound(packets[i], retransmission))
  }

  lemma PacketsNil()
    ensures Packets([]) == []
  {
  }

  lemma PacketsOne(e: Emission)
    ensures Packets([e]) == Wrap(e.packets, e.retransmission)
  {
    assert [e][..0] == [];
  }

  lemma PacketsSnoc(a: seq<Emission>, e: Emission)
    ensures Packets(a + [e]) == Packets(a) + Wrap(e.packets, e.retransmission)
  {
    assert (a + [e])[..|a|] == a;
  }

  lemma {:induction false} PacketsAppend(a: seq<Emission>, b: seq<Emission>)
    ensures Packets(a + b) == Packets(a) + Packets(b)
  {
    if b == [] {
      PacketsNil();
      hide Packets, Wrap;
      assert a + b == a;
    } else {
      hide Packets, Wrap;
      var n := |b| - 1;
      PacketsAppend(a, b[..n]);
      PacketsSnoc(a + b[..n], b[n]);
      PacketsSnoc(b[..n], b[n]);
      assert b[..n] + [b[n]] == b;
      assert a + b == a + b[..n] + [b[n]];
      Regroup(Packets(a), Packets(b[..n]), Wrap(b[n].packets, b[n].retransmission));
    }
  }

  lemma Regroup<T>(a: seq<T>, b: seq<T>, c: seq<T>)
    ensures a + b + c == a + (b + c)
  {
  }

  /** How many packets the first k emissions hold together. */
  function Offset(es: seq<Emission>, k: nat): nat
    requires k <= |es|
  {
    if k == 0 then 0 else Offset(es, k - 1) + |es[k - 1].packets|
  }

  /** Packet j of emission k goes out in its place, marked with what the emission is; and nothing else goes
      out. */
  ghost predicate OutInOrder(es: seq<Emission>, out: seq<Outbound>) {
    && |out| == Offset(es, |es|)
    && forall k, j :: 0 <= k < |es| && 0 <= j < |es[k].packets| ==>
                        PlacedAt(out, Offset(es, k) + j, es[k].packets[j], es[k].retransmission)
  }

  predicate PlacedAt(out: seq<Outbound>, i: nat, packet: Bytes, retransmission: bool) {
    i < |out| && out[i].payload == packet && out[i].retransmission == retransmission
  }

  lemma {:induction false} OffsetPrefix(es: seq<Emission>, n: nat, k: nat)
    requires k <= n <= |es|
    ensures Offset(es[..n], k) == Offset(es, k)
  {
    if k > 0 {
      OffsetPrefix(es, n, k - 1);
    }
  }

  lemma PlacedLast(out: seq<Outbound>, packets: seq<Bytes>, retransmission: bool, j: nat)
    requires j < |packets|
    ensures PlacedAt(out + Wrap(packets, retransmission), |out| + j, packets[j], retransmission)
  {
  }

  lemma PlacedStill(out: seq<Outbound>, more: seq<Outbound>, i: nat, packet: Bytes, retransmission: bool)
    requires PlacedAt(out, i, packet, retransmission)
    ensures PlacedAt(out + more, i, packet, retransmission)
  {
  }

  lemma LastOffset(es: seq<Emission>, n: nat)
    requires |es| == n + 1
    ensures Offset(es, n) == Offset(es[..n], n) && Offset(es, n + 1) == Offset(es, n) + |es[n].packets|
  {
    OffsetPrefix(es, n, n);
  }

  lemma OrderMore(es: seq<Emission>, out: seq<Outbound>)
    requires es != [] && OutInOrder(es[..|es| - 1], out)
    ensures var e := es[|es| - 1]; OutInOrder(es, out + Wrap(e.packets, e.retransmission))
  {
    hide Wrap, Offset, PlacedAt;
    var n := |es| - 1;
    var more := Wrap(es[n].packets, es[n].retransmission);
    LastOffset(es, n);
    forall k, j | 0 <= k < |es| && 0 <= j < |es[k].packets|
      ensures PlacedAt(out + more, Offset(es, k) + j, es[k].packets[j], es[k].retransmission)
    {
      if k < n {
        OffsetPrefix(es, n, k);
        assert es[..n][k] == es[k];
        PlacedStill(out, more, Offset(es, k) + j, es[k].packets[j], es[k].retransmission);
      } else {
        PlacedLast(out, es[n].packets, es[n].retransmission, j);
      }
    }
    assert |more| == |es[n].packets| by {
      WrapLength(es[n].packets, es[n].retransmission);
    }
  }

  lemma WrapLength(packets: seq<Bytes>, retransmission: bool)
    ensures |Wrap(packets, retransmission)| == |packets|
  {
  }

  /** Which packets a list of emissions puts out. */
  lemma {:induction false} PacketsInOrder(es: seq<Emission>)
    ensures OutInOrder(es, Packets(es))
  {
    if es != [] {
      hide OutInOrder, Wrap;
      PacketsInOrder(es[..|es| - 1]);
      OrderMore(es, Packets(es[..|es| - 1]));
    }
  }

  // --------------------------------------------------------------------------------------- the class

  class ReliableSender {
    var s: Sender

    ghost predicate Valid()
      reads this
    {
      SenderInv(s)
    }

    constructor (timeout: real, maxRetries: nat, maxPending: nat, initialWindow: nat, maxWindow: nat)
      requires timeout > 0.0 && maxPending >= 1 && 1 <= initialWindow <= maxWindow
      ensures Valid() && s == NewSender(timeout, maxRetries, maxPending, initialWindow, maxWindow)
      ensures s.Empty() && s.cwnd == initialWindow as real && s.maxWindow == maxWindow
      ensures s.timeout == timeout && s.maxAttempts == maxRetries + 1 && s.maxPending == maxPending
    {
      s := NewSender(timeout, maxRetries, maxPending, initialWindow, maxWindow);
    }

    method TryEnqueue(id: int, packets: seq<Bytes>, now: real) returns (r: Enqueued)
      requires Valid()
      modifies this
      ensures Valid() && (r, s) == Enqueue(old(s), id, packets, now)
      ensures r == NoPackets <==> packets == []
      ensures r == Full <==> packets != [] && |old(s).queue| + |old(s).pending.items| >= s.maxPending
      ensures r == DuplicateId <==> packets != [] && |old(s).queue| + |old(s).pending.items| < s.maxPending
                                    && (id in old(s).pending.items || exists i :: 0 <= i < |old(s).queue| && old(s).queue[i].id == id)
      ensures r == Queued ==> s == old(s).(queue := old(s).queue + [Transmission(id, packets, now, None, None, 0)])
      ensures r != Queued ==> s == old(s)
    {
      EnqueueInv(s, id, packets, now);
      if packets == [] {
        return NoPackets;
      }
      if |s.queue| + |s.pending.items| >= s.maxPending {
        return Full;
      }
      var duplicate := id in s.pending.items;
      for i := 0 to |s.queue|
        invariant duplicate <==> id in s.pending.items || exists j :: 0 <= j < i && s.queue[j].id == id
      {
        duplicate := duplicate || s.queue[i].id == id;
      }
      if duplicate {
        return DuplicateId;
      }
      s := s.(queue := s.queue + [Transmission(id, packets, now, None, None, 0)]);
      return Queued;
    }

    /** Also answers the round-trip time since the first transmission. */
    method Confirm(id: int, now: real) returns (known: bool, latency: Option<real>)
      requires Valid()
      modifies this
      ensures Valid() && (known, s) == Acknowledge(old(s), id)
      ensures known <==> id in old(s).pending.items
      ensures known ==> latency == Some(now - old(s).pending.items[id].firstSent.value)
      ensures known ==> var grown := old(s).cwnd + 1.0 / old(s).cwnd;
                        s.cwnd == if grown <= s.maxWindow as real then grown else s.maxWindow as real
      ensures known ==> s.pending.items == old(s).pending.items - {id} && s.queue == old(s).queue
      ensures !known ==> latency == None && s == old(s)
    {
      AcknowledgeInv(s, id);
      if id !in s.pending.items {
        return false, None;
      }
      var t := s.pending.items[id];
      s := s.(pending := s.pending.Drop(id));
      s := s.(cwnd := Grow(s));
      return true, if t.firstSent.Some? then Some(now - t.firstSent.value) else None;
    }

    method PumpNow(now: real) returns (packets: seq<Outbound>, exhausted: nat)
      requires Valid()
      modifies this
      ensures Valid()
      ensures s == Pump(old(s), now).0
      ensures packets == Packets(Pump(old(s), now).1) && OutInOrder(Pump(old(s), now).1, packets)
      ensures exhausted == |Pump(old(s), now).2|
    {
      hide SenderInv, Sweep, Launch, Packets, LaunchWindow, OutInOrder;
      PumpInv(s, now);
      ghost var sent, gone, launched;
      var more;
      packets, exhausted, sent, gone := Retransmit(now);
      more, launched := LaunchQueued(LaunchWindow(s), now);
      PacketsAppend(sent, launched);
      packets := packets + more;
      PacketsInOrder(Pump(old(s), now).1);
    }

    method LaunchQueued(window: int, now: real) returns (packets: seq<Outbound>, ghost launched: seq<Emission>)
      modifies this
      ensures (s, launched) == Launch(old(s), window, now)
      ensures packets == Packets(launched)
    {
      hide Packets, Wrap;
      packets, launched := [], [];
      PacketsNil();
      while s.queue != [] && |s.pending.items| < window
        invariant packets == Packets(launched)
        invariant Launch(old(s), window, now).0 == Launch(s, window, now).0
        invariant Launch(old(s), window, now).1 == launched + Launch(s, window, now).1
        decreases |s.queue|
      {
        var (s2, e) := LaunchOne(s, now);
        s := s2;
        PacketsAppend(launched, [e]);
        PacketsOne(e);
        packets, launched := packets + Wrap(e.packets, e.retransmission), launched + [e];
      }
      assert launched + Launch(s, window, now).1 == launched;
    }

    method Retransmit(now: real) returns (packets: seq<Outbound>, exhausted: nat, ghost sent: seq<Emission>, ghost gone: seq<int>)
      modifies this
      ensures (s, sent, gone) == Sweep(old(s), old(s).pending.order, now)
      ensures packets == Packets(sent) && exhausted == |gone|
    {
      packets, exhausted, sent, gone := [], 0, [], [];
      var ids := s.pending.order;
      for i := 0 to |ids|
        invariant (s, sent, gone) == Sweep(old(s), ids[..i], now)
        invariant packets == Packets(sent) && exhausted == |gone|
      {
        hide Visit, Packets;
        assert ids[..i + 1][..i] == ids[..i];
        var out, n; ghost var more, last;
        out, n, more, last := VisitOne(ids[i], now);
        PacketsAppend(sent, more);
        sent, gone, packets, exhausted := sent + more, gone + last, packets + out, exhausted + n;
      }
      assert ids[..|ids|] == ids;
    }

    method VisitOne(id: int, now: real) returns (packets: seq<Outbound>, exhausted: nat, ghost more: seq<Emission>, ghost last: seq<int>)
      modifies this
      ensures (s, more, last) == Visit(old(s), id, now)
      ensures packets == Packets(more) && exhausted == |last|
    {
      packets, exhausted := [], 0;
      more, last := Visit(s, id, now).1, Visit(s, id, now).2;
      if id in s.pending.items {
        var t := s.pending.items[id];
        if t.lastSent.Some? && now - t.lastSent.value >= s.timeout * Backoff(t.attempts) as real {
          if t.attempts >= s.maxAttempts {
            s := s.(pending := s.pending.Drop(id));
            exhausted := 1;
            s := s.(cwnd := Halve(s.cwnd));
          } else {
            t := t.(attempts := t.attempts + 1);
            t := t.(lastSent := Some(now));
            s := s.(pending := s.pending.Put(id, t));
            s := s.(cwnd := Halve(s.cwnd));
            packets := Wrap(t.packets, true);
            PacketsOne(more[0]);
          }
        }
      }
    }
  }

  // --------------------------------------------------------------------------------- the invariant

  function Ids(q: seq<Transmission>): seq<int> {
    seq(|q|, i requires 0 <= i < |q| => q[i].id)
  }

  /** An in-flight message has been sent at least once and never beyond its budget. */
  ghost predicate InFlight(t: Transmission, id: int, maxAttempts: nat) {
    t.id == id && t.firstSent.Some? && t.lastSent.Some? && 1 <= t.attempts <= maxAttempts
  }

  ghost predicate SenderInv(s: Sender) {
    && s.maxAttempts >= 1 && s.timeout > 0.0
    && s.pending.Valid()
    && (forall id :: id in s.pending.items ==> InFlight(s.pending.items[id], id, s.maxAttempts))
    && NoDup(Ids(s.queue))
    && (forall i :: 0 <= i < |s.queue| ==> s.queue[i].id !in s.pending.items)
    && |s.queue| + |s.pending.items| <= s.maxPending
    && |s.pending.items| <= s.maxWindow
    && 1.0 <= s.cwnd <= s.maxWindow as real
  }

  lemma EnqueueInv(s: Sender, id: int, packets: seq<Bytes>, now: real)
    requires SenderInv(s)
    ensures SenderInv(Enqueue(s, id, packets, now).1)
  {
    var s' := Enqueue(s, id, packets, now).1;
    if s' != s {
      assert Ids(s'.queue) == Ids(s.queue) + [id];
    }
  }

  lemma AcknowledgeInv(s: Sender, id: int)
    requires SenderInv(s)
    ensures SenderInv(Acknowledge(s, id).1)
  {
    hide NoDup;
    DropAllValid(s.pending, {id});
    DropSize(s.pending.items, {id});
    assert s.cwnd + 1.0 / MaxReal(1.0, s.cwnd) >= 1.0;
  }

  lemma VisitInv(s: Sender, id: int, now: real)
    requires SenderInv(s)
    ensures SenderInv(Visit(s, id, now).0)
    ensures Visit(s, id, now).0.queue == s.queue
  {
    hide NoDup;
    DropAllValid(s.pending, {id});
    DropSize(s.pending.items, {id});
    if id in s.pending.items {
      var t := s.pending.items[id];
      var t' := t.(attempts := t.attempts + 1, lastSent := Some(now));
      PutValid(s.pending, id, t');
      PutSize(s.pending.items, id, t');
    }
  }

  lemma {:induction false} SweepInv(s: Sender, ids: seq<int>, now: real)
    requires SenderInv(s)
    ensures SenderInv(Sweep(s, ids, now).0)
  {
    hide SenderInv, Visit;
    if ids != [] {
      SweepInv(s, ids[..|ids| - 1], now);
      VisitInv(Sweep(s, ids[..|ids| - 1], now).0, ids[|ids| - 1], now);
    }
  }

  /** The rest of the queue after its head. */
  lemma QueueTail(s: Sender)
    requires SenderInv(s) && s.queue != []
    ensures NoDup(Ids(s.queue[1..]))
    ensures forall i :: 1 <= i < |s.queue| ==> s.queue[i].id != s.queue[0].id && s.queue[i].id !in s.pending.items
  {
    assert Ids(s.queue[1..]) == Ids(s.queue)[1..];
    forall i | 1 <= i < |s.queue|
      ensures s.queue[i].id != s.queue[0].id
    {
      assert Ids(s.queue)[0] != Ids(s.queue)[i];
    }
  }

  lemma LaunchOneInv(s: Sender, now: real)
    requires SenderInv(s) && s.queue != [] && |s.pending.items| < s.maxWindow
    ensures SenderInv(LaunchOne(s, now).0)
  {
    var t := s.queue[0].(attempts := 1, firstSent := Some(now), lastSent := Some(now));
    QueueTail(s);
    PutValid(s.pending, t.id, t);
    PutSize(s.pending.items, t.id, t);
    hide NoDup, Ids;
  }

  lemma {:induction false} LaunchInv(s: Sender, window: int, now: real)
    requires SenderInv(s) && window <= s.maxWindow
    ensures SenderInv(Launch(s, window, now).0)
    decreases |s.queue|
  {
    hide SenderInv;
    if s.queue != [] && |s.pending.items| < window {
      LaunchOneInv(s, now);
      LaunchInv(LaunchOne(s, now).0, window, now);
    }
  }

  lemma WindowBound(s: Sender)
    requires SenderInv(s)
    ensures 1 <= LaunchWindow(s) <= s.maxWindow
  {
  }

  /** Every pump keeps the bounds on the queue, the in-flight table and the window. */
  lemma PumpInv(s: Sender, now: real)
    requires SenderInv(s)
    ensures SenderInv(Pump(s, now).0)
  {
    hide SenderInv, Sweep, Launch;
    SweepInv(s, s.pending.order, now);
    var s1 := Sweep(s, s.pending.order, now).0;
    WindowBound(s1);
    LaunchInv(s1, LaunchWindow(s1), now);
  }
}
