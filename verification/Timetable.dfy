/** When a message is let in, sent again and given up: exactly, not only at most. */
module Timetables {
  import opened Common
  import opened Dicts
  import opened Sending
  import opened SenderRuns

  // ----------------------------------------------------------------------------------- admission

  /** Messages accepted and neither acknowledged nor given up. */
  function Held(l: Ledger): int {
    |l.submitted| - |l.acked| - |l.exhausted|
  }

  function HeldUnder(l: Ledger, id: int): int {
    var accepted: int, acked: int, gone: int := multiset(l.submitted)[id], multiset(l.acked)[id], multiset(GoneIds(l.exhausted))[id];
    accepted - acked - gone
  }

  lemma HeldIs(s: Sender, l: Ledger)
    requires SenderInv(s) && Conserved(s, l)
    ensures |s.queue| + |s.pending.items| == Held(l)
  {
    Size(s.pending);
    assert |multiset(l.launched)| == |multiset(s.pending.order)| + |multiset(l.acked)| + |multiset(GoneIds(l.exhausted))|;
    assert |Ids(s.queue)| == |s.queue|;
  }

  lemma HeldUnderIs(s: Sender, l: Ledger, id: int)
    requires SenderInv(s) && Conserved(s, l)
    ensures Known(s, id) <==> HeldUnder(l, id) > 0
  {
    assert multiset(l.submitted) == multiset(l.launched) + multiset(Ids(s.queue));
    assert id in s.pending.items <==> id in s.pending.order;
    assert id in s.pending.order <==> multiset(s.pending.order)[id] > 0;
    assert id in Ids(s.queue) <==> multiset(Ids(s.queue))[id] > 0;
    if i :| 0 <= i < |s.queue| && s.queue[i].id == id {
      assert Ids(s.queue)[i] == id;
    }
  }

  lemma {:induction false} RunLimit(s0: Sender, events: seq<Event>)
    ensures Exec(s0, events).0.maxPending == s0.maxPending
  {
    hide Step;
    if events != [] {
      var n := |events| - 1;
      RunLimit(s0, events[..n]);
      StepConfig(Exec(s0, events[..n]).0, Exec(s0, events[..n]).1, events[n]);
    }
  }

  /** Over every run: what is held is what was accepted less what was acknowledged or given up. A nonempty
      submission is refused for lack of room exactly when that has reached the limit; with room it is refused
      as a duplicate exactly when its id is still held; otherwise it is accepted. */
  lemma AdmittedExactly(timeout: real, maxRetries: nat, maxPending: nat, initialWindow: nat, maxWindow: nat, events: seq<Event>,
                        id: int, packets: seq<Bytes>, now: real)
    requires timeout > 0.0 && maxPending >= 1 && 1 <= initialWindow <= maxWindow
    ensures var (s, l) := Exec(NewSender(timeout, maxRetries, maxPending, initialWindow, maxWindow), events);
            var r := Enqueue(s, id, packets, now).0;
            && |s.queue| + |s.pending.items| == Held(l) <= maxPending
            && (r == NoPackets <==> packets == [])
            && (r == Full <==> packets != [] && Held(l) == maxPending)
            && (r == DuplicateId <==> packets != [] && Held(l) < maxPending && HeldUnder(l, id) > 0)
            && (r == Queued <==> packets != [] && Held(l) < maxPending && HeldUnder(l, id) <= 0)
            && (id !in l.submitted ==> HeldUnder(l, id) <= 0)
  {
    hide Exec, Conserved, Known, SenderInv;
    var s0 := NewSender(timeout, maxRetries, maxPending, initialWindow, maxWindow);
    RunConserves(timeout, maxRetries, maxPending, initialWindow, maxWindow, events);
    RunLimit(s0, events);
    var (s, l) := Exec(s0, events);
    HeldIs(s, l);
    HeldUnderIs(s, l, id);
  }

  // ------------------------------------------------------------------------------- retransmission

  /** How long the n-th transmission of a message waits for its acknowledgement: twice as long each time,
      up to sixteen times the timeout. */
  function Patience(timeout: real, n: nat): real
    requires n >= 1
  {
    timeout * (if n >= 5 then 16 else Pow2(n - 1)) as real
  }

  lemma BackoffIs(n: nat)
    requires n >= 1
    ensures Backoff(n) == if n >= 5 then 16 else Pow2(n - 1)
  {
    if n >= 5 {
      Pow2AtLeast(n - 1);
    }
  }

  lemma OfNone(k: int)
    ensures Of([], k) == []
  {
  }

  lemma {:induction false} OfAppend(a: seq<Emission>, b: seq<Emission>, k: int)
    ensures Of(a + b, k) == Of(a, k) + Of(b, k)
  {
    hide Of;
    if b == [] {
      OfNone(k);
      assert a + b == a;
    } else {
      var n := |b| - 1;
      var last := if b[n].id == k then [b[n]] else [];
      OfAppend(a, b[..n], k);
      OfSnoc(a + b[..n], b[n], k);
      OfSnoc(b[..n], b[n], k);
      assert b[..n] + [b[n]] == b;
      assert a + b == a + b[..n] + [b[n]];
      Sending.Regroup(Of(a, k), Of(b[..n], k), last);
    }
  }

  lemma OfVisited(s: Sender, id: int, now: real, k: int)
    ensures Of(Visit(s, id, now).1, k) == if k == id then Visit(s, id, now).1 else []
  {
    hide Due, Halve, WithoutAll;
    var es := Visit(s, id, now).1;
    if es != [] {
      assert [] + es == es;
      OfSnoc([], es[0], k);
    }
  }

  /** The entry of message k is the same in both senders. */
  ghost predicate SameEntry(s: Sender, s1: Sender, k: int) {
    (k in s1.pending.items <==> k in s.pending.items) && (k in s.pending.items ==> s1.pending.items[k] == s.pending.items[k])
  }

  lemma VisitAgrees(s: Sender, s1: Sender, k: int, now: real)
    requires SameEntry(s, s1, k) && s1.timeout == s.timeout && s1.maxAttempts == s.maxAttempts
    ensures Visit(s1, k, now).1 == Visit(s, k, now).1 && Visit(s1, k, now).2 == Visit(s, k, now).2
    ensures SameEntry(Visit(s, k, now).0, Visit(s1, k, now).0, k)
  {
    hide Due, Halve, WithoutAll;
  }

  lemma VisitElsewhere(s: Sender, id: int, now: real, k: int)
    requires k != id
    ensures SameEntry(s, Visit(s, id, now).0, k) && k !in Visit(s, id, now).2
  {
    hide Due, Halve, WithoutAll;
  }

  /** A sweep does to each of the messages it lists what one visit does to it, and nothing to the others. */
  ghost predicate SweptAs(s: Sender, s': Sender, sent: seq<Emission>, gone: seq<int>, k: int, now: real, listed: bool) {
    if listed then
      Of(sent, k) == Visit(s, k, now).1 && (k in gone <==> k in Visit(s, k, now).2) && SameEntry(Visit(s, k, now).0, s', k)
    else
      Of(sent, k) == [] && k !in gone && SameEntry(s, s', k)
  }

  /** One more visit, of a message that is not yet listed. */
  lemma SweptMore(s: Sender, s1: Sender, sent: seq<Emission>, gone: seq<int>, x: int, k: int, now: real, listed: bool)
    requires SweptAs(s, s1, sent, gone, k, now, listed) && !(listed && k == x)
    requires s1.timeout == s.timeout && s1.maxAttempts == s.maxAttempts
    ensures var (s2, more, last) := Visit(s1, x, now);
            SweptAs(s, s2, sent + more, gone + last, k, now, listed || k == x)
  {
    hide Visit, Of;
    var (s2, more, last) := Visit(s1, x, now);
    OfAppend(sent, more, k);
    OfVisited(s1, x, now, k);
    assert k in gone + last <==> k in gone || k in last;
    if k == x {
      VisitAgrees(s, s1, k, now);
    } else {
      VisitElsewhere(s1, x, now, k);
    }
  }

  lemma {:induction false} SweepOne(s: Sender, ids: seq<int>, now: real, k: int)
    requires NoDup(ids)
    ensures var (s', sent, gone) := Sweep(s, ids, now); SweptAs(s, s', sent, gone, k, now, k in ids)
  {
    if ids != [] {
      var n := |ids| - 1;
      InitNoDup(ids);
      assert ids == ids[..n] + [ids[n]];
      assert ids[n] !in ids[..n];
      hide Visit, NoDup, SweptAs;
      SweepOne(s, ids[..n], now, k);
      SweepConfig(s, ids[..n], now);
      var (s1, sent, gone) := Sweep(s, ids[..n], now);
      SweptMore(s, s1, sent, gone, ids[n], k, now, k in ids[..n]);
    } else {
      SweptNone(s, k, now);
    }
  }

  lemma SweptNone(s: Sender, k: int, now: real)
    ensures SweptAs(s, s, [], [], k, now, false)
  {
  }

  /** Launching concerns only what is queued. */
  lemma {:induction false} LaunchOther(s: Sender, window: int, now: real, k: int)
    requires k !in Ids(s.queue)
    ensures var (s', es) := Launch(s, window, now); Of(es, k) == [] && SameEntry(s, s', k)
    decreases |s.queue|
  {
    if s.queue != [] && |s.pending.items| < window {
      var (s1, e) := LaunchOne(s, now);
      assert Ids(s.queue)[0] == e.id && Ids(s1.queue) == Ids(s.queue)[1..];
      LaunchOther(s1, window, now, k);
      var es := Launch(s1, window, now).1;
      OfAppend([e], es, k);
      assert [] + [e] == [e];
      OfSnoc([], e, k);
      hide Of;
    }
  }

  lemma PendingNotQueued(s: Sender, k: int)
    requires SenderInv(s) && k in s.pending.items
    ensures k !in Ids(s.queue) && k in s.pending.order && NoDup(s.pending.order)
  {
  }

  /** A pump does to a message in flight what one visit does to it. */
  lemma PumpOne(s: Sender, now: real, k: int)
    requires SenderInv(s) && k in s.pending.items
    ensures var (s', es, gone) := Pump(s, now); SweptAs(s, s', es, gone, k, now, true)
  {
    hide SenderInv, Sweep, Launch, LaunchWindow, Visit, Of, Ids, NoDup;
    PendingNotQueued(s, k);
    SweepOne(s, s.pending.order, now, k);
    SweepConfig(s, s.pending.order, now);
    var (s1, sent, gone) := Sweep(s, s.pending.order, now);
    LaunchOther(s1, LaunchWindow(s1), now, k);
    OfAppend(sent, Launch(s1, LaunchWindow(s1), now).1, k);
    assert Of(sent, k) + [] == Of(sent, k);
  }

  lemma StampedHas(before: seq<Gone>, gone: seq<int>, now: real, k: int)
    ensures Gone(k, now) in (before + Stamped(gone, now))[|before|..] <==> k in gone
  {
    assert (before + Stamped(gone, now))[|before|..] == Stamped(gone, now);
    if k in gone {
      var i :| 0 <= i < |gone| && gone[i] == k;
      assert Stamped(gone, now)[i] == Gone(k, now);
    }
  }

  lemma InFlightFacts(s: Sender, l: Ledger, id: int)
    requires SenderInv(s) && History(s, l) && id in s.pending.items
    ensures var t, es := s.pending.items[id], Of(l.log, id);
            && t.id == id && 1 <= |es| == t.attempts <= s.maxAttempts
            && t.lastSent == Some(es[|es| - 1].at) && id in l.content && t.packets == l.content[id]
  {
    hide NoDup, Of, Shape, Spread, Wait, InQueue;
    assert MessageOk(s, l, id);
  }

  /** One visit of a message in flight. */
  lemma VisitIs(s: Sender, id: int, now: real)
    requires SenderInv(s) && id in s.pending.items
    ensures var t := s.pending.items[id];
            && t.lastSent.Some? && t.attempts >= 1
            && var due := now - t.lastSent.value >= Patience(s.timeout, t.attempts);
            && var (s', sent, gone) := Visit(s, id, now);
            && sent == (if due && t.attempts < s.maxAttempts then [Emission(id, t.packets, true, now)] else [])
            && gone == (if due && t.attempts >= s.maxAttempts then [id] else [])
            && (id in s'.pending.items <==> !(due && t.attempts >= s.maxAttempts))
  {
    PendingFacts(s, id);
    DueIs(s.pending.items[id], s.timeout, now);
    hide Due, Patience, SenderInv, Halve, WithoutAll;
  }

  lemma PendingFacts(s: Sender, id: int)
    requires SenderInv(s) && id in s.pending.items
    ensures s.pending.items[id].lastSent.Some? && s.pending.items[id].attempts >= 1
  {
    hide NoDup;
  }

  lemma DueIs(t: Transmission, timeout: real, now: real)
    requires t.lastSent.Some? && t.attempts >= 1
    ensures Due(t, timeout, now) <==> now - t.lastSent.value >= Patience(timeout, t.attempts)
  {
    BackoffIs(t.attempts);
    hide Backoff, Pow2;
  }

  lemma TickIs(s: Sender, l: Ledger, now: real)
    ensures var (s', l') := Step(s, l, Tick(now));
            var (s2, sent, gone) := Pump(s, now);
            s' == s2 && l'.log == l.log + sent && l'.exhausted == l.exhausted + Stamped(gone, now) && l'.content == l.content
  {
    hide Pump, Originals, Stamped;
  }

  lemma SweptIs(s: Sender, s': Sender, sent: seq<Emission>, gone: seq<int>, id: int, now: real)
    requires SweptAs(s, s', sent, gone, id, now, true)
    ensures Of(sent, id) == Visit(s, id, now).1 && (id in gone <==> id in Visit(s, id, now).2)
    ensures id in s'.pending.items <==> id in Visit(s, id, now).0.pending.items
  {
    hide Visit, Of;
  }

  /** What a pump does to one message in flight, in terms of the message's own transmissions so far. */
  lemma TickOne(s: Sender, l: Ledger, id: int, now: real)
    requires SenderInv(s) && History(s, l) && id in s.pending.items
    ensures var es := Of(l.log, id);
            && 1 <= |es| <= s.maxAttempts && id in l.content
            && var due := now - es[|es| - 1].at >= Patience(s.timeout, |es|);
            && var (s', l') := Step(s, l, Tick(now));
            && Of(l'.log, id) == es + (if due && |es| < s.maxAttempts then [Emission(id, l.content[id], true, now)] else [])
            && (id in s'.pending.items <==> !(due && |es| == s.maxAttempts))
            && |l.exhausted| <= |l'.exhausted|
            && (Gone(id, now) in l'.exhausted[|l.exhausted|..] <==> due && |es| == s.maxAttempts)
  {
    hide *;
    InFlightFacts(s, l, id);
    PumpOne(s, now, id);
    VisitIs(s, id, now);
    TickIs(s, l, now);
    var (s', sent, gone) := Pump(s, now);
    SweptIs(s, s', sent, gone, id, now);
    OfAppend(l.log, sent, id);
    StampedHas(l.exhausted, gone, now, id);
  }

  /** Over every run: a pump sends a message in flight again if and only if its last transmission has waited
      out its patience and its budget is not used up, and then with the packets it was accepted with; it gives
      the message up if and only if the last transmission of its budget has. */
  lemma SentAgainExactlyWhenDue(timeout: real, maxRetries: nat, maxPending: nat, initialWindow: nat, maxWindow: nat, events: seq<Event>,
                                id: int, now: real)
    requires timeout > 0.0 && maxPending >= 1 && 1 <= initialWindow <= maxWindow && DistinctIds(events)
    requires id in Exec(NewSender(timeout, maxRetries, maxPending, initialWindow, maxWindow), events).0.pending.items
    ensures var (s, l) := Exec(NewSender(timeout, maxRetries, maxPending, initialWindow, maxWindow), events);
            var es := Of(l.log, id);
            && 1 <= |es| <= maxRetries + 1 && id in l.content
            && var due := now - es[|es| - 1].at >= Patience(timeout, |es|);
            && var (s', l') := Step(s, l, Tick(now));
            && Of(l'.log, id) == es + (if due && |es| <= maxRetries then [Emission(id, l.content[id], true, now)] else [])
            && (id in s'.pending.items <==> !(due && |es| == maxRetries + 1))
            && |l.exhausted| <= |l'.exhausted|
            && (Gone(id, now) in l'.exhausted[|l.exhausted|..] <==> due && |es| == maxRetries + 1)
  {
    hide *;
    RunHistory(timeout, maxRetries, maxPending, initialWindow, maxWindow, events);
    var (s, l) := Exec(NewSender(timeout, maxRetries, maxPending, initialWindow, maxWindow), events);
    TickOne(s, l, id, now);
  }

  // ------------------------------------------------------------------------------- first transmission

  lemma VisitCount(s: Sender, id: int, now: real)
    ensures var (s', sent, gone) := Visit(s, id, now);
            && |s'.pending.items| == |s.pending.items| - |gone|
            && (forall i :: 0 <= i < |sent| ==> sent[i].retransmission)
  {
    DropSize(s.pending.items, {id});
    if id in s.pending.items {
      PutSize(s.pending.items, id, s.pending.items[id].(attempts := s.pending.items[id].attempts + 1, lastSent := Some(now)));
    }
    hide Due, Halve, WithoutAll;
  }

  /** A sweep takes out what it gives up, and sends nothing for the first time. */
  lemma {:induction false} SweepCount(s: Sender, ids: seq<int>, now: real)
    ensures var (s', sent, gone) := Sweep(s, ids, now);
            && |s'.pending.items| == |s.pending.items| - |gone|
            && (forall i :: 0 <= i < |sent| ==> sent[i].retransmission)
  {
    hide Visit;
    if ids != [] {
      SweepCount(s, ids[..|ids| - 1], now);
      VisitCount(Sweep(s, ids[..|ids| - 1], now).0, ids[|ids| - 1], now);
    }
  }

  /** The first k queued messages, each sent for the first time. */
  ghost predicate FirstTime(queue: seq<Transmission>, es: seq<Emission>, now: real) {
    |es| <= |queue| && forall i :: 0 <= i < |es| ==> es[i] == Emission(queue[i].id, queue[i].packets, false, now)
  }

  lemma {:induction false} LaunchExact(s: Sender, window: int, now: real)
    requires SenderInv(s) && window <= s.maxWindow
    ensures var (s', es) := Launch(s, window, now);
            && |es| == Max(0, Min(|s.queue|, window - |s.pending.items|))
            && FirstTime(s.queue, es, now) && s'.queue == s.queue[|es|..]
            && |s'.pending.items| == |s.pending.items| + |es|
    decreases |s.queue|
  {
    hide SenderInv;
    if s.queue != [] && |s.pending.items| < window {
      LaunchOneInv(s, now);
      var (s1, e) := LaunchOne(s, now);
      HeadNotPending(s);
      PutSize(s.pending.items, s.queue[0].id, s1.pending.items[s.queue[0].id]);
      LaunchExact(s1, window, now);
      var es := Launch(s1, window, now).1;
      assert s.queue[1..][|es|..] == s.queue[|es| + 1..];
    }
  }

  lemma HeadNotPending(s: Sender)
    requires SenderInv(s) && s.queue != []
    ensures s.queue[0].id !in s.pending.items
  {
  }

  /** The last k emissions are the first k queued messages, which have left the queue; all others are
      retransmissions. */
  ghost predicate Launched(queue: seq<Transmission>, rest: seq<Transmission>, es: seq<Emission>, k: nat, now: real) {
    && k <= |es| && k <= |queue|
    && FirstTime(queue, es[|es| - k..], now)
    && (forall i :: 0 <= i < |es| - k ==> es[i].retransmission)
    && rest == queue[k..]
  }

  /** A pump sends for the first time exactly as many messages, from the front of the queue, as the window
      has room for once the sweep is done: the window being the new one, and at least 1. */
  lemma PumpLaunches(s: Sender, now: real)
    requires SenderInv(s)
    ensures var (s', es, gone) := Pump(s, now);
            var kept := |s.pending.items| - |gone|;
            var k := Max(0, Min(|s.queue|, Max(1, s'.cwnd.Floor) - kept));
            && Launched(s.queue, s'.queue, es, k, now)
            && |s'.pending.items| == kept + k
  {
    hide SenderInv, Sweep, Launch;
    SweepCount(s, s.pending.order, now);
    SweepInv(s, s.pending.order, now);
    SweepConfig(s, s.pending.order, now);
    var (s1, sent, gone) := Sweep(s, s.pending.order, now);
    WindowBound(s1);
    LaunchExact(s1, LaunchWindow(s1), now);
    LaunchConfig(s1, LaunchWindow(s1), now);
    var launched := Launch(s1, LaunchWindow(s1), now).1;
    assert (sent + launched)[|sent|..] == launched;
  }

  // ---------------------------------------------------------------------------------------- order

  /** The first list is part of the second, in the same order. */
  predicate Part(a: seq<int>, b: seq<int>)
    decreases |b|
  {
    if a == [] then true
    else if b == [] then false
    else if a[|a| - 1] == b[|b| - 1] then Part(a[..|a| - 1], b[..|b| - 1])
    else Part(a, b[..|b| - 1])
  }

  lemma {:induction false} PartMore(a: seq<int>, b: seq<int>, x: int)
    requires Part(a, b)
    ensures Part(a, b + [x])
    decreases |b|, 1
  {
    assert (b + [x])[..|b|] == b;
    if a != [] && a[|a| - 1] == x {
      PartInit(a, b);
    }
  }

  lemma {:induction false} PartInit(a: seq<int>, b: seq<int>)
    requires Part(a, b) && a != []
    ensures Part(a[..|a| - 1], b)
    decreases |b|, 0
  {
    var b', x := b[..|b| - 1], b[|b| - 1];
    assert b == b' + [x];
    if a[|a| - 1] != x {
      PartInit(a, b');
    }
    PartMore(a[..|a| - 1], b', x);
  }

  lemma PartSnoc(a: seq<int>, b: seq<int>, x: int)
    requires Part(a, b)
    ensures Part(a + [x], b + [x])
  {
    assert (a + [x])[..|a|] == a && (b + [x])[..|b|] == b;
  }

  lemma {:induction false} PartSelf(a: seq<int>)
    ensures Part(a, a)
  {
    if a != [] {
      PartSelf(a[..|a| - 1]);
    }
  }

  lemma {:induction false} PartWithout(a: seq<int>, b: seq<int>, ks: set<int>)
    requires Part(a, b)
    ensures Part(WithoutAll(a, ks), b)
    decreases |b|
  {
    if a != [] {
      var b', x := b[..|b| - 1], b[|b| - 1];
      assert b == b' + [x];
      if a[|a| - 1] == x {
        PartWithout(a[..|a| - 1], b', ks);
        if x in ks {
          PartMore(WithoutAll(a[..|a| - 1], ks), b', x);
          assert WithoutAll(a, ks) == WithoutAll(a[..|a| - 1], ks);
        } else {
          PartSnoc(WithoutAll(a[..|a| - 1], ks), b', x);
        }
      } else {
        PartWithout(a, b', ks);
        PartMore(WithoutAll(a, ks), b', x);
      }
    }
  }

  lemma VisitPart(s: Sender, id: int, now: real, b: seq<int>)
    requires Part(s.pending.order, b)
    ensures Part(Visit(s, id, now).0.pending.order, b)
  {
    PartWithout(s.pending.order, b, {id});
    hide Due, Halve, WithoutAll, Part;
  }

  lemma {:induction false} SweepPart(s: Sender, ids: seq<int>, now: real, b: seq<int>)
    requires Part(s.pending.order, b)
    ensures Part(Sweep(s, ids, now).0.pending.order, b)
  {
    hide Visit, Part;
    if ids != [] {
      SweepPart(s, ids[..|ids| - 1], now, b);
      VisitPart(Sweep(s, ids[..|ids| - 1], now).0, ids[|ids| - 1], now, b);
    }
  }

  lemma LaunchOnePart(s: Sender, now: real, b: seq<int>)
    requires SenderInv(s) && s.queue != [] && Part(s.pending.order, b)
    ensures var (s1, e) := LaunchOne(s, now); Part(s1.pending.order, b + [e.id])
  {
    HeadNotPending(s);
    PartSnoc(s.pending.order, b, s.queue[0].id);
    hide Part;
  }

  lemma {:induction false} LaunchPart(s: Sender, window: int, now: real, b: seq<int>)
    requires SenderInv(s) && window <= s.maxWindow && Part(s.pending.order, b)
    ensures Part(Launch(s, window, now).0.pending.order, b + Originals(Launch(s, window, now).1))
    decreases |s.queue|
  {
    hide SenderInv, Part, Originals;
    if s.queue != [] && |s.pending.items| < window {
      LaunchOneInv(s, now);
      LaunchOnePart(s, now, b);
      var (s1, e) := LaunchOne(s, now);
      LaunchPart(s1, window, now, b + [e.id]);
      var es := Launch(s1, window, now).1;
      OriginalsAppend([e], es);
      OriginalsOne(e);
      assert b + [e.id] + Originals(es) == b + ([e.id] + Originals(es));
    } else {
      assert Originals([]) == [] by {
        NoneOriginal();
      }
      assert b + [] == b;
    }
  }

  lemma NoneOriginal()
    ensures Originals([]) == []
  {
  }

  lemma {:induction false} AllRetransmissions(es: seq<Emission>)
    requires forall i :: 0 <= i < |es| ==> es[i].retransmission
    ensures Originals(es) == []
  {
    if es != [] {
      AllRetransmissions(es[..|es| - 1]);
    }
  }

  lemma PumpPart(s: Sender, now: real, b: seq<int>)
    requires SenderInv(s) && Part(s.pending.order, b)
    ensures Part(Pump(s, now).0.pending.order, b + Originals(Pump(s, now).1))
  {
    hide SenderInv, Part, Originals, Sweep, Launch, LaunchWindow;
    var (s1, sent, gone) := Sweep(s, s.pending.order, now);
    SweepPart(s, s.pending.order, now, b);
    SweepInv(s, s.pending.order, now);
    SweepCount(s, s.pending.order, now);
    WindowBound(s1);
    LaunchPart(s1, LaunchWindow(s1), now, b);
    AllRetransmissions(sent);
    OriginalsAppend(sent, Launch(s1, LaunchWindow(s1), now).1);
    assert [] + Originals(Launch(s1, LaunchWindow(s1), now).1) == Originals(Launch(s1, LaunchWindow(s1), now).1);
  }

  lemma StepPart(s: Sender, l: Ledger, e: SenderRuns.Event)
    requires SenderInv(s) && Part(s.pending.order, l.launched)
    ensures var (s', l') := Step(s, l, e); Part(s'.pending.order, l'.launched)
  {
    match e
    case Submit(id, packets, now) =>
      hide Part, Sending.Known;
    case Ack(id) =>
      PartWithout(s.pending.order, l.launched, {id});
      hide Part, WithoutAll, Grow;
    case Tick(now) =>
      PumpPart(s, now, l.launched);
      hide Part, Pump, Originals, Stamped;
  }

  function EmittedIds(es: seq<Emission>): seq<int> {
    seq(|es|, i requires 0 <= i < |es| => es[i].id)
  }

  lemma {:induction false} SweepInOrder(s: Sender, ids: seq<int>, now: real)
    ensures Part(EmittedIds(Sweep(s, ids, now).1), ids)
  {
    if ids != [] {
      var n := |ids| - 1;
      assert ids == ids[..n] + [ids[n]];
      hide Part, Due, Halve, WithoutAll;
      SweepInOrder(s, ids[..n], now);
      var (s1, sent, _) := Sweep(s, ids[..n], now);
      var more := Visit(s1, ids[n], now).1;
      if more == [] {
        assert sent + more == sent;
        PartMore(EmittedIds(sent), ids[..n], ids[n]);
      } else {
        assert EmittedIds(sent + more) == EmittedIds(sent) + [ids[n]];
        PartSnoc(EmittedIds(sent), ids[..n], ids[n]);
      }
    }
  }

  /** Over every run the messages in flight are kept in the order of their first transmission, and a pump sends
      those that are due again in that order. */
  lemma {:induction false} SentAgainInOrder(timeout: real, maxRetries: nat, maxPending: nat, initialWindow: nat, maxWindow: nat,
                                            events: seq<SenderRuns.Event>, now: real)
    requires timeout > 0.0 && maxPending >= 1 && 1 <= initialWindow <= maxWindow
    ensures var (s, l) := Exec(NewSender(timeout, maxRetries, maxPending, initialWindow, maxWindow), events);
            && Part(s.pending.order, l.launched)
            && Part(EmittedIds(Sweep(s, s.pending.order, now).1), s.pending.order)
  {
    var s0 := NewSender(timeout, maxRetries, maxPending, initialWindow, maxWindow);
    SweepInOrder(Exec(s0, events).0, Exec(s0, events).0.pending.order, now);
    if events != [] {
      hide SenderInv, Part, Step, Conserved;
      var n := |events| - 1;
      SentAgainInOrder(timeout, maxRetries, maxPending, initialWindow, maxWindow, events[..n], now);
      RunConserves(timeout, maxRetries, maxPending, initialWindow, maxWindow, events[..n]);
      StepPart(Exec(s0, events[..n]).0, Exec(s0, events[..n]).1, events[n]);
    }
  }
}
