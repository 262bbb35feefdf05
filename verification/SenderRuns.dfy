/** Whole runs of the sender: conservation, order, the retry budget, drain and the window laws. */
module SenderRuns {
  import opened Common
  import opened Dicts
  import opened Sending

  /** A message given up, and when. */
  datatype Gone = Gone(id: int, at: real)

  /** The record of a run: ids in the order they were accepted, launched and acknowledged; what each
      message consists of; the messages given up; every emission. */
  datatype Ledger = Ledger(
    submitted: seq<int>,
    content: map<int, seq<Bytes>>,
    launched: seq<int>,
    acked: seq<int>,
    exhausted: seq<Gone>,
    log: seq<Emission>)

  const BLANK := Ledger([], map[], [], [], [], [])

  datatype Event =
    | Submit(id: int, packets: seq<Bytes>, now: real)
    | Ack(id: int)
    | Tick(now: real)

  function Originals(es: seq<Emission>): seq<int> {
    if es == [] then []
    else Originals(es[..|es| - 1]) + if es[|es| - 1].retransmission then [] else [es[|es| - 1].id]
  }

  function Stamped(gone: seq<int>, now: real): seq<Gone> {
    seq(|gone|, i requires 0 <= i < |gone| => Gone(gone[i], now))
  }

  function Extend(l: Ledger, es: seq<Emission>, gone: seq<int>, now: real): Ledger {
    l.(launched := l.launched + Originals(es),
       log := l.log + es,
       exhausted := l.exhausted + Stamped(gone, now))
  }

  function Step(s: Sender, l: Ledger, e: Event): (Sender, Ledger) {
    match e
    case Submit(id, packets, now) =>
      var (r, s') := Enqueue(s, id, packets, now);
      (s', if r == Queued then l.(submitted := l.submitted + [id], content := l.content[id := packets]) else l)
    case Ack(id) =>
      var (known, s') := Acknowledge(s, id);
      (s', if known then l.(acked := l.acked + [id]) else l)
    case Tick(now) =>
      var (s', es, gone) := Pump(s, now);
      (s', Extend(l, es, gone, now))
  }

  function Exec(s: Sender, events: seq<Event>): (Sender, Ledger) {
    if events == [] then (s, BLANK)
    else
      var (s1, l1) := Exec(s, events[..|events| - 1]);
      Step(s1, l1, events[|events| - 1])
  }

  lemma {:induction false} OriginalsAppend(a: seq<Emission>, b: seq<Emission>)
    ensures Originals(a + b) == Originals(a) + Originals(b)
  {
    if b == [] {
      assert a + b == a;
    } else {
      OriginalsAppend(a, b[..|b| - 1]);
      assert (a + b)[..|a + b| - 1] == a + b[..|b| - 1];
    }
  }

  lemma OriginalsOne(e: Emission)
    ensures Originals([e]) == if e.retransmission then [] else [e.id]
  {
    assert [e][..0] == [];
  }

  lemma GoneAppends(g1: seq<int>, g2: seq<int>, now: real)
    ensures Stamped(g1 + g2, now) == Stamped(g1, now) + Stamped(g2, now)
  {
  }

  lemma ExtendTwice(l: Ledger, e1: seq<Emission>, g1: seq<int>, e2: seq<Emission>, g2: seq<int>, now: real)
    ensures Extend(Extend(l, e1, g1, now), e2, g2, now) == Extend(l, e1 + e2, g1 + g2, now)
  {
    OriginalsAppend(e1, e2);
    GoneAppends(g1, g2, now);
    hide Originals, Stamped;
    Regroup(l.launched, Originals(e1), Originals(e2));
    Regroup(l.log, e1, e2);
    Regroup(l.exhausted, Stamped(g1, now), Stamped(g2, now));
  }

  lemma ExtendNothing(l: Ledger, now: real)
    ensures Extend(l, [], [], now) == l
  {
    assert Extend(l, [], [], now).launched == l.launched && Extend(l, [], [], now).exhausted == l.exhausted;
  }

  // -------------------------------------------------------------------------------- conservation

  function GoneIds(g: seq<Gone>): seq<int> {
    seq(|g|, i requires 0 <= i < |g| => g[i].id)
  }

  /** Nothing is lost, duplicated or reordered: what was launched, followed by what is queued, is what
      was accepted, in order; and every launched message is in flight, acknowledged or given up. */
  ghost predicate Balanced(submitted: seq<int>, launched: seq<int>, queued: seq<int>, inflight: seq<int>,
                           acked: seq<int>, gone: seq<int>)
  {
    && launched + queued == submitted
    && multiset(launched) == multiset(inflight) + multiset(acked) + multiset(gone)
  }

  ghost predicate Conserved(s: Sender, l: Ledger) {
    Balanced(l.submitted, l.launched, Ids(s.queue), s.pending.order, l.acked, GoneIds(l.exhausted))
  }

  lemma {:induction false} DropOne(order: seq<int>, id: int)
    requires NoDup(order) && id in order
    ensures multiset(order) == multiset(WithoutAll(order, {id})) + multiset{id}
  {
    var n := |order| - 1;
    InitNoDup(order);
    hide NoDup;
    assert order == order[..n] + [order[n]];
    if order[n] == id {
      WithoutAllDisjoint(order[..n], {id});
      assert WithoutAll(order, {id}) == order[..n];
    } else {
      DropOne(order[..n], id);
      assert WithoutAll(order, {id}) == WithoutAll(order[..n], {id}) + [order[n]];
    }
  }

  /** A message leaves the in-flight table as acknowledged or as given up. */
  lemma LeaveBalanced(submitted: seq<int>, launched: seq<int>, queued: seq<int>, inflight: seq<int>,
                      acked: seq<int>, gone: seq<int>, id: int)
    requires Balanced(submitted, launched, queued, inflight, acked, gone) && NoDup(inflight) && id in inflight
    ensures Balanced(submitted, launched, queued, WithoutAll(inflight, {id}), acked + [id], gone)
    ensures Balanced(submitted, launched, queued, WithoutAll(inflight, {id}), acked, gone + [id])
  {
    DropOne(inflight, id);
  }

  /** The head of the queue goes in flight. */
  lemma LaunchBalanced(submitted: seq<int>, launched: seq<int>, queued: seq<int>, inflight: seq<int>,
                       acked: seq<int>, gone: seq<int>)
    requires queued != [] && Balanced(submitted, launched, queued, inflight, acked, gone)
    ensures Balanced(submitted, launched + [queued[0]], queued[1..], inflight + [queued[0]], acked, gone)
  {
    assert launched + [queued[0]] + queued[1..] == launched + queued;
  }

  lemma SubmitBalanced(submitted: seq<int>, launched: seq<int>, queued: seq<int>, inflight: seq<int>,
                       acked: seq<int>, gone: seq<int>, id: int)
    requires Balanced(submitted, launched, queued, inflight, acked, gone)
    ensures Balanced(submitted + [id], launched, queued + [id], inflight, acked, gone)
  {
    assert launched + (queued + [id]) == launched + queued + [id];
  }

  lemma PendingIds(s: Sender, id: int)
    requires SenderInv(s) && id in s.pending.items
    ensures NoDup(s.pending.order) && id in s.pending.order
  {
  }

  lemma VisitConserves(s: Sender, l: Ledger, id: int, now: real)
    requires SenderInv(s) && Conserved(s, l)
    ensures var (s', es, gone) := Visit(s, id, now); Conserved(s', Extend(l, es, gone, now))
  {
    var (s', es, gone) := Visit(s, id, now);
    NoOriginals(s, id, now);
    GoneAppend(l, es, gone, now);
    assert l.launched + [] == l.launched;
    if id in s.pending.items {
      PendingIds(s, id);
      LeaveBalanced(l.submitted, l.launched, Ids(s.queue), s.pending.order, l.acked, GoneIds(l.exhausted), id);
    }
    hide SenderInv, Balanced, Due, Originals, Ids, GoneIds, Halve, WithoutAll, NoDup;
    assert GoneIds(l.exhausted) + [] == GoneIds(l.exhausted);
  }

  lemma NoOriginals(s: Sender, id: int, now: real)
    ensures Originals(Visit(s, id, now).1) == []
  {
    var es := Visit(s, id, now).1;
    if es != [] {
      OriginalsOne(es[0]);
    }
  }

  lemma GoneAppend(l: Ledger, es: seq<Emission>, gone: seq<int>, now: real)
    ensures GoneIds(Extend(l, es, gone, now).exhausted) == GoneIds(l.exhausted) + gone
  {
  }

  lemma {:induction false} SweepConserves(s: Sender, l: Ledger, ids: seq<int>, now: real)
    requires SenderInv(s) && Conserved(s, l)
    ensures var (s', es, gone) := Sweep(s, ids, now); Conserved(s', Extend(l, es, gone, now))
  {
    hide SenderInv, Conserved, Visit, Extend;
    ExtendNothing(l, now);
    if ids != [] {
      var n := |ids| - 1;
      SweepConserves(s, l, ids[..n], now);
      SweepInv(s, ids[..n], now);
      var (s1, e1, g1) := Sweep(s, ids[..n], now);
      VisitConserves(s1, Extend(l, e1, g1, now), ids[n], now);
      var (s2, e2, g2) := Visit(s1, ids[n], now);
      ExtendTwice(l, e1, g1, e2, g2, now);
    }
  }

  lemma LaunchedParts(s: Sender, now: real)
    requires SenderInv(s) && s.queue != []
    ensures var (s', e) := LaunchOne(s, now);
            && Ids(s.queue) != [] && Ids(s.queue)[0] == e.id && Ids(s.queue)[1..] == Ids(s'.queue)
            && s'.pending.order == s.pending.order + [e.id]
            && Originals([e]) == [e.id]
  {
    hide NoDup, Originals;
    OriginalsOne(LaunchOne(s, now).1);
  }

  lemma LaunchOneConserves(s: Sender, l: Ledger, now: real)
    requires SenderInv(s) && Conserved(s, l) && s.queue != []
    ensures var (s', e) := LaunchOne(s, now); Conserved(s', Extend(l, [e], [], now))
  {
    var (s', e) := LaunchOne(s, now);
    LaunchedParts(s, now);
    GoneAppend(l, [e], [], now);
    hide SenderInv, Balanced, Originals, Ids, GoneIds, LaunchOne;
    LaunchBalanced(l.submitted, l.launched, Ids(s.queue), s.pending.order, l.acked, GoneIds(l.exhausted));
    assert GoneIds(l.exhausted) + [] == GoneIds(l.exhausted);
  }

  lemma {:induction false} LaunchConserves(s: Sender, l: Ledger, window: int, now: real)
    requires SenderInv(s) && Conserved(s, l) && window <= s.maxWindow
    ensures var (s', es) := Launch(s, window, now); Conserved(s', Extend(l, es, [], now))
    decreases |s.queue|
  {
    hide SenderInv, Conserved, Extend;
    ExtendNothing(l, now);
    if s.queue != [] && |s.pending.items| < window {
      LaunchOneInv(s, now);
      LaunchOneConserves(s, l, now);
      var (s1, e) := LaunchOne(s, now);
      LaunchConserves(s1, Extend(l, [e], [], now), window, now);
      ExtendTwice(l, [e], [], Launch(s1, window, now).1, [], now);
      var none: seq<int> := [];
      assert none + none == none;
    }
  }

  lemma PumpConserves(s: Sender, l: Ledger, now: real)
    requires SenderInv(s) && Conserved(s, l)
    ensures var (s', es, gone) := Pump(s, now); Conserved(s', Extend(l, es, gone, now))
  {
    hide SenderInv, Conserved, Extend, Sweep, Launch, LaunchWindow;
    SweepConserves(s, l, s.pending.order, now);
    SweepInv(s, s.pending.order, now);
    var (s1, e1, g1) := Sweep(s, s.pending.order, now);
    WindowBound(s1);
    LaunchConserves(s1, Extend(l, e1, g1, now), LaunchWindow(s1), now);
    var (s2, e2) := Launch(s1, LaunchWindow(s1), now);
    ExtendTwice(l, e1, g1, e2, [], now);
    assert g1 + [] == g1;
  }

  lemma StepInv(s: Sender, l: Ledger, e: Event)
    requires SenderInv(s)
    ensures SenderInv(Step(s, l, e).0)
  {
    hide SenderInv, Pump, Enqueue, Acknowledge, Extend;
    match e
    case Submit(id, packets, now) => EnqueueInv(s, id, packets, now);
    case Ack(id) => AcknowledgeInv(s, id);
    case Tick(now) => PumpInv(s, now);
  }

  lemma SubmitConserves(s: Sender, l: Ledger, t: Transmission)
    requires Conserved(s, l)
    ensures Conserved(s.(queue := s.queue + [t]), l.(submitted := l.submitted + [t.id], content := l.content[t.id := t.packets]))
  {
    assert Ids(s.queue + [t]) == Ids(s.queue) + [t.id];
    SubmitBalanced(l.submitted, l.launched, Ids(s.queue), s.pending.order, l.acked, GoneIds(l.exhausted), t.id);
  }

  lemma AckConserves(s: Sender, l: Ledger, id: int)
    requires SenderInv(s) && Conserved(s, l) && id in s.pending.items
    ensures Conserved(Acknowledge(s, id).1, l.(acked := l.acked + [id]))
  {
    PendingIds(s, id);
    LeaveBalanced(l.submitted, l.launched, Ids(s.queue), s.pending.order, l.acked, GoneIds(l.exhausted), id);
    hide SenderInv, Balanced, Grow, Ids;
  }

  lemma StepConserves(s: Sender, l: Ledger, e: Event)
    requires SenderInv(s) && Conserved(s, l)
    ensures var (s', l') := Step(s, l, e); Conserved(s', l')
  {
    hide NoDup, Pump, Extend, Conserved, Grow;
    match e
    case Submit(id, packets, now) =>
      SubmitConserves(s, l, Transmission(id, packets, now, None, None, 0));
    case Ack(id) =>
      if id in s.pending.items {
        AckConserves(s, l, id);
      }
    case Tick(now) => PumpConserves(s, l, now);
  }

  /** Over every run from a new sender. */
  lemma {:induction false} RunConserves(timeout: real, maxRetries: nat, maxPending: nat, initialWindow: nat, maxWindow: nat, events: seq<Event>)
    requires timeout > 0.0 && maxPending >= 1 && 1 <= initialWindow <= maxWindow
    ensures var (s, l) := Exec(NewSender(timeout, maxRetries, maxPending, initialWindow, maxWindow), events);
            && Conserved(s, l)
            && SenderInv(s)
            && |s.queue| + |s.pending.items| <= s.maxPending
            && |s.pending.items| <= s.maxWindow
  {
    var s0 := NewSender(timeout, maxRetries, maxPending, initialWindow, maxWindow);
    if events != [] {
      hide SenderInv, Conserved, Step;
      RunConserves(timeout, maxRetries, maxPending, initialWindow, maxWindow, events[..|events| - 1]);
      var (s1, l1) := Exec(s0, events[..|events| - 1]);
      StepInv(s1, l1, events[|events| - 1]);
      StepConserves(s1, l1, events[|events| - 1]);
    }
    Bounds(Exec(s0, events).0);
  }

  lemma Bounds(s: Sender)
    requires SenderInv(s)
    ensures |s.queue| + |s.pending.items| <= s.maxPending && |s.pending.items| <= s.maxWindow
  {
  }

  /** A message accepted once is in exactly one place: queued, in flight, acknowledged or given up. */
  lemma ExactlyOnePlace(s: Sender, l: Ledger, id: int)
    requires Conserved(s, l) && multiset(l.submitted)[id] == 1
    ensures multiset(Ids(s.queue))[id] + multiset(s.pending.order)[id]
            + multiset(l.acked)[id] + multiset(GoneIds(l.exhausted))[id] == 1
  {
    assert multiset(l.submitted) == multiset(l.launched) + multiset(Ids(s.queue));
  }

  // -------------------------------------------------------------------------------- retry budget

  /** How many timeouts must pass, in units of the base timeout, before n attempts have all expired. */
  function Budget(n: nat): nat {
    if n == 0 then 0 else Budget(n - 1) + Backoff(n)
  }

  lemma {:induction false} BudgetClosed(n: nat)
    ensures Budget(n) == if n <= 5 then Pow2(n) - 1 else 31 + 16 * (n - 5)
  {
    if n > 0 {
      BudgetClosed(n - 1);
      if n > 5 {
        Pow2AtLeast(n - 1);
      }
    }
  }

  lemma {:induction false} Pow2AtLeast(n: nat)
    requires n >= 4
    ensures Pow2(n) >= 16
  {
    if n > 4 {
      Pow2AtLeast(n - 1);
    }
  }

  /** The emissions of one message, in order. */
  function Of(log: seq<Emission>, id: int): seq<Emission> {
    if log == [] then []
    else Of(log[..|log| - 1], id) + if log[|log| - 1].id == id then [log[|log| - 1]] else []
  }

  lemma OfSnoc(log: seq<Emission>, e: Emission, id: int)
    ensures Of(log + [e], id) == Of(log, id) + if e.id == id then [e] else []
  {
    assert (log + [e])[..|log|] == log;
  }

  /** First an original, then only retransmissions, always the same packets. */
  ghost predicate Shape(es: seq<Emission>, packets: seq<Bytes>) {
    forall i :: 0 <= i < |es| ==> es[i].packets == packets && (es[i].retransmission <==> i > 0)
  }

  /** Each transmission waits for the backed-off timeout of the one before it. */
  ghost predicate Spread(es: seq<Emission>, timeout: real) {
    forall i :: 0 < i < |es| ==> es[i].at - es[i - 1].at >= timeout * Backoff(i) as real
  }

  ghost predicate InQueue(s: Sender, id: int) {
    exists i :: 0 <= i < |s.queue| && s.queue[i].id == id
  }

  /** The time that n attempts must have waited. */
  function Wait(timeout: real, n: nat): real {
    timeout * Budget(n) as real
  }

  /** The emissions of an in-flight message are its attempts, spread out by the backoff. */
  ghost predicate FlightOk(s: Sender, t: Transmission, es: seq<Emission>) {
    && |es| == t.attempts >= 1
    && t.firstSent == Some(es[0].at) && t.lastSent == Some(es[|es| - 1].at)
    && es[|es| - 1].at >= es[0].at + Wait(s.timeout, t.attempts - 1)
  }

  ghost predicate MessageOk(s: Sender, l: Ledger, id: int) {
    var es := Of(l.log, id);
    && (id !in l.content ==> es == [] && id !in s.pending.items && !InQueue(s, id))
    && (id in l.content ==> Shape(es, l.content[id]) && Spread(es, s.timeout) && |es| <= s.maxAttempts)
    && (InQueue(s, id) ==> es == [])
    && (id in s.pending.items ==> id in l.content && s.pending.items[id].packets == l.content[id]
                                  && FlightOk(s, s.pending.items[id], es))
  }

  ghost predicate QueueOk(s: Sender, l: Ledger) {
    forall i :: 0 <= i < |s.queue| ==> s.queue[i].id in l.content && s.queue[i].packets == l.content[s.queue[i].id]
  }

  /** A message given up has used its whole budget of attempts and of time. */
  ghost predicate GoneOk(s: Sender, l: Ledger, g: Gone) {
    var es := Of(l.log, g.id);
    && g.id in l.content && g.id !in s.pending.items && !InQueue(s, g.id)
    && |es| == s.maxAttempts >= 1
    && g.at >= es[0].at + Wait(s.timeout, s.maxAttempts)
  }

  ghost predicate History(s: Sender, l: Ledger) {
    && (forall id :: MessageOk(s, l, id))
    && QueueOk(s, l)
    && (forall i :: 0 <= i < |l.exhausted| ==> GoneOk(s, l, l.exhausted[i]))
  }

  lemma BudgetStep(timeout: real, first: real, last: real, now: real, n: nat)
    requires n >= 1
    requires last >= first + Wait(timeout, n - 1)
    requires now - last >= timeout * Backoff(n) as real
    ensures now >= first + Wait(timeout, n)
  {
    assert timeout * Budget(n) as real == timeout * (Budget(n - 1) as real + Backoff(n) as real);
  }

  /** Nothing about message k differs between the two states. */
  ghost predicate SameFor(s: Sender, l: Ledger, s': Sender, l': Ledger, k: int) {
    && s'.timeout == s.timeout && s'.maxAttempts == s.maxAttempts
    && Of(l'.log, k) == Of(l.log, k)
    && (k in l'.content <==> k in l.content) && (k in l.content ==> l'.content[k] == l.content[k])
    && (InQueue(s', k) <==> InQueue(s, k))
    && (k in s'.pending.items <==> k in s.pending.items)
    && (k in s.pending.items ==> s'.pending.items[k] == s.pending.items[k])
  }

  lemma SameKeeps(s: Sender, l: Ledger, s': Sender, l': Ledger, k: int)
    requires SameFor(s, l, s', l', k)
    ensures MessageOk(s, l, k) ==> MessageOk(s', l', k)
    ensures forall g: Gone :: g.id == k && GoneOk(s, l, g) ==> GoneOk(s', l', g)
  {
    hide InQueue, Of, Shape, Spread, FlightOk, Budget;
    assert forall t, es :: FlightOk(s, t, es) ==> FlightOk(s', t, es) by {
      FlightSame(s, s');
    }
  }

  lemma FlightSame(s: Sender, s': Sender)
    requires s'.timeout == s.timeout
    ensures forall t, es :: FlightOk(s, t, es) ==> FlightOk(s', t, es)
  {
  }

  lemma ShapeMore(es: seq<Emission>, packets: seq<Bytes>, e: Emission)
    requires Shape(es, packets) && es != [] && e.packets == packets && e.retransmission
    ensures Shape(es + [e], packets)
  {
  }

  lemma SpreadMore(es: seq<Emission>, timeout: real, e: Emission)
    requires Spread(es, timeout) && es != [] && e.at - es[|es| - 1].at >= timeout * Backoff(|es|) as real
    ensures Spread(es + [e], timeout)
  {
    hide Backoff;
    var es' := es + [e];
    forall i | 0 < i < |es'|
      ensures es'[i].at - es'[i - 1].at >= timeout * Backoff(i) as real
    {
      if i < |es| {
        assert es'[i] == es[i] && es'[i - 1] == es[i - 1];
      }
    }
  }

  lemma FlightMore(s: Sender, t: Transmission, es: seq<Emission>, e: Emission)
    requires FlightOk(s, t, es) && e.at - t.lastSent.value >= s.timeout * Backoff(t.attempts) as real
    ensures FlightOk(s, t.(attempts := t.attempts + 1, lastSent := Some(e.at)), es + [e])
  {
    BudgetStep(s.timeout, t.firstSent.value, t.lastSent.value, e.at, t.attempts);
    hide Wait, Backoff;
    assert t.attempts + 1 - 1 == t.attempts;
  }

  lemma FlightFacts(s: Sender, t: Transmission, es: seq<Emission>)
    requires FlightOk(s, t, es)
    ensures es != [] && |es| == t.attempts && t.lastSent == Some(es[|es| - 1].at)
  {
  }

  /** One more emission, after the backed-off timeout, keeps the pattern. */
  lemma OnceMore(s: Sender, t: Transmission, es: seq<Emission>, packets: seq<Bytes>, now: real)
    requires FlightOk(s, t, es) && Shape(es, packets) && Spread(es, s.timeout) && t.packets == packets
    requires t.lastSent.Some? && now - t.lastSent.value >= s.timeout * Backoff(t.attempts) as real
    ensures var t' := t.(attempts := t.attempts + 1, lastSent := Some(now));
            var es' := es + [Emission(t.id, packets, true, now)];
            FlightOk(s, t', es') && Shape(es', packets) && Spread(es', s.timeout)
  {
    hide *;
    var e := Emission(t.id, packets, true, now);
    FlightFacts(s, t, es);
    ShapeMore(es, packets, e);
    SpreadMore(es, s.timeout, e);
    FlightMore(s, t, es, e);
  }

  /** A due message within its budget is sent once more. */
  lemma RetransmitOk(s: Sender, l: Ledger, s': Sender, l': Ledger, id: int, now: real)
    requires SenderInv(s) && MessageOk(s, l, id) && id in s.pending.items
    requires Due(s.pending.items[id], s.timeout, now) && s.pending.items[id].attempts < s.maxAttempts
    requires s' == Visit(s, id, now).0 && l'.content == l.content
    requires Of(l'.log, id) == Of(l.log, id) + [Emission(id, s.pending.items[id].packets, true, now)]
    ensures MessageOk(s', l', id)
  {
    var t := s.pending.items[id];
    OnceMore(s, t, Of(l.log, id), l.content[id], now);
    FlightSame(s, s');
    assert InQueue(s', id) == InQueue(s, id);
    hide NoDup, Budget, Backoff, Halve, Of, Shape, Spread, InQueue, FlightOk, InFlight;
  }

  lemma WaitedOut(s: Sender, t: Transmission, es: seq<Emission>, now: real)
    requires FlightOk(s, t, es) && now - t.lastSent.value >= s.timeout * Backoff(t.attempts) as real
    ensures es != [] && now >= es[0].at + Wait(s.timeout, t.attempts)
  {
    BudgetStep(s.timeout, t.firstSent.value, t.lastSent.value, now, t.attempts);
    hide Wait, Backoff;
  }

  /** A due message that has used all its attempts has also waited out all its timeouts. */
  lemma GiveUpOk(s: Sender, l: Ledger, s': Sender, l': Ledger, id: int, now: real)
    requires SenderInv(s) && MessageOk(s, l, id) && id in s.pending.items
    requires Due(s.pending.items[id], s.timeout, now) && s.pending.items[id].attempts >= s.maxAttempts
    requires s' == Visit(s, id, now).0 && l'.content == l.content && Of(l'.log, id) == Of(l.log, id)
    ensures MessageOk(s', l', id) && GoneOk(s', l', Gone(id, now))
  {
    var t := s.pending.items[id];
    WaitedOut(s, t, Of(l.log, id), now);
    FlightFacts(s, t, Of(l.log, id));
    assert InQueue(s', id) == InQueue(s, id);
    hide NoDup, Wait, Backoff, Halve, Of, WithoutAll, InQueue, Shape, Spread, FlightOk;
  }

  lemma OfVisit(s: Sender, l: Ledger, id: int, now: real, k: int)
    ensures var (s', es, gone) := Visit(s, id, now);
            Of(Extend(l, es, gone, now).log, k) == Of(l.log, k) + if k == id then es else []
  {
    var es := Visit(s, id, now).1;
    if es == [] {
      assert l.log + es == l.log;
    } else {
      OfSnoc(l.log, es[0], k);
    }
  }

  lemma VisitSame(s: Sender, l: Ledger, id: int, now: real, k: int)
    requires k != id
    ensures var (s', es, gone) := Visit(s, id, now); SameFor(s, l, s', Extend(l, es, gone, now), k)
  {
    hide Due, Halve, Of, Originals, WithoutAll;
    OfVisit(s, l, id, now, k);
  }

  /** The message visited, when it is due. */
  lemma VisitOwn(s: Sender, l: Ledger, id: int, now: real)
    requires SenderInv(s) && MessageOk(s, l, id) && id in s.pending.items && Due(s.pending.items[id], s.timeout, now)
    ensures var (s', es, gone) := Visit(s, id, now);
            var l' := Extend(l, es, gone, now);
            MessageOk(s', l', id) && (gone != [] ==> gone == [id] && GoneOk(s', l', Gone(id, now)))
  {
    hide NoDup, Halve, Originals, WithoutAll, Backoff, Due, MessageOk, GoneOk, InFlight, Of;
    var (s', es, gone) := Visit(s, id, now);
    var l' := Extend(l, es, gone, now);
    OfVisit(s, l, id, now, id);
    if s.pending.items[id].attempts < s.maxAttempts {
      RetransmitOk(s, l, s', l', id, now);
    } else {
      assert Of(l.log, id) + [] == Of(l.log, id);
      GiveUpOk(s, l, s', l', id, now);
    }
  }

  /** Any other message. */
  lemma VisitOther(s: Sender, l: Ledger, id: int, now: real, k: int)
    requires k != id
    ensures var (s', es, gone) := Visit(s, id, now);
            var l' := Extend(l, es, gone, now);
            && (MessageOk(s, l, k) ==> MessageOk(s', l', k))
            && (forall g: Gone :: g.id == k && GoneOk(s, l, g) ==> GoneOk(s', l', g))
  {
    hide *;
    var (s', es, gone) := Visit(s, id, now);
    VisitSame(s, l, id, now, k);
    SameKeeps(s, l, s', Extend(l, es, gone, now), k);
  }

  lemma VisitKeepsRest(s: Sender, l: Ledger, id: int, now: real)
    ensures var (s', es, gone) := Visit(s, id, now);
            var l' := Extend(l, es, gone, now);
            && s'.queue == s.queue && l'.content == l.content
            && l'.exhausted == l.exhausted + if gone == [] then [] else [Gone(id, now)]
  {
    hide Due, Halve, Originals, WithoutAll;
  }

  lemma HistoryParts(s: Sender, l: Ledger)
    requires History(s, l)
    ensures forall id :: MessageOk(s, l, id)
    ensures forall g :: g in l.exhausted ==> GoneOk(s, l, g)
    ensures QueueOk(s, l)
  {
    hide MessageOk, GoneOk, QueueOk;
  }

  lemma HistoryOf(s: Sender, l: Ledger)
    requires (forall id :: MessageOk(s, l, id)) && (forall g :: g in l.exhausted ==> GoneOk(s, l, g)) && QueueOk(s, l)
    ensures History(s, l)
  {
    hide MessageOk, GoneOk, QueueOk;
  }

  lemma QueueSame(s: Sender, l: Ledger, s': Sender, l': Ledger)
    requires QueueOk(s, l) && s'.queue == s.queue && l'.content == l.content
    ensures QueueOk(s', l')
  {
  }

  lemma GoneElsewhere(s: Sender, l: Ledger, g: Gone, id: int)
    requires GoneOk(s, l, g) && id in s.pending.items
    ensures g.id != id
  {
  }

  lemma NotDueStays(s: Sender, l: Ledger, id: int, now: real)
    requires id !in s.pending.items || !Due(s.pending.items[id], s.timeout, now)
    ensures var (s', es, gone) := Visit(s, id, now); s' == s && Extend(l, es, gone, now) == l
  {
    ExtendNothing(l, now);
    hide Due, Extend;
  }

  /** The sweep retransmits or gives up one message. */
  lemma VisitHistory(s: Sender, l: Ledger, id: int, now: real)
    requires SenderInv(s) && History(s, l)
    ensures var (s', es, gone) := Visit(s, id, now); History(s', Extend(l, es, gone, now))
  {
    hide *;
    var (s', es, gone) := Visit(s, id, now);
    var l' := Extend(l, es, gone, now);
    HistoryParts(s, l);
    if id !in s.pending.items || !Due(s.pending.items[id], s.timeout, now) {
      NotDueStays(s, l, id, now);
    } else {
      VisitOwn(s, l, id, now);
      VisitKeepsRest(s, l, id, now);
      QueueSame(s, l, s', l');
      forall k
        ensures MessageOk(s', l', k)
      {
        if k != id {
          VisitOther(s, l, id, now, k);
        }
      }
      forall g | g in l.exhausted
        ensures GoneOk(s', l', g)
      {
        GoneElsewhere(s, l, g, id);
        VisitOther(s, l, id, now, g.id);
      }
      HistoryOf(s', l');
    }
  }

  /** The message at the head of the queue leaves it and is in the queue no more. */
  lemma HeadLeaves(s: Sender, now: real, k: int)
    requires SenderInv(s) && s.queue != []
    ensures InQueue(s, s.queue[0].id)
    ensures InQueue(LaunchOne(s, now).0, k) <==> InQueue(s, k) && k != s.queue[0].id
  {
    var q := LaunchOne(s, now).0.queue;
    if InQueue(s, k) {
      var i :| 0 <= i < |s.queue| && s.queue[i].id == k;
      if i > 0 {
        assert q[i - 1] == s.queue[i];
      }
    }
    if InQueue(LaunchOne(s, now).0, k) {
      var i :| 0 <= i < |q| && q[i].id == k;
      assert q[i] == s.queue[i + 1];
      assert Ids(s.queue)[0] != Ids(s.queue)[i + 1];
    }
  }

  /** Launching the head of the queue concerns no other message. */
  lemma LaunchSame(s: Sender, l: Ledger, now: real, k: int)
    requires SenderInv(s) && s.queue != [] && k != s.queue[0].id
    ensures var (s', e) := LaunchOne(s, now); SameFor(s, l, s', Extend(l, [e], [], now), k)
  {
    OfSnoc(l.log, LaunchOne(s, now).1, k);
    HeadLeaves(s, now, k);
    hide SenderInv, NoDup, Originals, InQueue, Of;
  }

  /** The first transmission of the message at the head of the queue. */
  lemma LaunchOneHistory(s: Sender, l: Ledger, now: real)
    requires SenderInv(s) && History(s, l) && s.queue != []
    ensures var (s', e) := LaunchOne(s, now); History(s', Extend(l, [e], [], now))
  {
    var (s', e) := LaunchOne(s, now);
    var l' := Extend(l, [e], [], now);
    var id := e.id;
    assert l'.exhausted == l.exhausted;
    assert forall i :: 0 <= i < |s'.queue| ==> s'.queue[i] == s.queue[i + 1];
    hide SenderInv, NoDup, Originals, InQueue, MessageOk, SameFor, Of, Budget;
    HeadLeaves(s, now, id);
    forall k
      ensures MessageOk(s', l', k)
    {
      assert MessageOk(s, l, k);
      if k != id {
        LaunchSame(s, l, now, k);
        SameKeeps(s, l, s', l', k);
      } else {
        OfSnoc(l.log, e, k);
        FirstSent(s, l, s', l', now);
      }
    }
    forall i | 0 <= i < |l'.exhausted|
      ensures GoneOk(s', l', l'.exhausted[i])
    {
      assert GoneOk(s, l, l.exhausted[i]);
      LaunchSame(s, l, now, l.exhausted[i].id);
      SameKeeps(s, l, s', l', l.exhausted[i].id);
    }
  }

  lemma FirstSent(s: Sender, l: Ledger, s': Sender, l': Ledger, now: real)
    requires SenderInv(s) && s.queue != [] && MessageOk(s, l, s.queue[0].id) && QueueOk(s, l)
    requires s' == LaunchOne(s, now).0 && l'.content == l.content
    requires InQueue(s, s.queue[0].id) && !InQueue(s', s.queue[0].id)
    requires Of(l'.log, s.queue[0].id) == Of(l.log, s.queue[0].id) + [LaunchOne(s, now).1]
    ensures MessageOk(s', l', s.queue[0].id)
  {
    hide NoDup, InQueue, Of;
    assert Budget(0) == 0;
  }

  lemma {:induction false} SweepHistory(s: Sender, l: Ledger, ids: seq<int>, now: real)
    requires SenderInv(s) && History(s, l)
    ensures var (s', es, gone) := Sweep(s, ids, now); History(s', Extend(l, es, gone, now))
  {
    hide SenderInv, History, Visit, Extend;
    ExtendNothing(l, now);
    if ids != [] {
      var n := |ids| - 1;
      SweepHistory(s, l, ids[..n], now);
      SweepInv(s, ids[..n], now);
      var (s1, e1, g1) := Sweep(s, ids[..n], now);
      VisitHistory(s1, Extend(l, e1, g1, now), ids[n], now);
      var (s2, e2, g2) := Visit(s1, ids[n], now);
      ExtendTwice(l, e1, g1, e2, g2, now);
    }
  }

  lemma {:induction false} LaunchHistory(s: Sender, l: Ledger, window: int, now: real)
    requires SenderInv(s) && History(s, l) && window <= s.maxWindow
    ensures var (s', es) := Launch(s, window, now); History(s', Extend(l, es, [], now))
    decreases |s.queue|
  {
    hide SenderInv, History, Extend;
    ExtendNothing(l, now);
    if s.queue != [] && |s.pending.items| < window {
      LaunchOneInv(s, now);
      LaunchOneHistory(s, l, now);
      var (s1, e) := LaunchOne(s, now);
      LaunchHistory(s1, Extend(l, [e], [], now), window, now);
      ExtendTwice(l, [e], [], Launch(s1, window, now).1, [], now);
      var none: seq<int> := [];
      assert none + none == none;
    }
  }

  lemma PumpHistory(s: Sender, l: Ledger, now: real)
    requires SenderInv(s) && History(s, l)
    ensures var (s', es, gone) := Pump(s, now); History(s', Extend(l, es, gone, now))
  {
    hide SenderInv, History, Extend, Sweep, Launch, LaunchWindow;
    SweepHistory(s, l, s.pending.order, now);
    SweepInv(s, s.pending.order, now);
    var (s1, e1, g1) := Sweep(s, s.pending.order, now);
    WindowBound(s1);
    LaunchHistory(s1, Extend(l, e1, g1, now), LaunchWindow(s1), now);
    var (s2, e2) := Launch(s1, LaunchWindow(s1), now);
    ExtendTwice(l, e1, g1, e2, [], now);
    assert g1 + [] == g1;
  }

  lemma SubmitSame(s: Sender, l: Ledger, id: int, packets: seq<Bytes>, now: real, k: int)
    requires k != id
    ensures var (s', l') := Step(s, l, Submit(id, packets, now)); SameFor(s, l, s', l', k)
  {
    var s' := Step(s, l, Submit(id, packets, now)).0;
    if InQueue(s, k) {
      var i :| 0 <= i < |s.queue| && s.queue[i].id == k;
      assert s'.queue[i].id == k;
    }
    hide Of;
  }

  lemma SubmitOwn(s: Sender, l: Ledger, id: int, packets: seq<Bytes>, now: real)
    requires MessageOk(s, l, id) && id !in l.content && Enqueue(s, id, packets, now).0 == Queued
    ensures var (s', l') := Step(s, l, Submit(id, packets, now)); MessageOk(s', l', id)
  {
    hide Of, Backoff, InQueue, FlightOk;
  }

  lemma SubmitQueue(s: Sender, l: Ledger, id: int, packets: seq<Bytes>, now: real)
    requires QueueOk(s, l) && !InQueue(s, id)
    ensures var (s', l') := Step(s, l, Submit(id, packets, now)); QueueOk(s', l') && l'.exhausted == l.exhausted
  {
    assert forall i :: 0 <= i < |s.queue| ==> s.queue[i].id != id;
  }

  lemma SubmitHistory(s: Sender, l: Ledger, id: int, packets: seq<Bytes>, now: real)
    requires SenderInv(s) && History(s, l) && id !in l.content
    ensures var (s', l') := Step(s, l, Submit(id, packets, now)); History(s', l')
  {
    var (s', l') := Step(s, l, Submit(id, packets, now));
    if Enqueue(s, id, packets, now).0 == Queued {
      assert MessageOk(s, l, id);
      SubmitOwn(s, l, id, packets, now);
      SubmitQueue(s, l, id, packets, now);
      forall g | g in l.exhausted
        ensures GoneOk(s, l, g) && g.id != id
      {
      }
      hide SenderInv, MessageOk, GoneOk, QueueOk, Step, SameFor, Enqueue;
      forall k
        ensures MessageOk(s', l', k)
      {
        assert MessageOk(s, l, k);
        if k != id {
          SubmitSame(s, l, id, packets, now, k);
          SameKeeps(s, l, s', l', k);
        }
      }
      forall i | 0 <= i < |l'.exhausted|
        ensures GoneOk(s', l', l'.exhausted[i])
      {
        assert l.exhausted[i] in l.exhausted;
        SubmitSame(s, l, id, packets, now, l.exhausted[i].id);
        SameKeeps(s, l, s', l', l.exhausted[i].id);
      }
    }
  }

  lemma AckHistory(s: Sender, l: Ledger, id: int)
    requires SenderInv(s) && History(s, l)
    ensures var (s', l') := Step(s, l, Ack(id)); History(s', l')
  {
    hide SenderInv, FlightOk, Budget, Grow, WithoutAll;
    var (s', l') := Step(s, l, Ack(id));
    assert forall k :: InQueue(s', k) == InQueue(s, k);
    hide InQueue;
    forall k
      ensures MessageOk(s', l', k)
    {
      assert MessageOk(s, l, k);
      if k != id {
        SameKeeps(s, l, s', l', k);
      }
    }
    forall i | 0 <= i < |l'.exhausted|
      ensures GoneOk(s', l', l'.exhausted[i])
    {
      assert GoneOk(s, l, l.exhausted[i]);
      if l.exhausted[i].id != id {
        SameKeeps(s, l, s', l', l.exhausted[i].id);
      }
    }
  }

  lemma StepHistory(s: Sender, l: Ledger, e: Event)
    requires SenderInv(s) && History(s, l)
    requires e.Submit? ==> e.id !in l.content
    ensures var (s', l') := Step(s, l, e); History(s', l')
  {
    match e
    case Submit(id, packets, now) => SubmitHistory(s, l, id, packets, now);
    case Ack(id) => AckHistory(s, l, id);
    case Tick(now) =>
      hide History, SenderInv, Pump, Extend;
      PumpHistory(s, l, now);
  }

  /** The agent numbers its messages from a counter, so no id is submitted twice. */
  ghost predicate DistinctIds(events: seq<Event>) {
    forall i, j :: 0 <= i < j < |events| && events[i].Submit? && events[j].Submit? ==> events[i].id != events[j].id
  }

  lemma {:induction false} ContentFromEvents(s0: Sender, events: seq<Event>, id: int)
    requires id in Exec(s0, events).1.content
    ensures exists i :: 0 <= i < |events| && events[i].Submit? && events[i].id == id
  {
    hide Pump, Enqueue, Acknowledge;
    var n := |events| - 1;
    if id in Exec(s0, events[..n]).1.content {
      ContentFromEvents(s0, events[..n], id);
      var i :| 0 <= i < n && events[..n][i].Submit? && events[..n][i].id == id;
      assert events[i].Submit? && events[i].id == id;
    }
  }

  lemma {:induction false} RunHistory(timeout: real, maxRetries: nat, maxPending: nat, initialWindow: nat, maxWindow: nat, events: seq<Event>)
    requires timeout > 0.0 && maxPending >= 1 && 1 <= initialWindow <= maxWindow && DistinctIds(events)
    ensures var (s, l) := Exec(NewSender(timeout, maxRetries, maxPending, initialWindow, maxWindow), events);
            SenderInv(s) && History(s, l) && s.timeout == timeout && s.maxAttempts == maxRetries + 1
  {
    var s0 := NewSender(timeout, maxRetries, maxPending, initialWindow, maxWindow);
    if events != [] {
      hide SenderInv, History, Step;
      var n := |events| - 1;
      RunHistory(timeout, maxRetries, maxPending, initialWindow, maxWindow, events[..n]);
      var (s1, l1) := Exec(s0, events[..n]);
      if events[n].Submit? && events[n].id in l1.content {
        ContentFromEvents(s0, events[..n], events[n].id);
        assert false;
      }
      StepInv(s1, l1, events[n]);
      StepHistory(s1, l1, events[n]);
      StepConfig(s1, l1, events[n]);
    }
  }

  lemma {:induction false} SweepConfig(s: Sender, ids: seq<int>, now: real)
    ensures var s' := Sweep(s, ids, now).0;
            && s'.timeout == s.timeout && s'.maxAttempts == s.maxAttempts && s'.maxWindow == s.maxWindow && s'.queue == s.queue
            && s'.maxPending == s.maxPending
  {
    if ids != [] {
      SweepConfig(s, ids[..|ids| - 1], now);
    }
  }

  lemma {:induction false} LaunchConfig(s: Sender, window: int, now: real)
    ensures var s' := Launch(s, window, now).0;
            && s'.timeout == s.timeout && s'.maxAttempts == s.maxAttempts && s'.maxWindow == s.maxWindow && s'.cwnd == s.cwnd
            && s'.maxPending == s.maxPending
    decreases |s.queue|
  {
    if s.queue != [] && |s.pending.items| < window {
      LaunchConfig(LaunchOne(s, now).0, window, now);
    }
  }

  lemma StepConfig(s: Sender, l: Ledger, e: Event)
    ensures Step(s, l, e).0.timeout == s.timeout && Step(s, l, e).0.maxAttempts == s.maxAttempts
    ensures Step(s, l, e).0.maxWindow == s.maxWindow && Step(s, l, e).0.maxPending == s.maxPending
  {
    if e.Tick? {
      SweepConfig(s, s.pending.order, e.now);
      var s1 := Sweep(s, s.pending.order, e.now).0;
      LaunchConfig(s1, LaunchWindow(s1), e.now);
    }
  }

  /** In every run each message goes out at most once as an original and then at most `maxRetries` times
      as a retransmission, always with the packets it was submitted with, and each time no earlier than
      the doubled and capped timeout of the time before. */
  lemma SentWithinBudget(timeout: real, maxRetries: nat, maxPending: nat, initialWindow: nat, maxWindow: nat, events: seq<Event>, id: int)
    requires timeout > 0.0 && maxPending >= 1 && 1 <= initialWindow <= maxWindow && DistinctIds(events)
    ensures var (s, l) := Exec(NewSender(timeout, maxRetries, maxPending, initialWindow, maxWindow), events);
            && (id !in l.content ==> Of(l.log, id) == [])
            && (id in l.content ==> Shape(Of(l.log, id), l.content[id]) && |Of(l.log, id)| <= maxRetries + 1)
            && (id in l.content ==> Spread(Of(l.log, id), timeout))
  {
    hide Exec, SenderInv;
    RunHistory(timeout, maxRetries, maxPending, initialWindow, maxWindow, events);
    var (s, l) := Exec(NewSender(timeout, maxRetries, maxPending, initialWindow, maxWindow), events);
    assert MessageOk(s, l, id);
  }

  /** A message is given up only after all its attempts, and no earlier than the sum of the backed-off
      timeouts after its first transmission. */
  lemma GivenUpNoEarlier(timeout: real, maxRetries: nat, maxPending: nat, initialWindow: nat, maxWindow: nat, events: seq<Event>, i: nat)
    requires timeout > 0.0 && maxPending >= 1 && 1 <= initialWindow <= maxWindow && DistinctIds(events)
    requires i < |Exec(NewSender(timeout, maxRetries, maxPending, initialWindow, maxWindow), events).1.exhausted|
    ensures var l := Exec(NewSender(timeout, maxRetries, maxPending, initialWindow, maxWindow), events).1;
            var g := l.exhausted[i];
            var n := maxRetries + 1;
            && |Of(l.log, g.id)| == n
            && g.at >= Of(l.log, g.id)[0].at + timeout * (if n <= 5 then Pow2(n) - 1 else 31 + 16 * (n - 5)) as real
  {
    hide Exec, SenderInv;
    RunHistory(timeout, maxRetries, maxPending, initialWindow, maxWindow, events);
    var (s, l) := Exec(NewSender(timeout, maxRetries, maxPending, initialWindow, maxWindow), events);
    assert GoneOk(s, l, l.exhausted[i]);
    BudgetClosed(maxRetries + 1);
  }

  // --------------------------------------------------------------------------------------- drain

  /** Pumps still needed for an in-flight message: its remaining attempts and the one that gives it up. */
  function Left(t: Transmission, maxAttempts: nat): int {
    maxAttempts - t.attempts + 1
  }

  function PendingWork(order: seq<int>, items: map<int, Transmission>, maxAttempts: nat): int {
    if order == [] then 0
    else
      var id := order[|order| - 1];
      PendingWork(order[..|order| - 1], items, maxAttempts) + if id in items then Left(items[id], maxAttempts) else 0
  }

  function QueueWork(m: nat, q: nat): nat {
    (m + 1) * q
  }

  function Work(s: Sender): int {
    QueueWork(s.maxAttempts, |s.queue|) + PendingWork(s.pending.order, s.pending.items, s.maxAttempts)
  }

  lemma {:induction false} UpdateWork(order: seq<int>, items: map<int, Transmission>, maxAttempts: nat, id: int, t: Transmission)
    requires NoDup(order)
    ensures PendingWork(order, items[id := t], maxAttempts)
            == PendingWork(order, items, maxAttempts)
               + (if id in order then Left(t, maxAttempts) - (if id in items then Left(items[id], maxAttempts) else 0) else 0)
  {
    if order != [] {
      var n := |order| - 1;
      UpdateWork(order[..n], items, maxAttempts, id, t);
      assert order == order[..n] + [order[n]];
      assert order[n] !in order[..n];
    }
  }

  lemma WorkSnoc(order: seq<int>, id: int, items: map<int, Transmission>, maxAttempts: nat)
    ensures PendingWork(order + [id], items, maxAttempts)
            == PendingWork(order, items, maxAttempts) + if id in items then Left(items[id], maxAttempts) else 0
  {
    assert (order + [id])[..|order|] == order;
  }

  lemma {:induction false} DropWork(order: seq<int>, items: map<int, Transmission>, maxAttempts: nat, id: int)
    requires NoDup(order) && id in items
    ensures PendingWork(WithoutAll(order, {id}), items - {id}, maxAttempts)
            == PendingWork(order, items, maxAttempts) - if id in order then Left(items[id], maxAttempts) else 0
  {
    if order != [] {
      var n := |order| - 1;
      InitNoDup(order);
      hide NoDup;
      DropWork(order[..n], items, maxAttempts, id);
      if order[n] != id {
        WorkSnoc(WithoutAll(order[..n], {id}), order[n], items - {id}, maxAttempts);
      } else {
        assert WithoutAll(order, {id}) == WithoutAll(order[..n], {id});
      }
    }
  }

  lemma InitNoDup(order: seq<int>)
    requires NoDup(order) && order != []
    ensures var n := |order| - 1;
            NoDup(order[..n]) && order[n] !in order[..n] && forall x :: x in order <==> x in order[..n] || x == order[n]
  {
    assert order == order[..|order| - 1] + [order[|order| - 1]];
  }

  lemma {:induction false} WorkBounds(order: seq<int>, items: map<int, Transmission>, maxAttempts: nat)
    requires forall id :: id in items ==> InFlight(items[id], id, maxAttempts)
    requires forall i :: 0 <= i < |order| ==> order[i] in items
    ensures |order| <= PendingWork(order, items, maxAttempts) <= maxAttempts * |order|
  {
    if order != [] {
      var n := |order| - 1;
      WorkBounds(order[..n], items, maxAttempts);
      assert order[n] in items;
      assert maxAttempts * |order| == maxAttempts * n + maxAttempts;
    }
  }

  /** A due message costs exactly one pump. */
  lemma VisitWork(s: Sender, id: int, now: real)
    requires SenderInv(s) && id in s.pending.items && Due(s.pending.items[id], s.timeout, now)
    ensures Work(Visit(s, id, now).0) == Work(s) - 1
  {
    var t := s.pending.items[id];
    assert id in s.pending.order;
    DropWork(s.pending.order, s.pending.items, s.maxAttempts, id);
    UpdateWork(s.pending.order, s.pending.items, s.maxAttempts, id, t.(attempts := t.attempts + 1, lastSent := Some(now)));
  }

  lemma {:induction false} SweepUntouched(s: Sender, ids: seq<int>, now: real, k: int)
    requires k !in ids
    ensures var s' := Sweep(s, ids, now).0;
            && (k in s'.pending.items <==> k in s.pending.items)
            && (k in s.pending.items ==> s'.pending.items[k] == s.pending.items[k])
  {
    hide Due, WithoutAll;
    if ids != [] {
      var n := |ids| - 1;
      assert ids == ids[..n] + [ids[n]];
      SweepUntouched(s, ids[..n], now, k);
    }
  }

  lemma {:induction false} SweepWork(s: Sender, ids: seq<int>, now: real)
    requires SenderInv(s) && NoDup(ids)
    requires forall i :: 0 <= i < |ids| ==> ids[i] in s.pending.items && Due(s.pending.items[ids[i]], s.timeout, now)
    ensures Work(Sweep(s, ids, now).0) == Work(s) - |ids|
  {
    hide SenderInv, Work, Due, Visit;
    if ids != [] {
      var n := |ids| - 1;
      SweepWork(s, ids[..n], now);
      SweepInv(s, ids[..n], now);
      SweepConfig(s, ids[..n], now);
      SweepUntouched(s, ids[..n], now, ids[n]);
      VisitWork(Sweep(s, ids[..n], now).0, ids[n], now);
    }
  }

  /** A launched message brings all its attempts. */
  lemma LaunchedWork(order: seq<int>, items: map<int, Transmission>, maxAttempts: nat, t: Transmission)
    requires NoDup(order) && t.id !in order && t.id !in items && t.attempts == 1
    ensures PendingWork(order + [t.id], items[t.id := t], maxAttempts) == PendingWork(order, items, maxAttempts) + maxAttempts
  {
    UpdateWork(order, items, maxAttempts, t.id, t);
    WorkSnoc(order, t.id, items[t.id := t], maxAttempts);
  }

  lemma LaunchOneWork(s: Sender, now: real)
    requires SenderInv(s) && s.queue != []
    ensures Work(LaunchOne(s, now).0) == Work(s) - 1
  {
    var t := s.queue[0].(attempts := 1, firstSent := Some(now), lastSent := Some(now));
    assert t.id !in s.pending.items && t.id !in s.pending.order;
    LaunchedWork(s.pending.order, s.pending.items, s.maxAttempts, t);
    OneLess(s.maxAttempts, |s.queue|);
    hide SenderInv, PendingWork, NoDup, QueueWork;
  }

  lemma OneLess(m: nat, q: nat)
    requires q > 0
    ensures QueueWork(m, q) == QueueWork(m, q - 1) + m + 1
  {
  }

  lemma {:induction false} LaunchWork(s: Sender, window: int, now: real)
    requires SenderInv(s) && window <= s.maxWindow
    ensures Work(Launch(s, window, now).0) == Work(s) - |Launch(s, window, now).1|
    decreases |s.queue|
  {
    hide SenderInv, Work;
    if s.queue != [] && |s.pending.items| < window {
      LaunchOneWork(s, now);
      LaunchOneInv(s, now);
      LaunchConfig(s, window, now);
      LaunchWork(LaunchOne(s, now).0, window, now);
    }
  }

  ghost predicate AllDue(s: Sender, now: real) {
    forall id :: id in s.pending.items ==> Due(s.pending.items[id], s.timeout, now)
  }

  lemma DueAt(s: Sender, now: real, id: int)
    requires AllDue(s, now) && id in s.pending.items
    ensures Due(s.pending.items[id], s.timeout, now)
  {
  }

  /** A pump that finds every in-flight message timed out makes progress unless there is nothing to do. */
  lemma PumpWork(s: Sender, now: real)
    requires SenderInv(s) && AllDue(s, now)
    ensures Work(Pump(s, now).0) <= Work(s)
    ensures !s.Empty() ==> Work(Pump(s, now).0) < Work(s)
  {
    Size(s.pending);
    hide Due, Backoff;
    forall i | 0 <= i < |s.pending.order|
      ensures s.pending.order[i] in s.pending.items && Due(s.pending.items[s.pending.order[i]], s.timeout, now)
    {
      DueAt(s, now, s.pending.order[i]);
    }
    SweepWork(s, s.pending.order, now);
    SweepInv(s, s.pending.order, now);
    SweepConfig(s, s.pending.order, now);
    var s1 := Sweep(s, s.pending.order, now).0;
    WindowBound(s1);
    LaunchWork(s1, LaunchWindow(s1), now);
    if s.pending.order == [] {
      assert s1 == s;
    }
  }

  lemma WorkZero(s: Sender)
    requires SenderInv(s)
    ensures 0 <= Work(s) <= (s.maxAttempts + 1) * (|s.queue| + |s.pending.items|)
    ensures Work(s) == 0 <==> s.Empty()
  {
    Size(s.pending);
    hide NoDup, PendingWork;
    WorkBounds(s.pending.order, s.pending.items, s.maxAttempts);
    WorkArithmetic(s.maxAttempts, |s.queue|, |s.pending.items|);
  }

  lemma WorkArithmetic(m: nat, q: nat, p: nat)
    ensures q <= (m + 1) * q
    ensures (m + 1) * q + m * p <= (m + 1) * (q + p)
    ensures q == 0 ==> (m + 1) * q == 0
  {
  }

  function Ticks(events: seq<Event>): nat {
    if events == [] then 0 else Ticks(events[..|events| - 1]) + if events[|events| - 1].Tick? then 1 else 0
  }

  function LastTick(start: real, events: seq<Event>): real {
    if events == [] then start
    else if events[|events| - 1].Tick? then events[|events| - 1].now
    else LastTick(start, events[..|events| - 1])
  }

  /** Only acknowledgements and pumps, the pumps at least 16 timeouts apart and after `start`. */
  ghost predicate Spaced(timeout: real, start: real, events: seq<Event>) {
    events == [] ||
    (var p := events[..|events| - 1];
     && Spaced(timeout, start, p)
     && !events[|events| - 1].Submit?
     && (events[|events| - 1].Tick? ==> events[|events| - 1].now >= LastTick(start, p) + 16.0 * timeout))
  }

  ghost predicate SentBy(s: Sender, at: real) {
    forall id :: id in s.pending.items ==> s.pending.items[id].lastSent.Some? && s.pending.items[id].lastSent.value <= at
  }

  lemma WaitLongEnough(timeout: real, b: real)
    requires timeout > 0.0 && b <= 16.0
    ensures timeout * b <= 16.0 * timeout
  {
    assert timeout * (16.0 - b) >= 0.0;
    assert timeout * (16.0 - b) == timeout * 16.0 - timeout * b;
  }

  lemma SpacedDue(s: Sender, at: real, now: real)
    requires SentBy(s, at) && s.timeout > 0.0 && now >= at + 16.0 * s.timeout
    ensures AllDue(s, now)
  {
    hide Backoff;
    forall id | id in s.pending.items
      ensures Due(s.pending.items[id], s.timeout, now)
    {
      BackoffPositive(s.pending.items[id].attempts);
      WaitLongEnough(s.timeout, Backoff(s.pending.items[id].attempts) as real);
    }
  }

  lemma {:induction false} SweepSentBy(s: Sender, ids: seq<int>, now: real)
    requires SentBy(s, now)
    ensures SentBy(Sweep(s, ids, now).0, now)
  {
    hide Due, WithoutAll;
    if ids != [] {
      SweepSentBy(s, ids[..|ids| - 1], now);
    }
  }

  lemma {:induction false} LaunchSentBy(s: Sender, window: int, now: real)
    requires SentBy(s, now)
    ensures SentBy(Launch(s, window, now).0, now)
    decreases |s.queue|
  {
    if s.queue != [] && |s.pending.items| < window {
      LaunchSentBy(LaunchOne(s, now).0, window, now);
    }
  }

  lemma PumpSentBy(s: Sender, now: real)
    requires SentBy(s, now)
    ensures SentBy(Pump(s, now).0, now)
  {
    hide SentBy, Sweep, Launch, LaunchWindow;
    SweepSentBy(s, s.pending.order, now);
    var s1 := Sweep(s, s.pending.order, now).0;
    LaunchSentBy(s1, LaunchWindow(s1), now);
  }

  /** An acknowledgement never adds work. */
  lemma AckWork(s: Sender, id: int)
    requires SenderInv(s)
    ensures Work(Acknowledge(s, id).1) <= Work(s)
  {
    if id in s.pending.items {
      PendingIds(s, id);
      DropWork(s.pending.order, s.pending.items, s.maxAttempts, id);
      assert Left(s.pending.items[id], s.maxAttempts) >= 1;
      hide SenderInv, NoDup, PendingWork, Grow, QueueWork;
    }
  }

  lemma TickRunsDown(s: Sender, l: Ledger, at: real, now: real)
    requires SenderInv(s) && SentBy(s, at) && now >= at + 16.0 * s.timeout
    ensures var s' := Step(s, l, Tick(now)).0;
            SentBy(s', now) && Work(s') <= Max(0, Work(s) - 1)
  {
    TimeoutPositive(s);
    assert SentBy(s, now);
    hide SenderInv, Work, Pump, Extend, AllDue, SentBy;
    SpacedDue(s, at, now);
    PumpInv(s, now);
    PumpWork(s, now);
    PumpSentBy(s, now);
    WorkZero(s);
    WorkZero(Pump(s, now).0);
    if s.Empty() {
      EmptyStays(s, now);
    }
  }

  lemma EmptyStays(s: Sender, now: real)
    requires SenderInv(s) && s.Empty()
    ensures Pump(s, now).0.Empty()
  {
    Size(s.pending);
    assert s.pending.order == [];
  }

  lemma {:induction false} WorkRunsDown(s: Sender, start: real, events: seq<Event>)
    requires SenderInv(s) && SentBy(s, start) && Spaced(s.timeout, start, events)
    ensures var s' := Exec(s, events).0;
            && SenderInv(s') && s'.timeout == s.timeout
            && SentBy(s', LastTick(start, events))
            && Work(s') <= Max(0, Work(s) - Ticks(events))
  {
    hide SenderInv, Work, SentBy, Step;
    if events != [] {
      var n := |events| - 1;
      WorkRunsDown(s, start, events[..n]);
      var (s1, l1) := Exec(s, events[..n]);
      StepInv(s1, l1, events[n]);
      StepConfig(s1, l1, events[n]);
      if events[n].Tick? {
        TickRunsDown(s1, l1, LastTick(start, events[..n]), events[n].now);
      } else {
        AckRunsDown(s1, l1, events[n].id, LastTick(start, events[..n]));
      }
    }
  }

  lemma AckRunsDown(s: Sender, l: Ledger, id: int, at: real)
    requires SenderInv(s) && SentBy(s, at)
    ensures var s' := Step(s, l, Ack(id)).0;
            SentBy(s', at) && Work(s') <= Work(s)
  {
    hide SenderInv, Work;
    AckWork(s, id);
  }

  lemma TimeoutPositive(s: Sender)
    requires SenderInv(s)
    ensures s.timeout > 0.0
  {
  }

  /** Drain: with nothing new submitted and pumps at least 16 timeouts apart, whatever acknowledgements
      arrive, the sender is empty after as many pumps as (maxAttempts + 1) per message. */
  lemma Drains(s: Sender, start: real, events: seq<Event>)
    requires SenderInv(s) && SentBy(s, start) && Spaced(s.timeout, start, events)
    requires Ticks(events) >= (s.maxAttempts + 1) * (|s.queue| + |s.pending.items|)
    ensures Exec(s, events).0.Empty()
  {
    hide SenderInv, Work, Exec, SentBy, Spaced, Ticks;
    WorkRunsDown(s, start, events);
    WorkZero(s);
    WorkZero(Exec(s, events).0);
  }

  // ------------------------------------------------------------------------------ the window laws

  function PowReal(k: nat): (p: real)
    ensures p >= 1.0
  {
    if k == 0 then 1.0 else 2.0 * PowReal(k - 1)
  }

  /** How many of the listed messages are timed out. */
  function DueCount(s: Sender, ids: seq<int>, now: real): nat {
    if ids == [] then 0
    else
      var id := ids[|ids| - 1];
      DueCount(s, ids[..|ids| - 1], now)
      + if id in s.pending.items && Due(s.pending.items[id], s.timeout, now) then 1 else 0
  }

  lemma HalveAgain(c: real, p: real)
    requires c >= 1.0 && p >= 1.0
    ensures Halve(MaxReal(1.0, c / p)) == MaxReal(1.0, c / (2.0 * p))
  {
    assert c / (2.0 * p) == c / p / 2.0;
  }

  lemma {:induction false} SweepWindow(s: Sender, ids: seq<int>, now: real)
    requires SenderInv(s) && NoDup(ids)
    ensures Sweep(s, ids, now).0.cwnd == MaxReal(1.0, s.cwnd / PowReal(DueCount(s, ids, now)))
  {
    if ids != [] {
      hide SenderInv, Due, Halve, WithoutAll, MaxReal, PowReal;
      var n := |ids| - 1;
      SweepWindow(s, ids[..n], now);
      SweepConfig(s, ids[..n], now);
      SweepUntouched(s, ids[..n], now, ids[n]);
      WindowAtLeastOne(s);
      HalveAgain(s.cwnd, PowReal(DueCount(s, ids[..n], now)));
      PowStep(DueCount(s, ids[..n], now));
    }
  }

  lemma PowStep(k: nat)
    ensures PowReal(k + 1) == 2.0 * PowReal(k)
  {
  }

  lemma WindowAtLeastOne(s: Sender)
    requires SenderInv(s)
    ensures s.cwnd >= 1.0
  {
  }

  /** A pump that finds k messages timed out leaves the window at max(1, cwnd / 2^k). */
  lemma PumpHalvesPerTimeout(s: Sender, now: real)
    requires SenderInv(s)
    ensures Pump(s, now).0.cwnd == MaxReal(1.0, s.cwnd / PowReal(DueCount(s, s.pending.order, now)))
  {
    SweepWindow(s, s.pending.order, now);
    var s1 := Sweep(s, s.pending.order, now).0;
    LaunchConfig(s1, LaunchWindow(s1), now);
  }

  /** n accepted acknowledgements in a row. */
  function GrowTimes(s: Sender, n: nat): real {
    if n == 0 then s.cwnd else Grow(s.(cwnd := GrowTimes(s, n - 1)))
  }

  function Square(x: real): real {
    x * x
  }

  lemma GrowSquare(s: Sender)
    requires 1.0 <= s.cwnd <= s.maxWindow as real
    ensures 1.0 <= Grow(s) <= s.maxWindow as real
    ensures Square(Grow(s)) <= Square(s.cwnd) + 3.0
    ensures Grow(s) == s.maxWindow as real || Square(Grow(s)) >= Square(s.cwnd) + 2.0
    ensures s.cwnd == s.maxWindow as real ==> Grow(s) == s.maxWindow as real
  {
    var c := s.cwnd;
    var d := 1.0 / c;
    assert c * d == 1.0;
    assert 0.0 < d <= 1.0;
    assert d * d <= 1.0;
    var g := c + d;
    assert g * g == c * c + 2.0 * (c * d) + d * d;
    var w := s.maxWindow as real;
    if g > w {
      assert w * w <= g * g;
    }
  }

  /** After n accepted acknowledgements the square of the window has grown by 2n to 3n, up to the cap. */
  lemma {:induction false} GrowthLaw(s: Sender, n: nat)
    requires 1.0 <= s.cwnd <= s.maxWindow as real
    ensures var c, w := GrowTimes(s, n), s.maxWindow as real;
            && 1.0 <= c <= w
            && Square(c) <= Square(s.cwnd) + 3.0 * n as real
            && (c == w || Square(c) >= Square(s.cwnd) + 2.0 * n as real)
  {
    hide Square, Grow;
    if n > 0 {
      GrowthLaw(s, n - 1);
      GrowSquare(s.(cwnd := GrowTimes(s, n - 1)));
      assert n as real == (n - 1) as real + 1.0;
    }
  }

  /** The sender after a list of acknowledgements, and how many of them named a message in flight. */
  function AckAll(s: Sender, ids: seq<int>): (Sender, nat) {
    if ids == [] then (s, 0)
    else
      var (s1, n) := AckAll(s, ids[..|ids| - 1]);
      var (known, s2) := Acknowledge(s1, ids[|ids| - 1]);
      (s2, if known then n + 1 else n)
  }

  lemma {:induction false} AcksGrow(s: Sender, ids: seq<int>)
    ensures var (s', n) := AckAll(s, ids);
            s'.cwnd == GrowTimes(s, n) && s'.maxWindow == s.maxWindow
  {
    if ids != [] {
      hide MaxReal, WithoutAll;
      AcksGrow(s, ids[..|ids| - 1]);
    }
  }

  /** Whatever acknowledgements arrive between two pumps, the square of the window grows by 2 to 3 for
      each one that names a message in flight, up to the cap, and by nothing for the others. */
  lemma AcknowledgedGrowth(s: Sender, ids: seq<int>)
    requires SenderInv(s)
    ensures var (s', n) := AckAll(s, ids);
            var w := s.maxWindow as real;
            && 1.0 <= s'.cwnd <= w
            && Square(s'.cwnd) <= Square(s.cwnd) + 3.0 * n as real
            && (s'.cwnd == w || Square(s'.cwnd) >= Square(s.cwnd) + 2.0 * n as real)
  {
    AcksGrow(s, ids);
    GrowthLaw(s, AckAll(s, ids).1);
  }

  lemma {:induction false} LaunchFills(s: Sender, window: int, now: real)
    requires SenderInv(s) && window <= s.maxWindow
    ensures var s' := Launch(s, window, now).0;
            && (s'.queue == [] || |s'.pending.items| >= window)
            && |s.pending.items| <= |s'.pending.items| <= Max(|s.pending.items|, window)
    decreases |s.queue|
  {
    hide SenderInv;
    if s.queue != [] && |s.pending.items| < window {
      LaunchOneInv(s, now);
      var s1 := LaunchOne(s, now).0;
      PutSize(s.pending.items, s.queue[0].id, s1.pending.items[s.queue[0].id]);
      LaunchFills(s1, window, now);
    }
  }

  ghost predicate NotDue(s: Sender, id: int, now: real) {
    id in s.pending.items ==> !Due(s.pending.items[id], s.timeout, now)
  }

  lemma JustSent(t: Transmission, timeout: real, now: real)
    requires timeout > 0.0 && t.lastSent == Some(now)
    ensures !Due(t, timeout, now)
  {
    BackoffPositive(t.attempts);
    var b := Backoff(t.attempts) as real;
    assert timeout * b >= timeout;
  }

  lemma BackoffPositive(attempts: nat)
    ensures 1 <= Backoff(attempts) <= 16
  {
    Pow2Positive(Max(0, attempts - 1));
  }

  lemma {:induction false} Pow2Positive(n: nat)
    ensures Pow2(n) >= 1
  {
    if n > 0 {
      Pow2Positive(n - 1);
    }
  }

  lemma VisitClears(s: Sender, id: int, now: real, k: int)
    requires SenderInv(s) && (k == id || NotDue(s, k, now))
    ensures NotDue(Visit(s, id, now).0, k, now)
  {
    hide Due, Halve, WithoutAll, NoDup;
    var s' := Visit(s, id, now).0;
    if k == id && id in s'.pending.items && s'.pending.items[id].lastSent == Some(now) {
      JustSent(s'.pending.items[id], s.timeout, now);
    }
  }

  lemma {:induction false} SweepClears(s: Sender, ids: seq<int>, now: real, k: int)
    requires SenderInv(s) && (k in ids || NotDue(s, k, now))
    ensures NotDue(Sweep(s, ids, now).0, k, now)
  {
    hide SenderInv, Visit, NotDue;
    if ids != [] {
      var n := |ids| - 1;
      if k in ids[..n] || NotDue(s, k, now) {
        SweepClears(s, ids[..n], now, k);
      } else {
        assert k == ids[n];
      }
      SweepInv(s, ids[..n], now);
      VisitClears(Sweep(s, ids[..n], now).0, ids[n], now, k);
    }
  }

  lemma {:induction false} SweepShrinks(s: Sender, ids: seq<int>, now: real)
    ensures |Sweep(s, ids, now).0.pending.items| <= |s.pending.items|
  {
    hide Visit;
    if ids != [] {
      SweepShrinks(s, ids[..|ids| - 1], now);
      VisitShrinks(Sweep(s, ids[..|ids| - 1], now).0, ids[|ids| - 1], now);
    }
  }

  lemma VisitShrinks(s: Sender, id: int, now: real)
    ensures |Visit(s, id, now).0.pending.items| <= |s.pending.items|
  {
    DropSize(s.pending.items, {id});
    if id in s.pending.items {
      PutSize(s.pending.items, id, s.pending.items[id].(attempts := s.pending.items[id].attempts + 1, lastSent := Some(now)));
    }
  }

  lemma {:induction false} LaunchClears(s: Sender, window: int, now: real, k: int)
    requires s.timeout > 0.0 && NotDue(s, k, now)
    ensures NotDue(Launch(s, window, now).0, k, now)
    decreases |s.queue|
  {
    hide Due;
    if s.queue != [] && |s.pending.items| < window {
      var s1 := LaunchOne(s, now).0;
      JustSent(s1.pending.items[s.queue[0].id], s.timeout, now);
      LaunchClears(s1, window, now, k);
    }
  }

  /** A pump leaves no in-flight message timed out, and launches exactly as far as the window allows: in
      the end the queue is empty or the window full, and the window is not exceeded by launching. */
  lemma PumpServesAll(s: Sender, now: real, k: int)
    requires SenderInv(s)
    ensures var s' := Pump(s, now).0;
            && NotDue(s', k, now)
            && (s'.queue == [] || |s'.pending.items| >= s'.cwnd.Floor)
            && |s'.pending.items| <= Max(|s.pending.items|, s'.cwnd.Floor)
  {
    assert k in s.pending.order || NotDue(s, k, now);
    hide NotDue, Sweep, Launch;
    SweepClears(s, s.pending.order, now, k);
    SweepShrinks(s, s.pending.order, now);
    SweepInv(s, s.pending.order, now);
    var s1 := Sweep(s, s.pending.order, now).0;
    WindowBound(s1);
    WindowAtLeastOne(s1);
    TimeoutPositive(s1);
    LaunchClears(s1, LaunchWindow(s1), now, k);
    LaunchFills(s1, LaunchWindow(s1), now);
    LaunchConfig(s1, LaunchWindow(s1), now);
  }
}
