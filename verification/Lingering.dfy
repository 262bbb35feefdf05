/** Messages of one fragment, and a run in which an expired key stays listed. */
module Lingering {
  import opened Common
  import opened Dicts
  import opened Frames
  import opened Fragmentation
  import opened Recovery
  import opened Reassembly
  import opened Delivery
  import opened Exactness

  /** The frame of a message that fits one fragment. */
  ghost predicate Whole(f: Frame) {
    f.WellFormed() && f.count == 1 && f.messageLen == |f.payload|
  }

  ghost predicate FrontYoung(t: Table, now: real)
    requires TableInv(t)
  {
    t.completed.order == [] || now - t.completed.items[t.completed.order[0]] <= t.ttl
  }

  lemma NothingToPurge(t: Table, now: real)
    requires TableInv(t) && t.open == Dict([], map[]) && FrontYoung(t, now)
    ensures Purge(t, now) == t
  {
    assert t.open.items - Expired(t.open, t.timeout, now) == map[];
  }

  lemma WholeCarries(f: Frame)
    requires Whole(f)
    ensures var m := Message(f.payload, MAX_FRAGMENT_PAYLOAD, false);
            m.Valid() && m.Pieces() == [f.payload] && Carries(f, m) && f.index == 0
            && Enough(1, {0}) && AllData(1, {0})
  {
  }

  /** It is complete at once. */
  lemma WholeCompletes(t: Table, f: Frame, now: real)
    requires TableInv(t) && t.open == Dict([], map[]) && FrontYoung(t, now) && Whole(f)
    requires KeyOf(f) !in t.completed.items && |t.completed.items| < 2 * t.maxMessages
    ensures Add(t, f, now) == (Complete(f.payload, false), t.(completed := t.completed.Put(KeyOf(f), now)))
  {
    var m, key := Message(f.payload, MAX_FRAGMENT_PAYLOAD, false), KeyOf(f);
    NothingToPurge(t, now);
    WholeCarries(f);
    NewHolds(f, m, now);
    assert {} + {f.index as nat} == {0};
    CompletedValid(t);
    ContributeGenuine(t, key, NewAssembly(f, now), m, {}, f, now);
    PutSize(t.completed.items, key, now);
    PutValid(t.completed, key, now);
    TrimBound(t.completed.Put(key, now), 2 * t.maxMessages);
    assert t.open.Drop(key) == t.open;
    hide Contribute, Trim, Purge, Chop, Holds, Enough, AllData, Carries, NoDup;
  }

  lemma SeenAgain(t: Table, f: Frame, now: real)
    requires TableInv(t) && t.open == Dict([], map[]) && FrontYoung(t, now) && f.WellFormed() && KeyOf(f) in t.completed.items
    ensures Add(t, f, now) == (Duplicate, t.(completed := t.completed.MoveToEnd(KeyOf(f))))
  {
    NothingToPurge(t, now);
    hide Purge;
  }

  function EmptyMessage(messageId: nat): Frame {
    Frame(DATA_UP, 0, seq(16, _ => 0), 0, messageId, 0, messageId, 0, 0, 1, [])
  }

  lemma TablesSnoc(t0: Table, arrivals: seq<Arrival>, a: Arrival)
    requires TableInv(t0) && AllWellFormed(arrivals) && a.frame.WellFormed()
    ensures AllWellFormed(arrivals + [a])
    ensures Tables(t0, arrivals + [a]) == Add(Tables(t0, arrivals), a.frame, a.now).1
  {
    assert (arrivals + [a])[..|arrivals|] == arrivals;
    hide Add, TableInv;
  }

  const START: Table := EmptyTable(30.0, 1024, 120.0)

  /** The starting tables once these keys are listed as completed. */
  function Listed(order: seq<Key>, done: map<Key, real>): Table {
    START.(completed := Dict(order, done))
  }

  lemma FirstDone(one: Key, f: Frame)
    requires Whole(f) && KeyOf(f) == one
    ensures TableInv(START) && TableInv(Listed([one], map[one := 0.0]))
    ensures Add(START, f, 0.0).1 == Listed([one], map[one := 0.0])
  {
    WholeCompletes(START, f, 0.0);
    assert START.completed.Put(one, 0.0) == Dict([one], map[one := 0.0]);
    hide Add;
  }

  lemma SecondDone(one: Key, two: Key, f: Frame)
    requires Whole(f) && KeyOf(f) == two && one != two && TableInv(Listed([one], map[one := 0.0]))
    ensures TableInv(Listed([one, two], map[one := 0.0, two := 100.0]))
    ensures Add(Listed([one], map[one := 0.0]), f, 100.0).1 == Listed([one, two], map[one := 0.0, two := 100.0])
  {
    var t := Listed([one], map[one := 0.0]);
    WholeCompletes(t, f, 100.0);
    assert t.completed.Put(two, 100.0) == Dict([one, two], map[one := 0.0, two := 100.0]);
    hide Add;
  }

  lemma FirstAgain(one: Key, two: Key, f: Frame)
    requires Whole(f) && KeyOf(f) == one && one != two && TableInv(Listed([one, two], map[one := 0.0, two := 100.0]))
    ensures Add(Listed([one, two], map[one := 0.0, two := 100.0]), f, 110.0).1
         == Listed([two, one], map[one := 0.0, two := 100.0])
  {
    SeenAgain(Listed([one, two], map[one := 0.0, two := 100.0]), f, 110.0);
    MoveFirst(one, two);
    hide Add, WithoutAll;
  }

  const FIRST: seq<Arrival> := [Arrival(EmptyMessage(1), 0.0), Arrival(EmptyMessage(2), 100.0)]
  const AGAIN: seq<Arrival> := FIRST + [Arrival(EmptyMessage(1), 110.0)]

  lemma TablesNone(t0: Table)
    requires TableInv(t0)
    ensures Tables(t0, []) == t0
  {
  }

  lemma EmptyIsWhole(messageId: nat)
    requires messageId < 0x1_0000_0000_0000_0000
    ensures Whole(EmptyMessage(messageId)) && EmptyMessage(messageId).WellFormed()
    ensures KeyOf(EmptyMessage(messageId)) == Key(0, messageId)
  {
  }

  /** The tables after two messages, completed at times 0 and 100, and after the first one is seen again. */
  lemma SeenAgainRun()
    ensures TableInv(START) && AllWellFormed(FIRST) && AllWellFormed(AGAIN)
    ensures var one, two := Key(0, 1), Key(0, 2);
            && Tables(START, FIRST) == Listed([one, two], map[one := 0.0, two := 100.0])
            && Tables(START, AGAIN) == Listed([two, one], map[one := 0.0, two := 100.0])
  {
    var one, two := Key(0, 1), Key(0, 2);
    var none: seq<Arrival> := [];
    hide Add, TableInv, Listed, Tables, Whole, EmptyMessage, KeyOf, EmptyTable, Frame.WellFormed;
    EmptyInv(30.0, 1024, 120.0);
    EmptyIsWhole(1);
    EmptyIsWhole(2);
    FirstDone(one, EmptyMessage(1));
    SecondDone(one, two, EmptyMessage(2));
    FirstAgain(one, two, EmptyMessage(1));
    TablesSnoc(START, none, FIRST[0]);
    TablesSnoc(START, [FIRST[0]], FIRST[1]);
    TablesSnoc(START, FIRST, AGAIN[2]);
    assert none + [FIRST[0]] == [FIRST[0]] && [FIRST[0]] + [FIRST[1]] == FIRST;
    TablesNone(START);
  }

  lemma MoveFirst(one: Key, two: Key)
    requires one != two
    ensures WithoutAll([one, two], {one}) + [one] == [two, one]
  {
    var none: seq<Key> := [];
    var both, first := [one, two], [one];
    assert first[..|first| - 1] == none;
    assert WithoutAll(first, {one}) == none;
    assert both[..|both| - 1] == first && both[|both| - 1] == two && two !in {one};
    assert WithoutAll(both, {one}) == WithoutAll(first, {one}) + [two];
  }

  /** A concrete run with the source's default limits: the duplicate goes behind the younger key without its
      time being refreshed, and the purge at 200 finds it past its 120 seconds and leaves it. Without the
      duplicate it goes. */
  lemma ExpiredCanLinger()
    ensures TableInv(START) && AllWellFormed(FIRST) && AllWellFormed(AGAIN)
    ensures var one, t, u := Key(0, 1), Tables(START, FIRST), Tables(START, AGAIN);
            && one in u.completed.items && 200.0 - u.completed.items[one] > u.ttl
            && one in Purge(u, 200.0).completed.items
            && one !in Purge(t, 200.0).completed.items
  {
    SeenAgainRun();
    var t, u := Tables(START, FIRST), Tables(START, AGAIN);
    LingersIff(t, 200.0, 0);
    LingersIff(u, 200.0, 1);
    hide Tables, Purge;
    assert u.completed.order[0] == Key(0, 2);
  }
}
