/** Reassembly fed with genuine fragments: whatever happens to the tables nothing wrong is delivered,
    and while nothing is evicted or timed out every message is delivered exactly when it can be. */
module Delivery {
  import opened Common
  import opened Dicts
  import opened Frames
  import opened Fragmentation
  import opened Recovery
  import opened Reassembly

  /** The messages in flight, by session and message id. */
  type Messages = map<Key, Message>

  ghost predicate Genuine(frame: Frame, msgs: Messages) {
    && frame.WellFormed()
    && KeyOf(frame) in msgs
    && msgs[KeyOf(frame)].Valid()
    && Carries(frame, msgs[KeyOf(frame)])
  }

  /** A genuine fragment is stored under its index, the parity under the index after the last. */
  lemma InsertGenuine(a: Assembly, m: Message, have: set<nat>, frame: Frame)
    requires m.Valid() && Holds(a, m, have) && frame.WellFormed() && Carries(frame, m)
    ensures Insert(a, frame).Ok? && Holds(Insert(a, frame).value, m, have + {frame.index as nat})
    ensures Insert(a, frame).value.updatedAt == a.updatedAt
  {
    hide Chop, Parity;
  }

  /** What one genuine fragment does to its assembly and to the tables. */
  lemma ContributeGenuine(t: Table, key: Key, a: Assembly, m: Message, have: set<nat>, frame: Frame, now: real)
    requires t.completed.Valid()
    requires m.Valid() && Holds(a, m, have) && frame.WellFormed() && Carries(frame, m)
    ensures var have' := have + {frame.index as nat};
            var (v, t') := Contribute(t, key, a, frame, now);
            if Enough(a.count, have') then
              && |have'| >= a.count
              && v == Complete(m.payload, !AllData(a.count, have'))
              && t.completed.Put(key, now).Valid()
              && t' == t.(open := t.open.Drop(key),
                          completed := Trim(t.completed.Put(key, now), 2 * t.maxMessages))
            else
              exists a' :: Holds(a', m, have') && a'.updatedAt == a.updatedAt
                           && v == Partial && t' == t.(open := t.open.Put(key, a'))
  {
    hide Chop, Parity, Holds, Enough, AllData, Assemble, Insert, Carries;
    InsertGenuine(a, m, have, frame);
    var a1 := Insert(a, frame).value;
    SameCount(a, a1, m, have, have + {frame.index as nat});
    AssembleExact(a1, m, have + {frame.index as nat});
    PutValid(t.completed, key, now);
  }

  lemma SameCount(a: Assembly, b: Assembly, m: Message, h: set<nat>, k: set<nat>)
    requires m.Valid() && Holds(a, m, h) && Holds(b, m, k)
    ensures a.count == b.count == |m.Pieces()|
  {
  }

  lemma NewHolds(frame: Frame, m: Message, now: real)
    requires m.Valid() && frame.WellFormed() && Carries(frame, m)
    ensures Holds(NewAssembly(frame, now), m, {})
  {
  }

  lemma TouchHolds(a: Assembly, m: Message, have: set<nat>, now: real)
    requires m.Valid() && Holds(a, m, have)
    ensures Holds(a.(updatedAt := now), m, have)
  {
  }

  // ---------------------------------------------------- any timeouts, evictions and expiries at all

  /** The fragment indices an assembly holds. */
  function Held(a: Assembly): set<nat> {
    a.fragments.Keys + if a.parity.Some? then {a.count} else {}
  }

  function HeldCount(t: Table, k: Key): nat {
    if k in t.open.items then |Held(t.open.items[k])| else 0
  }

  /** Every open assembly holds genuine fragments of its own message. */
  ghost predicate GenuineTable(t: Table, msgs: Messages) {
    forall k :: k in t.open.items ==> GenuineEntry(t, msgs, k)
  }

  ghost predicate GenuineEntry(t: Table, msgs: Messages, k: Key)
    requires k in t.open.items
  {
    k in msgs && msgs[k].Valid() && Holds(t.open.items[k], msgs[k], Held(t.open.items[k]))
  }

  lemma HeldIs(a: Assembly, m: Message, have: set<nat>)
    requires m.Valid() && Holds(a, m, have)
    ensures Held(a) == have
  {
    hide Chop, Parity;
  }

  /** What any add of a genuine fragment amounts to: no error; a delivered payload is the submitted
      one; a delivery uses up at least `count` held fragments; nothing else adds to what is held. */
  ghost predicate SoundStep(t: Table, v: Verdict, t': Table, msgs: Messages, frame: Frame)
    requires KeyOf(frame) in msgs
  {
    var key := KeyOf(frame);
    && GenuineTable(t', msgs)
    && !v.Fault?
    && (forall k :: k != key ==> HeldCount(t', k) <= HeldCount(t, k))
    && HeldCount(t', key) <= HeldCount(t, key) + 1
    && (v.Complete? ==> v.payload == msgs[key].payload
                        && HeldCount(t', key) == 0
                        && frame.count <= HeldCount(t, key) + 1)
    && (forall k :: k in t'.completed.items ==> k in t.completed.items || (k == key && v.Complete?))
  }

  /** The tables before the step may already have lost entries. */
  ghost predicate Shrunk(t: Table, p: Table) {
    && (forall k :: HeldCount(p, k) <= HeldCount(t, k))
    && (forall k :: k in p.completed.items ==> k in t.completed.items)
  }

  lemma ShrunkFirst(t: Table, p: Table, v: Verdict, t': Table, msgs: Messages, frame: Frame)
    requires KeyOf(frame) in msgs && Shrunk(t, p) && SoundStep(p, v, t', msgs, frame)
    ensures SoundStep(t, v, t', msgs, frame)
  {
    hide HeldCount, GenuineTable;
  }

  lemma CarriesMeta(a: Assembly, m: Message, have: set<nat>, frame: Frame)
    requires m.Valid() && Holds(a, m, have) && Carries(frame, m)
    ensures a.messageLen == frame.messageLen && a.count == frame.count
  {
  }

  lemma PurgeGenuine(t: Table, msgs: Messages, now: real)
    requires TableInv(t) && GenuineTable(t, msgs)
    ensures GenuineTable(Purge(t, now), msgs) && Shrunk(t, Purge(t, now))
  {
    hide Holds, NoDup, DropStale;
    var p := Purge(t, now);
    forall k
      ensures k in p.open.items ==> GenuineEntry(p, msgs, k) && k in t.open.items && p.open.items[k] == t.open.items[k]
      ensures k in p.completed.items ==> k in t.completed.items
    {
      PurgeOnlyExpired(t, now, k);
      if k in p.open.items {
        assert GenuineEntry(t, msgs, k);
      }
    }
  }

  lemma MakeRoomGenuine(t: Table, msgs: Messages)
    requires TableInv(t) && GenuineTable(t, msgs)
    ensures GenuineTable(MakeRoom(t), msgs) && Shrunk(t, MakeRoom(t))
  {
    hide Holds, Held, NoDup, MakeRoom;
    MakeRoomOldest(t);
    var r := MakeRoom(t);
    forall k | k in r.open.items
      ensures GenuineEntry(r, msgs, k)
    {
      assert GenuineEntry(t, msgs, k);
    }
  }

  lemma CompleteSound(t: Table, msgs: Messages, frame: Frame, recovered: bool, completed: Dict<Key, real>)
    requires KeyOf(frame) in msgs && GenuineTable(t, msgs) && frame.count <= HeldCount(t, KeyOf(frame)) + 1
    requires forall k :: k in completed.items ==> k in t.completed.items || k == KeyOf(frame)
    ensures SoundStep(t, Complete(msgs[KeyOf(frame)].payload, recovered),
                      t.(open := t.open.Drop(KeyOf(frame)), completed := completed), msgs, frame)
  {
    hide Holds, WithoutAll, Held;
    var key := KeyOf(frame);
    var t' := t.(open := t.open.Drop(key), completed := completed);
    assert t'.open.items == t.open.items - {key};
    forall k | k in t'.open.items
      ensures GenuineEntry(t', msgs, k)
    {
      assert GenuineEntry(t, msgs, k);
    }
  }

  lemma PutGenuine(t: Table, msgs: Messages, key: Key, a: Assembly, have: set<nat>)
    requires GenuineTable(t, msgs) && key in msgs && msgs[key].Valid() && Holds(a, msgs[key], have)
    ensures GenuineTable(t.(open := t.open.Put(key, a)), msgs)
    ensures forall k :: HeldCount(t.(open := t.open.Put(key, a)), k) == if k == key then |have| else HeldCount(t, k)
  {
    HeldIs(a, msgs[key], have);
    hide Holds, Held;
    var t' := t.(open := t.open.Put(key, a));
    assert t'.open.items == t.open.items[key := a];
    forall k | k in t'.open.items
      ensures GenuineEntry(t', msgs, k)
    {
      if k != key {
        assert GenuineEntry(t, msgs, k);
      }
    }
  }

  lemma PartialSound(t: Table, msgs: Messages, frame: Frame, a: Assembly, have: set<nat>)
    requires KeyOf(frame) in msgs && GenuineTable(t, msgs)
    requires msgs[KeyOf(frame)].Valid() && Holds(a, msgs[KeyOf(frame)], have)
    requires |have| <= HeldCount(t, KeyOf(frame)) + 1
    ensures SoundStep(t, Partial, t.(open := t.open.Put(KeyOf(frame), a)), msgs, frame)
  {
    PutGenuine(t, msgs, KeyOf(frame), a, have);
    hide Holds, HeldCount, GenuineTable;
  }

  lemma ContributeSound(t: Table, msgs: Messages, a: Assembly, have: set<nat>, frame: Frame, now: real)
    requires t.completed.Valid() && GenuineTable(t, msgs) && Genuine(frame, msgs)
    requires Holds(a, msgs[KeyOf(frame)], have)
    requires |have| == HeldCount(t, KeyOf(frame))
    ensures var (v, t') := Contribute(t, KeyOf(frame), a, frame, now); SoundStep(t, v, t', msgs, frame)
  {
    hide Holds, Carries, Enough, AllData, Contribute, Trim, SoundStep, GenuineTable, HeldCount;
    var key := KeyOf(frame);
    var m := msgs[key];
    ContributeGenuine(t, key, a, m, have, frame, now);
    CarriesMeta(a, m, have, frame);
    var have' := have + {frame.index as nat};
    assert |have'| <= |have| + 1;
    var (v, t') := Contribute(t, key, a, frame, now);
    if Enough(a.count, have') {
      TrimBound(t.completed.Put(key, now), 2 * t.maxMessages);
      CompleteSound(t, msgs, frame, v.recovered, t'.completed);
    } else {
      var a' :| Holds(a', m, have') && v == Partial && t' == t.(open := t.open.Put(key, a'));
      PartialSound(t, msgs, frame, a', have');
    }
  }

  /** Whatever was purged or evicted before. */
  lemma GenuineAdd(t: Table, msgs: Messages, frame: Frame, now: real)
    requires TableInv(t) && GenuineTable(t, msgs) && Genuine(frame, msgs)
    ensures var (v, t') := Add(t, frame, now); SoundStep(t, v, t', msgs, frame)
  {
    hide Holds, Carries, Contribute, SoundStep, Purge, MakeRoom, NewAssembly, Shrunk;
    var key := KeyOf(frame);
    var m := msgs[key];
    PurgeInv(t, now);
    PurgeGenuine(t, msgs, now);
    var p := Purge(t, now);
    var (v, t') := Add(t, frame, now);
    if key in p.completed.items {
      DuplicateSound(p, msgs, frame);
    } else if key in p.open.items {
      var a := p.open.items[key];
      assert GenuineEntry(p, msgs, key);
      CarriesMeta(a, m, Held(a), frame);
      TouchHolds(a, m, Held(a), now);
      ContributeSound(p, msgs, a.(updatedAt := now), Held(a), frame, now);
    } else {
      MakeRoomOldest(p);
      MakeRoomGenuine(p, msgs);
      NewHolds(frame, m, now);
      var r := MakeRoom(p);
      ContributeSound(r, msgs, NewAssembly(frame, now), {}, frame, now);
      ShrunkFirst(p, r, v, t', msgs, frame);
    }
    ShrunkFirst(t, p, v, t', msgs, frame);
  }

  lemma DuplicateSound(t: Table, msgs: Messages, frame: Frame)
    requires KeyOf(frame) in msgs && GenuineTable(t, msgs) && KeyOf(frame) in t.completed.items
    ensures SoundStep(t, Duplicate, t.(completed := t.completed.MoveToEnd(KeyOf(frame))), msgs, frame)
  {
    hide Holds;
    var t' := t.(completed := t.completed.MoveToEnd(KeyOf(frame)));
    forall k | k in t'.open.items
      ensures GenuineEntry(t', msgs, k)
    {
      assert GenuineEntry(t, msgs, k);
    }
  }
}
