/** Each message is answered exactly as its own arrivals demand, for every order of arrivals with repeats
    and anything else in between, as long as its own entry in the tables is spared. */
module Exactness {
  import opened Common
  import opened Dicts
  import opened Frames
  import opened Fragmentation
  import opened Recovery
  import opened Reassembly
  import opened Delivery

  datatype Arrival = Arrival(frame: Frame, now: real)

  ghost predicate AllWellFormed(arrivals: seq<Arrival>) {
    forall i :: 0 <= i < |arrivals| ==> arrivals[i].frame.WellFormed()
  }

  function Final(arrivals: seq<Arrival>): Arrival
    requires arrivals != []
  {
    arrivals[|arrivals| - 1]
  }

  /** The tables after a list of arrivals. */
  function Tables(t0: Table, arrivals: seq<Arrival>): (t: Table)
    requires TableInv(t0) && AllWellFormed(arrivals)
    ensures TableInv(t)
  {
    if arrivals == [] then t0
    else
      var p := Tables(t0, arrivals[..|arrivals| - 1]);
      AddInv(p, Final(arrivals).frame, Final(arrivals).now);
      Add(p, Final(arrivals).frame, Final(arrivals).now).1
  }

  /** The answer to the last arrival. */
  function Answer(t0: Table, arrivals: seq<Arrival>): Verdict
    requires TableInv(t0) && AllWellFormed(arrivals) && arrivals != []
  {
    Add(Tables(t0, arrivals[..|arrivals| - 1]), Final(arrivals).frame, Final(arrivals).now).0
  }

  /** The fragment indices of one message that have arrived, counted from the arrivals alone. */
  function Have(arrivals: seq<Arrival>, key: Key): set<nat>
    requires AllWellFormed(arrivals)
  {
    if arrivals == [] then {}
    else
      Have(arrivals[..|arrivals| - 1], key)
      + if KeyOf(Final(arrivals).frame) == key then {Final(arrivals).frame.index as nat} else {}
  }

  /** What a receiver with unlimited memory and patience would answer once `have` has become `more`. */
  ghost function Demanded(m: Message, have: set<nat>, more: set<nat>): Verdict
    requires m.Valid()
  {
    var n := |m.Pieces()|;
    if Enough(n, have) then Duplicate
    else if Enough(n, more) then Complete(m.payload, !AllData(n, more))
    else Partial
  }

  ghost function Expected(m: Message, key: Key, arrivals: seq<Arrival>): Verdict
    requires m.Valid() && AllWellFormed(arrivals) && arrivals != []
  {
    Demanded(m, Have(arrivals[..|arrivals| - 1], key), Have(arrivals, key))
  }

  /** Every arrival under this key carries a fragment of this message. The other arrivals may carry
      anything. */
  ghost predicate Carried(arrivals: seq<Arrival>, key: Key, m: Message)
    requires m.Valid()
  {
    forall i :: 0 <= i < |arrivals| && KeyOf(arrivals[i].frame) == key ==> Carries(arrivals[i].frame, m)
  }

  // ------------------------------------------------------------------------- one arrival, one key

  /** The arrival does not cost the key its entry: a frame of the key still finds it after the purge, and
      any other frame leaves it in place. What happens to other entries does not matter. */
  ghost predicate Spared(t: Table, a: Arrival, k: Key)
    requires TableInv(t) && a.frame.WellFormed()
  {
    var after := if KeyOf(a.frame) == k then Purge(t, a.now) else Add(t, a.frame, a.now).1;
    && (k in t.open.items ==> k in after.open.items)
    && (k in t.completed.items ==> k in after.completed.items)
  }

  ghost predicate SparedRun(t0: Table, arrivals: seq<Arrival>, k: Key)
    requires TableInv(t0) && AllWellFormed(arrivals)
  {
    arrivals == [] ||
    (SparedRun(t0, arrivals[..|arrivals| - 1], k) && Spared(Tables(t0, arrivals[..|arrivals| - 1]), Final(arrivals), k))
  }

  /** The tables say of this key exactly what has arrived for it. */
  ghost predicate TracksKey(t: Table, m: Message, have: set<nat>, key: Key)
    requires m.Valid()
  {
    if Enough(|m.Pieces()|, have) then key in t.completed.items && key !in t.open.items
    else
      && key !in t.completed.items
      && (if have == {} then key !in t.open.items else key in t.open.items && Holds(t.open.items[key], m, have))
  }

  /** The entry of key k is in t' what it is in t. */
  ghost predicate SameEntry(t: Table, t': Table, k: Key) {
    && (k in t'.open.items <==> k in t.open.items)
    && (k in t'.open.items ==> t'.open.items[k] == t.open.items[k])
    && (k in t'.completed.items <==> k in t.completed.items)
    && (k in t'.completed.items ==> t'.completed.items[k] == t.completed.items[k])
  }

  /** The entry of key k is in t' what it is in t, or gone. */
  ghost predicate SameOrGone(t: Table, t': Table, k: Key) {
    && (k in t'.open.items ==> k in t.open.items && t'.open.items[k] == t.open.items[k])
    && (k in t'.completed.items ==> k in t.completed.items && t'.completed.items[k] == t.completed.items[k])
  }

  lemma SameTracks(t: Table, t': Table, m: Message, have: set<nat>, k: Key)
    requires m.Valid() && TracksKey(t, m, have, k) && SameEntry(t, t', k)
    ensures TracksKey(t', m, have, k)
  {
    hide Holds, Enough, Chop;
  }

  lemma {:induction false} TrimOnlyDrops(d: Dict<Key, real>, limit: nat)
    requires d.Valid()
    ensures forall k :: k in Trim(d, limit).items ==> k in d.items && Trim(d, limit).items[k] == d.items[k]
    decreases |d.order|
  {
    Size(d);
    if |d.items| > limit {
      PopFrontValid(d);
      hide NoDup;
      TrimOnlyDrops(d.PopFront(), limit);
    }
  }

  lemma AssembleKeepsTime(a: Assembly)
    ensures Assemble(a).1.updatedAt == a.updatedAt
  {
    hide Slots, FirstMissing, Recovered, Join, Oversized, ExpectedLength;
  }

  lemma InsertKeepsTime(a: Assembly, frame: Frame)
    requires frame.WellFormed()
    ensures Insert(a, frame).Ok? ==> Insert(a, frame).value.updatedAt == a.updatedAt
  {
  }

  /** A contribution either keeps the assembly under its key or completes it. */
  lemma ContributeForm(t: Table, key: Key, a: Assembly, frame: Frame, now: real)
    requires t.completed.Valid() && frame.WellFormed()
    ensures t.completed.Put(key, now).Valid()
    ensures var t' := Contribute(t, key, a, frame, now).1;
            || (exists b: Assembly :: b.updatedAt == a.updatedAt && t' == t.(open := t.open.Put(key, b)))
            || t' == t.(open := t.open.Drop(key), completed := Trim(t.completed.Put(key, now), 2 * t.maxMessages))
  {
    PutValid(t.completed, key, now);
    InsertKeepsTime(a, frame);
    hide Assemble, Trim, NoDup, WithoutAll, Insert, Frame.WellFormed, Dict.Put, Dict.Drop;
    var inserted := Insert(a, frame);
    if inserted.Ok? {
      AssembleKeepsTime(inserted.value);
      var b := Assemble(inserted.value).1;
      assert b.updatedAt == a.updatedAt;
    }
  }

  lemma PutOther(t: Table, key: Key, a: Assembly, k: Key)
    requires k != key
    ensures SameOrGone(t, t.(open := t.open.Put(key, a)), k)
  {
  }

  lemma DoneOther(t: Table, key: Key, now: real, k: Key)
    requires t.completed.Put(key, now).Valid() && k != key
    ensures SameOrGone(t, t.(open := t.open.Drop(key), completed := Trim(t.completed.Put(key, now), 2 * t.maxMessages)), k)
  {
    TrimOnlyDrops(t.completed.Put(key, now), 2 * t.maxMessages);
    hide Trim, NoDup, WithoutAll;
  }

  lemma ContributeOther(t: Table, key: Key, a: Assembly, frame: Frame, now: real, k: Key)
    requires t.completed.Valid() && frame.WellFormed() && k != key
    ensures SameOrGone(t, Contribute(t, key, a, frame, now).1, k)
  {
    hide *;
    ContributeForm(t, key, a, frame, now);
    DoneOther(t, key, now, k);
    var t' := Contribute(t, key, a, frame, now).1;
    if b: Assembly :| b.updatedAt == a.updatedAt && t' == t.(open := t.open.Put(key, b)) {
      PutOther(t, key, b, k);
    }
  }

  /** A frame never touches the entry of another key except to remove it. */
  lemma AddOther(t: Table, frame: Frame, now: real, k: Key)
    requires TableInv(t) && frame.WellFormed() && k != KeyOf(frame)
    ensures SameOrGone(t, Add(t, frame, now).1, k)
  {
    PurgeInv(t, now);
    PurgeOnlyExpired(t, now, k);
    var p, key := Purge(t, now), KeyOf(frame);
    hide Contribute, Purge, WithoutAll, NoDup;
    if key in p.completed.items {
    } else if key in p.open.items {
      ContributeOther(p, key, p.open.items[key].(updatedAt := now), frame, now, k);
    } else {
      MakeRoomOldest(p);
      hide MakeRoom;
      ContributeOther(MakeRoom(p), key, NewAssembly(frame, now), frame, now, k);
    }
  }

  /** A fresh assembly, or the touched one already there. */
  function Base(p: Table, a: Arrival): Assembly
    requires a.frame.WellFormed()
  {
    var key := KeyOf(a.frame);
    if key in p.open.items then p.open.items[key].(updatedAt := a.now) else NewAssembly(a.frame, a.now)
  }

  /** The tables to which the fragment is contributed. */
  function Room(p: Table, key: Key): Table
    requires TableInv(p)
  {
    if key in p.open.items then p else MakeRoom(p)
  }

  /** What a frame of an incomplete message finds after the purge. */
  lemma BaseHolds(t: Table, m: Message, have: set<nat>, a: Arrival)
    requires TableInv(t) && a.frame.WellFormed() && m.Valid() && Carries(a.frame, m)
    requires TableInv(Purge(t, a.now)) && TracksKey(Purge(t, a.now), m, have, KeyOf(a.frame))
    requires !Enough(|m.Pieces()|, have)
    ensures var p, key := Purge(t, a.now), KeyOf(a.frame);
            && Holds(Base(p, a), m, have)
            && Base(p, a).updatedAt == a.now
            && Add(t, a.frame, a.now) == Contribute(Room(p, key), key, Base(p, a), a.frame, a.now)
            && TableInv(Room(p, key)) && key !in Room(p, key).completed.items
  {
    hide Contribute, Enough, Chop, Parity, Purge, NoDup;
    var p, key := Purge(t, a.now), KeyOf(a.frame);
    if key in p.open.items {
      CarriesMeta(p.open.items[key], m, have, a.frame);
      TouchHolds(p.open.items[key], m, have, a.now);
    } else {
      MakeRoomOldest(p);
      NewHolds(a.frame, m, a.now);
    }
  }

  lemma Finished(r: Table, m: Message, have: set<nat>, key: Key, now: real)
    requires TableInv(r) && m.Valid() && Enough(|m.Pieces()|, have) && key !in r.completed.items
    requires r.completed.Put(key, now).Valid()
    ensures var t' := r.(open := r.open.Drop(key), completed := Trim(r.completed.Put(key, now), 2 * r.maxMessages));
            TracksKey(t', m, have, key) && t'.completed.items[key] == now
  {
    var d := r.completed.Put(key, now);
    assert d.order[|d.order| - 1] == key;
    hide Enough, Chop, NoDup, Trim;
    TrimNewest(d, 2 * r.maxMessages, key);
  }

  lemma Stored(r: Table, m: Message, have: set<nat>, key: Key, a: Assembly)
    requires m.Valid() && !Enough(|m.Pieces()|, have) && key !in r.completed.items && have != {} && Holds(a, m, have)
    ensures TracksKey(r.(open := r.open.Put(key, a)), m, have, key)
  {
    hide Holds, Enough, Chop;
  }

  lemma CompletedValid(t: Table)
    requires TableInv(t)
    ensures t.completed.Valid()
  {
  }

  /** When an incomplete message's own frame arrives. */
  lemma FreshKey(t: Table, m: Message, have: set<nat>, a: Arrival)
    requires TableInv(t) && a.frame.WellFormed() && m.Valid() && Carries(a.frame, m)
    requires TableInv(Purge(t, a.now)) && TracksKey(Purge(t, a.now), m, have, KeyOf(a.frame))
    requires !Enough(|m.Pieces()|, have)
    ensures var key, more := KeyOf(a.frame), have + {a.frame.index as nat};
            var (v, t') := Add(t, a.frame, a.now);
            && TracksKey(t', m, more, key) && v == Demanded(m, have, more)
            && (Enough(|m.Pieces()|, more) ==> key in t'.completed.items && t'.completed.items[key] == a.now)
            && (!Enough(|m.Pieces()|, more) ==> key in t'.open.items && t'.open.items[key].updatedAt == a.now)
  {
    BaseHolds(t, m, have, a);
    hide Holds, Carries, Contribute, Chop, Purge, Enough, AllData, TracksKey, Base, Room, NoDup, TableInv;
    var key, more := KeyOf(a.frame), have + {a.frame.index as nat};
    var p := Purge(t, a.now);
    var r, base := Room(p, key), Base(p, a);
    CompletedValid(r);
    ContributeGenuine(r, key, base, m, have, a.frame, a.now);
    SameCount(base, base, m, have, have);
    if Enough(|m.Pieces()|, more) {
      Finished(r, m, more, key, a.now);
    } else {
      var a' :| Holds(a', m, more) && a'.updatedAt == base.updatedAt
                && Add(t, a.frame, a.now) == (Partial, r.(open := r.open.Put(key, a')));
      Stored(r, m, more, key, a');
    }
  }

  lemma DuplicateKey(t: Table, m: Message, have: set<nat>, more: set<nat>, a: Arrival)
    requires TableInv(t) && a.frame.WellFormed() && m.Valid() && TableInv(Purge(t, a.now))
    requires Enough(|m.Pieces()|, have) && Enough(|m.Pieces()|, more) && TracksKey(Purge(t, a.now), m, have, KeyOf(a.frame))
    ensures var (v, t') := Add(t, a.frame, a.now);
            && v == Duplicate && TracksKey(t', m, more, KeyOf(a.frame))
            && SameEntry(Purge(t, a.now), t', KeyOf(a.frame))
  {
    hide Contribute, Purge, Enough, Holds, Chop, NoDup, WithoutAll;
  }

  lemma EnoughGrows(n: nat, have: set<nat>, more: set<nat>)
    requires Enough(n, have) && have <= more
    ensures Enough(n, more)
  {
    if !AllData(n, have) {
      var k: nat :| AllDataBut(n, have, k);
      assert k in more || AllDataBut(n, more, k);
    }
  }

  lemma PurgedEntry(t: Table, a: Arrival)
    requires TableInv(t) && a.frame.WellFormed() && Spared(t, a, KeyOf(a.frame))
    ensures TableInv(Purge(t, a.now)) && SameEntry(t, Purge(t, a.now), KeyOf(a.frame))
  {
    PurgeInv(t, a.now);
    PurgeOnlyExpired(t, a.now, KeyOf(a.frame));
    hide Purge, Add, TableInv;
  }

  /** A frame of the key, whatever the purge does to other entries and whichever is evicted. */
  lemma SparedKey(t: Table, m: Message, have: set<nat>, a: Arrival)
    requires TableInv(t) && a.frame.WellFormed() && Spared(t, a, KeyOf(a.frame))
    requires m.Valid() && Carries(a.frame, m) && TracksKey(t, m, have, KeyOf(a.frame))
    ensures var more := have + {a.frame.index as nat};
            var (v, t') := Add(t, a.frame, a.now);
            TracksKey(t', m, more, KeyOf(a.frame)) && v == Demanded(m, have, more)
  {
    hide Spared, Carries, Chop, Purge, Enough, TracksKey, TableInv, Add, SameEntry;
    var key, n, more := KeyOf(a.frame), |m.Pieces()|, have + {a.frame.index as nat};
    CompletedValid(t);
    PurgedEntry(t, a);
    SameTracks(t, Purge(t, a.now), m, have, key);
    if Enough(n, have) {
      EnoughGrows(n, have, more);
      DuplicateKey(t, m, have, more, a);
    } else {
      FreshKey(t, m, have, a);
    }
  }

  /** A frame of another key. */
  lemma SparedOther(t: Table, m: Message, have: set<nat>, a: Arrival, k: Key)
    requires TableInv(t) && a.frame.WellFormed() && k != KeyOf(a.frame) && Spared(t, a, k)
    requires m.Valid() && TracksKey(t, m, have, k)
    ensures TracksKey(Add(t, a.frame, a.now).1, m, have, k)
  {
    AddOther(t, a.frame, a.now, k);
    SameTracks(t, Add(t, a.frame, a.now).1, m, have, k) by {
      hide Add, TableInv, Purge;
    }
  }

  // ------------------------------------------------------------------------------------ whole runs

  lemma NothingTracked(timeout: real, maxMessages: nat, ttl: real, m: Message, k: Key)
    requires m.Valid()
    ensures TracksKey(EmptyTable(timeout, maxMessages, ttl), m, {}, k)
  {
    ChopNonEmpty(m.payload, m.fragmentSize);
    var none: set<nat> := {};
    assert 0 !in none;
  }

  lemma EmptyInv(timeout: real, maxMessages: nat, ttl: real)
    requires maxMessages >= 1
    ensures TableInv(EmptyTable(timeout, maxMessages, ttl))
  {
  }

  lemma {:induction false} RunTracks(timeout: real, maxMessages: nat, ttl: real, m: Message, key: Key, arrivals: seq<Arrival>)
    requires maxMessages >= 1 && m.Valid() && AllWellFormed(arrivals) && Carried(arrivals, key, m)
    requires SparedRun(EmptyTable(timeout, maxMessages, ttl), arrivals, key)
    ensures TracksKey(Tables(EmptyTable(timeout, maxMessages, ttl), arrivals), m, Have(arrivals, key), key)
  {
    hide TracksKey, Add, Spared, TableInv, Carries;
    EmptyInv(timeout, maxMessages, ttl);
    if arrivals == [] {
      NothingTracked(timeout, maxMessages, ttl, m, key);
    } else {
      var p, a := arrivals[..|arrivals| - 1], Final(arrivals);
      RunTracks(timeout, maxMessages, ttl, m, key, p);
      var t := Tables(EmptyTable(timeout, maxMessages, ttl), p);
      if KeyOf(a.frame) == key {
        SparedKey(t, m, Have(p, key), a);
      } else {
        SparedOther(t, m, Have(p, key), a, key);
      }
    }
  }

  /** Reassembly inverts fragmentation: in every run of well-formed arrivals that spares the message's own
      entry, its frame just arrived is answered exactly as its own arrivals so far demand. */
  lemma DeliveredExactlyWhenRecoverable(timeout: real, maxMessages: nat, ttl: real, m: Message, key: Key, arrivals: seq<Arrival>)
    requires maxMessages >= 1 && m.Valid() && AllWellFormed(arrivals) && Carried(arrivals, key, m)
    requires arrivals != [] && KeyOf(Final(arrivals).frame) == key
    requires SparedRun(EmptyTable(timeout, maxMessages, ttl), arrivals, key)
    ensures Answer(EmptyTable(timeout, maxMessages, ttl), arrivals) == Expected(m, key, arrivals)
  {
    hide TracksKey, Add, Spared, TableInv, Carries, Demanded;
    EmptyInv(timeout, maxMessages, ttl);
    var p := arrivals[..|arrivals| - 1];
    RunTracks(timeout, maxMessages, ttl, m, key, p);
    SparedKey(Tables(EmptyTable(timeout, maxMessages, ttl), p), m, Have(p, key), Final(arrivals));
  }

  // ------------------------------------------------------- runs in which no entry at all is removed

  /** This add neither times anything out nor evicts anything. */
  ghost predicate Quiet(t: Table, a: Arrival)
    requires TableInv(t)
  {
    var key := KeyOf(a.frame);
    && Purge(t, a.now) == t
    && (key in t.open.items || key in t.completed.items || |t.open.items| < t.maxMessages)
    && |t.completed.items| < 2 * t.maxMessages
  }

  ghost predicate QuietRun(t0: Table, arrivals: seq<Arrival>)
    requires TableInv(t0) && AllWellFormed(arrivals)
  {
    arrivals == [] ||
    (QuietRun(t0, arrivals[..|arrivals| - 1]) && Quiet(Tables(t0, arrivals[..|arrivals| - 1]), Final(arrivals)))
  }

  lemma QuietContribute(t: Table, key: Key, a: Assembly, frame: Frame, now: real, k: Key)
    requires TableInv(t) && frame.WellFormed() && k != key && |t.completed.items| < 2 * t.maxMessages
    ensures var t' := Contribute(t, key, a, frame, now).1;
            && (k in t.open.items ==> k in t'.open.items) && (k in t.completed.items ==> k in t'.completed.items)
  {
    ContributeForm(t, key, a, frame, now);
    PutSize(t.completed.items, key, now);
    TrimBound(t.completed.Put(key, now), 2 * t.maxMessages);
    hide Contribute, Trim, NoDup, WithoutAll;
  }

  /** An add that removes nothing spares every key. */
  lemma QuietSpares(t: Table, a: Arrival, k: Key)
    requires TableInv(t) && a.frame.WellFormed() && Quiet(t, a)
    ensures Spared(t, a, k)
  {
    var key := KeyOf(a.frame);
    hide Contribute, Purge, NoDup, WithoutAll;
    if k != key && key !in t.completed.items {
      QuietContribute(t, key, Base(t, a), a.frame, a.now, k);
    }
  }

  lemma {:induction false} QuietRunSpares(t0: Table, arrivals: seq<Arrival>, k: Key)
    requires TableInv(t0) && AllWellFormed(arrivals) && QuietRun(t0, arrivals)
    ensures SparedRun(t0, arrivals, k)
  {
    hide Quiet, Spared, TableInv;
    if arrivals != [] {
      QuietRunSpares(t0, arrivals[..|arrivals| - 1], k);
      QuietSpares(Tables(t0, arrivals[..|arrivals| - 1]), Final(arrivals), k);
    }
  }

  /** So in a run that removes nothing every message comes out exactly when it can. */
  lemma DeliveredInQuietRun(timeout: real, maxMessages: nat, ttl: real, m: Message, key: Key, arrivals: seq<Arrival>)
    requires maxMessages >= 1 && m.Valid() && AllWellFormed(arrivals) && Carried(arrivals, key, m)
    requires arrivals != [] && KeyOf(Final(arrivals).frame) == key
    requires QuietRun(EmptyTable(timeout, maxMessages, ttl), arrivals)
    ensures Answer(EmptyTable(timeout, maxMessages, ttl), arrivals) == Expected(m, key, arrivals)
  {
    hide *;
    EmptyInv(timeout, maxMessages, ttl);
    QuietRunSpares(EmptyTable(timeout, maxMessages, ttl), arrivals, key);
    DeliveredExactlyWhenRecoverable(timeout, maxMessages, ttl, m, key, arrivals);
  }
}
