/** A condition on the arrivals alone that spares one key's entry, whatever becomes of the others. */
module Attention {
  import opened Common
  import opened Dicts
  import opened Frames
  import opened Fragmentation
  import opened Recovery
  import opened Reassembly
  import opened Delivery
  import opened Exactness

  /** The keys that follow k. */
  function Behind(s: seq<Key>, k: Key): set<Key> {
    if s == [] || s[|s| - 1] == k then {} else Behind(s[..|s| - 1], k) + {s[|s| - 1]}
  }

  lemma BehindSnoc(s: seq<Key>, x: Key, k: Key)
    ensures Behind(s + [x], k) == if x == k then {} else Behind(s, k) + {x}
  {
    assert (s + [x])[..|s|] == s;
  }

  lemma {:induction false} BehindWithout(s: seq<Key>, ks: set<Key>, k: Key)
    requires k !in ks
    ensures Behind(WithoutAll(s, ks), k) <= Behind(s, k)
  {
    if s != [] {
      var n := |s| - 1;
      BehindWithout(s[..n], ks, k);
      if s[n] !in ks {
        BehindSnoc(WithoutAll(s[..n], ks), s[n], k);
      } else {
        assert WithoutAll(s, ks) == WithoutAll(s[..n], ks);
      }
    }
  }

  lemma {:induction false} BehindFront(s: seq<Key>, k: Key)
    requires s != [] && s[0] != k
    ensures Behind(s[1..], k) <= Behind(s, k)
  {
    var n := |s| - 1;
    if n > 0 && s[n] != k {
      assert s[1..][..n - 1] == s[..n][1..];
      BehindFront(s[..n], k);
    }
  }

  lemma {:induction false} BehindAll(s: seq<Key>, k: Key)
    requires NoDup(s) && k in s
    ensures |Behind(s, k)| < |s|
    ensures s[0] == k ==> |Behind(s, k)| == |s| - 1
    ensures forall x :: x in Behind(s, k) ==> x in s
  {
    var n := |s| - 1;
    if s[n] != k {
      assert s == s[..n] + [s[n]];
      BehindAll(s[..n], k);
      assert s[n] !in Behind(s[..n], k);
    }
  }

  /** Trimming spares a key that has few enough behind it. */
  lemma {:induction false} TrimRecent(d: Dict<Key, real>, limit: nat, k: Key)
    requires d.Valid() && k in d.items && |Behind(d.order, k)| < limit
    ensures k in Trim(d, limit).items
    decreases |d.order|
  {
    Size(d);
    if |d.items| > limit {
      BehindAll(d.order, k);
      PopFrontValid(d);
      BehindFront(d.order, k);
      hide NoDup, Behind;
      SubsetCard(Behind(d.PopFront().order, k), Behind(d.order, k));
      TrimRecent(d.PopFront(), limit, k);
    }
  }

  /** Neither kind of removal from the front puts anything behind a key that stays. */
  lemma {:induction false} TrimBehind(d: Dict<Key, real>, limit: nat, k: Key)
    requires d.Valid() && k in Trim(d, limit).items
    ensures Behind(Trim(d, limit).order, k) <= Behind(d.order, k)
    decreases |d.order|
  {
    Size(d);
    if |d.items| > limit {
      PopFrontValid(d);
      TrimBound(d.PopFront(), limit);
      BehindFront(d.order, k);
      hide NoDup, Behind;
      TrimBehind(d.PopFront(), limit, k);
    }
  }

  lemma {:induction false} StaleBehind(d: Dict<Key, real>, ttl: real, now: real, k: Key)
    requires d.Valid() && k in DropStale(d, ttl, now).items
    ensures Behind(DropStale(d, ttl, now).order, k) <= Behind(d.order, k)
    decreases |d.order|
  {
    if !(d.order == [] || now - d.items[d.order[0]] <= ttl) {
      PopFrontValid(d);
      DropStaleOnlyOld(d.PopFront(), ttl, now);
      BehindFront(d.order, k);
      hide NoDup, Behind;
      StaleBehind(d.PopFront(), ttl, now, k);
    }
  }

  /** The time of the key's last arrival. */
  function LastSeen(arrivals: seq<Arrival>, key: Key): real
    requires AllWellFormed(arrivals)
  {
    if arrivals == [] then 0.0
    else if KeyOf(Final(arrivals).frame) == key then Final(arrivals).now
    else LastSeen(arrivals[..|arrivals| - 1], key)
  }

  /** The time of the arrival that made the message of n pieces recoverable. */
  ghost function DoneAt(arrivals: seq<Arrival>, key: Key, n: nat): real
    requires AllWellFormed(arrivals)
  {
    if arrivals == [] then 0.0
    else if Enough(n, Have(arrivals[..|arrivals| - 1], key)) then DoneAt(arrivals[..|arrivals| - 1], key, n)
    else Final(arrivals).now
  }

  /** The other keys of which something has arrived since. */
  function Rivals(arrivals: seq<Arrival>, key: Key, since: real): set<Key> {
    set i | 0 <= i < |arrivals| && KeyOf(arrivals[i].frame) != key && arrivals[i].now >= since :: KeyOf(arrivals[i].frame)
  }

  /** The clock does not run backwards, and from the key's first arrival on: while incomplete, its last
      arrival is no more than one timeout ago; once complete, its completion is no more than one expiry
      period ago; and fewer other messages have shown up since its last arrival than the table holds. */
  ghost predicate Attended(timeout: real, maxMessages: nat, ttl: real, n: nat, key: Key, arrivals: seq<Arrival>)
    requires AllWellFormed(arrivals)
  {
    arrivals == [] ||
    (var p, a := arrivals[..|arrivals| - 1], Final(arrivals);
     && Attended(timeout, maxMessages, ttl, n, key, p)
     && (Have(p, key) != {} ==>
           && a.now >= LastSeen(p, key)
           && (if Enough(n, Have(p, key)) then a.now - DoneAt(p, key, n) <= ttl else a.now - LastSeen(p, key) <= timeout)
           && |Rivals(arrivals, key, LastSeen(p, key))| < maxMessages))
  }

  /** How old the key's entry is, and that the completed keys behind it are rivals. */
  ghost predicate Placed(t: Table, n: nat, key: Key, arrivals: seq<Arrival>)
    requires AllWellFormed(arrivals)
  {
    && (key in t.open.items ==>
          && Have(arrivals, key) != {} && !Enough(n, Have(arrivals, key))
          && t.open.items[key].updatedAt == LastSeen(arrivals, key))
    && (key in t.completed.items ==>
          && Have(arrivals, key) != {} && Enough(n, Have(arrivals, key))
          && t.completed.items[key] == DoneAt(arrivals, key, n)
          && Behind(t.completed.order, key) <= Rivals(arrivals, key, LastSeen(arrivals, key)))
  }

  ghost predicate Shown(arrivals: seq<Arrival>, j: Key, at: real) {
    exists i :: 0 <= i < |arrivals| && KeyOf(arrivals[i].frame) == j && arrivals[i].now == at
  }

  /** Every open assembly was last touched by one of the arrivals. */
  ghost predicate Dated(t: Table, arrivals: seq<Arrival>) {
    forall j :: j in t.open.items ==> Shown(arrivals, j, t.open.items[j].updatedAt)
  }

  lemma ShownRival(arrivals: seq<Arrival>, key: Key, j: Key, at: real, since: real)
    requires Shown(arrivals, j, at) && j != key && at >= since
    ensures j in Rivals(arrivals, key, since)
  {
    var i :| 0 <= i < |arrivals| && KeyOf(arrivals[i].frame) == j && arrivals[i].now == at;
    assert KeyOf(arrivals[i].frame) in Rivals(arrivals, key, since);
  }

  lemma ShownSnoc(p: seq<Arrival>, arrivals: seq<Arrival>, j: Key, at: real)
    requires arrivals != [] && p == arrivals[..|arrivals| - 1]
    ensures Shown(p, j, at) ==> Shown(arrivals, j, at)
    ensures Shown(arrivals, KeyOf(Final(arrivals).frame), Final(arrivals).now)
  {
    if Shown(p, j, at) {
      var i :| 0 <= i < |p| && KeyOf(p[i].frame) == j && p[i].now == at;
      assert arrivals[i] == p[i];
    }
    assert arrivals[|arrivals| - 1] == Final(arrivals);
  }

  lemma RivalsSnoc(p: seq<Arrival>, arrivals: seq<Arrival>, key: Key, since: real)
    requires arrivals != [] && p == arrivals[..|arrivals| - 1] && KeyOf(Final(arrivals).frame) != key && Final(arrivals).now >= since
    ensures Rivals(p, key, since) + {KeyOf(Final(arrivals).frame)} <= Rivals(arrivals, key, since)
  {
    forall j | j in Rivals(p, key, since)
      ensures j in Rivals(arrivals, key, since)
    {
      var i :| 0 <= i < |p| && KeyOf(p[i].frame) == j && p[i].now >= since;
      assert arrivals[i] == p[i];
    }
    assert arrivals[|arrivals| - 1] == Final(arrivals);
  }

  lemma EvictedCount(open: map<Key, Assembly>, key: Key, j0: Key, rivals: set<Key>)
    requires key in open && j0 !in open && j0 in rivals
    requires forall j :: j in open && j != key ==> j in rivals
    ensures |rivals| >= |open|
  {
    var others := open.Keys - {key};
    assert |others| == |open| - 1;
    assert |others + {j0}| == |open|;
    SubsetCard(others + {j0}, rivals);
  }

  /** Making room does not cost the key its assembly while its rivals are fewer than the table holds. */
  lemma RoomSpares(p: Table, key: Key, j0: Key, arrivals: seq<Arrival>, since: real)
    requires TableInv(p) && key in p.open.items && j0 !in p.open.items && j0 in Rivals(arrivals, key, since)
    requires p.open.items[key].updatedAt == since && Dated(p, arrivals)
    requires |Rivals(arrivals, key, since)| < p.maxMessages
    ensures key in MakeRoom(p).open.items
  {
    MakeRoomOldest(p);
    hide NoDup, Rivals, Shown, WithoutAll, Oldest;
    if key !in MakeRoom(p).open.items {
      forall j | j in p.open.items && j != key
        ensures j in Rivals(arrivals, key, since)
      {
        ShownRival(arrivals, key, j, p.open.items[j].updatedAt, since);
      }
      EvictedCount(p.open.items, key, j0, Rivals(arrivals, key, since));
      assert false;
    }
  }

  /** Completing another message spares a completed key that has few enough behind it. */
  lemma CompletionSpares(d: Dict<Key, real>, j0: Key, now: real, limit: nat, k: Key)
    requires d.Valid() && k != j0 && j0 !in d.items
    requires k in d.items ==> |Behind(d.order, k) + {j0}| < limit
    ensures var d' := Trim(d.Put(j0, now), limit);
            (k in d.items ==> k in d'.items) && (k in d'.items ==> Behind(d'.order, k) <= Behind(d.order, k) + {j0})
  {
    PutValid(d, j0, now);
    BehindSnoc(d.order, j0, k);
    hide NoDup, Behind, Trim;
    if k in d.items {
      TrimRecent(d.Put(j0, now), limit, k);
    }
    if k in Trim(d.Put(j0, now), limit).items {
      TrimBehind(d.Put(j0, now), limit, k);
    }
  }

  lemma ContributeSpares(r: Table, j0: Key, a: Assembly, frame: Frame, now: real, k: Key)
    requires TableInv(r) && frame.WellFormed() && k != j0 && j0 !in r.completed.items
    requires k in r.completed.items ==> |Behind(r.completed.order, k) + {j0}| < 2 * r.maxMessages
    ensures var t' := Contribute(r, j0, a, frame, now).1;
            && (k in r.open.items ==> k in t'.open.items) && (k in r.completed.items ==> k in t'.completed.items)
            && (k in t'.completed.items ==> Behind(t'.completed.order, k) <= Behind(r.completed.order, k) + {j0})
  {
    ContributeForm(r, j0, a, frame, now);
    CompletionSpares(r.completed, j0, now, 2 * r.maxMessages, k);
    hide Contribute, NoDup, WithoutAll, Behind, Trim;
  }

  lemma ContributeDated(r: Table, j0: Key, a: Assembly, frame: Frame, now: real, arrivals: seq<Arrival>)
    requires r.completed.Valid() && frame.WellFormed() && Dated(r, arrivals) && a.updatedAt == now && Shown(arrivals, j0, now)
    ensures Dated(Contribute(r, j0, a, frame, now).1, arrivals)
  {
    ContributeForm(r, j0, a, frame, now);
    hide Contribute, NoDup, WithoutAll, Shown, Trim;
  }

  lemma PurgeDated(t: Table, now: real, arrivals: seq<Arrival>)
    requires TableInv(t) && Dated(t, arrivals)
    ensures TableInv(Purge(t, now)) && Dated(Purge(t, now), arrivals)
  {
    PurgeInv(t, now);
    hide Shown, DropStale, WithoutAll, NoDup;
  }

  lemma RoomDated(p: Table, key: Key, arrivals: seq<Arrival>)
    requires TableInv(p) && Dated(p, arrivals)
    ensures TableInv(Room(p, key)) && Dated(Room(p, key), arrivals)
  {
    MakeRoomOldest(p);
    hide Shown, MakeRoom, TableInv;
  }

  lemma SnocDated(t: Table, p: seq<Arrival>, arrivals: seq<Arrival>)
    requires arrivals != [] && p == arrivals[..|arrivals| - 1] && Dated(t, p)
    ensures Dated(t, arrivals)
  {
    hide Shown;
    forall j | j in t.open.items
      ensures Shown(arrivals, j, t.open.items[j].updatedAt)
    {
      ShownSnoc(p, arrivals, j, t.open.items[j].updatedAt);
    }
  }

  /** How an add is put together. */
  lemma AddParts(t: Table, frame: Frame, now: real)
    requires TableInv(t) && frame.WellFormed()
    ensures TableInv(Purge(t, now))
    ensures var p, key, t' := Purge(t, now), KeyOf(frame), Add(t, frame, now).1;
            && p.maxMessages == t.maxMessages && TableInv(Room(p, key))
            && Room(p, key).maxMessages == t.maxMessages && Room(p, key).completed == p.completed
            && if key in p.completed.items then t' == p.(completed := p.completed.MoveToEnd(key))
               else t' == p || t' == Contribute(Room(p, key), key, Base(p, Arrival(frame, now)), frame, now).1
  {
    PurgeInv(t, now);
    PurgeLimits(t, now);
    MakeRoomOldest(Purge(t, now));
    RoomLimits(Purge(t, now));
    hide Contribute, NoDup, WithoutAll, Purge, MakeRoom;
  }

  lemma PurgeLimits(t: Table, now: real)
    requires TableInv(t)
    ensures Purge(t, now).maxMessages == t.maxMessages
  {
    hide DropStale;
  }

  lemma RoomLimits(p: Table)
    requires TableInv(p)
    ensures MakeRoom(p).maxMessages == p.maxMessages
  {
    hide Oldest, NoDup;
  }

  lemma AddDated(t: Table, p: seq<Arrival>, arrivals: seq<Arrival>)
    requires arrivals != [] && AllWellFormed(arrivals) && p == arrivals[..|arrivals| - 1]
    requires TableInv(t) && Dated(t, p)
    ensures Dated(Add(t, Final(arrivals).frame, Final(arrivals).now).1, arrivals)
  {
    var a := Final(arrivals);
    var key := KeyOf(a.frame);
    SnocDated(t, p, arrivals);
    ShownSnoc(p, arrivals, key, a.now);
    PurgeDated(t, a.now, arrivals);
    RoomDated(Purge(t, a.now), key, arrivals);
    AddParts(t, a.frame, a.now);
    CompletedValid(Room(Purge(t, a.now), key));
    ContributeDated(Room(Purge(t, a.now), key), key, Base(Purge(t, a.now), a), a.frame, a.now, arrivals);
    hide Add, Contribute, Purge, Room, Base, Shown, TableInv, WithoutAll;
  }

  ghost predicate Limits(t: Table, timeout: real, maxMessages: nat, ttl: real) {
    t.timeout == timeout && t.maxMessages == maxMessages && t.ttl == ttl
  }

  lemma AddLimits(t: Table, frame: Frame, now: real)
    requires TableInv(t) && frame.WellFormed()
    ensures Limits(Add(t, frame, now).1, t.timeout, t.maxMessages, t.ttl)
  {
    AddParts(t, frame, now);
    var p, key := Purge(t, now), KeyOf(frame);
    assert Limits(Room(p, key), t.timeout, t.maxMessages, t.ttl) by {
      hide DropStale, Oldest, WithoutAll;
    }
    CompletedValid(Room(p, key));
    ContributeForm(Room(p, key), key, Base(p, Arrival(frame, now)), frame, now);
    hide Add, Contribute, Room, Base, Trim, DropStale, WithoutAll;
  }

  /** The key's own frame finds its entry. */
  lemma AttendedOwn(t: Table, n: nat, key: Key, p: seq<Arrival>, arrivals: seq<Arrival>)
    requires arrivals != [] && AllWellFormed(arrivals) && p == arrivals[..|arrivals| - 1] && KeyOf(Final(arrivals).frame) == key
    requires TableInv(t) && Placed(t, n, key, p) && Attended(t.timeout, t.maxMessages, t.ttl, n, key, arrivals)
    ensures Spared(t, Final(arrivals), key)
  {
    PurgeOnlyExpired(t, Final(arrivals).now, key);
    hide TableInv, Purge, Enough;
  }

  lemma UnionCard(s: set<Key>, x: Key, rivals: set<Key>, limit: nat)
    requires s + {x} <= rivals && |rivals| < limit
    ensures |s + {x}| < 2 * limit
  {
    SubsetCard(s + {x}, rivals);
  }

  /** After the purge that another key's frame begins with, the key's entry is still there. */
  lemma AttendedPurge(t: Table, n: nat, key: Key, p: seq<Arrival>, arrivals: seq<Arrival>)
    requires arrivals != [] && AllWellFormed(arrivals) && p == arrivals[..|arrivals| - 1] && KeyOf(Final(arrivals).frame) != key
    requires TableInv(t) && Placed(t, n, key, p) && Attended(t.timeout, t.maxMessages, t.ttl, n, key, arrivals)
    ensures var t1, rivals := Purge(t, Final(arrivals).now), Rivals(arrivals, key, LastSeen(p, key));
            && (key in t.open.items ==> key in t1.open.items && t1.open.items[key].updatedAt == LastSeen(p, key))
            && (key in t.completed.items ==> key in t1.completed.items)
            && (key in t1.open.items ==> key in t.open.items)
            && (key in t1.open.items || key in t1.completed.items ==>
                  KeyOf(Final(arrivals).frame) in rivals && |rivals| < t.maxMessages)
            && (key in t1.completed.items ==> Behind(t1.completed.order, key) <= rivals)
  {
    var a := Final(arrivals);
    PurgeOnlyExpired(t, a.now, key);
    if key in Purge(t, a.now).completed.items {
      StaleBehind(t.completed, t.ttl, a.now, key);
    }
    if Have(p, key) != {} {
      RivalsSnoc(p, arrivals, key, LastSeen(p, key));
    }
    hide TableInv, Enough, DropStale, Expired, WithoutAll, Behind, Rivals, LastSeen;
  }

  lemma AttendedOther(t: Table, n: nat, key: Key, p: seq<Arrival>, arrivals: seq<Arrival>)
    requires arrivals != [] && AllWellFormed(arrivals) && p == arrivals[..|arrivals| - 1] && KeyOf(Final(arrivals).frame) != key
    requires TableInv(t) && Dated(t, p)
    requires Placed(t, n, key, p) && Attended(t.timeout, t.maxMessages, t.ttl, n, key, arrivals)
    ensures Spared(t, Final(arrivals), key)
    ensures var t' := Add(t, Final(arrivals).frame, Final(arrivals).now).1;
            key in t'.completed.items ==> Behind(t'.completed.order, key) <= Rivals(arrivals, key, LastSeen(p, key))
  {
    var a := Final(arrivals);
    var j0, rivals := KeyOf(a.frame), Rivals(arrivals, key, LastSeen(p, key));
    AttendedPurge(t, n, key, p, arrivals);
    AddParts(t, a.frame, a.now);
    SnocDated(t, p, arrivals);
    PurgeDated(t, a.now, arrivals);
    var t1 := Purge(t, a.now);
    CompletedValid(t1);
    AddOther(t, a.frame, a.now, key);
    RoomKeeps(t1, key, j0, arrivals, LastSeen(p, key));
    var r := Room(t1, j0);
    if j0 in t1.completed.items {
      BehindSnoc(WithoutAll(t1.completed.order, {j0}), j0, key);
      BehindWithout(t1.completed.order, {j0}, key);
    } else {
      if key in t1.completed.items {
        UnionCard(Behind(t1.completed.order, key), j0, rivals, t.maxMessages);
      }
      ContributeSpares(r, j0, Base(t1, a), a.frame, a.now, key);
    }
    hide TableInv, Enough, Purge, WithoutAll, Behind, Rivals, LastSeen, Add, Contribute, Room, Base, Dated, Placed, Attended;
  }

  lemma RoomKeeps(t1: Table, key: Key, j0: Key, arrivals: seq<Arrival>, since: real)
    requires TableInv(t1) && Dated(t1, arrivals)
    requires key in t1.open.items ==>
               && t1.open.items[key].updatedAt == since
               && j0 in Rivals(arrivals, key, since) && |Rivals(arrivals, key, since)| < t1.maxMessages
    ensures key in t1.open.items ==> key in Room(t1, j0).open.items
  {
    if key in t1.open.items && j0 !in t1.open.items {
      RoomSpares(t1, key, j0, arrivals, since);
    }
  }

  /** A key just seen is the last of the completed keys, if it is one. */
  lemma NothingBehind(t: Table, frame: Frame, now: real)
    requires TableInv(t) && frame.WellFormed()
    ensures var t', key := Add(t, frame, now).1, KeyOf(frame);
            key in t'.completed.items ==> Behind(t'.completed.order, key) == {}
  {
    AddParts(t, frame, now);
    var p, key, t' := Purge(t, now), KeyOf(frame), Add(t, frame, now).1;
    var r := Room(p, key);
    BehindSnoc(WithoutAll(p.completed.order, {key}), key, key);
    BehindSnoc(r.completed.order, key, key);
    CompletedValid(r);
    ContributeForm(r, key, Base(p, Arrival(frame, now)), frame, now);
    var d := r.completed.Put(key, now);
    if key in Trim(d, 2 * r.maxMessages).items {
      TrimBehind(d, 2 * r.maxMessages, key);
    }
    hide Add, Contribute, Room, Base, Trim, Purge, WithoutAll, Behind, TableInv;
  }

  lemma OwnArrival(n: nat, key: Key, p: seq<Arrival>, arrivals: seq<Arrival>)
    requires arrivals != [] && AllWellFormed(arrivals) && p == arrivals[..|arrivals| - 1] && KeyOf(Final(arrivals).frame) == key
    ensures Have(arrivals, key) == Have(p, key) + {Final(arrivals).frame.index as nat} && Have(arrivals, key) != {}
    ensures LastSeen(arrivals, key) == Final(arrivals).now
    ensures DoneAt(arrivals, key, n) == if Enough(n, Have(p, key)) then DoneAt(p, key, n) else Final(arrivals).now
  {
    assert Final(arrivals).frame.index as nat in Have(arrivals, key);
    hide Enough;
  }

  lemma PlacedOf(t: Table, m: Message, key: Key, arrivals: seq<Arrival>)
    requires AllWellFormed(arrivals) && m.Valid() && TracksKey(t, m, Have(arrivals, key), key) && Have(arrivals, key) != {}
    requires key in t.open.items ==> t.open.items[key].updatedAt == LastSeen(arrivals, key)
    requires key in t.completed.items ==> t.completed.items[key] == DoneAt(arrivals, key, |m.Pieces()|) && Behind(t.completed.order, key) == {}
    ensures Placed(t, |m.Pieces()|, key, arrivals)
  {
    hide Have, LastSeen, DoneAt, Rivals, Enough, Behind, Holds, Chop;
  }

  lemma PlacedIs(t: Table, n: nat, key: Key, arrivals: seq<Arrival>)
    requires AllWellFormed(arrivals) && Placed(t, n, key, arrivals) && key in t.completed.items
    ensures t.completed.items[key] == DoneAt(arrivals, key, n)
  {
  }

  lemma TracksIs(t: Table, m: Message, have: set<nat>, key: Key)
    requires m.Valid() && TracksKey(t, m, have, key)
    ensures key in t.completed.items <==> Enough(|m.Pieces()|, have)
    ensures key in t.open.items ==> !Enough(|m.Pieces()|, have)
  {
    hide Enough, Holds, Chop;
  }

  lemma PlacedOwn(t: Table, m: Message, key: Key, p: seq<Arrival>, arrivals: seq<Arrival>)
    requires arrivals != [] && AllWellFormed(arrivals) && p == arrivals[..|arrivals| - 1] && KeyOf(Final(arrivals).frame) == key
    requires TableInv(t) && m.Valid() && Carries(Final(arrivals).frame, m) && TracksKey(t, m, Have(p, key), key)
    requires Placed(t, |m.Pieces()|, key, p) && Spared(t, Final(arrivals), key)
    ensures Placed(Add(t, Final(arrivals).frame, Final(arrivals).now).1, |m.Pieces()|, key, arrivals)
  {
    var a, n, have := Final(arrivals), |m.Pieces()|, Have(p, key);
    CompletedValid(t);
    assert SameEntry(t, Purge(t, a.now), key) && TableInv(Purge(t, a.now)) by {
      PurgedEntry(t, a);
    }
    var t1, t' := Purge(t, a.now), Add(t, a.frame, a.now).1;
    assert key in t.completed.items && key in t1.completed.items ==> t1.completed.items[key] == t.completed.items[key];
    hide TableInv, Purge, Add, Carries, Spared, Behind, Have, LastSeen, Rivals, Enough, Holds, TracksKey, Placed, DoneAt;
    NothingBehind(t, a.frame, a.now);
    OwnArrival(n, key, p, arrivals);
    SameTracks(t, t1, m, have, key);
    TracksIs(t, m, have, key);
    if Enough(n, have) {
      EnoughGrows(n, have, Have(arrivals, key));
      DuplicateKey(t, m, have, Have(arrivals, key), a);
      PlacedIs(t, n, key, p);
      TracksIs(t', m, Have(arrivals, key), key);
    } else {
      FreshKey(t, m, have, a);
      TracksIs(t', m, Have(arrivals, key), key);
    }
    PlacedOf(t', m, key, arrivals);
  }

  lemma PlacedOther(t: Table, n: nat, key: Key, p: seq<Arrival>, arrivals: seq<Arrival>)
    requires arrivals != [] && AllWellFormed(arrivals) && p == arrivals[..|arrivals| - 1] && KeyOf(Final(arrivals).frame) != key
    requires TableInv(t) && Placed(t, n, key, p)
    requires var t' := Add(t, Final(arrivals).frame, Final(arrivals).now).1;
             key in t'.completed.items ==> Behind(t'.completed.order, key) <= Rivals(arrivals, key, LastSeen(p, key))
    ensures Placed(Add(t, Final(arrivals).frame, Final(arrivals).now).1, n, key, arrivals)
  {
    AddOther(t, Final(arrivals).frame, Final(arrivals).now, key);
    assert Have(arrivals, key) == Have(p, key) && LastSeen(arrivals, key) == LastSeen(p, key);
    assert Enough(n, Have(p, key)) ==> DoneAt(arrivals, key, n) == DoneAt(p, key, n);
    hide TableInv, Add, Behind, Have, LastSeen, Rivals, Enough, DoneAt;
  }

  /** Attention spares the key. */
  lemma {:induction false} AttendedSpares(timeout: real, maxMessages: nat, ttl: real, m: Message, key: Key, arrivals: seq<Arrival>)
    requires maxMessages >= 1 && m.Valid() && AllWellFormed(arrivals) && Carried(arrivals, key, m)
    requires Attended(timeout, maxMessages, ttl, |m.Pieces()|, key, arrivals)
    ensures TableInv(EmptyTable(timeout, maxMessages, ttl))
    ensures SparedRun(EmptyTable(timeout, maxMessages, ttl), arrivals, key)
    ensures var t := Tables(EmptyTable(timeout, maxMessages, ttl), arrivals);
            Limits(t, timeout, maxMessages, ttl) && Dated(t, arrivals) && Placed(t, |m.Pieces()|, key, arrivals)
  {
    EmptyInv(timeout, maxMessages, ttl);
    if arrivals != [] {
      var p, a := arrivals[..|arrivals| - 1], Final(arrivals);
      var n, t0 := |m.Pieces()|, EmptyTable(timeout, maxMessages, ttl);
      AttendedSpares(timeout, maxMessages, ttl, m, key, p);
      hide TableInv, Add, Spared, Placed, Carries, Dated, TracksKey, Have, LastSeen, DoneAt, Rivals, Enough, EmptyTable;
      RunTracks(timeout, maxMessages, ttl, m, key, p);
      var t := Tables(t0, p);
      AddLimits(t, a.frame, a.now);
      AddDated(t, p, arrivals);
      if KeyOf(a.frame) == key {
        AttendedOwn(t, n, key, p, arrivals);
        PlacedOwn(t, m, key, p, arrivals);
      } else {
        AttendedOther(t, n, key, p, arrivals);
        PlacedOther(t, n, key, p, arrivals);
      }
    }
  }

  /** With a condition on the arrivals alone: a message whose fragments keep coming within the timeout and
      the expiry period, with fewer other messages in between than the table holds, comes out exactly when
      it can, however long the run and whatever becomes of the other messages. */
  lemma DeliveredWhenAttended(timeout: real, maxMessages: nat, ttl: real, m: Message, key: Key, arrivals: seq<Arrival>)
    requires maxMessages >= 1 && m.Valid() && AllWellFormed(arrivals) && Carried(arrivals, key, m)
    requires arrivals != [] && KeyOf(Final(arrivals).frame) == key
    requires Attended(timeout, maxMessages, ttl, |m.Pieces()|, key, arrivals)
    ensures TableInv(EmptyTable(timeout, maxMessages, ttl))
    ensures Answer(EmptyTable(timeout, maxMessages, ttl), arrivals) == Expected(m, key, arrivals)
  {
    hide *;
    AttendedSpares(timeout, maxMessages, ttl, m, key, arrivals);
    DeliveredExactlyWhenRecoverable(timeout, maxMessages, ttl, m, key, arrivals);
  }
}
