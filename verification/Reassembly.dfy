/** The bounded reassembly tables: open assemblies, recently completed keys, timeouts and evictions. */
module Reassembly {
  import opened Common
  import opened Dicts
  import opened Frames
  import opened Fragmentation

  datatype Key = Key(session: int, messageId: int)

  function KeyOf(frame: Frame): Key {
    Key(frame.session, frame.messageId)
  }

  datatype Table = Table(
    timeout: real,
    maxMessages: nat,
    ttl: real,
    open: Dict<Key, Assembly>,
    completed: Dict<Key, real>)

  function EmptyTable(timeout: real, maxMessages: nat, ttl: real): Table {
    Table(timeout, maxMessages, ttl, Dict([], map[]), Dict([], map[]))
  }

  datatype Verdict =
    | Duplicate
    | Partial
    | Complete(payload: Bytes, recovered: bool)
    | Fault(error: AssemblyError)

  // ------------------------------------------------------------------------------------- purging

  function Expired(open: Dict<Key, Assembly>, timeout: real, now: real): set<Key> {
    set k | k in open.items && now - open.items[k].updatedAt > timeout
  }

  /** Drops from the front while the front has outlived its time; an old entry behind a young one stays. */
  function DropStale(d: Dict<Key, real>, ttl: real, now: real): Dict<Key, real>
    requires d.Valid()
    decreases |d.order|
  {
    if d.order == [] || now - d.items[d.order[0]] <= ttl then d
    else
      PopFrontValid(d);
      DropStale(d.PopFront(), ttl, now)
  }

  function Purge(t: Table, now: real): Table
    requires t.completed.Valid()
  {
    t.(open := t.open.DropAll(Expired(t.open, t.timeout, now)), completed := DropStale(t.completed, t.ttl, now))
  }

  // -------------------------------------------------------------------------------------- adding

  /** The first of the least recently updated assemblies among the first n. */
  function Oldest(d: Dict<Key, Assembly>, n: nat): (k: Key)
    requires d.Valid() && 1 <= n <= |d.order|
    ensures k in d.order[..n]
    ensures forall i :: 0 <= i < n ==> d.items[k].updatedAt <= d.items[d.order[i]].updatedAt
  {
    var last := d.order[n - 1];
    if n == 1 then last
    else
      var k := Oldest(d, n - 1);
      assert d.order[..n] == d.order[..n - 1] + [last];
      if d.items[last].updatedAt < d.items[k].updatedAt then last else k
  }

  /** The j-th key is strictly older than all in front of it. */
  ghost predicate FirstOldest(d: Dict<Key, Assembly>, j: nat)
    requires d.Valid() && j < |d.order|
  {
    forall i :: 0 <= i < j ==> d.items[d.order[j]].updatedAt < d.items[d.order[i]].updatedAt
  }

  lemma OldestStep(d: Dict<Key, Assembly>, n: nat)
    requires d.Valid() && 2 <= n <= |d.order|
    ensures var k, last := Oldest(d, n - 1), d.order[n - 1];
            && k in d.items && last in d.items
            && Oldest(d, n) == (if d.items[last].updatedAt < d.items[k].updatedAt then last else k)
            && forall i :: 0 <= i < n - 1 ==> d.items[k].updatedAt <= d.items[d.order[i]].updatedAt
  {
    hide NoDup;
  }

  lemma {:induction false} OldestPlace(d: Dict<Key, Assembly>, n: nat) returns (j: nat)
    requires d.Valid() && 1 <= n <= |d.order|
    ensures j < n && d.order[j] == Oldest(d, n) && FirstOldest(d, j)
  {
    if n == 1 {
      j := 0;
    } else {
      hide Oldest, NoDup;
      OldestStep(d, n);
      var k := OldestPlace(d, n - 1);
      j := if d.items[d.order[n - 1]].updatedAt < d.items[d.order[k]].updatedAt then n - 1 else k;
    }
  }

  function Insert(a: Assembly, frame: Frame): Result<Assembly, AssemblyError>
    requires frame.WellFormed()
  {
    if frame.IsParity() then
      if a.parity.Some? && a.parity.value != frame.payload then Err(ConflictingParity)
      else Ok(a.(parity := Some(frame.payload)))
    else
      if frame.index in a.fragments && a.fragments[frame.index] != frame.payload then Err(ConflictingData)
      else Ok(a.(fragments := a.fragments[frame.index := frame.payload]))
  }

  function Trim(d: Dict<Key, real>, limit: nat): Dict<Key, real>
    requires d.Valid()
    decreases |d.order|
  {
    Size(d);
    if |d.items| <= limit then d
    else
      PopFrontValid(d);
      Trim(d.PopFront(), limit)
  }

  function NewAssembly(frame: Frame, now: real): Assembly
    requires frame.WellFormed()
  {
    Assembly(frame.messageLen, frame.count, now, map[], None)
  }

  /** Room is made by evicting the least recently updated assembly. */
  function MakeRoom(t: Table): Table
    requires t.open.Valid() && t.maxMessages >= 1
  {
    Size(t.open);
    if |t.open.items| >= t.maxMessages then t.(open := t.open.Drop(Oldest(t.open, |t.open.order|))) else t
  }

  /** The fragment goes into assembly `a` under `key`, and completion is tried. */
  function Contribute(t: Table, key: Key, a: Assembly, frame: Frame, now: real): (Verdict, Table)
    requires frame.WellFormed() && t.completed.Valid()
  {
    match Insert(a, frame)
    case Err(e) => (Fault(e), t.(open := t.open.Put(key, a)))
    case Ok(a1) =>
      var (outcome, a2) := Assemble(a1);
      match outcome
      case Waiting => (Partial, t.(open := t.open.Put(key, a2)))
      case Raised(e) => (Fault(e), t.(open := t.open.Put(key, a2)))
      case Done(payload, recovered) =>
        PutValid(t.completed, key, now);
        (Complete(payload, recovered),
         t.(open := t.open.Drop(key), completed := Trim(t.completed.Put(key, now), 2 * t.maxMessages)))
  }

  function Add(t0: Table, frame: Frame, now: real): (Verdict, Table)
    requires TableInv(t0) && frame.WellFormed()
  {
    PurgeInv(t0, now);
    var t, key := Purge(t0, now), KeyOf(frame);
    if key in t.completed.items then (Duplicate, t.(completed := t.completed.MoveToEnd(key)))
    else if key in t.open.items then
      var a := t.open.items[key];
      if a.messageLen != frame.messageLen || a.count != frame.count then (Fault(InconsistentMetadata), t)
      else Contribute(t, key, a.(updatedAt := now), frame, now)
    else Contribute(MakeRoom(t), key, NewAssembly(frame, now), frame, now)
  }

  // ---------------------------------------------------------------------------------- invariants

  ghost predicate TableInv(t: Table) {
    && t.maxMessages >= 1
    && t.open.Valid() && t.completed.Valid()
    && t.open.items.Keys !! t.completed.items.Keys
    && |t.open.items| <= t.maxMessages
    && |t.completed.items| <= 2 * t.maxMessages
  }

  /** The front entry is gone and the others are as they were. */
  lemma FrontGone(d: Dict<Key, real>)
    requires d.Valid() && d.order != []
    ensures d.PopFront().Valid() && d.order[0] in d.items
    ensures |d.PopFront().items| <= |d.items|
    ensures forall k :: k in d.PopFront().items <==> k in d.items && k != d.order[0]
    ensures forall k :: k in d.PopFront().items ==> d.PopFront().items[k] == d.items[k]
  {
    PopFrontValid(d);
    DropSize(d.items, {d.order[0]});
    hide NoDup;
  }

  lemma {:induction false} StaleShape(d: Dict<Key, real>, ttl: real, now: real)
    requires d.Valid()
    ensures DropStale(d, ttl, now).Valid() && |DropStale(d, ttl, now).items| <= |d.items|
    decreases |d.order|
  {
    if !(d.order == [] || now - d.items[d.order[0]] <= ttl) {
      FrontGone(d);
      StaleShape(d.PopFront(), ttl, now);
      hide NoDup, Dict.PopFront;
    }
  }

  lemma {:induction false} StaleKey(d: Dict<Key, real>, ttl: real, now: real, k: Key)
    requires d.Valid()
    ensures k in DropStale(d, ttl, now).items ==> k in d.items && DropStale(d, ttl, now).items[k] == d.items[k]
    ensures k in d.items && now - d.items[k] <= ttl ==> k in DropStale(d, ttl, now).items
    decreases |d.order|
  {
    if !(d.order == [] || now - d.items[d.order[0]] <= ttl) {
      FrontGone(d);
      StaleKey(d.PopFront(), ttl, now, k);
      hide NoDup, Dict.PopFront;
    }
  }

  /** Purging the completed table removes only entries that have outlived their time, and changes none. */
  lemma DropStaleOnlyOld(d: Dict<Key, real>, ttl: real, now: real)
    requires d.Valid()
    ensures DropStale(d, ttl, now).Valid()
    ensures DropStale(d, ttl, now).items.Keys <= d.items.Keys
    ensures |DropStale(d, ttl, now).items| <= |d.items|
    ensures forall k :: k in DropStale(d, ttl, now).items ==> DropStale(d, ttl, now).items[k] == d.items[k]
    ensures forall k :: k in d.items && now - d.items[k] <= ttl ==> k in DropStale(d, ttl, now).items
  {
    StaleShape(d, ttl, now);
    hide DropStale, NoDup;
    forall k
      ensures k in DropStale(d, ttl, now).items ==> k in d.items && DropStale(d, ttl, now).items[k] == d.items[k]
      ensures k in d.items && now - d.items[k] <= ttl ==> k in DropStale(d, ttl, now).items
    {
      StaleKey(d, ttl, now, k);
    }
  }

  /** A purge removes an open assembly exactly when it has timed out, and a completed key only when it
      has expired. */
  lemma PurgeOnlyExpired(t: Table, now: real, k: Key)
    requires TableInv(t)
    ensures k in Purge(t, now).open.items <==> k in t.open.items && now - t.open.items[k].updatedAt <= t.timeout
    ensures k in Purge(t, now).open.items ==> Purge(t, now).open.items[k] == t.open.items[k]
    ensures k in Purge(t, now).completed.items ==> k in t.completed.items && Purge(t, now).completed.items[k] == t.completed.items[k]
    ensures k in t.completed.items && now - t.completed.items[k] <= t.ttl ==> k in Purge(t, now).completed.items
  {
    DropStaleOnlyOld(t.completed, t.ttl, now);
  }

  /** One of the first i + 1 keys has not expired. */
  ghost predicate YoungUpTo(d: Dict<Key, real>, ttl: real, now: real, i: nat)
    requires d.Valid() && i < |d.order|
  {
    exists j :: 0 <= j <= i && now - d.items[d.order[j]] <= ttl
  }

  lemma YoungBehindFront(d: Dict<Key, real>, ttl: real, now: real, i: nat)
    requires d.Valid() && i < |d.order| && now - d.items[d.order[0]] > ttl
    ensures d.PopFront().Valid()
    ensures YoungUpTo(d, ttl, now, i) <==> i > 0 && YoungUpTo(d.PopFront(), ttl, now, i - 1)
  {
    PopFrontValid(d);
    var rest := d.PopFront();
    assert forall j :: 0 <= j < |rest.order| ==> rest.order[j] == d.order[j + 1] && rest.items[rest.order[j]] == d.items[d.order[j + 1]];
    if YoungUpTo(d, ttl, now, i) {
      var j :| 0 <= j <= i && now - d.items[d.order[j]] <= ttl;
      assert now - rest.items[rest.order[j - 1]] <= ttl;
    }
  }

  lemma StaleStep(d: Dict<Key, real>, ttl: real, now: real)
    requires d.Valid() && d.order != []
    ensures d.PopFront().Valid() && d.order[0] in d.items
    ensures DropStale(d, ttl, now) == if now - d.items[d.order[0]] <= ttl then d else DropStale(d.PopFront(), ttl, now)
  {
    PopFrontValid(d);
  }

  lemma FrontStays(d: Dict<Key, real>, ttl: real, now: real, i: nat)
    requires d.Valid() && i < |d.order| && now - d.items[d.order[0]] <= ttl
    ensures YoungUpTo(d, ttl, now, i) && d.order[i] in d.items
  {
  }

  /** The front is gone for good, and the i-th key is the next one's (i - 1)-th. */
  lemma FrontDrops(d: Dict<Key, real>, ttl: real, now: real, i: nat)
    requires d.Valid() && i < |d.order| && d.PopFront().Valid()
    ensures i == 0 ==> d.order[i] !in DropStale(d.PopFront(), ttl, now).items
    ensures i > 0 ==> i - 1 < |d.PopFront().order| && d.PopFront().order[i - 1] == d.order[i]
  {
    DropStaleOnlyOld(d.PopFront(), ttl, now);
    hide DropStale, NoDup;
  }

  /** Where the purge of the completed keys stops, since it looks only at the front. */
  lemma {:induction false} StaleIff(d: Dict<Key, real>, ttl: real, now: real, i: nat)
    requires d.Valid() && i < |d.order|
    ensures d.order[i] in DropStale(d, ttl, now).items <==> YoungUpTo(d, ttl, now, i)
    decreases |d.order|
  {
    hide NoDup, YoungUpTo, DropStale;
    StaleStep(d, ttl, now);
    if now - d.items[d.order[0]] > ttl {
      YoungBehindFront(d, ttl, now, i);
      FrontDrops(d, ttl, now, i);
      if i > 0 {
        StaleIff(d.PopFront(), ttl, now, i - 1);
      }
    } else {
      FrontStays(d, ttl, now, i);
    }
  }

  /** A completed key survives a purge exactly when it or one in front of it is young. */
  lemma LingersIff(t: Table, now: real, i: nat)
    requires TableInv(t) && i < |t.completed.order|
    ensures t.completed.order[i] in Purge(t, now).completed.items <==> YoungUpTo(t.completed, t.ttl, now, i)
  {
    StaleIff(t.completed, t.ttl, now, i);
  }

  lemma PurgeInv(t: Table, now: real)
    requires TableInv(t)
    ensures TableInv(Purge(t, now))
  {
    hide NoDup;
    DropAllValid(t.open, Expired(t.open, t.timeout, now));
    DropStaleOnlyOld(t.completed, t.ttl, now);
    DropSize(t.open.items, Expired(t.open, t.timeout, now));
  }

  /** Trimming drops only from the front and never exceeds the limit. */
  lemma {:induction false} TrimBound(d: Dict<Key, real>, limit: nat)
    requires d.Valid()
    ensures Trim(d, limit).Valid()
    ensures |Trim(d, limit).items| <= limit
    ensures Trim(d, limit).items.Keys <= d.items.Keys
    ensures |d.items| <= limit ==> Trim(d, limit) == d
    decreases |d.order|
  {
    Size(d);
    if |d.items| > limit {
      PopFrontValid(d);
      TrimBound(d.PopFront(), limit);
    }
  }

  lemma TrimStep(d: Dict<Key, real>, limit: nat)
    requires d.Valid()
    ensures |d.order| <= limit ==> Trim(d, limit) == d
    ensures |d.order| > limit ==> d.PopFront().Valid() && d.PopFront().order == d.order[1..] && Trim(d, limit) == Trim(d.PopFront(), limit)
  {
    Size(d);
    if |d.order| > limit {
      PopFrontValid(d);
    }
  }

  lemma {:induction false} TrimOrder(d: Dict<Key, real>, limit: nat)
    requires d.Valid()
    ensures |d.order| <= limit ==> Trim(d, limit).order == d.order
    ensures |d.order| > limit ==> Trim(d, limit).order == d.order[|d.order| - limit..]
    decreases |d.order|
  {
    hide *;
    TrimStep(d, limit);
    if |d.order| > limit {
      TrimOrder(d.PopFront(), limit);
      LaterTail(d.order, |d.order| - limit);
    }
  }

  lemma LaterTail(s: seq<Key>, i: nat)
    requires 1 <= i <= |s|
    ensures s[1..][i - 1..] == s[i..]
    ensures s[1..][0..] == s[1..]
  {
  }

  lemma KeysListed(d: Dict<Key, real>, k: Key)
    requires d.Valid()
    ensures k in d.items <==> k in d.order
  {
    hide NoDup;
  }

  /** The last n keys, or all if there are fewer. */
  function Ending(order: seq<Key>, n: nat): seq<Key> {
    if |order| <= n then order else order[|order| - n..]
  }

  /** What trimming leaves is the end of the list, as much of it as the limit allows. */
  lemma TrimExact(d: Dict<Key, real>, limit: nat, k: Key)
    requires d.Valid()
    ensures Trim(d, limit).order == Ending(d.order, limit)
    ensures k in Trim(d, limit).items <==> k in Ending(d.order, limit)
  {
    hide *;
    TrimOrder(d, limit);
    EndingIs(d.order, limit);
    TrimBound(d, limit);
    KeysListed(Trim(d, limit), k);
  }

  lemma EndingIs(order: seq<Key>, n: nat)
    ensures |order| <= n ==> Ending(order, n) == order
    ensures |order| > n ==> Ending(order, n) == order[|order| - n..]
  {
  }

  /** The newest entry survives trimming. */
  lemma {:induction false} TrimNewest(d: Dict<Key, real>, limit: nat, k: Key)
    requires d.Valid() && limit >= 1 && d.order != [] && d.order[|d.order| - 1] == k && k in d.items
    ensures k in Trim(d, limit).items && Trim(d, limit).items[k] == d.items[k]
    decreases |d.order|
  {
    Size(d);
    if |d.items| > limit {
      PopFrontValid(d);
      var p := d.PopFront();
      LastStays(d);
      hide NoDup;
      TrimNewest(p, limit, k);
    }
  }

  lemma LastStays(d: Dict<Key, real>)
    requires d.Valid() && |d.order| >= 2
    ensures var k, p := d.order[|d.order| - 1], d.PopFront();
            p.order != [] && p.order[|p.order| - 1] == k && k in p.items && p.items[k] == d.items[k]
  {
  }

  /** Eviction removes at most one assembly, the one that has waited longest without a new fragment. */
  lemma MakeRoomOldest(t: Table)
    requires TableInv(t)
    ensures TableInv(MakeRoom(t)) && |MakeRoom(t).open.items| < t.maxMessages
    ensures MakeRoom(t).completed == t.completed
    ensures forall k :: k in MakeRoom(t).open.items ==> k in t.open.items && MakeRoom(t).open.items[k] == t.open.items[k]
    ensures forall k, j :: k in t.open.items && k !in MakeRoom(t).open.items && j in t.open.items ==>
                             t.open.items[k].updatedAt <= t.open.items[j].updatedAt
  {
    Size(t.open);
    if |t.open.items| >= t.maxMessages {
      var k := Oldest(t.open, |t.open.order|);
      assert t.open.order[..|t.open.order|] == t.open.order;
      DropAllValid(t.open, {k});
      DropSize(t.open.items, {k});
    }
  }

  /** Only a full table loses an assembly, and then one only. */
  lemma MakeRoomOne(t: Table)
    requires TableInv(t)
    ensures |t.open.items| < t.maxMessages ==> MakeRoom(t) == t
    ensures |t.open.items| == t.maxMessages ==> |MakeRoom(t).open.items| == |t.open.items| - 1
  {
    Size(t.open);
    if |t.open.items| >= t.maxMessages {
      DropSize(t.open.items, {Oldest(t.open, |t.open.order|)});
    }
  }

  lemma PutOpenInv(t: Table, key: Key, a: Assembly)
    requires TableInv(t) && key !in t.completed.items
    requires key in t.open.items || |t.open.items| < t.maxMessages
    ensures TableInv(t.(open := t.open.Put(key, a)))
  {
    hide NoDup;
    PutValid(t.open, key, a);
    PutSize(t.open.items, key, a);
  }

  lemma CompleteInv(t: Table, key: Key, now: real)
    requires TableInv(t) && t.completed.Put(key, now).Valid()
    ensures TableInv(t.(open := t.open.Drop(key), completed := Trim(t.completed.Put(key, now), 2 * t.maxMessages)))
  {
    TrimBound(t.completed.Put(key, now), 2 * t.maxMessages);
    DropAllValid(t.open, {key});
    DropSize(t.open.items, {key});
  }

  lemma ContributeInv(t: Table, key: Key, a: Assembly, frame: Frame, now: real)
    requires TableInv(t) && frame.WellFormed() && key !in t.completed.items
    requires key in t.open.items || |t.open.items| < t.maxMessages
    ensures TableInv(Contribute(t, key, a, frame, now).1)
  {
    hide Insert, Assemble, Trim;
    match Insert(a, frame)
    case Err(_) => PutOpenInv(t, key, a);
    case Ok(a1) =>
      var (outcome, a2) := Assemble(a1);
      if outcome.Done? {
        PutValid(t.completed, key, now);
        CompleteInv(t, key, now);
      } else {
        PutOpenInv(t, key, a2);
      }
  }

  /** Every add keeps the tables disjoint and bounded. */
  lemma AddInv(t: Table, frame: Frame, now: real)
    requires TableInv(t) && frame.WellFormed()
    ensures TableInv(Add(t, frame, now).1)
  {
    hide Contribute, Purge;
    PurgeInv(t, now);
    var p, key := Purge(t, now), KeyOf(frame);
    if key in p.completed.items {
      MoveToEndValid(p.completed, key);
    } else if key in p.open.items {
      ContributeInv(p, key, p.open.items[key].(updatedAt := now), frame, now);
    } else {
      MakeRoomOldest(p);
      ContributeInv(MakeRoom(p), key, NewAssembly(frame, now), frame, now);
    }
  }

  // ----------------------------------------------------------------------------------- the class

  class Reassembler {
    const timeout: real
    const maxMessages: nat
    const ttl: real
    var open: Dict<Key, Assembly>
    var completed: Dict<Key, real>

    ghost function State(): Table
      reads this
    {
      Table(timeout, maxMessages, ttl, open, completed)
    }

    ghost predicate Valid()
      reads this
    {
      TableInv(State())
    }

    constructor (timeout: real, maxMessages: nat, ttl: real)
      requires timeout > 0.0 && maxMessages >= 1 && ttl > 0.0
      ensures Valid() && State() == EmptyTable(timeout, maxMessages, ttl)
    {
      this.timeout, this.maxMessages, this.ttl := timeout, maxMessages, ttl;
      open, completed := Dict([], map[]), Dict([], map[]);
    }

    method PurgeNow(now: real) returns (removed: nat)
      requires Valid()
      modifies this
      ensures Valid() && State() == Purge(old(State()), now)
      ensures removed == |old(open.items)| - |open.items|
    {
      PurgeInv(State(), now);
      var expired := CollectExpired(now);
      DropEach(expired);
      NoDupCard(expired);
      assert old(open.items).Keys == open.items.Keys + Elems(expired);
      PurgeCompleted(now);
      return |expired|;
    }

    method CollectExpired(now: real) returns (expired: seq<Key>)
      requires open.Valid()
      ensures NoDup(expired) && Elems(expired) == Expired(open, timeout, now)
    {
      expired := [];
      for i := 0 to |open.order|
        invariant forall k :: k in expired <==> k in open.order[..i] && k in Expired(open, timeout, now)
        invariant NoDup(expired)
      {
        var k := open.order[i];
        assert open.order[..i + 1] == open.order[..i] + [k];
        assert k !in open.order[..i];
        if now - open.items[k].updatedAt > timeout {
          expired := expired + [k];
        }
      }
      assert open.order[..|open.order|] == open.order;
    }

    method DropEach(expired: seq<Key>)
      modifies this`open
      ensures open == old(open).DropAll(Elems(expired))
    {
      hide WithoutAll, Elems;
      DropNone(open, expired);
      for i := 0 to |expired|
        invariant open == old(open).DropAll(Elems(expired[..i]))
      {
        DropOneMore(old(open), expired, i);
        open := open.Drop(expired[i]);
      }
      assert expired[..|expired|] == expired;
    }

    method PurgeCompleted(now: real)
      requires completed.Valid()
      modifies this`completed
      ensures completed == DropStale(old(completed), ttl, now)
    {
      while completed.order != []
        invariant completed.Valid()
        invariant DropStale(completed, ttl, now) == DropStale(old(completed), ttl, now)
        decreases |completed.order|
      {
        if now - completed.items[completed.order[0]] <= ttl {
          break;
        }
        PopFrontValid(completed);
        completed := completed.PopFront();
      }
    }

    method IsCompleted(session: int, messageId: int, now: real) returns (b: bool)
      requires Valid()
      modifies this
      ensures Valid() && State() == Purge(old(State()), now)
      ensures b ==> Key(session, messageId) in old(completed).items
      ensures b <==> Key(session, messageId) in completed.items
    {
      DropStaleOnlyOld(completed, ttl, now);
      var _ := PurgeNow(now);
      b := Key(session, messageId) in completed.items;
    }

    method AddFrame(frame: Frame, now: real) returns (v: Verdict)
      requires Valid() && frame.WellFormed()
      modifies this
      ensures Valid() && (v, State()) == Add(old(State()), frame, now)
    {
      hide Contribute, DropStale, Oldest;
      AddInv(State(), frame, now);
      ghost var t0 := State();
      var _ := PurgeNow(now);
      ghost var t := State();
      var key := KeyOf(frame);
      if key in completed.items {
        completed := completed.MoveToEnd(key);
        return Duplicate;
      }
      var a;
      if key in open.items {
        a := open.items[key];
        if a.messageLen != frame.messageLen || a.count != frame.count {
          return Fault(InconsistentMetadata);
        }
      } else {
        EvictIfFull();
        a := NewAssembly(frame, now);
      }
      a := a.(updatedAt := now);
      v := Complement(key, a, frame, now);
    }

    method EvictIfFull()
      requires Valid()
      modifies this`open
      ensures State() == MakeRoom(old(State()))
      ensures completed.Valid()
    {
      Size(open);
      if |open.items| >= maxMessages {
        var oldest := FindOldest();
        open := open.Drop(oldest);
      }
    }

    method FindOldest() returns (oldest: Key)
      requires open.Valid() && open.order != []
      ensures oldest == Oldest(open, |open.order|)
      ensures forall i :: 0 <= i < |open.order| ==> open.items[oldest].updatedAt <= open.items[open.order[i]].updatedAt
      ensures exists j: nat :: j < |open.order| && open.order[j] == oldest && FirstOldest(open, j)
    {
      oldest := open.order[0];
      for i := 1 to |open.order|
        invariant oldest == Oldest(open, i)
      {
        if open.items[open.order[i]].updatedAt < open.items[oldest].updatedAt {
          oldest := open.order[i];
        }
      }
      ghost var j := OldestPlace(open, |open.order|);
    }

    method Complement(key: Key, a: Assembly, frame: Frame, now: real) returns (v: Verdict)
      requires completed.Valid() && frame.WellFormed()
      modifies this
      ensures (v, State()) == Contribute(old(State()), key, a, frame, now)
    {
      open := open.Put(key, a);
      var a1 := a;
      if frame.IsParity() {
        if a.parity.Some? && a.parity.value != frame.payload {
          return Fault(ConflictingParity);
        }
        a1 := a.(parity := Some(frame.payload));
      } else {
        if frame.index in a.fragments && a.fragments[frame.index] != frame.payload {
          return Fault(ConflictingData);
        }
        a1 := a.(fragments := a.fragments[frame.index := frame.payload]);
      }
      var outcome, a2 := AssembleNow(a1);
      PutTwice(old(open), key, a, a2);
      match outcome {
        case Waiting =>
          open := open.Put(key, a2);
          v := Partial;
        case Raised(e) =>
          open := open.Put(key, a2);
          v := Fault(e);
        case Done(payload, recovered) =>
          PutDrop(old(open), key, a);
          open := open.Drop(key);
          PutValid(completed, key, now);
          completed := completed.Put(key, now);
          while |completed.items| > 2 * maxMessages
            invariant completed.Valid()
            invariant open == old(open).Drop(key)
            invariant Trim(completed, 2 * maxMessages) == Trim(old(completed).Put(key, now), 2 * maxMessages)
            decreases |completed.order|
          {
            Size(completed);
            PopFrontValid(completed);
            completed := completed.PopFront();
          }
          v := Complete(payload, recovered);
      }
    }
  }

  lemma DropNone<V>(d: Dict<Key, V>, ks: seq<Key>)
    ensures d.DropAll(Elems(ks[..0])) == d
  {
    WithoutAllDisjoint(d.order, {});
    assert d.items - {} == d.items && Elems(ks[..0]) == {};
  }

  lemma DropOneMore<V>(d: Dict<Key, V>, ks: seq<Key>, i: nat)
    requires i < |ks|
    ensures d.DropAll(Elems(ks[..i])).Drop(ks[i]) == d.DropAll(Elems(ks[..i + 1]))
  {
    ElemsSnoc(ks, i);
    WithoutAllTwice(d.order, Elems(ks[..i]), {ks[i]});
    assert d.items - Elems(ks[..i]) - {ks[i]} == d.items - (Elems(ks[..i]) + {ks[i]});
  }

  lemma PutTwice<V>(d: Dict<Key, V>, k: Key, v: V, w: V)
    ensures d.Put(k, v).Put(k, w) == d.Put(k, w)
  {
    assert d.items[k := v][k := w] == d.items[k := w];
  }

  lemma PutDrop<V>(d: Dict<Key, V>, k: Key, v: V)
    ensures d.Put(k, v).Drop(k) == d.Drop(k)
  {
    assert d.items[k := v] - {k} == d.items - {k};
    if k !in d.items {
      assert (d.order + [k])[..|d.order|] == d.order;
    }
  }
}
