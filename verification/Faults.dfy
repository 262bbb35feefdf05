/** Reassembly fed with anything at all that is well formed: each error exactly when it is due, and what a
    completed payload is made of. */
module Faults {
  import opened Common
  import opened Bits
  import opened Dicts
  import opened Frames
  import opened Fragmentation
  import opened Recovery
  import opened Reassembly
  import opened Exactness

  /** The fragments held have indices below the announced count. */
  ghost predicate Indexed(a: Assembly) {
    a.count >= 1 && forall i :: i in a.fragments ==> i < a.count
  }

  /** The pieces as they stand, with r in place of the missing one. */
  function Filled(a: Assembly, k: nat, r: Bytes): seq<Bytes>
    requires k < a.count
  {
    Slots(a.fragments, a.count)[k := r]
  }

  /** What the missing piece must be: of the length that is left for it, and such that the XOR of all pieces is
      the parity as far as it goes. */
  ghost predicate Missing(a: Assembly, k: nat, r: Bytes)
    requires a.parity.Some? && k < a.count
  {
    var size := |a.parity.value|;
    && |r| == (if k < a.count - 1 then size else a.messageLen - size * (a.count - 1))
    && |r| <= size
    && forall o :: 0 <= o < |r| ==> Column(Filled(a, k, r), o) == a.parity.value[o]
  }

  lemma XorMove(a: byte, b: byte, c: byte)
    requires XorByte(a, b) == c
    ensures a == XorByte(c, b)
  {
    XorAssoc(a, b, b);
    XorSelf(b);
    XorZero(a);
  }

  /** Putting a piece in the hole adds it to the XOR of the column. */
  lemma ColumnFilled(ps: seq<Bytes>, k: nat, r: Bytes, o: nat)
    requires k < |ps| && ps[k] == []
    ensures Column(ps[k := r], o) == XorByte(Cell(r, o), Column(ps, o))
  {
    ColumnHole(ps[k := r], k, o);
    assert ps[k := r][k := []] == ps;
    XorMove(Column(ps[k := r], o), Column(ps, o), Cell(r, o));
  }

  lemma RecoveredIs(a: Assembly, k: nat, n: nat)
    requires a.parity.Some? && k < a.count && k !in a.fragments && n <= |a.parity.value|
    ensures forall o :: 0 <= o < n ==> Column(Filled(a, k, Recovered(a)[..n]), o) == a.parity.value[o]
  {
    var ps := Slots(a.fragments, a.count);
    var r := Recovered(a)[..n];
    forall o | 0 <= o < n
      ensures Column(Filled(a, k, r), o) == a.parity.value[o]
    {
      ColumnFilled(ps, k, r, o);
      XorAssoc(a.parity.value[o], Column(ps, o), Column(ps, o));
      XorSelf(Column(ps, o));
      XorZero(a.parity.value[o]);
    }
  }

  /** All there: the pieces are joined, and the length announced is checked. */
  lemma AssembleWhole(a: Assembly)
    requires Indexed(a) && AllData(a.count, a.fragments.Keys)
    ensures var payload := Join(Slots(a.fragments, a.count));
            Assemble(a) == (if |payload| == a.messageLen then Done(payload, false) else Raised(LengthMismatch), a)
  {
    KeysFull(a.count, a.fragments.Keys);
    hide Join, Slots;
  }

  /** Too few, with or without the parity: nothing happens. */
  lemma AssembleShort(a: Assembly)
    requires Indexed(a) && !AllData(a.count, a.fragments.Keys)
    requires a.parity.None? || forall k: nat :: !AllDataBut(a.count, a.fragments.Keys, k)
    ensures Assemble(a) == (Waiting, a)
  {
    KeysFull(a.count, a.fragments.Keys);
    var k := FirstMissing(a.fragments, 0, a.count);
    if k < a.count {
      KeysHole(a.count, a.fragments.Keys, k);
      assert AllDataBut(a.count, a.fragments.Keys, k) <==> |a.fragments| == a.count - 1;
    }
    hide Join, Slots, Recovered, Oversized;
  }

  lemma OneShort(a: Assembly, k: nat)
    requires Indexed(a) && AllDataBut(a.count, a.fragments.Keys, k)
    ensures |a.fragments| == a.count - 1 && FirstMissing(a.fragments, 0, a.count) == k
  {
    KeysHole(a.count, a.fragments.Keys, k);
  }

  /** All but one and the parity: the errors in order. */
  lemma AssembleRefused(a: Assembly, k: nat)
    requires Indexed(a) && a.parity.Some? && AllDataBut(a.count, a.fragments.Keys, k)
    ensures var size := |a.parity.value|;
            var left := if k < a.count - 1 then size else a.messageLen - size * (a.count - 1);
            var long := exists i :: i in a.fragments && |a.fragments[i]| > size;
            && (size == 0 ==> Assemble(a) == (Raised(EmptyParity), a))
            && (size > 0 && long ==> Assemble(a) == (Raised(FragmentExceedsParity), a))
            && (size > 0 && !long && !(0 <= left <= size) ==> Assemble(a) == (Raised(BadRecoveredLength), a))
            && (size > 0 && !long && 0 <= left <= size ==> !Assemble(a).0.Waiting? && Assemble(a).0 != Raised(LengthMismatch)
                                                           && (Assemble(a).0.Raised? ==> Assemble(a).0 == Raised(RecoveredMismatch)))
  {
    OneShort(a, k);
    var size := |a.parity.value|;
    LongIff(a, size);
    hide Join, Slots, Recovered, Oversized, FirstMissing;
  }

  lemma LongIff(a: Assembly, size: nat)
    requires Indexed(a)
    ensures Oversized(a, size) <==> exists i :: i in a.fragments && |a.fragments[i]| > size
  {
    if i: nat :| i in a.fragments && |a.fragments[i]| > size {
      assert |Slots(a.fragments, a.count)[i]| > size;
    }
    if Oversized(a, size) {
      var i :| 0 <= i < a.count && |Slots(a.fragments, a.count)[i]| > size;
      assert i in a.fragments;
    }
  }

  /** Otherwise the missing piece is what the parity makes it; it is stored, and the payload is the pieces
      joined if they have the length announced. */
  lemma AssembleRecovers(a: Assembly, k: nat) returns (r: Bytes)
    requires Indexed(a) && a.parity.Some? && AllDataBut(a.count, a.fragments.Keys, k)
    requires Assemble(a).0.Done? || Assemble(a).0 == Raised(RecoveredMismatch)
    ensures Missing(a, k, r)
    ensures Assemble(a).1 == a.(fragments := a.fragments[k := r])
    ensures var payload := Join(Filled(a, k, r));
            Assemble(a).0 == if |payload| == a.messageLen then Done(payload, true) else Raised(RecoveredMismatch)
  {
    OneShort(a, k);
    var n := ExpectedLength(a, k);
    r := Recovered(a)[..n];
    RecoveredIs(a, k, n);
    assert Slots(a.fragments[k := r], a.count) == Filled(a, k, r);
    hide Join, Recovered, Oversized, FirstMissing, Column, Slots;
  }

  /** Whatever has been put in: a completed payload has the length announced, and is the join of the pieces held
      and, if one was missing, of one more that agrees with the parity. */
  lemma CompletedIsHeld(a: Assembly)
    requires Indexed(a) && Assemble(a).0.Done?
    ensures |Assemble(a).0.payload| == a.messageLen
    ensures !Assemble(a).0.recovered ==> Assemble(a).0.payload == Join(Slots(a.fragments, a.count))
    ensures Assemble(a).0.recovered ==>
              a.parity.Some? && exists k: nat, r :: k < a.count && k !in a.fragments && Missing(a, k, r) && Assemble(a).0.payload == Join(Filled(a, k, r))
  {
    if AllData(a.count, a.fragments.Keys) {
      AssembleWhole(a);
    } else if k: nat :| a.parity.Some? && AllDataBut(a.count, a.fragments.Keys, k) {
      var r := AssembleRecovers(a, k);
      assert Missing(a, k, r);
    } else {
      AssembleShort(a);
    }
  }

  // ------------------------------------------------------------------------------------ the tables

  /** The assembly after a frame has been put into it, when that does not contradict what is there: a repeated
      fragment must have the same bytes. */
  ghost predicate Contradicts(a: Assembly, f: Frame)
    requires f.WellFormed()
  {
    if f.IsParity() then a.parity.Some? && a.parity.value != f.payload
    else f.index in a.fragments && a.fragments[f.index] != f.payload
  }

  /** A frame whose announced length or count differs from those of its open assembly is refused, and only the
      purge is done. */
  lemma MetadataRefused(t: Table, f: Frame, now: real)
    requires TableInv(t) && f.WellFormed() && TableInv(Purge(t, now)) && KeyOf(f) in Purge(t, now).open.items
    requires var a := Purge(t, now).open.items[KeyOf(f)]; a.messageLen != f.messageLen || a.count != f.count
    ensures Add(t, f, now) == (Fault(InconsistentMetadata), Purge(t, now))
  {
    hide Purge, Contribute, NoDup;
  }

  /** A fragment or parity that contradicts the one stored is refused; the stored one stays, and the assembly
      counts as touched. */
  lemma ContradictionRefused(t: Table, f: Frame, now: real)
    requires TableInv(t) && f.WellFormed() && TableInv(Purge(t, now)) && KeyOf(f) in Purge(t, now).open.items
    requires var a := Purge(t, now).open.items[KeyOf(f)]; a.messageLen == f.messageLen && a.count == f.count && Contradicts(a, f)
    ensures var p, key := Purge(t, now), KeyOf(f);
            Add(t, f, now) == (Fault(if f.IsParity() then ConflictingParity else ConflictingData),
                               p.(open := p.open.Put(key, p.open.items[key].(updatedAt := now))))
  {
    hide Purge, Assemble, NoDup;
  }

  /** The assembly with the frame in its place. */
  function WithFrame(a: Assembly, f: Frame): Assembly
    requires f.WellFormed()
  {
    if f.IsParity() then a.(parity := Some(f.payload)) else a.(fragments := a.fragments[f.index := f.payload])
  }

  /** The open assembly of the key, touched, or a new one. */
  function Touched(p: Table, f: Frame, now: real): Assembly
    requires f.WellFormed()
  {
    var key := KeyOf(f);
    if key in p.open.items then p.open.items[key].(updatedAt := now) else Assembly(f.messageLen, f.count, now, map[], None)
  }

  lemma ContributeStores(r: Table, key: Key, a: Assembly, f: Frame, now: real)
    requires f.WellFormed() && r.completed.Valid() && !Contradicts(a, f)
    ensures Contribute(r, key, a, f, now).0 == match Assemble(WithFrame(a, f)).0
                                               case Waiting => Partial
                                               case Raised(error) => Fault(error)
                                               case Done(payload, recovered) => Complete(payload, recovered)
  {
    PutValid(r.completed, key, now);
    hide Assemble, Trim, NoDup, WithoutAll;
  }

  /** A frame that does neither is stored in its place, in the open assembly of its key or in a new one, and the
      answer is what comes of trying to complete it. */
  lemma OtherwiseStored(t: Table, f: Frame, now: real)
    requires TableInv(t) && f.WellFormed() && TableInv(Purge(t, now)) && KeyOf(f) !in Purge(t, now).completed.items
    requires KeyOf(f) in Purge(t, now).open.items ==>
               var a := Purge(t, now).open.items[KeyOf(f)]; a.messageLen == f.messageLen && a.count == f.count && !Contradicts(a, f)
    ensures Add(t, f, now).0 == match Assemble(WithFrame(Touched(Purge(t, now), f, now), f)).0
                                case Waiting => Partial
                                case Raised(error) => Fault(error)
                                case Done(payload, recovered) => Complete(payload, recovered)
  {
    var p, key := Purge(t, now), KeyOf(f);
    AddStores(t, f, now);
    hide Purge, Assemble, NoDup, Contribute, Room, Add, TableInv;
    CompletedValid(Room(p, key));
    ContributeStores(Room(p, key), key, Touched(p, f, now), f, now);
  }

  lemma AddStores(t: Table, f: Frame, now: real)
    requires TableInv(t) && f.WellFormed() && TableInv(Purge(t, now)) && KeyOf(f) !in Purge(t, now).completed.items
    requires KeyOf(f) in Purge(t, now).open.items ==>
               var a := Purge(t, now).open.items[KeyOf(f)]; a.messageLen == f.messageLen && a.count == f.count
    ensures var p, key := Purge(t, now), KeyOf(f);
            TableInv(Room(p, key)) && Add(t, f, now) == Contribute(Room(p, key), key, Touched(p, f, now), f, now)
  {
    MakeRoomOldest(Purge(t, now));
    hide Purge, Contribute, NoDup, MakeRoom;
  }

  /** Every open assembly, of any arrivals whatever, is indexed within its count. */
  ghost predicate TableIndexed(t: Table) {
    forall k :: k in t.open.items ==> Indexed(t.open.items[k])
  }

  lemma AssembleIndexed(a: Assembly)
    requires Indexed(a)
    ensures Indexed(Assemble(a).1) && Assemble(a).1.messageLen == a.messageLen
  {
    AssembleForm(a);
    hide Assemble, FirstMissing;
    if Assemble(a).1 != a {
      MissingBelow(a);
    }
  }

  /** A try to complete an assembly changes at most the first missing piece, of an assembly that is one short. */
  lemma AssembleForm(a: Assembly)
    ensures var a', k := Assemble(a).1, FirstMissing(a.fragments, 0, a.count);
            && a'.count == a.count && a'.messageLen == a.messageLen
            && (a' == a || (|a.fragments| == a.count - 1 && a'.fragments.Keys == a.fragments.Keys + {k}))
  {
    hide Join, Slots, Recovered, Oversized, ExpectedLength, FirstMissing;
  }

  lemma MissingBelow(a: Assembly)
    requires Indexed(a) && |a.fragments| == a.count - 1
    ensures FirstMissing(a.fragments, 0, a.count) < a.count
  {
    KeysFull(a.count, a.fragments.Keys);
  }

  lemma ContributeIndexed(r: Table, key: Key, a: Assembly, f: Frame, now: real)
    requires TableIndexed(r) && Indexed(a) && f.WellFormed() && a.count == f.count && a.messageLen == f.messageLen && r.completed.Valid()
    ensures var (v, t') := Contribute(r, key, a, f, now);
            TableIndexed(t') && (v.Complete? ==> |v.payload| == f.messageLen)
  {
    var inserted := Insert(a, f);
    if inserted.Ok? {
      assert Indexed(inserted.value);
      AssembleIndexed(inserted.value);
      if Assemble(inserted.value).0.Done? {
        CompletedIsHeld(inserted.value);
      }
    }
    hide Assemble, Trim, NoDup, WithoutAll, Missing;
  }

  /** Over any well-formed frames at all: what comes out has the length that its last frame announced. */
  lemma AddIndexed(t: Table, f: Frame, now: real)
    requires TableInv(t) && TableIndexed(t) && f.WellFormed()
    ensures var (v, t') := Add(t, f, now);
            TableIndexed(t') && (v.Complete? ==> |v.payload| == f.messageLen)
  {
    PurgeInv(t, now);
    var p, key := Purge(t, now), KeyOf(f);
    forall k
      ensures k in p.open.items ==> Indexed(p.open.items[k])
    {
      PurgeOnlyExpired(t, now, k);
    }
    hide Contribute, Purge, NoDup, WithoutAll;
    if key in p.completed.items {
    } else if key in p.open.items {
      if p.open.items[key].messageLen == f.messageLen && p.open.items[key].count == f.count {
        ContributeIndexed(p, key, p.open.items[key].(updatedAt := now), f, now);
      }
    } else {
      MakeRoomOldest(p);
      hide MakeRoom;
      ContributeIndexed(MakeRoom(p), key, NewAssembly(f, now), f, now);
    }
  }

  lemma {:induction false} RunIndexed(t0: Table, arrivals: seq<Arrival>)
    requires TableInv(t0) && TableIndexed(t0) && AllWellFormed(arrivals)
    ensures TableIndexed(Tables(t0, arrivals))
    ensures arrivals != [] && Answer(t0, arrivals).Complete? ==> |Answer(t0, arrivals).payload| == Final(arrivals).frame.messageLen
  {
    hide Add, TableIndexed, TableInv;
    if arrivals != [] {
      RunIndexed(t0, arrivals[..|arrivals| - 1]);
      AddIndexed(Tables(t0, arrivals[..|arrivals| - 1]), Final(arrivals).frame, Final(arrivals).now);
    }
  }
}
