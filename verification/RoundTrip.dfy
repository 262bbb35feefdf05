/** From one call of the fragmenter to the payload that comes out on the other side. */
module RoundTrips {
  import opened Common
  import opened Frames
  import opened Fragmentation
  import opened Recovery
  import opened Reassembly
  import opened Exactness
  import opened Codecs
  import opened Endpoints

  ghost predicate CarriesSpec(f: Frame, spec: FragmentSpec) {
    f.payload == spec.payload && f.messageLen == spec.messageLen && f.index == spec.index && f.count == spec.count && f.flags == spec.flags
  }

  ghost predicate CarriesOne(f: Frame, specs: seq<FragmentSpec>) {
    exists j :: 0 <= j < |specs| && CarriesSpec(f, specs[j])
  }

  /** Every arrival under the key is one of these fragments; anything may arrive under other keys. */
  ghost predicate OnlyThese(arrivals: seq<Arrival>, key: Key, specs: seq<FragmentSpec>) {
    forall i :: 0 <= i < |arrivals| && KeyOf(arrivals[i].frame) == key ==> CarriesOne(arrivals[i].frame, specs)
  }

  ghost predicate Arrived(arrivals: seq<Arrival>, key: Key, spec: FragmentSpec) {
    exists i :: 0 <= i < |arrivals| && KeyOf(arrivals[i].frame) == key && CarriesSpec(arrivals[i].frame, spec)
  }

  ghost predicate AllBut(arrivals: seq<Arrival>, key: Key, specs: seq<FragmentSpec>, lost: nat) {
    forall j :: 0 <= j < |specs| && j != lost ==> Arrived(arrivals, key, specs[j])
  }

  /** All fragments have arrived, or all but any one where the last of them is a parity, or all but the
      parity. */
  ghost predicate EnoughArrived(arrivals: seq<Arrival>, key: Key, specs: seq<FragmentSpec>) {
    exists lost: nat :: AllBut(arrivals, key, specs, lost) && (lost < |specs| ==> specs[|specs| - 1].flags == FLAG_PARITY)
  }

  /** The i-th arrival makes the payload come out. */
  ghost predicate ComesOutAt(t0: Table, arrivals: seq<Arrival>, key: Key, payload: Bytes, i: nat)
    requires TableInv(t0) && AllWellFormed(arrivals) && i < |arrivals|
  {
    && KeyOf(arrivals[i].frame) == key
    && Answer(t0, arrivals[..i + 1]).Complete?
    && Answer(t0, arrivals[..i + 1]).payload == payload
  }

  lemma {:induction false} HaveIff(arrivals: seq<Arrival>, key: Key, x: nat)
    requires AllWellFormed(arrivals)
    ensures x in Have(arrivals, key) <==>
              exists i :: 0 <= i < |arrivals| && KeyOf(arrivals[i].frame) == key && arrivals[i].frame.index == x
  {
    if arrivals != [] {
      var n := |arrivals| - 1;
      HaveIff(arrivals[..n], key, x);
      if x in Have(arrivals[..n], key) {
        var i :| 0 <= i < n && KeyOf(arrivals[..n][i].frame) == key && arrivals[..n][i].frame.index == x;
        assert arrivals[i] == arrivals[..n][i];
      }
      if i :| 0 <= i < |arrivals| && KeyOf(arrivals[i].frame) == key && arrivals[i].frame.index == x {
        assert i < n ==> arrivals[..n][i] == arrivals[i];
      }
    }
  }

  lemma SpecIndex(m: Message, k: nat)
    requires m.Valid() && k < |m.Specs()|
    ensures m.Specs()[k].index == k
  {
    hide Chop, Parity;
  }

  /** The indices that have arrived are those of the fragments that have. */
  lemma HaveArrived(arrivals: seq<Arrival>, key: Key, m: Message, j: nat)
    requires AllWellFormed(arrivals) && m.Valid() && OnlyThese(arrivals, key, m.Specs())
    ensures j in Have(arrivals, key) <==> j < |m.Specs()| && Arrived(arrivals, key, m.Specs()[j])
  {
    HaveIff(arrivals, key, j);
    forall k: nat | k < |m.Specs()|
      ensures m.Specs()[k].index == k
    {
      SpecIndex(m, k);
    }
    hide Have, FragmentsOf;
    if i :| 0 <= i < |arrivals| && KeyOf(arrivals[i].frame) == key && arrivals[i].frame.index == j {
      var k :| 0 <= k < |m.Specs()| && CarriesSpec(arrivals[i].frame, m.Specs()[k]);
      assert k == j;
    }
  }

  lemma SpecsShape(m: Message)
    requires m.Valid()
    ensures var n := |m.Pieces()|;
            && n >= 1
            && |m.Specs()| == n + (if m.fec && n > 1 then 1 else 0)
            && (m.Specs()[|m.Specs()| - 1].flags == FLAG_PARITY <==> |m.Specs()| == n + 1)
            && (|m.Specs()| == n + 1 ==> n > 1)
  {
    ChopNonEmpty(m.payload, m.fragmentSize);
    hide Chop, Parity;
  }

  /** What counts as enough, by indices and by fragments. */
  lemma EnoughIff(arrivals: seq<Arrival>, key: Key, m: Message)
    requires AllWellFormed(arrivals) && m.Valid() && OnlyThese(arrivals, key, m.Specs())
    ensures Enough(|m.Pieces()|, Have(arrivals, key)) <==> EnoughArrived(arrivals, key, m.Specs())
  {
    SpecsShape(m);
    var n, have, specs := |m.Pieces()|, Have(arrivals, key), m.Specs();
    forall j: nat
      ensures j in have <==> j < |specs| && Arrived(arrivals, key, specs[j])
    {
      HaveArrived(arrivals, key, m, j);
    }
    hide Have, Arrived, Chop, Parity, OnlyThese, FragmentsOf;
    if Enough(n, have) {
      if AllData(n, have) {
        assert AllBut(arrivals, key, specs, n);
      } else {
        var k: nat :| AllDataBut(n, have, k);
        assert AllBut(arrivals, key, specs, k);
      }
    }
    if EnoughArrived(arrivals, key, specs) {
      var lost: nat :| AllBut(arrivals, key, specs, lost) && (lost < |specs| ==> specs[|specs| - 1].flags == FLAG_PARITY);
      if lost < n && lost !in have {
        assert AllDataBut(n, have, lost);
      } else {
        assert AllData(n, have);
      }
    }
  }

  lemma {:induction false} HaveGrows(arrivals: seq<Arrival>, key: Key, i: nat)
    requires AllWellFormed(arrivals) && i <= |arrivals|
    ensures Have(arrivals[..i], key) <= Have(arrivals, key)
  {
    if i < |arrivals| {
      HaveGrows(arrivals[..|arrivals| - 1], key, i);
      assert arrivals[..|arrivals| - 1][..i] == arrivals[..i];
    } else {
      assert arrivals[..i] == arrivals;
    }
  }

  lemma {:induction false} SparedPrefix(t0: Table, arrivals: seq<Arrival>, key: Key, i: nat)
    requires TableInv(t0) && AllWellFormed(arrivals) && SparedRun(t0, arrivals, key) && i <= |arrivals|
    ensures SparedRun(t0, arrivals[..i], key)
  {
    hide Spared, TableInv, Tables;
    if i < |arrivals| {
      SparedPrefix(t0, arrivals[..|arrivals| - 1], key, i);
      assert arrivals[..|arrivals| - 1][..i] == arrivals[..i];
    } else {
      assert arrivals[..i] == arrivals;
    }
  }

  lemma CarriesMessage(f: Frame, m: Message)
    requires m.Valid() && CarriesOne(f, m.Specs())
    ensures Carries(f, m)
  {
    hide Chop, Parity;
    ChopNonEmpty(m.payload, m.fragmentSize);
  }

  lemma CarriedAll(arrivals: seq<Arrival>, key: Key, m: Message)
    requires m.Valid() && OnlyThese(arrivals, key, m.Specs())
    ensures Carried(arrivals, key, m)
  {
    hide CarriesOne, Carries, FragmentsOf;
    forall i | 0 <= i < |arrivals| && KeyOf(arrivals[i].frame) == key
      ensures Carries(arrivals[i].frame, m)
    {
      CarriesMessage(arrivals[i].frame, m);
    }
  }

  lemma PrefixFacts(arrivals: seq<Arrival>, key: Key, m: Message, i: nat)
    requires m.Valid() && AllWellFormed(arrivals) && Carried(arrivals, key, m) && i < |arrivals|
    ensures var p := arrivals[..i + 1];
            p != [] && AllWellFormed(p) && Carried(p, key, m) && Final(p) == arrivals[i] && p[..|p| - 1] == arrivals[..i]
  {
    hide Carries;
  }

  lemma ExpectedIs(m: Message, key: Key, p: seq<Arrival>)
    requires m.Valid() && AllWellFormed(p) && p != []
    ensures Expected(m, key, p) == Demanded(m, Have(p[..|p| - 1], key), Have(p, key))
  {
    hide Demanded, Have;
  }

  /** The answer to each of the message's arrivals. */
  lemma AnswerAt(timeout: real, maxMessages: nat, ttl: real, m: Message, key: Key, arrivals: seq<Arrival>, i: nat)
    requires maxMessages >= 1 && m.Valid() && AllWellFormed(arrivals) && Carried(arrivals, key, m)
    requires TableInv(EmptyTable(timeout, maxMessages, ttl)) && SparedRun(EmptyTable(timeout, maxMessages, ttl), arrivals, key)
    requires i < |arrivals| && KeyOf(arrivals[i].frame) == key
    ensures Answer(EmptyTable(timeout, maxMessages, ttl), arrivals[..i + 1])
            == Demanded(m, Have(arrivals[..i], key), Have(arrivals[..i + 1], key))
  {
    hide *;
    PrefixFacts(arrivals, key, m, i);
    SparedPrefix(EmptyTable(timeout, maxMessages, ttl), arrivals, key, i + 1);
    DeliveredExactlyWhenRecoverable(timeout, maxMessages, ttl, m, key, arrivals[..i + 1]);
    ExpectedIs(m, key, arrivals[..i + 1]);
  }

  ghost predicate FirstEnough(n: nat, arrivals: seq<Arrival>, key: Key, i: nat)
    requires AllWellFormed(arrivals) && i < |arrivals|
  {
    !Enough(n, Have(arrivals[..i], key)) && Enough(n, Have(arrivals[..i + 1], key))
  }

  lemma OnlyOwnAdds(arrivals: seq<Arrival>, key: Key)
    requires AllWellFormed(arrivals) && arrivals != []
    ensures Have(arrivals, key) != Have(arrivals[..|arrivals| - 1], key) ==> KeyOf(Final(arrivals).frame) == key
  {
  }

  /** There is a first arrival after which there is enough, and it is one of the message's own. */
  lemma {:induction false} FirstExists(n: nat, arrivals: seq<Arrival>, key: Key) returns (i: nat)
    requires n >= 1 && AllWellFormed(arrivals) && Enough(n, Have(arrivals, key))
    ensures i < |arrivals| && FirstEnough(n, arrivals, key, i) && KeyOf(arrivals[i].frame) == key
  {
    if arrivals == [] {
      NothingIsNotEnough(n);
      assert false;
    } else {
      hide Enough, Have;
      var k := |arrivals| - 1;
      if Enough(n, Have(arrivals[..k], key)) {
        i := FirstExists(n, arrivals[..k], key);
        assert arrivals[..k][..i] == arrivals[..i] && arrivals[..k][..i + 1] == arrivals[..i + 1] && arrivals[..k][i] == arrivals[i];
      } else {
        i := k;
        assert arrivals[..k + 1] == arrivals;
        OnlyOwnAdds(arrivals, key);
      }
    }
  }

  lemma NothingIsNotEnough(n: nat)
    requires n >= 1
    ensures !Enough(n, {})
  {
    var none: set<nat> := {};
    assert 0 !in none;
  }

  lemma FirstOnce(n: nat, arrivals: seq<Arrival>, key: Key, i: nat, k: nat)
    requires AllWellFormed(arrivals) && i < |arrivals| && k < |arrivals|
    requires FirstEnough(n, arrivals, key, i) && FirstEnough(n, arrivals, key, k)
    ensures i == k
  {
    hide Enough, Have;
    if i < k {
      assert arrivals[..k][..i + 1] == arrivals[..i + 1];
      HaveGrows(arrivals[..k], key, i + 1);
      EnoughGrows(n, Have(arrivals[..i + 1], key), Have(arrivals[..k], key));
    } else if k < i {
      assert arrivals[..i][..k + 1] == arrivals[..k + 1];
      HaveGrows(arrivals[..i], key, k + 1);
      EnoughGrows(n, Have(arrivals[..k + 1], key), Have(arrivals[..i], key));
    }
  }

  /** The payload comes out at an arrival exactly when that is the first with enough, and then it is the
      message's own. */
  lemma ComesOutIff(timeout: real, maxMessages: nat, ttl: real, m: Message, key: Key, arrivals: seq<Arrival>, i: nat)
    requires maxMessages >= 1 && m.Valid() && AllWellFormed(arrivals) && Carried(arrivals, key, m)
    requires TableInv(EmptyTable(timeout, maxMessages, ttl)) && SparedRun(EmptyTable(timeout, maxMessages, ttl), arrivals, key)
    requires i < |arrivals| && KeyOf(arrivals[i].frame) == key
    ensures var a := Answer(EmptyTable(timeout, maxMessages, ttl), arrivals[..i + 1]);
            && (a.Complete? <==> FirstEnough(|m.Pieces()|, arrivals, key, i))
            && (a.Complete? ==> a.payload == m.payload)
  {
    AnswerAt(timeout, maxMessages, ttl, m, key, arrivals, i);
    hide Carries, SparedRun, Have, TableInv, Answer, Enough, AllData, Chop;
  }

  lemma FirstGrows(n: nat, arrivals: seq<Arrival>, key: Key, i: nat)
    requires AllWellFormed(arrivals) && i < |arrivals| && FirstEnough(n, arrivals, key, i)
    ensures Enough(n, Have(arrivals, key))
  {
    HaveGrows(arrivals, key, i + 1);
    EnoughGrows(n, Have(arrivals[..i + 1], key), Have(arrivals, key));
  }

  /** Each of the message's arrivals brings the payload exactly when it is the first with enough. */
  ghost predicate AnsweredRight(t0: Table, arrivals: seq<Arrival>, key: Key, payload: Bytes, n: nat)
    requires TableInv(t0) && AllWellFormed(arrivals)
  {
    forall i: nat :: i < |arrivals| ==>
      && (ComesOutAt(t0, arrivals, key, payload, i) <==> KeyOf(arrivals[i].frame) == key && FirstEnough(n, arrivals, key, i))
      && (KeyOf(arrivals[i].frame) == key && Answer(t0, arrivals[..i + 1]).Complete? ==> ComesOutAt(t0, arrivals, key, payload, i))
  }

  lemma Answers(timeout: real, maxMessages: nat, ttl: real, m: Message, key: Key, arrivals: seq<Arrival>)
    requires maxMessages >= 1 && m.Valid() && AllWellFormed(arrivals) && Carried(arrivals, key, m)
    requires TableInv(EmptyTable(timeout, maxMessages, ttl)) && SparedRun(EmptyTable(timeout, maxMessages, ttl), arrivals, key)
    ensures AnsweredRight(EmptyTable(timeout, maxMessages, ttl), arrivals, key, m.payload, |m.Pieces()|)
  {
    hide Carried, SparedRun, Have, TableInv, Answer, Enough, Chop, FirstEnough;
    forall i: nat | i < |arrivals| && KeyOf(arrivals[i].frame) == key
      ensures var a := Answer(EmptyTable(timeout, maxMessages, ttl), arrivals[..i + 1]);
              (a.Complete? <==> FirstEnough(|m.Pieces()|, arrivals, key, i)) && (a.Complete? ==> a.payload == m.payload)
    {
      ComesOutIff(timeout, maxMessages, ttl, m, key, arrivals, i);
    }
  }

  lemma OutIffEnough(t0: Table, arrivals: seq<Arrival>, key: Key, payload: Bytes, n: nat)
    requires n >= 1 && TableInv(t0) && AllWellFormed(arrivals) && AnsweredRight(t0, arrivals, key, payload, n)
    ensures (exists i: nat :: i < |arrivals| && ComesOutAt(t0, arrivals, key, payload, i)) <==> Enough(n, Have(arrivals, key))
  {
    hide TableInv, Have, Enough, Answer, FirstEnough, ComesOutAt;
    if Enough(n, Have(arrivals, key)) {
      var i := FirstExists(n, arrivals, key);
      assert ComesOutAt(t0, arrivals, key, payload, i);
    }
    if i: nat :| i < |arrivals| && ComesOutAt(t0, arrivals, key, payload, i) {
      FirstGrows(n, arrivals, key, i);
    }
  }

  lemma OutOnce(t0: Table, arrivals: seq<Arrival>, key: Key, payload: Bytes, n: nat, i: nat, k: nat)
    requires TableInv(t0) && AllWellFormed(arrivals) && AnsweredRight(t0, arrivals, key, payload, n)
    requires i < |arrivals| && k < |arrivals|
    requires ComesOutAt(t0, arrivals, key, payload, i) && ComesOutAt(t0, arrivals, key, payload, k)
    ensures i == k
  {
    hide TableInv, Have, Enough, Answer, FirstEnough, ComesOutAt;
    FirstOnce(n, arrivals, key, i, k);
  }

  /** The payload comes out of the run exactly if it is due, at one arrival only, and nothing else comes out
      under the key. */
  ghost predicate ComesOut(t0: Table, arrivals: seq<Arrival>, key: Key, payload: Bytes, due: bool)
    requires TableInv(t0) && AllWellFormed(arrivals)
  {
    && ((exists i: nat :: i < |arrivals| && ComesOutAt(t0, arrivals, key, payload, i)) <==> due)
    && (forall i: nat :: i < |arrivals| && KeyOf(arrivals[i].frame) == key && Answer(t0, arrivals[..i + 1]).Complete? ==>
                           ComesOutAt(t0, arrivals, key, payload, i))
    && (forall i, k :: 0 <= i < k < |arrivals| ==>
                         !ComesOutAt(t0, arrivals, key, payload, i) || !ComesOutAt(t0, arrivals, key, payload, k))
  }

  lemma NothingElse(t0: Table, arrivals: seq<Arrival>, key: Key, payload: Bytes, n: nat)
    requires TableInv(t0) && AllWellFormed(arrivals) && AnsweredRight(t0, arrivals, key, payload, n)
    ensures forall i: nat :: i < |arrivals| && KeyOf(arrivals[i].frame) == key && Answer(t0, arrivals[..i + 1]).Complete? ==>
                               ComesOutAt(t0, arrivals, key, payload, i)
  {
    hide TableInv, Answer, FirstEnough, ComesOutAt;
  }

  lemma Settled(t0: Table, arrivals: seq<Arrival>, key: Key, payload: Bytes, n: nat)
    requires n >= 1 && TableInv(t0) && AllWellFormed(arrivals) && AnsweredRight(t0, arrivals, key, payload, n)
    ensures ComesOut(t0, arrivals, key, payload, Enough(n, Have(arrivals, key)))
  {
    hide TableInv, Have, Enough, Answer, ComesOutAt, AnsweredRight;
    OutIffEnough(t0, arrivals, key, payload, n);
    NothingElse(t0, arrivals, key, payload, n);
    forall i, k | 0 <= i < k < |arrivals|
      ensures !ComesOutAt(t0, arrivals, key, payload, i) || !ComesOutAt(t0, arrivals, key, payload, k)
    {
      if ComesOutAt(t0, arrivals, key, payload, i) && ComesOutAt(t0, arrivals, key, payload, k) {
        OutOnce(t0, arrivals, key, payload, n, i, k);
      }
    }
  }

  /** Cutting and putting together again: of the fragments of one call of the fragmenter any may arrive any
      number of times, in any order, with anything else in between. As long as the message's own entry is
      spared, the payload comes out if and only if all fragments have arrived, or all but one where there is
      a parity; it comes out once, and nothing else does. */
  lemma FragmentsComeOut(timeout: real, maxMessages: nat, ttl: real, payload: Bytes, f: nat, fec: bool,
                         specs: seq<FragmentSpec>, key: Key, arrivals: seq<Arrival>)
    requires 256 <= f <= MAX_FRAGMENT_PAYLOAD && |payload| <= MAX_MESSAGE_SIZE && CutOf(payload, f, fec, specs)
    requires maxMessages >= 1 && AllWellFormed(arrivals) && OnlyThese(arrivals, key, specs)
    requires SparedRun(EmptyTable(timeout, maxMessages, ttl), arrivals, key)
    ensures TableInv(EmptyTable(timeout, maxMessages, ttl))
    ensures ComesOut(EmptyTable(timeout, maxMessages, ttl), arrivals, key, payload, EnoughArrived(arrivals, key, specs))
  {
    var t0, m := EmptyTable(timeout, maxMessages, ttl), Message(payload, f, fec);
    CutUnique(payload, f, fec, specs);
    assert m.Valid() && specs == m.Specs();
    hide *;
    EmptyInv(timeout, maxMessages, ttl);
    CarriedAll(arrivals, key, m);
    EnoughIff(arrivals, key, m);
    SpecsShape(m);
    var n := |m.Pieces()|;
    Answers(timeout, maxMessages, ttl, m, key, arrivals);
    Settled(t0, arrivals, key, payload, n);
  }

  // ------------------------------------------------------------------------------------ by packets

  ghost predicate CanSend(e: Endpoint, payload: Bytes, messageId: int, slots: seq<Slot>) {
    var m := Message(payload, e.fragmentSize, e.fec);
    && e.codec.Valid() && Fits64(messageId) && m.Valid()
    && |slots| == |m.Specs()| && forall i :: 0 <= i < |slots| ==> SlotOk(slots[i])
  }

  ghost predicate SameTunnel(d: Codec, c: Codec) {
    d.Valid() && d.suite == c.suite && d.tunnelId == c.tunnelId
  }

  predicate InTime(d: Codec, timestamp: int, wall: int) {
    -(d.skew as int) <= wall - timestamp <= d.skew
  }

  /** The j-th packet of a message decodes on the other side, whenever its timestamp is in time there, to a
      data frame of that direction with the j-th fragment, under the sender's session, the message id and
      the number drawn for it. */
  lemma PacketCarries(e: Endpoint, payload: Bytes, messageId: int, slots: seq<Slot>, specs: seq<FragmentSpec>, j: nat, d: Codec, wall: int)
    requires CanSend(e, payload, messageId, slots) && SameTunnel(d, e.codec)
    requires CutOf(payload, e.fragmentSize, e.fec, specs) && j < |specs|
    ensures |MessagePackets(e, payload, messageId, slots)| == |specs| == |slots|
    ensures var r := Decode(d, MessagePackets(e, payload, messageId, slots)[j], wall);
            && (r.Ok? <==> InTime(d, slots[j].timestamp, wall))
            && (r.Ok? ==>
                  && r.value.WellFormed() && CarriesSpec(r.value, specs[j])
                  && KeyOf(r.value) == Key(e.codec.session, messageId)
                  && r.value.sequence == slots[j].sequence && r.value.timestamp == slots[j].timestamp
                  && r.value.kind == if e.role.Iran? then 1 else 2)
  {
    CutUnique(payload, e.fragmentSize, e.fec, specs);
    var m := Message(payload, e.fragmentSize, e.fec);
    FragmentPasses(e.codec, e.role.DataOut(), messageId, m, j, slots[j]);
    var f := DataFrame(e.codec, e.role.DataOut(), messageId, specs[j], slots[j]);
    assert MessagePackets(e, payload, messageId, slots)[j] == Seal(e.codec.suite, f) by {
      hide FragmentsOf, Seal, EncodeGuards, Lawful, CutOf;
    }
    hide FragmentsOf, Seal, EncodeGuards, Lawful, CutOf, Decode, MessagePackets, Carries, Encode;
    DecodeSeal(d, f, wall);
  }

  ghost predicate DecodedFrom(f: Frame, d: Codec, packet: Bytes) {
    exists wall :: Decode(d, packet, wall) == Ok(f)
  }

  /** Every arrival under the key was decoded from one of these packets. */
  ghost predicate OnlyFrom(arrivals: seq<Arrival>, key: Key, d: Codec, packets: seq<Bytes>) {
    forall i :: 0 <= i < |arrivals| && KeyOf(arrivals[i].frame) == key ==>
                  exists j :: 0 <= j < |packets| && DecodedFrom(arrivals[i].frame, d, packets[j])
  }

  ghost predicate Received(arrivals: seq<Arrival>, key: Key, d: Codec, packet: Bytes) {
    exists i :: 0 <= i < |arrivals| && KeyOf(arrivals[i].frame) == key && DecodedFrom(arrivals[i].frame, d, packet)
  }

  /** All packets have been received, or all but any one if there are several and error correction is on. */
  ghost predicate EnoughReceived(arrivals: seq<Arrival>, key: Key, d: Codec, packets: seq<Bytes>, fec: bool) {
    exists lost: nat :: ReceivedBut(arrivals, key, d, packets, lost) && (lost < |packets| ==> fec && |packets| > 1)
  }

  ghost predicate ReceivedBut(arrivals: seq<Arrival>, key: Key, d: Codec, packets: seq<Bytes>, lost: nat) {
    forall j :: 0 <= j < |packets| && j != lost ==> Received(arrivals, key, d, packets[j])
  }

  lemma DecodedCarries(e: Endpoint, payload: Bytes, messageId: int, slots: seq<Slot>, specs: seq<FragmentSpec>, j: nat, d: Codec, f: Frame)
    requires CanSend(e, payload, messageId, slots) && SameTunnel(d, e.codec)
    requires CutOf(payload, e.fragmentSize, e.fec, specs) && j < |specs|
    ensures |MessagePackets(e, payload, messageId, slots)| == |specs|
    ensures DecodedFrom(f, d, MessagePackets(e, payload, messageId, slots)[j]) ==> CarriesSpec(f, specs[j])
  {
    var packets := MessagePackets(e, payload, messageId, slots);
    hide CanSend, CutOf, MessagePackets, Decode, CarriesSpec, SameTunnel, InTime;
    PacketCarries(e, payload, messageId, slots, specs, j, d, 0);
    if DecodedFrom(f, d, packets[j]) {
      var wall :| Decode(d, packets[j], wall) == Ok(f);
      PacketCarries(e, payload, messageId, slots, specs, j, d, wall);
    }
  }

  lemma IndexOf(p: Bytes, f: nat, fec: bool, specs: seq<FragmentSpec>, j: nat)
    requires CutOf(p, f, fec, specs) && j < |specs|
    ensures specs[j].index == j
    ensures specs[|specs| - 1].flags == FLAG_PARITY <==> fec && |specs| > 1
  {
    var n := if fec && |p| > f then |specs| - 1 else |specs|;
    assert j < n ==> IsData(p, f, n, j, specs[j]);
    assert |specs| - 1 < n ==> IsData(p, f, n, |specs| - 1, specs[|specs| - 1]);
    if n > 1 {
      Times(1, n - 1, f);
    }
    hide Column, Slice;
  }

  /** What arrived, by packets and by fragments. */
  lemma ReceivedIff(e: Endpoint, payload: Bytes, messageId: int, slots: seq<Slot>, specs: seq<FragmentSpec>, d: Codec,
                    key: Key, arrivals: seq<Arrival>)
    requires CanSend(e, payload, messageId, slots) && SameTunnel(d, e.codec) && CutOf(payload, e.fragmentSize, e.fec, specs)
    requires OnlyFrom(arrivals, key, d, MessagePackets(e, payload, messageId, slots))
    ensures OnlyThese(arrivals, key, specs)
    ensures EnoughReceived(arrivals, key, d, MessagePackets(e, payload, messageId, slots), e.fec) <==> EnoughArrived(arrivals, key, specs)
  {
    var packets := MessagePackets(e, payload, messageId, slots);
    assert |specs| == |packets| && |specs| >= 1 by {
      CutUnique(payload, e.fragmentSize, e.fec, specs);
      SpecsShape(Message(payload, e.fragmentSize, e.fec));
    }
    hide *;
    forall f, j: nat | j < |specs|
      ensures DecodedFrom(f, d, packets[j]) ==> CarriesSpec(f, specs[j])
      ensures specs[j].index == j && (specs[|specs| - 1].flags == FLAG_PARITY <==> e.fec && |specs| > 1)
    {
      DecodedCarries(e, payload, messageId, slots, specs, j, d, f);
      IndexOf(payload, e.fragmentSize, e.fec, specs, j);
    }
    OnlyIff(specs, d, packets, key, arrivals);
    forall j: nat | j < |specs|
      ensures Received(arrivals, key, d, packets[j]) <==> Arrived(arrivals, key, specs[j])
    {
      OneIff(specs, d, packets, key, arrivals, j);
    }
    AllIff(specs, d, packets, key, arrivals, e.fec);
  }

  lemma OnlyIff(specs: seq<FragmentSpec>, d: Codec, packets: seq<Bytes>, key: Key, arrivals: seq<Arrival>)
    requires |specs| == |packets| && OnlyFrom(arrivals, key, d, packets)
    requires forall f, j: nat :: j < |specs| && DecodedFrom(f, d, packets[j]) ==> CarriesSpec(f, specs[j])
    ensures OnlyThese(arrivals, key, specs)
  {
    hide DecodedFrom, CarriesSpec;
  }

  lemma OneIff(specs: seq<FragmentSpec>, d: Codec, packets: seq<Bytes>, key: Key, arrivals: seq<Arrival>, j: nat)
    requires |specs| == |packets| && OnlyFrom(arrivals, key, d, packets) && j < |specs|
    requires forall f, j: nat :: j < |specs| && DecodedFrom(f, d, packets[j]) ==> CarriesSpec(f, specs[j])
    requires forall j: nat :: j < |specs| ==> specs[j].index == j
    ensures Received(arrivals, key, d, packets[j]) <==> Arrived(arrivals, key, specs[j])
  {
    hide DecodedFrom;
    if Arrived(arrivals, key, specs[j]) {
      var i :| 0 <= i < |arrivals| && KeyOf(arrivals[i].frame) == key && CarriesSpec(arrivals[i].frame, specs[j]);
      var k :| 0 <= k < |packets| && DecodedFrom(arrivals[i].frame, d, packets[k]);
      assert specs[k].index == specs[j].index;
    }
  }

  lemma AllIff(specs: seq<FragmentSpec>, d: Codec, packets: seq<Bytes>, key: Key, arrivals: seq<Arrival>, fec: bool)
    requires |specs| == |packets| >= 1 && (specs[|specs| - 1].flags == FLAG_PARITY <==> fec && |specs| > 1)
    requires forall j: nat :: j < |specs| ==> (Received(arrivals, key, d, packets[j]) <==> Arrived(arrivals, key, specs[j]))
    ensures EnoughReceived(arrivals, key, d, packets, fec) <==> EnoughArrived(arrivals, key, specs)
  {
    hide Received, Arrived;
    assert forall lost: nat :: ReceivedBut(arrivals, key, d, packets, lost) <==> AllBut(arrivals, key, specs, lost);
  }

  /** End to end: the packets of one message may arrive at the other side any number of times, in any order,
      with anything else in between, or not at all. As long as the message's own entry is spared there, its
      payload comes out if and only if all packets have arrived in time, or all but one where there is a
      parity; it comes out once, with the submitted bytes. */
  lemma MessageComesOut(timeout: real, maxMessages: nat, ttl: real, e: Endpoint, payload: Bytes, messageId: int, slots: seq<Slot>,
                        d: Codec, arrivals: seq<Arrival>)
    requires CanSend(e, payload, messageId, slots) && SameTunnel(d, e.codec)
    requires maxMessages >= 1 && AllWellFormed(arrivals)
    requires OnlyFrom(arrivals, Key(e.codec.session, messageId), d, MessagePackets(e, payload, messageId, slots))
    requires SparedRun(EmptyTable(timeout, maxMessages, ttl), arrivals, Key(e.codec.session, messageId))
    ensures TableInv(EmptyTable(timeout, maxMessages, ttl))
    ensures var key := Key(e.codec.session, messageId);
            ComesOut(EmptyTable(timeout, maxMessages, ttl), arrivals, key, payload,
                     EnoughReceived(arrivals, key, d, MessagePackets(e, payload, messageId, slots), e.fec))
  {
    var key := Key(e.codec.session, messageId);
    var specs := FragmentsOf(payload, e.fragmentSize, e.fec);
    CutUnique(payload, e.fragmentSize, e.fec, specs);
    assert 256 <= e.fragmentSize <= MAX_FRAGMENT_PAYLOAD && |payload| <= MAX_MESSAGE_SIZE;
    hide *;
    ReceivedIff(e, payload, messageId, slots, specs, d, key, arrivals);
    FragmentsComeOut(timeout, maxMessages, ttl, payload, e.fragmentSize, e.fec, specs, key, arrivals);
  }

  /** In particular in a run in which nothing times out and nothing is evicted. */
  lemma MessageComesOutInQuiet(timeout: real, maxMessages: nat, ttl: real, e: Endpoint, payload: Bytes, messageId: int, slots: seq<Slot>,
                               d: Codec, arrivals: seq<Arrival>)
    requires CanSend(e, payload, messageId, slots) && SameTunnel(d, e.codec)
    requires maxMessages >= 1 && AllWellFormed(arrivals)
    requires OnlyFrom(arrivals, Key(e.codec.session, messageId), d, MessagePackets(e, payload, messageId, slots))
    requires QuietRun(EmptyTable(timeout, maxMessages, ttl), arrivals)
    ensures TableInv(EmptyTable(timeout, maxMessages, ttl))
    ensures var key := Key(e.codec.session, messageId);
            ComesOut(EmptyTable(timeout, maxMessages, ttl), arrivals, key, payload,
                     EnoughReceived(arrivals, key, d, MessagePackets(e, payload, messageId, slots), e.fec))
  {
    var packets := MessagePackets(e, payload, messageId, slots);
    hide *;
    EmptyInv(timeout, maxMessages, ttl);
    QuietRunSpares(EmptyTable(timeout, maxMessages, ttl), arrivals, Key(e.codec.session, messageId));
    MessageComesOut(timeout, maxMessages, ttl, e, payload, messageId, slots, d, arrivals);
  }
}
