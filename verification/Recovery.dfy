/** Assembling the genuine fragments of one message: when it succeeds, and with what. */
module Recovery {
  import opened Common
  import opened Bits
  import opened Frames
  import opened Fragmentation

  /** A submitted message together with how the sender cuts it. */
  datatype Message = Message(payload: Bytes, fragmentSize: nat, fec: bool) {
    predicate Valid() {
      256 <= fragmentSize <= MAX_FRAGMENT_PAYLOAD && |payload| <= MAX_MESSAGE_SIZE
    }

    function Pieces(): seq<Bytes>
      requires Valid()
    {
      Chop(payload, fragmentSize)
    }

    function Specs(): seq<FragmentSpec>
      requires Valid()
    {
      FragmentsOf(payload, fragmentSize, fec)
    }
  }

  /** The frame carries one of the message's fragments. */
  ghost predicate Carries(frame: Frame, m: Message)
    requires m.Valid()
  {
    var n := |m.Pieces()|;
    && frame.messageLen == |m.payload|
    && frame.count == n
    && if frame.IsParity() then m.fec && n > 1 && frame.index == n && frame.payload == Parity(m.Pieces(), m.fragmentSize)
       else 0 <= frame.index < n && frame.payload == m.Pieces()[frame.index]
  }

  ghost predicate AllData(n: nat, have: set<nat>) {
    forall i :: 0 <= i < n ==> i in have
  }

  ghost predicate AllDataBut(n: nat, have: set<nat>, k: nat) {
    k < n && k !in have && forall i :: 0 <= i < n && i != k ==> i in have
  }

  /** All data fragments have arrived, or all but one and the parity (which has index n). */
  ghost predicate Enough(n: nat, have: set<nat>) {
    AllData(n, have) || (n in have && exists k: nat :: AllDataBut(n, have, k))
  }

  /** The assembly holds exactly the fragments `have` of message m. */
  ghost predicate Holds(a: Assembly, m: Message, have: set<nat>)
    requires m.Valid()
  {
    var n := |m.Pieces()|;
    && a.messageLen == |m.payload|
    && a.count == n
    && (forall i :: i in have ==> i <= n)
    && (forall i :: i in a.fragments <==> i in have && i < n)
    && (forall i :: i in a.fragments ==> a.fragments[i] == m.Pieces()[i])
    && a.parity == if n in have then Some(Parity(m.Pieces(), m.fragmentSize)) else None
  }

  function Range(n: nat): (r: set<nat>)
    ensures forall i :: i in r <==> 0 <= i < n
    ensures |r| == n
  {
    if n == 0 then {} else Range(n - 1) + {n - 1}
  }

  lemma SubsetFull<T>(a: set<T>, b: set<T>)
    requires a <= b && |a| >= |b|
    ensures a == b
  {
    assert b == a + (b - a);
    assert |b| == |a| + |b - a|;
  }

  lemma SubsetCard<T>(a: set<T>, b: set<T>)
    requires a <= b
    ensures |a| <= |b|
  {
    assert b == a + (b - a);
  }

  /** XORing everything with everything but piece k leaves piece k. */
  lemma {:induction false} ColumnHole(ps: seq<Bytes>, k: nat, o: nat)
    requires k < |ps|
    ensures XorByte(Column(ps, o), Column(ps[k := []], o)) == Cell(ps[k], o)
  {
    var n := |ps| - 1;
    var c := Column(ps[..n], o);
    var x := Cell(ps[n], o);
    if k == n {
      assert ps[k := []][..n] == ps[..n];
      XorZero(c);
      XorComm(c, x);
      XorAssoc(x, c, c);
      XorSelf(c);
      XorZero(x);
    } else {
      assert ps[k := []][..n] == ps[..n][k := []];
      XorCancel(c, Column(ps[..n][k := []], o), x);
      ColumnHole(ps[..n], k, o);
    }
  }

  lemma KeysFull(n: nat, keys: set<nat>)
    requires keys <= Range(n)
    ensures |keys| <= n
    ensures |keys| == n <==> forall i :: 0 <= i < n ==> i in keys
  {
    SubsetCard(keys, Range(n));
    if |keys| == n {
      SubsetFull(keys, Range(n));
    } else if forall i :: 0 <= i < n ==> i in keys {
      SubsetCard(Range(n), keys);
    }
  }

  lemma KeysHole(n: nat, keys: set<nat>, k: nat)
    requires keys <= Range(n) && k < n && k !in keys
    ensures |keys| == n - 1 <==> forall i :: 0 <= i < n && i != k ==> i in keys
  {
    var rest := Range(n) - {k};
    assert |rest| == n - 1;
    assert keys <= rest;
    assert (forall i :: 0 <= i < n && i != k ==> i in keys) ==> keys == rest;
    if |keys| == n - 1 {
      SubsetFull(keys, rest);
    }
  }

  /** How the number of data fragments held tells which case applies. */
  lemma HaveKeys(n: nat, have: set<nat>, keys: set<nat>, k: nat)
    requires forall i :: i in have ==> i <= n
    requires forall i :: i in keys <==> i in have && i < n
    ensures |keys| <= n
    ensures |keys| == n <==> AllData(n, have)
    ensures AllDataBut(n, have, k) ==> |keys| == n - 1
    ensures k < n && k !in keys && |keys| == n - 1 ==> AllDataBut(n, have, k)
    ensures |have| == |keys| + if n in have then 1 else 0
  {
    KeysFull(n, keys);
    if k < n && k !in keys {
      KeysHole(n, keys, k);
    }
    HaveCard(n, have, keys);
  }

  lemma HaveCard(n: nat, have: set<nat>, keys: set<nat>)
    requires forall i :: i in have ==> i <= n
    requires forall i :: i in keys <==> i in have && i < n
    ensures |have| == |keys| + if n in have then 1 else 0
  {
    assert have == if n in have then keys + {n} else keys;
  }

  lemma FragmentKeys(a: Assembly, m: Message, have: set<nat>, k: nat)
    requires m.Valid() && Holds(a, m, have)
    ensures |a.fragments| <= a.count
    ensures |a.fragments| == a.count <==> AllData(a.count, have)
    ensures AllDataBut(a.count, have, k) ==> |a.fragments| == a.count - 1
    ensures |a.fragments| == a.count - 1 ==> AllDataBut(a.count, have, FirstMissing(a.fragments, 0, a.count))
    ensures |have| == |a.fragments| + if a.parity.Some? then 1 else 0
  {
    hide Chop, Parity;
    HaveKeys(a.count, have, a.fragments.Keys, k);
    HaveKeys(a.count, have, a.fragments.Keys, FirstMissing(a.fragments, 0, a.count));
  }

  /** With every data fragment present the pieces join to the payload. */
  lemma AssembleAll(a: Assembly, m: Message, have: set<nat>)
    requires m.Valid() && Holds(a, m, have) && AllData(a.count, have)
    ensures Assemble(a).0 == Done(m.payload, false)
  {
    FragmentKeys(a, m, have, 0);
    assert Slots(a.fragments, a.count) == m.Pieces();
    JoinChop(m.payload, m.fragmentSize);
  }

  /** All pieces are full but the last, which has what is left. */
  lemma PieceLengths(m: Message)
    requires m.Valid()
    ensures var ps, f := m.Pieces(), m.fragmentSize;
            forall i :: 0 <= i < |ps| ==>
              && |ps[i]| == (if i < |ps| - 1 then f else |m.payload| - f * (|ps| - 1))
              && |ps[i]| <= f
  {
    var ps, f := m.Pieces(), m.fragmentSize;
    forall i | 0 <= i < |ps|
      ensures |ps[i]| == (if i < |ps| - 1 then f else |m.payload| - f * (|ps| - 1)) && |ps[i]| <= f
    {
      ChopAt(m.payload, f, i);
      assert (i + 1) * f == i * f + f && f * i == i * f;
    }
  }

  /** With one data fragment missing and the parity present, the missing piece is recovered. */
  lemma RecoveredPiece(a: Assembly, m: Message, have: set<nat>, k: nat)
    requires m.Valid() && Holds(a, m, have) && a.count in have && AllDataBut(a.count, have, k)
    ensures |a.parity.value| == m.fragmentSize
    ensures !Oversized(a, m.fragmentSize)
    ensures ExpectedLength(a, k) == |m.Pieces()[k]| <= m.fragmentSize
    ensures Recovered(a)[..|m.Pieces()[k]|] == m.Pieces()[k]
  {
    PieceLengths(m);
    hide Chop, Column, XorByte;
    var ps, f := m.Pieces(), m.fragmentSize;
    assert Slots(a.fragments, a.count) == ps[k := []];
    assert |ps[k]| <= f;
    assert forall i :: 0 <= i < |ps| ==> |ps[i]| <= f && |ps[k := []][i]| <= f;
    forall o | 0 <= o < |ps[k]|
      ensures Recovered(a)[o] == ps[k][o]
    {
      ColumnHole(ps, k, o);
    }
  }

  lemma AssembleParity(a: Assembly, m: Message, have: set<nat>, k: nat)
    requires m.Valid() && Holds(a, m, have) && a.count in have && AllDataBut(a.count, have, k)
    ensures Assemble(a).0 == Done(m.payload, true)
  {
    FragmentKeys(a, m, have, k);
    assert |a.fragments| == a.count - 1;
    assert FirstMissing(a.fragments, 0, a.count) == k;
    RecoveredPiece(a, m, have, k);
    var filled := a.fragments[k := m.Pieces()[k]];
    assert Slots(filled, a.count) == m.Pieces();
    JoinChop(m.payload, m.fragmentSize);
  }

  /** Genuine fragments complete a message exactly when there are enough of them, with the original
      payload, and never raise an error. */
  lemma AssembleExact(a: Assembly, m: Message, have: set<nat>)
    requires m.Valid() && Holds(a, m, have)
    ensures !Enough(a.count, have) ==> Assemble(a) == (Waiting, a)
    ensures Enough(a.count, have) ==> Assemble(a).0 == Done(m.payload, !AllData(a.count, have))
    ensures Enough(a.count, have) ==> |have| >= a.count
  {
    FragmentKeys(a, m, have, 0);
    if AllData(a.count, have) {
      AssembleAll(a, m, have);
    } else if Enough(a.count, have) {
      var k :| AllDataBut(a.count, have, k);
      FragmentKeys(a, m, have, k);
      AssembleParity(a, m, have, k);
    }
  }
}
