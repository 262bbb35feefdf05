/** Cutting a message into fragments with one XOR parity fragment, and putting it together again. */
module Fragmentation {
  import opened Common
  import opened Bits
  import opened Frames

  datatype FragmentSpec = FragmentSpec(payload: Bytes, messageLen: nat, index: nat, count: nat, flags: int)

  datatype FragmentError = BadFragmentSize | MessageTooLong

  // ----------------------------------------------------------------------------- pieces and parity

  /** The reference cut: pieces of `f` bytes, the last one shorter; an empty message is one empty piece. */
  function Chop(p: Bytes, f: nat): seq<Bytes>
    requires f > 0
    decreases |p|
  {
    if |p| <= f then [p] else [p[..f]] + Chop(p[f..], f)
  }

  function Join(ps: seq<Bytes>): Bytes {
    if ps == [] then [] else ps[0] + Join(ps[1..])
  }

  function Cell(piece: Bytes, o: nat): byte {
    if o < |piece| then piece[o] else 0
  }

  /** The XOR of byte `o` of every piece, a piece that is too short counting as zero. */
  function Column(ps: seq<Bytes>, o: nat): byte {
    if ps == [] then 0 else XorByte(Column(ps[..|ps| - 1], o), Cell(ps[|ps| - 1], o))
  }

  function Parity(ps: seq<Bytes>, f: nat): Bytes {
    seq(f, o requires o >= 0 => Column(ps, o))
  }

  /** max(1, ceil(n / f)) */
  function Count(n: nat, f: nat): nat
    requires f > 0
  {
    Max(1, (n + f - 1) / f)
  }

  function DataSpec(p: Bytes, f: nat, i: nat): FragmentSpec
    requires f > 0 && i < |Chop(p, f)|
  {
    FragmentSpec(Chop(p, f)[i], |p|, i, |Chop(p, f)|, 0)
  }

  function ParitySpec(p: Bytes, f: nat): FragmentSpec
    requires f > 0
  {
    var ps := Chop(p, f);
    FragmentSpec(Parity(ps, f), |p|, |ps|, |ps|, FLAG_PARITY)
  }

  function FragmentsOf(p: Bytes, f: nat, fec: bool): seq<FragmentSpec>
    requires f > 0
  {
    seq(|Chop(p, f)|, i requires 0 <= i < |Chop(p, f)| => DataSpec(p, f, i))
    + if fec && |Chop(p, f)| > 1 then [ParitySpec(p, f)] else []
  }

  lemma {:induction false} JoinChop(p: Bytes, f: nat)
    requires f > 0
    ensures Join(Chop(p, f)) == p
    decreases |p|
  {
    if |p| > f {
      JoinChop(p[f..], f);
      assert Chop(p, f)[1..] == Chop(p[f..], f);
    } else {
      assert Chop(p, f)[1..] == [];
    }
  }

  /** The i-th piece is the i-th slice, and all pieces but the last are full. */
  lemma {:induction false} ChopAt(p: Bytes, f: nat, i: nat)
    requires f > 0 && i < |Chop(p, f)|
    ensures i * f <= |p|
    ensures i < |Chop(p, f)| - 1 ==> (i + 1) * f < |p| && Chop(p, f)[i] == p[i * f..(i + 1) * f]
    ensures i == |Chop(p, f)| - 1 ==> |p| <= (i + 1) * f && Chop(p, f)[i] == p[i * f..]
    ensures i > 0 ==> i * f < |p|
    decreases |p|
  {
    if |p| > f {
      if i > 0 {
        ChopAt(p[f..], f, i - 1);
        assert (i - 1) * f + f == i * f && i * f + f == (i + 1) * f;
        if i < |Chop(p, f)| - 1 {
          assert p[f..][(i - 1) * f..i * f] == p[i * f..(i + 1) * f];
        } else {
          assert p[f..][(i - 1) * f..] == p[i * f..];
        }
      } else if |Chop(p[f..], f)| > 0 {
        ChopAt(p[f..], f, 0);
      }
    }
  }

  lemma {:induction false} ChopNonEmpty(p: Bytes, f: nat)
    requires f > 0
    ensures |Chop(p, f)| >= 1
    decreases |p|
  {
  }

  /** There are exactly max(1, ceil(n / f)) pieces. */
  lemma ChopCount(p: Bytes, f: nat)
    requires f > 0
    ensures |Chop(p, f)| == Count(|p|, f)
  {
    ChopNonEmpty(p, f);
    var c := |Chop(p, f)|;
    ChopAt(p, f, c - 1);
    if |p| > 0 {
      QuotientUnique(|p| + f - 1, f, c, |p| - 1 - (c - 1) * f);
    } else {
      QuotientUnique(f - 1, f, 0, f - 1);
    }
  }

  lemma QuotientUnique(n: nat, f: nat, q: nat, r: nat)
    requires f > 0 && n == q * f + r && r < f
    ensures n / f == q
  {
    var q' := n / f;
    assert q' * f <= n < q' * f + f;
    assert q' > q ==> q' * f >= (q + 1) * f == q * f + f;
    assert q' < q ==> q * f >= (q' + 1) * f == q' * f + f;
  }

  lemma MulGrows(k: nat, f: nat)
    requires f >= 256
    ensures k * 256 <= k * f
  {
  }

  /** A message within the size limit needs at most 235 pieces, so the fragment limit of 256 is never hit. */
  lemma CountBound(p: Bytes, f: nat)
    requires f >= 256 && |p| <= MAX_MESSAGE_SIZE
    ensures 1 <= |Chop(p, f)| <= 235
  {
    ChopNonEmpty(p, f);
    var c := |Chop(p, f)|;
    ChopAt(p, f, c - 1);
    MulGrows(c - 1, f);
  }

  // ------------------------------------------------------------- the fragments, on the list alone

  /** payload[from:to], both ends being cut to the length. */
  function Slice(p: Bytes, from: nat, to: nat): Bytes
    requires from <= to
  {
    p[Min(from, |p|)..Min(to, |p|)]
  }

  /** The i-th of n data fragments carries the i-th slice. */
  ghost predicate IsData(p: Bytes, f: nat, n: nat, i: nat, spec: FragmentSpec) {
    spec == FragmentSpec(Slice(p, i * f, i * f + f), |p|, i, n, 0)
  }

  function PayloadsOf(specs: seq<FragmentSpec>): seq<Bytes> {
    seq(|specs|, i requires 0 <= i < |specs| => specs[i].payload)
  }

  /** The parity of n data fragments has index n, `f` bytes, and in each byte the XOR of that column. */
  ghost predicate IsParity(p: Bytes, f: nat, specs: seq<FragmentSpec>, n: nat, spec: FragmentSpec)
    requires n <= |specs|
  {
    && spec.messageLen == |p| && spec.index == n && spec.count == n && spec.flags == FLAG_PARITY
    && |spec.payload| == f
    && forall o :: 0 <= o < f ==> spec.payload[o] == Column(PayloadsOf(specs[..n]), o)
  }

  /** The least number of data fragments that hold the payload, but at least one, in order; behind them
      one parity if error correction is on and the payload takes more than one fragment. */
  ghost predicate CutOf(p: Bytes, f: nat, fec: bool, specs: seq<FragmentSpec>) {
    var n := if fec && |p| > f then |specs| - 1 else |specs|;
    && n >= 1 && |p| <= n * f && (n > 1 ==> (n - 1) * f < |p|)
    && (forall i :: 0 <= i < n ==> IsData(p, f, n, i, specs[i]))
    && (n < |specs| ==> IsParity(p, f, specs, n, specs[n]))
  }

  lemma ChopSlice(p: Bytes, f: nat, i: nat)
    requires f > 0 && i < |Chop(p, f)|
    ensures Chop(p, f)[i] == Slice(p, i * f, i * f + f)
  {
    ChopAt(p, f, i);
    assert (i + 1) * f == i * f + f;
  }

  lemma ChopLeast(p: Bytes, f: nat)
    requires f > 0
    ensures var n := |Chop(p, f)|; n >= 1 && |p| <= n * f && (n > 1 ==> (n - 1) * f < |p|)
    ensures |Chop(p, f)| > 1 <==> |p| > f
  {
    ChopNonEmpty(p, f);
    var n := |Chop(p, f)|;
    ChopAt(p, f, n - 1);
    assert (n - 1) * f + f == n * f;
    assert |p| > f ==> |Chop(p[f..], f)| >= 1 by {
      if |p| > f {
        ChopNonEmpty(p[f..], f);
      }
    }
  }

  lemma Times(a: nat, b: nat, f: nat)
    requires a <= b
    ensures a * f <= b * f
  {
  }

  /** Only one number of fragments is the least. */
  lemma LeastUnique(size: nat, f: nat, n: nat, k: nat)
    requires n >= 1 && size <= n * f && (n > 1 ==> (n - 1) * f < size)
    requires k >= 1 && size <= k * f && (k > 1 ==> (k - 1) * f < size)
    ensures n == k
  {
    if n > k {
      Times(k, n - 1, f);
    } else if k > n {
      Times(n, k - 1, f);
    }
  }

  lemma PiecesOf(p: Bytes, f: nat, specs: seq<FragmentSpec>)
    requires f > 0 && |Chop(p, f)| <= |specs|
    requires forall i :: 0 <= i < |Chop(p, f)| ==> specs[i].payload == Chop(p, f)[i]
    ensures PayloadsOf(specs[..|Chop(p, f)|]) == Chop(p, f)
  {
  }

  lemma DataIs(p: Bytes, f: nat, i: nat, spec: FragmentSpec)
    requires f > 0 && i < |Chop(p, f)|
    ensures IsData(p, f, |Chop(p, f)|, i, spec) <==> spec == DataSpec(p, f, i)
  {
    ChopSlice(p, f, i);
    hide Chop, Slice;
  }

  lemma ParityIs(p: Bytes, f: nat, specs: seq<FragmentSpec>, spec: FragmentSpec)
    requires f > 0 && |Chop(p, f)| <= |specs|
    requires forall i :: 0 <= i < |Chop(p, f)| ==> specs[i] == DataSpec(p, f, i)
    ensures IsParity(p, f, specs, |Chop(p, f)|, spec) <==> spec == ParitySpec(p, f)
  {
    hide Chop, Column;
    PiecesOf(p, f, specs);
    if IsParity(p, f, specs, |Chop(p, f)|, spec) {
      assert spec.payload == Parity(Chop(p, f), f);
    }
  }

  /** The reference cut is the one list that satisfies the description. */
  lemma CutUnique(p: Bytes, f: nat, fec: bool, specs: seq<FragmentSpec>)
    requires f > 0
    ensures CutOf(p, f, fec, specs) <==> specs == FragmentsOf(p, f, fec)
  {
    ChopLeast(p, f);
    var n := |Chop(p, f)|;
    var k := if fec && |p| > f then |specs| - 1 else |specs|;
    hide Chop, DataSpec, ParitySpec, IsData, IsParity;
    if CutOf(p, f, fec, specs) {
      LeastUnique(|p|, f, n, k);
    }
    if k == n {
      forall i | 0 <= i < n
        ensures IsData(p, f, n, i, specs[i]) <==> specs[i] == DataSpec(p, f, i)
      {
        DataIs(p, f, i, specs[i]);
      }
      if n < |specs| && forall i :: 0 <= i < n ==> specs[i] == DataSpec(p, f, i) {
        ParityIs(p, f, specs, specs[n]);
      }
      assert (forall i :: 0 <= i < n ==> specs[i] == DataSpec(p, f, i)) ==> |specs| == n || specs == FragmentsOf(p, f, fec)[..n] + [specs[n]];
    }
  }

  /** The source's fragment_message: pieces by slicing, parity by XOR in place. */
  method FragmentMessage(payload: Bytes, f: int, fec: bool) returns (r: Result<seq<FragmentSpec>, FragmentError>)
    ensures !(256 <= f <= MAX_FRAGMENT_PAYLOAD) ==> r == Err(BadFragmentSize)
    ensures 256 <= f <= MAX_FRAGMENT_PAYLOAD && |payload| > MAX_MESSAGE_SIZE ==> r == Err(MessageTooLong)
    ensures 256 <= f <= MAX_FRAGMENT_PAYLOAD && |payload| <= MAX_MESSAGE_SIZE ==>
              r.Ok? && CutOf(payload, f, fec, r.value) && r.value == FragmentsOf(payload, f, fec)
  {
    if !(256 <= f <= MAX_FRAGMENT_PAYLOAD) {
      return Err(BadFragmentSize);
    }
    if |payload| > MAX_MESSAGE_SIZE {
      return Err(MessageTooLong);
    }
    var count := Count(|payload|, f);
    ChopCount(payload, f);
    CountBound(payload, f);
    assert count <= MAX_FRAGMENTS;
    var pieces := Slices(payload, f, count);
    var result: seq<FragmentSpec> := [];
    for index := 0 to count
      invariant |result| == index
      invariant forall i :: 0 <= i < index ==> result[i] == DataSpec(payload, f, i)
    {
      result := result + [FragmentSpec(pieces[index], |payload|, index, count, 0)];
    }
    if fec && count > 1 {
      forall i | 0 <= i < count
        ensures |pieces[i]| <= f
      {
        ChopAt(payload, f, i);
      }
      var parity := ComputeParity(pieces, f);
      result := result + [FragmentSpec(parity, |payload|, count, count, FLAG_PARITY)];
    }
    assert result == FragmentsOf(payload, f, fec);
    CutUnique(payload, f, fec, result);
    return Ok(result);
  }

  /** The slices payload[i * f : (i + 1) * f]. */
  method Slices(payload: Bytes, f: nat, count: nat) returns (pieces: seq<Bytes>)
    requires f > 0 && count == |Chop(payload, f)|
    ensures pieces == Chop(payload, f)
  {
    pieces := [];
    for index := 0 to count
      invariant |pieces| == index
      invariant forall i :: 0 <= i < index ==> pieces[i] == Chop(payload, f)[i]
    {
      ChopAt(payload, f, index);
      pieces := pieces + [payload[index * f..Min((index + 1) * f, |payload|)]];
    }
  }

  /** The nested in-place XOR over all pieces. */
  method ComputeParity(pieces: seq<Bytes>, f: nat) returns (r: Bytes)
    requires forall i :: 0 <= i < |pieces| ==> |pieces[i]| <= f
    ensures r == Parity(pieces, f)
  {
    var parity := new byte[f](_ => 0);
    for i := 0 to |pieces|
      invariant forall o :: 0 <= o < f ==> parity[o] == Column(pieces[..i], o)
    {
      assert pieces[..i + 1][..i] == pieces[..i];
      XorInto(parity, pieces[i]);
    }
    assert pieces[..|pieces|] == pieces;
    return parity[..];
  }

  /** XORs one piece over the front of a buffer. */
  method XorInto(buffer: array<byte>, piece: Bytes)
    requires |piece| <= buffer.Length
    modifies buffer
    ensures forall o :: 0 <= o < buffer.Length ==> buffer[o] == XorByte(old(buffer[o]), Cell(piece, o))
  {
    for offset := 0 to |piece|
      invariant forall o :: 0 <= o < offset ==> buffer[o] == XorByte(old(buffer[o]), piece[o])
      invariant forall o :: offset <= o < buffer.Length ==> buffer[o] == old(buffer[o])
    {
      buffer[offset] := XorByte(buffer[offset], piece[offset]);
    }
    forall o | |piece| <= o < buffer.Length
      ensures buffer[o] == XorByte(old(buffer[o]), Cell(piece, o))
    {
      XorZero(buffer[o]);
    }
  }

  // ------------------------------------------------------------------------------------- assembly

  datatype AssemblyError =
    | LengthMismatch | EmptyParity | FragmentExceedsParity | BadRecoveredLength | RecoveredMismatch
    | InconsistentMetadata | ConflictingParity | ConflictingData

  datatype Assembly = Assembly(
    messageLen: int,
    count: nat,
    updatedAt: real,
    fragments: map<nat, Bytes>,
    parity: Option<Bytes>)

  datatype Outcome =
    | Waiting
    | Done(payload: Bytes, recovered: bool)
    | Raised(error: AssemblyError)

  /** The fragments by index, a missing one counting as empty. */
  function Slots(fragments: map<nat, Bytes>, n: nat): seq<Bytes> {
    seq(n, i requires i >= 0 => if i in fragments then fragments[i] else [])
  }

  /** The least index below n without a fragment, or n. */
  function FirstMissing(fragments: map<nat, Bytes>, i: nat, n: nat): (m: nat)
    requires i <= n
    ensures i <= m <= n
    ensures forall j :: i <= j < m ==> j in fragments
    ensures m < n ==> m !in fragments
    decreases n - i
  {
    if i == n || i !in fragments then i else FirstMissing(fragments, i + 1, n)
  }

  function Recovered(a: Assembly): Bytes
    requires a.parity.Some?
  {
    var parity := a.parity.value;
    seq(|parity|, o requires 0 <= o < |parity| => XorByte(parity[o], Column(Slots(a.fragments, a.count), o)))
  }

  predicate Oversized(a: Assembly, size: nat) {
    exists i :: 0 <= i < a.count && |Slots(a.fragments, a.count)[i]| > size
  }

  function ExpectedLength(a: Assembly, missing: nat): int
    requires a.parity.Some?
  {
    if missing < a.count - 1 then |a.parity.value| else a.messageLen - |a.parity.value| * (a.count - 1)
  }

  /** One attempt to complete an assembly; a recovered fragment is stored even if the result is then
      rejected for its length. */
  function Assemble(a: Assembly): (Outcome, Assembly) {
    if |a.fragments| == a.count then
      var payload := Join(Slots(a.fragments, a.count));
      if |payload| != a.messageLen then (Raised(LengthMismatch), a) else (Done(payload, false), a)
    else if a.parity.None? || |a.fragments| != a.count - 1 then (Waiting, a)
    else
      var missing := FirstMissing(a.fragments, 0, a.count);
      var size := |a.parity.value|;
      var expected := ExpectedLength(a, missing);
      if size == 0 then (Raised(EmptyParity), a)
      else if Oversized(a, size) then (Raised(FragmentExceedsParity), a)
      else if !(0 <= expected <= size) then (Raised(BadRecoveredLength), a)
      else
        var filled := a.(fragments := a.fragments[missing := Recovered(a)[..expected]]);
        var payload := Join(Slots(filled.fragments, a.count));
        if |payload| != a.messageLen then (Raised(RecoveredMismatch), filled) else (Done(payload, true), filled)
  }

  lemma ColumnMore(ps: seq<Bytes>, i: nat, o: nat)
    requires i < |ps|
    ensures Column(ps[..i + 1], o) == XorByte(Column(ps[..i], o), Cell(ps[i], o))
  {
    assert ps[..i + 1][..i] == ps[..i];
  }

  /** The source's _assemble, with its loops. */
  method AssembleNow(a: Assembly) returns (o: Outcome, a': Assembly)
    ensures (o, a') == Assemble(a)
  {
    if |a.fragments| == a.count {
      var payload := Concatenate(Slots(a.fragments, a.count));
      return if |payload| != a.messageLen then Raised(LengthMismatch) else Done(payload, false), a;
    }
    if a.parity.None? || |a.fragments| != a.count - 1 {
      return Waiting, a;
    }
    var missing := 0;
    while missing < a.count && missing in a.fragments
      invariant missing <= a.count
      invariant FirstMissing(a.fragments, missing, a.count) == FirstMissing(a.fragments, 0, a.count)
    {
      missing := missing + 1;
    }
    var size := |a.parity.value|;
    if size == 0 {
      return Raised(EmptyParity), a;
    }
    var buffer := new byte[size](i requires 0 <= i < size => a.parity.value[i]);
    var slots := Slots(a.fragments, a.count);
    forall o | 0 <= o < size
      ensures buffer[o] == XorByte(a.parity.value[o], Column(slots[..0], o))
    {
      XorZero(a.parity.value[o]);
    }
    for i := 0 to a.count
      invariant forall j :: 0 <= j < i ==> |slots[j]| <= size
      invariant forall o :: 0 <= o < size ==> buffer[o] == XorByte(a.parity.value[o], Column(slots[..i], o))
    {
      hide Column, Cell, XorByte, FirstMissing, Join, Recovered;
      if |slots[i]| > size {
        assert Oversized(a, size);
        return Raised(FragmentExceedsParity), a;
      }
      forall o | 0 <= o < size
        ensures XorByte(XorByte(a.parity.value[o], Column(slots[..i], o)), Cell(slots[i], o))
             == XorByte(a.parity.value[o], Column(slots[..i + 1], o))
      {
        ColumnMore(slots, i, o);
        XorAssoc(a.parity.value[o], Column(slots[..i], o), Cell(slots[i], o));
      }
      XorInto(buffer, slots[i]);
    }
    assert slots[..a.count] == slots;
    assert buffer[..] == Recovered(a);
    var expected := ExpectedLength(a, missing);
    if !(0 <= expected <= size) {
      return Raised(BadRecoveredLength), a;
    }
    a' := a.(fragments := a.fragments[missing := buffer[..expected]]);
    assert buffer[..expected] == Recovered(a)[..expected];
    var payload := Concatenate(Slots(a'.fragments, a.count));
    o := if |payload| != a.messageLen then Raised(RecoveredMismatch) else Done(payload, true);
  }

  method Concatenate(ps: seq<Bytes>) returns (r: Bytes)
    ensures r == Join(ps)
  {
    r := [];
    for i := 0 to |ps|
      invariant r + Join(ps[i..]) == Join(ps)
    {
      assert ps[i..][0] == ps[i] && ps[i..][1..] == ps[i + 1..];
      r := r + ps[i];
    }
    assert ps[|ps|..] == [];
  }
}
