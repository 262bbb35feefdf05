/** The session-aware replay window: a sliding bitmap plus a set of retired sessions that stands in
    for the whole history of accepted frames. */
module Replay {
  import opened Common
  import opened Bits

  /** What the window looks at: which process session sent the frame, under which sequence number. */
  datatype FrameId = FrameId(session: int, sequence: int)

  /** The window's fields as one value; also what a snapshot records. */
  datatype Window = Window(
    size: nat,
    session: Option<int>,
    retired: set<int>,
    highest: int,
    bitmap: nat)

  const MIN_SIZE: nat := 64

  function Fresh(size: nat): Window {
    Window(size, None, {}, -1, 0)
  }

  function SelectSession(w: Window, session: int): (bool, Window) {
    if w.session == None then (true, w.(session := Some(session)))
    else if w.session == Some(session) then (true, w)
    else if session in w.retired then (false, w)
    else (true, w.(retired := w.retired + {w.session.value}, session := Some(session), highest := -1, bitmap := 0))
  }

  /** The bitmap after the window's top moves up by `shift` and the new top is marked. */
  function Slide(bitmap: nat, shift: nat, size: nat): nat {
    if shift >= size then 1
    else
      OnesBit(size, 0);
      Combine(And, Combine(Or, Shl(bitmap, shift), 1), Shl(1, size) - 1)
  }

  function Accept(w0: Window, id: FrameId): (bool, Window) {
    if id.sequence < 0 then (false, w0)
    else
      var (ok, w) := SelectSession(w0, id.session);
      if !ok then (false, w)
      else if w.highest < 0 then (true, w.(highest := id.sequence, bitmap := 1))
      else if id.sequence > w.highest then
        (true, w.(bitmap := Slide(w.bitmap, id.sequence - w.highest, w.size), highest := id.sequence))
      else
        var distance := w.highest - id.sequence;
        if distance >= w.size then (false, w)
        else if Combine(And, w.bitmap, Shl(1, distance)) != 0 then (false, w)
        else (true, w.(bitmap := Combine(Or, w.bitmap, Shl(1, distance))))
  }

  datatype RestoreError = SizeMismatch | InvalidValues

  /** Loading a snapshot into a window of the given size. */
  function Restore(size: nat, state: Window): Result<Window, RestoreError> {
    if state.size != size then Err(SizeMismatch)
    else if state.highest < -1 || BitLength(state.bitmap) > size then Err(InvalidValues)
    else Ok(state)
  }

  /** The mutable window. */
  class ReplayWindow {
    const size: nat
    var session: Option<int>
    var retired: set<int>
    var highest: int
    var bitmap: nat

    ghost function State(): Window
      reads this
    {
      Window(size, session, retired, highest, bitmap)
    }

    constructor (size: nat)
      requires size >= MIN_SIZE
      ensures State() == Fresh(size)
    {
      this.size := size;
      session, retired, highest, bitmap := None, {}, -1, 0;
    }

    method Select(id: int) returns (ok: bool)
      modifies this
      ensures (ok, State()) == SelectSession(old(State()), id)
    {
      if session == None {
        session := Some(id);
        return true;
      }
      if session == Some(id) {
        return true;
      }
      if id in retired {
        return false;
      }
      retired := retired + {session.value};
      session, highest, bitmap := Some(id), -1, 0;
      return true;
    }

    /** Against the whole history, not only the bitmap: if the fields stand for the history `h`, the
        frame is accepted exactly when `h` admits it, and the fields then stand for the longer history. */
    method TryAccept(sequence: int, id: int, ghost h: seq<FrameId>) returns (ok: bool)
      requires size >= MIN_SIZE
      requires Represents(State(), h)
      modifies this
      ensures (ok, State()) == Accept(old(State()), FrameId(id, sequence))
      ensures ok <==> Admits(h, size, FrameId(id, sequence))
      ensures Represents(State(), if ok then h + [FrameId(id, sequence)] else h)
    {
      AcceptRefines(State(), h, FrameId(id, sequence));
      if sequence < 0 {
        return false;
      }
      var selected := Select(id);
      if !selected {
        return false;
      }
      if highest < 0 {
        highest, bitmap := sequence, 1;
        return true;
      }
      if sequence > highest {
        var shift := sequence - highest;
        OnesBit(size, 0);
        bitmap := if shift >= size then 1
                  else Combine(And, Combine(Or, Shl(bitmap, shift), 1), Shl(1, size) - 1);
        highest := sequence;
        return true;
      }
      var distance := highest - sequence;
      if distance >= size {
        return false;
      }
      var mask := Shl(1, distance);
      if Combine(And, bitmap, mask) != 0 {
        return false;
      }
      bitmap := Combine(Or, bitmap, mask);
      return true;
    }

    method Load(state: Window) returns (r: Result<(), RestoreError>)
      modifies this
      ensures match Restore(size, state)
              case Ok(w) => r == Ok(()) && State() == w
              case Err(e) => r == Err(e) && State() == old(State())
    {
      if state.size != size {
        return Err(SizeMismatch);
      }
      if state.highest < -1 || BitLength(state.bitmap) > size {
        return Err(InvalidValues);
      }
      session, retired, highest, bitmap := state.session, state.retired, state.highest, state.bitmap;
      return Ok(());
    }
  }

  // ---------------------------------------------------------------- the history behind the bitmap

  function Last(h: seq<FrameId>): FrameId
    requires h != []
  {
    h[|h| - 1]
  }

  /** The reference rule, stated on the full list of accepted frames: a frame is admitted when it is
      new and every accepted frame of its session belongs to the current session and lies less than
      `size` above it. A session never seen before satisfies the second part vacuously. */
  ghost predicate Admits(h: seq<FrameId>, size: nat, id: FrameId) {
    && id.sequence >= 0
    && id !in h
    && forall x :: x in h && x.session == id.session ==>
                     x.session == Last(h).session && x.sequence - size < id.sequence
  }

  /** The window's fields say exactly what the history says about the current session. */
  ghost predicate Represents(w: Window, h: seq<FrameId>) {
    if h == [] then w == Fresh(w.size)
    else
      var current := Last(h).session;
      && w.session == Some(current)
      && (forall s :: s in w.retired <==> s != current && InHistory(h, s))
      && w.highest >= 0
      && FrameId(current, w.highest) in h
      && (forall x :: x in h && x.session == current ==> x.sequence <= w.highest)
      && (forall d: nat :: Bit(w.bitmap, d) <==> d < w.size && FrameId(current, w.highest - d) in h)
  }

  ghost predicate InHistory(h: seq<FrameId>, s: int) {
    exists x :: x in h && x.session == s
  }

  lemma MaskTest(bitmap: nat, d: nat)
    ensures Combine(And, bitmap, Shl(1, d)) != 0 <==> Bit(bitmap, d)
  {
    var c := Combine(And, bitmap, Shl(1, d));
    forall i: nat
      ensures Bit(c, i) == (i == d && Bit(bitmap, i))
    {
      CombineBit(And, bitmap, Shl(1, d), i);
      ShlBit(1, d, i);
      if i > d {
        ZeroBit(i - d - 1);
      }
    }
    if c == 0 {
      ZeroBit(d);
    } else if !Bit(bitmap, d) {
      forall i: nat
        ensures Bit(c, i) == Bit(0, i)
      {
        ZeroBit(i);
      }
      Extensional(c, 0);
    }
  }

  lemma MaskSet(bitmap: nat, d: nat, i: nat)
    ensures Bit(Combine(Or, bitmap, Shl(1, d)), i) == (i == d || Bit(bitmap, i))
  {
    CombineBit(Or, bitmap, Shl(1, d), i);
    ShlBit(1, d, i);
    if i > d {
      ZeroBit(i - d - 1);
    }
  }

  lemma SlideBit(bitmap: nat, shift: nat, size: nat, i: nat)
    requires shift > 0 && size > 0
    ensures Bit(Slide(bitmap, shift, size), i) == (i < size && (i == 0 || (i >= shift && shift < size && Bit(bitmap, i - shift))))
  {
    if i > 0 {
      ZeroBit(i - 1);
    }
    if shift < size {
      OnesBit(size, i);
      CombineBit(And, Combine(Or, Shl(bitmap, shift), 1), Shl(1, size) - 1, i);
      CombineBit(Or, Shl(bitmap, shift), 1, i);
      ShlBit(bitmap, shift, i);
    }
  }

  /** The first frame of a session. */
  lemma FirstOfSession(w: Window, h: seq<FrameId>, id: FrameId)
    requires w.size >= MIN_SIZE
    requires Represents(w, h)
    requires id.sequence >= 0 && !InHistory(h, id.session)
    ensures Accept(w, id).0 && Represents(Accept(w, id).1, h + [id])
  {
    var w' := Accept(w, id).1;
    var h' := h + [id];
    assert w'.bitmap == 1;
    forall d: nat
      ensures Bit(w'.bitmap, d) <==> d == 0
    {
      if d > 0 {
        ZeroBit(d - 1);
      }
    }
    forall s
      ensures s in w'.retired <==> s != id.session && InHistory(h', s)
    {
      if InHistory(h, s) {
        var x :| x in h && x.session == s;
        assert x in h';
      }
    }
  }

  /** A later frame of the current session. */
  lemma NextOfSession(w: Window, h: seq<FrameId>, id: FrameId)
    requires w.size >= MIN_SIZE
    requires h != [] && Represents(w, h)
    requires id.sequence >= 0 && id.session == Last(h).session
    ensures Accept(w, id).0 <==> id !in h && w.highest - w.size < id.sequence
    ensures Accept(w, id).0 ==> Represents(Accept(w, id).1, h + [id])
    ensures !Accept(w, id).0 ==> Accept(w, id).1 == w
  {
    var (ok, w') := Accept(w, id);
    var h' := h + [id];
    if id.sequence <= w.highest {
      MaskTest(w.bitmap, w.highest - id.sequence);
      assert FrameId(id.session, w.highest - (w.highest - id.sequence)) == id;
    }
    if ok {
      forall d: nat
        ensures Bit(w'.bitmap, d) <==> d < w.size && FrameId(id.session, w'.highest - d) in h'
      {
        if id.sequence > w.highest {
          var shift := id.sequence - w.highest;
          SlideBit(w.bitmap, shift, w.size, d);
          if shift <= d {
            assert id.sequence - d == w.highest - (d - shift);
          }
        } else {
          MaskSet(w.bitmap, w.highest - id.sequence, d);
        }
      }
      forall s
        ensures InHistory(h', s) == (InHistory(h, s) || s == id.session)
      {
        if InHistory(h, s) {
          var x :| x in h && x.session == s;
          assert x in h';
        }
      }
    }
  }

  /** The bitmap refines the history: it decides exactly as the reference rule, and a refused frame
      changes nothing. */
  lemma AcceptRefines(w: Window, h: seq<FrameId>, id: FrameId)
    requires w.size >= MIN_SIZE
    requires Represents(w, h)
    ensures Accept(w, id).0 <==> Admits(h, w.size, id)
    ensures Represents(Accept(w, id).1, if Accept(w, id).0 then h + [id] else h)
    ensures !Accept(w, id).0 ==> Accept(w, id).1 == w
    ensures Accept(w, id).1.size == w.size
  {
    if id.sequence >= 0 {
      if !InHistory(h, id.session) {
        FirstOfSession(w, h, id);
      } else if id.session == Last(h).session {
        NextOfSession(w, h, id);
        assert FrameId(id.session, w.highest) in h;
      } else {
        var x :| x in h && x.session == id.session;
        assert id.session in w.retired;
      }
    }
  }

  /** Two windows of one size that stand for the same history are the same window. */
  lemma RepresentsUnique(v: Window, w: Window, h: seq<FrameId>)
    requires v.size == w.size && Represents(v, h) && Represents(w, h)
    ensures v == w
  {
    if h != [] {
      assert forall s :: s in v.retired <==> s in w.retired;
      assert v.retired == w.retired;
      assert v.highest <= w.highest <= v.highest;
      Extensional(v.bitmap, w.bitmap);
    }
  }

  /** Every window that stands for some history survives a snapshot and a restore unchanged. */
  lemma RestoreRepresented(w: Window, h: seq<FrameId>)
    requires Represents(w, h)
    ensures Restore(w.size, w) == Ok(w)
  {
    forall i: nat | i >= w.size
      ensures !Bit(w.bitmap, i)
    {
      ZeroBit(i);
    }
    BitLengthBound(w.bitmap, w.size);
  }

  ghost predicate NoBitFrom(n: nat, k: nat) {
    forall i: nat :: i >= k ==> !Bit(n, i)
  }

  lemma LengthIff(n: nat, k: nat)
    ensures BitLength(n) <= k <==> NoBitFrom(n, k)
  {
    if BitLength(n) <= k {
      forall i: nat | i >= k
        ensures !Bit(n, i)
      {
        BeyondLength(n, i);
      }
    }
    if NoBitFrom(n, k) {
      BitLengthBound(n, k);
    }
  }

  /** A snapshot is restored exactly when it has the window's size, a highest number of at least -1 and no bit
      beyond the size; and then as it is. */
  lemma RestoreExactly(size: nat, state: Window)
    ensures Restore(size, state).Ok? <==> state.size == size && state.highest >= -1 && NoBitFrom(state.bitmap, size)
    ensures Restore(size, state).Ok? ==> Restore(size, state).value == state
    ensures Restore(size, state) == Err(SizeMismatch) <==> state.size != size
  {
    LengthIff(state.bitmap, size);
    hide BitLength, NoBitFrom;
  }

  // ---------------------------------------------------------------------------------- whole runs

  /** The window after a list of calls, and the frames it answered yes to, in order. */
  function Run(size: nat, calls: seq<FrameId>): (Window, seq<FrameId>) {
    if calls == [] then (Fresh(size), [])
    else
      var (w, accepted) := Run(size, calls[..|calls| - 1]);
      var (ok, w') := Accept(w, Last(calls));
      (w', if ok then accepted + [Last(calls)] else accepted)
  }

  /** After any list of calls the window answers the next one as the reference rule does on the frames
      accepted so far, and it has never accepted one frame twice. */
  lemma {:induction false} RunRefinesHistory(size: nat, calls: seq<FrameId>, next: FrameId)
    requires size >= MIN_SIZE
    ensures var (w, accepted) := Run(size, calls);
            && w.size == size
            && Represents(w, accepted)
            && NoDup(accepted)
            && (Accept(w, next).0 <==> Admits(accepted, size, next))
  {
    if calls != [] {
      RunRefinesHistory(size, calls[..|calls| - 1], Last(calls));
      var (w, accepted) := Run(size, calls[..|calls| - 1]);
      AcceptRefines(w, accepted, Last(calls));
    }
    AcceptRefines(Run(size, calls).0, Run(size, calls).1, next);
  }
}
