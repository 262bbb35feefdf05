/** The persistent replay window: acceptance in memory, one coalesced asynchronous checkpoint on disk,
    and recovery after a crash. */
module Checkpoint {
  import opened Common
  import opened Replay
  import Bits

  /** A snapshot waiting for the writer, or being written. */
  datatype Snapshot = Snapshot(generation: nat, state: Window, queuedAt: real)

  datatype Writer = Writer(
    batch: nat,
    interval: real,
    window: Window,
    pending: Option<Snapshot>,
    inflight: Option<Snapshot>,
    accepted: nat,
    persisted: nat,
    pendingFrames: nat,
    coalesced: nat,
    checkpoints: nat,
    errors: nat,
    stopping: bool,
    exited: bool,
    lastAttempt: real,
    retryAt: real)
  {
    /** The lag in frames that the statistics report. */
    function Lag(): int { accepted - persisted }
  }

  function Boot(batch: nat, interval: real, window: Window, now: real): Writer {
    Writer(batch, interval, window, None, None, 0, 0, 0, 0, 0, 0, false, false, now, 0.0)
  }

  datatype AcceptError = Closing

  function AcceptStep(m: Writer, id: FrameId, now: real): (Result<bool, AcceptError>, Writer) {
    if m.stopping then (Err(Closing), m)
    else
      var (ok, w) := Accept(m.window, id);
      if !ok then (Ok(false), m.(window := w))
      else
        var queuedAt := if m.pending.Some? then m.pending.value.queuedAt else now;
        (Ok(true), m.(window := w,
                      accepted := m.accepted + 1,
                      pendingFrames := m.pendingFrames + 1,
                      coalesced := m.coalesced + if m.pending.Some? then 1 else 0,
                      pending := Some(Snapshot(m.accepted + 1, w, queuedAt))))
  }

  predicate Ready(m: Writer, now: real) {
    && m.pending.Some?
    && now >= m.retryAt
    && (m.stopping || m.pendingFrames >= m.batch || now - m.lastAttempt >= m.interval)
  }

  /** The writer is at the top of its loop when nothing is in flight and it has not returned. */
  predicate Idle(m: Writer) {
    m.inflight.None? && !m.exited
  }

  function TakeStep(m: Writer, now: real): Writer
    requires Idle(m) && Ready(m, now)
  {
    m.(inflight := m.pending, pending := None, pendingFrames := 0, lastAttempt := now)
  }

  function WriteOkStep(m: Writer): Writer
    requires m.inflight.Some?
  {
    m.(inflight := None, persisted := m.inflight.value.generation, checkpoints := m.checkpoints + 1)
  }

  /** The failed snapshot goes back into the slot unless a newer one is already there, which then
      inherits the older queueing time. The count of pending frames is not restored. */
  function WriteFailStep(m: Writer, now: real): Writer
    requires m.inflight.Some?
  {
    var failed := m.inflight.value;
    var pending := match m.pending
                   case None => failed
                   case Some(newer) =>
                     newer.(queuedAt := if failed.queuedAt <= newer.queuedAt then failed.queuedAt else newer.queuedAt);
    m.(inflight := None, pending := Some(pending), errors := m.errors + 1, retryAt := now + m.interval)
  }

  /** The snapshots written, merged into a later one on acceptance, waiting and being written. */
  function Kept(m: Writer): nat {
    m.checkpoints + m.coalesced + (if m.pending.Some? then 1 else 0) + (if m.inflight.Some? then 1 else 0)
  }

  /** A pending snapshot is the current window at the current generation; with none pending the one in
      flight is; with neither, everything accepted is on disk. */
  ghost predicate SlotOk(m: Writer) {
    && m.persisted <= m.accepted
    && (m.pending.Some? ==> m.pending.value.generation == m.accepted && m.pending.value.state == m.window)
    && (m.inflight.Some? ==> m.persisted < m.inflight.value.generation <= m.accepted)
    && (m.pending.None? && m.inflight.Some? ==>
          m.inflight.value.generation == m.accepted && m.inflight.value.state == m.window)
    && (m.pending.None? && m.inflight.None? ==> m.persisted == m.accepted)
    && (m.exited ==> m.stopping && m.pending.None? && m.inflight.None?)
    && Kept(m) <= m.accepted <= Kept(m) + m.errors
    && (m.persisted > 0 ==> m.checkpoints > 0)
    && (m.pending.Some? ==> m.persisted < m.accepted)
    && (m.pending.Some? && m.inflight.Some? ==> m.inflight.value.generation < m.accepted)
  }

  /** What a restart finds: nothing, or the window recorded in the checkpoint file. */
  function LoadFile(size: nat, file: Option<Window>): Window {
    match file
    case None => Fresh(size)
    case Some(state) =>
      match Restore(size, state)
      case Ok(w) => w
      case Err(_) => Fresh(size)
  }

  /** The mutable object: the locked regions of the source, one method each. `history` is the list of frames
      that the window stands for. */
  class PersistentReplayWindow {
    var m: Writer
    ghost var history: seq<FrameId>

    ghost predicate Valid()
      reads this
    {
      && m.window.size >= MIN_SIZE && m.batch >= 1 && m.interval > 0.0
      && SlotOk(m)
      && Represents(m.window, history)
    }

    constructor (batch: nat, interval: real, window: Window, now: real, ghost h: seq<FrameId>)
      requires window.size >= MIN_SIZE && batch >= 1 && interval > 0.0
      ensures m == Boot(batch, interval, window, now) && history == h
      ensures m.window == window && m.batch == batch && m.interval == interval && m.lastAttempt == now
      ensures m.pending == None && m.inflight == None && m.Lag() == 0 && m.pendingFrames == 0 && m.retryAt == 0.0
      ensures Represents(window, h) ==> Valid()
    {
      m := Boot(batch, interval, window, now);
      history := h;
    }

    /** Starts from the checkpoint file if there is one, and refuses to start on a file it cannot use. The
        object is valid if the file, when there is one, stands for some history. */
    static method Open(size: nat, file: Option<Window>, batch: nat, interval: real, now: real, ghost h: seq<FrameId>)
      returns (r: Result<PersistentReplayWindow, RestoreError>)
      requires size >= MIN_SIZE && batch >= 1 && interval > 0.0
      ensures r.Ok? <==> file.None? || Restore(size, file.value).Ok?
      ensures r.Ok? ==> fresh(r.value) && r.value.m == Boot(batch, interval, LoadFile(size, file), now)
      ensures r.Ok? && (if file.None? then h == [] else Represents(file.value, h)) ==> r.value.Valid() && r.value.history == h
    {
      var w := Fresh(size);
      if file.Some? {
        var loaded := Restore(size, file.value);
        if loaded.Err? {
          return Err(loaded.error);
        }
        w := loaded.value;
      }
      var p := new PersistentReplayWindow(batch, interval, w, now, h);
      return Ok(p);
    }

    method TryAccept(id: FrameId, now: real) returns (r: Result<bool, AcceptError>)
      requires Valid()
      modifies this
      ensures Valid()
      ensures (r, m) == AcceptStep(old(m), id, now)
      ensures old(m.stopping) ==> r == Err(Closing) && m == old(m)
      ensures r.Ok? ==> (r.value <==> Admits(old(history), m.window.size, id))
      ensures history == if r == Ok(true) then old(history) + [id] else old(history)
      ensures r == Ok(true) ==> m.pending.Some? && m.pending.value.generation == m.accepted == old(m.accepted) + 1
                                && m.pending.value.state == m.window
      ensures r == Ok(true) ==> m.pending.value.queuedAt == if old(m).pending.Some? then old(m).pending.value.queuedAt else now
      ensures r == Ok(true) ==> m.pendingFrames == old(m).pendingFrames + 1
    {
      if m.stopping {
        return Err(Closing);
      }
      AcceptRefines(m.window, history, id);
      hide Accept, Represents, Admits;
      var (ok, w) := Accept(m.window, id);
      m := m.(window := w);
      if !ok {
        return Ok(false);
      }
      m := m.(accepted := m.accepted + 1, pendingFrames := m.pendingFrames + 1);
      var queuedAt := now;
      if m.pending.Some? {
        m := m.(coalesced := m.coalesced + 1);
        queuedAt := m.pending.value.queuedAt;
      }
      m := m.(pending := Some(Snapshot(m.accepted, m.window, queuedAt)));
      history := history + [id];
      return Ok(true);
    }

    /** One look at the slot from the top of the writer loop. */
    method Poll(now: real) returns (took: Option<Snapshot>, done: bool)
      requires Valid() && Idle(m)
      modifies this`m
      ensures Valid()
      ensures done <==> old(m.stopping && m.pending.None?)
      ensures done ==> took == None && m == old(m).(exited := true)
      ensures took.Some? <==>
                && old(m).pending.Some? && now >= old(m).retryAt
                && (old(m).stopping || old(m).pendingFrames >= old(m).batch || now - old(m).lastAttempt >= old(m).interval)
      ensures took.Some? ==> took == old(m).pending && m == TakeStep(old(m), now)
      ensures took.Some? ==> m.inflight == took && m.pending == None && m.pendingFrames == 0 && m.lastAttempt == now
      ensures !done && took.None? ==> m == old(m)
    {
      hide Represents;
      took, done := None, false;
      if m.stopping && m.pending.None? {
        m := m.(exited := true);
        return None, true;
      }
      var ready := m.pending.Some? && now >= m.retryAt
                   && (m.stopping || m.pendingFrames >= m.batch || now - m.lastAttempt >= m.interval);
      if ready {
        took := m.pending;
        m := m.(pending := None, pendingFrames := 0);
        m := m.(inflight := took, lastAttempt := now);
      }
    }

    method Written()
      requires Valid() && m.inflight.Some?
      modifies this`m
      ensures Valid()
      ensures m == WriteOkStep(old(m))
      ensures m.inflight == None && m.persisted == old(m).inflight.value.generation && m.checkpoints == old(m).checkpoints + 1
      ensures m.Lag() == 0 <==> m.pending.None?
    {
      hide Represents;
      var generation := m.inflight.value.generation;
      m := m.(inflight := None, persisted := generation);
      m := m.(checkpoints := m.checkpoints + 1);
    }

    method Failed(now: real)
      requires Valid() && m.inflight.Some?
      modifies this`m
      ensures Valid()
      ensures m == WriteFailStep(old(m), now)
      ensures m.pending.Some? && m.pending.value.generation == m.accepted && m.pending.value.state == m.window
      ensures m.inflight == None && m.retryAt == now + m.interval && m.errors == old(m).errors + 1
      ensures m.pendingFrames == old(m).pendingFrames && m.persisted == old(m).persisted
      ensures m.pending.value.queuedAt <= old(m).inflight.value.queuedAt
      ensures old(m).pending.Some? ==> m.pending.value.queuedAt <= old(m).pending.value.queuedAt
      ensures m.pending.value.queuedAt == old(m).inflight.value.queuedAt
              || (old(m).pending.Some? && m.pending.value.queuedAt == old(m).pending.value.queuedAt)
    {
      hide Represents;
      var failed := m.inflight.value;
      m := m.(inflight := None, errors := m.errors + 1);
      if m.pending.None? {
        m := m.(pending := Some(failed));
      } else {
        var newer := m.pending.value;
        var since := if failed.queuedAt <= newer.queuedAt then failed.queuedAt else newer.queuedAt;
        m := m.(pending := Some(Snapshot(newer.generation, newer.state, since)));
      }
      m := m.(retryAt := now + m.interval);
    }

    method BeginClose()
      requires Valid()
      modifies this`m
      ensures Valid()
      ensures m == old(m).(stopping := true)
    {
      hide Represents;
      m := m.(stopping := true);
    }
  }

  // --------------------------------------------------------------------- the writer and its disk

  /** One version of the checkpoint file. `upto` is a bookkeeping mark: how many frames of the
      history the version covers. */
  datatype Image = Image(file: Option<Window>, upto: nat)

  /** The process, the disk, and the record of what happened.
      `disk[0]` is the last version known to be durable; the later entries are versions whose rename was
      visible but whose directory sync failed. The last entry is the visible file: a killed process is
      restarted from it, but a power loss may bring back any of them.
      `hist` is the list of frames the in-memory window stands for, `base` its length at the last
      start, `log` every acceptance ever and `lost` the frames forgotten at each crash. */
  datatype System = System(
    mem: Writer,
    disk: seq<Image>,
    base: nat,
    hist: seq<FrameId>,
    log: seq<FrameId>,
    lost: seq<seq<FrameId>>)
  {
    function Durable(): Image
      requires disk != []
    {
      disk[0]
    }

    function Visible(): Image
      requires disk != []
    {
      disk[|disk| - 1]
    }
  }

  datatype Event =
    | TryAccept(id: FrameId, now: real)
    | Poll(now: real)
    | WriteOk
    | WriteFail(renamed: bool, now: real)
    | BeginClose
    | Kill(renamed: bool, now: real)
    | PowerLoss(version: nat, now: real)
  {
    predicate Crash() { Kill? || PowerLoss? }
  }

  function Start(size: nat, batch: nat, interval: real, now: real): System {
    System(Boot(batch, interval, Fresh(size), now), [Image(None, 0)], 0, [], [], [])
  }

  /** The version of the file being written. */
  function WriteImage(s: System): Image
    requires s.mem.inflight.Some?
  {
    Image(Some(s.mem.inflight.value.state), s.base + s.mem.inflight.value.generation)
  }

  /** The versions in existence once the write in flight, if any, has or has not got as far as its rename. */
  function Versions(s: System, renamed: bool): seq<Image> {
    s.disk + if s.mem.inflight.Some? && renamed then [WriteImage(s)] else []
  }

  function Step(s: System, e: Event): System {
    match e
    case TryAccept(id, now) =>
      var (r, m) := AcceptStep(s.mem, id, now);
      if r == Ok(true) then s.(mem := m, hist := s.hist + [id], log := s.log + [id]) else s.(mem := m)
    case Poll(now) =>
      if !Idle(s.mem) then s
      else if s.mem.stopping && s.mem.pending.None? then s.(mem := s.mem.(exited := true))
      else if Ready(s.mem, now) then s.(mem := TakeStep(s.mem, now))
      else s
    case WriteOk =>
      if s.mem.inflight.None? then s else s.(mem := WriteOkStep(s.mem), disk := [WriteImage(s)])
    case WriteFail(renamed, now) =>
      if s.mem.inflight.None? then s else s.(mem := WriteFailStep(s.mem, now), disk := Versions(s, renamed))
    case BeginClose => s.(mem := s.mem.(stopping := true))
    case Kill(renamed, now) =>
      var disk := Versions(s, renamed);
      if disk == [] then s else Restart(s, disk, disk[|disk| - 1], now)
    case PowerLoss(version, now) =>
      var disk := Versions(s, true);
      if version >= |disk| then s else Restart(s, [disk[version]], disk[version], now)
  }

  /** A new process starts from the version `image`; these versions are left on the disk. */
  function Restart(s: System, disk: seq<Image>, image: Image, now: real): System {
    var kept := Min(image.upto, |s.hist|);
    System(Boot(s.mem.batch, s.mem.interval, LoadFile(s.mem.window.size, image.file), now),
           disk, kept, s.hist[..kept], s.log, s.lost + [s.hist[kept..]])
  }

  function Exec(s: System, events: seq<Event>): System {
    if events == [] then s
    else Step(Exec(s, events[..|events| - 1]), events[|events| - 1])
  }

  // ------------------------------------------------------------------------------- the invariant

  /** A recorded window stands for the first `n` accepted frames. */
  ghost predicate Covers(s: System, w: Window, n: int) {
    0 <= n <= |s.hist| && w.size == s.mem.window.size && Represents(w, s.hist[..n])
  }

  ghost predicate ImageOk(s: System, image: Image) {
    match image.file
    case None => image.upto == 0
    case Some(w) => Covers(s, w, image.upto)
  }

  /** The versions are in order of age, and the visible one covers at least what is reported persisted. The
      durable one covers exactly that once this process has confirmed a write. */
  ghost predicate DiskOk(s: System) {
    && s.disk != []
    && (forall i :: 0 <= i < |s.disk| ==> ImageOk(s, s.disk[i]))
    && (forall i, j :: 0 <= i < j < |s.disk| ==> s.disk[i].upto <= s.disk[j].upto)
    && s.Durable().upto <= s.base + s.mem.persisted <= s.Visible().upto
    && (s.mem.checkpoints > 0 ==> Settled(s))
    && (s.mem.inflight.Some? ==>
          && Covers(s, s.mem.inflight.value.state, s.base + s.mem.inflight.value.generation)
          && s.Visible().upto <= s.base + s.mem.inflight.value.generation)
  }

  /** All that the process started from or has reported persisted is durable. */
  ghost predicate Settled(s: System) {
    s.disk != [] && s.Durable().upto == s.base + s.mem.persisted
  }

  function Flatten(ss: seq<seq<FrameId>>): multiset<FrameId> {
    if ss == [] then multiset{} else Flatten(ss[..|ss| - 1]) + multiset(ss[|ss| - 1])
  }

  /** Every frame of the history was admitted by the frames before it. */
  ghost predicate InTurn(h: seq<FrameId>, size: nat) {
    forall i :: 0 <= i < |h| ==> Admits(h[..i], size, h[i])
  }

  ghost predicate Inv(s: System) {
    && s.mem.window.size >= MIN_SIZE
    && Represents(s.mem.window, s.hist)
    && NoDup(s.hist) && InTurn(s.hist, s.mem.window.size)
    && |s.hist| == s.base + s.mem.accepted
    && SlotOk(s.mem)
    && DiskOk(s)
    && LogOk(s)
  }

  /** Every acceptance ever is either in the current history or was forgotten at a crash. */
  ghost predicate LogOk(s: System) {
    && (forall i :: 0 <= i < |s.lost| ==> NoDup(s.lost[i]))
    && multiset(s.log) == multiset(s.hist) + Flatten(s.lost)
  }

  lemma AcceptDisk(s: System, t: System)
    requires Inv(s) && DiskOk(s)
    requires s.hist <= t.hist && t.base == s.base && t.disk == s.disk
    requires t.mem.persisted == s.mem.persisted && t.mem.inflight == s.mem.inflight && t.mem.checkpoints == s.mem.checkpoints
    requires t.mem.window.size == s.mem.window.size
    ensures DiskOk(t)
  {
    hide Represents, NoDup, SlotOk, LogOk, InTurn;
    assert forall n :: 0 <= n <= |s.hist| ==> t.hist[..n] == s.hist[..n];
    forall i | 0 <= i < |t.disk|
      ensures ImageOk(t, t.disk[i])
    {
      assert ImageOk(s, s.disk[i]);
    }
  }

  lemma InTurnSnoc(h: seq<FrameId>, size: nat, id: FrameId)
    requires InTurn(h, size) && Admits(h, size, id)
    ensures InTurn(h + [id], size)
  {
    hide Admits;
    forall i | 0 <= i < |h + [id]|
      ensures Admits((h + [id])[..i], size, (h + [id])[i])
    {
      assert (h + [id])[..i] == h[..i];
      assert i == |h| ==> h[..i] == h;
    }
  }

  lemma InTurnPrefix(h: seq<FrameId>, size: nat, n: nat)
    requires InTurn(h, size) && n <= |h|
    ensures InTurn(h[..n], size)
  {
    hide Admits;
    forall i | 0 <= i < n
      ensures Admits(h[..n][..i], size, h[..n][i])
    {
      assert h[..n][..i] == h[..i];
    }
  }

  lemma AcceptSlot(m: Writer, h: seq<FrameId>, id: FrameId, now: real)
    requires SlotOk(m) && m.window.size >= MIN_SIZE && Represents(m.window, h)
    ensures SlotOk(AcceptStep(m, id, now).1)
  {
    AcceptRefines(m.window, h, id);
    hide Accept, Represents, Admits;
  }

  /** The window, the history and the count of one acceptance. */
  lemma AcceptHist(s: System, id: FrameId, now: real)
    requires Inv(s)
    ensures var t, size := Step(s, TryAccept(id, now)), s.mem.window.size;
            && t.mem.window.size == size && Represents(t.mem.window, t.hist) && NoDup(t.hist) && InTurn(t.hist, size)
            && |t.hist| == t.base + t.mem.accepted && s.hist <= t.hist
            && t.base == s.base && t.disk == s.disk && t.mem.persisted == s.mem.persisted && t.mem.inflight == s.mem.inflight
            && t.mem.checkpoints == s.mem.checkpoints
  {
    AcceptRefines(s.mem.window, s.hist, id);
    HistSnoc(s.hist, s.mem.window.size, id);
    hide Represents, Accept, DiskOk, NoDup, Admits, InTurn, SlotOk, LogOk;
  }

  lemma HistSnoc(h: seq<FrameId>, size: nat, id: FrameId)
    requires NoDup(h) && InTurn(h, size)
    ensures Admits(h, size, id) ==> NoDup(h + [id]) && InTurn(h + [id], size)
  {
    if Admits(h, size, id) {
      SnocNoDup(h, id);
      InTurnSnoc(h, size, id);
    }
  }

  lemma AcceptLog(s: System, id: FrameId, now: real)
    requires LogOk(s)
    ensures LogOk(Step(s, TryAccept(id, now)))
  {
    hide Accept, Flatten;
  }

  lemma AcceptKeeps(s: System, id: FrameId, now: real)
    requires Inv(s)
    ensures Inv(Step(s, TryAccept(id, now)))
  {
    var t := Step(s, TryAccept(id, now));
    AcceptHist(s, id, now);
    AcceptLog(s, id, now);
    AcceptSlot(s.mem, s.hist, id, now);
    assert t.mem == AcceptStep(s.mem, id, now).1;
    hide AcceptStep, Step, Represents, DiskOk, NoDup, InTurn, SlotOk, LogOk;
    AcceptDisk(s, t);
  }

  lemma WriterKeeps(s: System, e: Event)
    requires Inv(s)
    requires e.Poll? || e.WriteOk? || e.WriteFail? || e.BeginClose?
    ensures Inv(Step(s, e))
  {
    WriterSlot(s, e);
    WriterDisk(s, e);
    hide Represents, Accept, NoDup, InTurn, SlotOk, DiskOk, Flatten, Versions, WriteImage, Ready;
  }

  lemma WriterSlot(s: System, e: Event)
    requires Inv(s)
    requires e.Poll? || e.WriteOk? || e.WriteFail? || e.BeginClose?
    ensures SlotOk(Step(s, e).mem)
  {
    hide Represents, Accept, NoDup, InTurn, LogOk, DiskOk;
  }

  lemma WriterDisk(s: System, e: Event)
    requires Inv(s)
    requires e.Poll? || e.WriteOk? || e.WriteFail? || e.BeginClose?
    ensures DiskOk(Step(s, e))
  {
    hide Represents, Accept, NoDup, InTurn, LogOk;
    var t := Step(s, e);
    assert s.hist[..|s.hist|] == s.hist;
    forall i | 0 <= i < |t.disk|
      ensures ImageOk(t, t.disk[i])
    {
      if i < |s.disk| {
        assert ImageOk(s, s.disk[i]);
      }
    }
  }

  /** Every version that exists covers a prefix of the history, and they are in order of age. */
  lemma VersionsOk(s: System, renamed: bool)
    requires Inv(s)
    ensures var disk := Versions(s, renamed);
            && |disk| >= |s.disk| >= 1 && disk[0] == s.Durable()
            && (forall i :: 0 <= i < |disk| ==> ImageOk(s, disk[i]) && disk[i].upto <= |s.hist|)
            && (forall i, j :: 0 <= i < j < |disk| ==> disk[i].upto <= disk[j].upto)
            && s.Visible().upto <= disk[|disk| - 1].upto
  {
    hide Represents, Accept, NoDup, InTurn, LogOk;
    var disk := Versions(s, renamed);
    forall i | 0 <= i < |disk|
      ensures ImageOk(s, disk[i]) && disk[i].upto <= |s.hist|
    {
      if i < |s.disk| {
        assert ImageOk(s, s.disk[i]);
      }
    }
  }

  /** The restarted window stands for the prefix of the history that the version covers. */
  lemma RestartCovers(s: System, disk: seq<Image>, image: Image, now: real)
    requires ImageOk(s, image) && image.upto <= |s.hist|
    ensures var t := Restart(s, disk, image, now);
            && t.base == image.upto
            && t.disk == disk
            && t.hist == s.hist[..t.base]
            && t.mem.window.size == s.mem.window.size
            && Represents(t.mem.window, t.hist)
  {
    if image.file.Some? {
      RestoreRepresented(image.file.value, s.hist[..image.upto]);
    }
  }

  lemma RestartLog(s: System, disk: seq<Image>, image: Image, now: real)
    requires NoDup(s.hist) && LogOk(s)
    ensures LogOk(Restart(s, disk, image, now)) && NoDup(Restart(s, disk, image, now).hist)
  {
    hide LoadFile;
    var t := Restart(s, disk, image, now);
    assert s.hist == t.hist + s.hist[t.base..];
    assert t.lost[..|s.lost|] == s.lost;
  }

  /** The versions left on the disk still cover prefixes of what is left of the history. */
  lemma RestartDisk(s: System, disk: seq<Image>, image: Image, now: real)
    requires ImageOk(s, image) && image.upto <= |s.hist|
    requires disk != [] && disk[|disk| - 1] == image
    requires forall i :: 0 <= i < |disk| ==> ImageOk(s, disk[i])
    requires forall i, j :: 0 <= i < j < |disk| ==> disk[i].upto <= disk[j].upto
    requires Restart(s, disk, image, now).mem.window.size == s.mem.window.size
    ensures DiskOk(Restart(s, disk, image, now))
  {
    hide Represents, LoadFile;
    var t := Restart(s, disk, image, now);
    forall i | 0 <= i < |disk|
      ensures ImageOk(t, disk[i])
    {
      assert ImageOk(s, disk[i]);
      assert disk[i].upto <= t.base;
      assert t.hist[..disk[i].upto] == s.hist[..disk[i].upto];
    }
  }

  lemma RestartKeeps(s: System, disk: seq<Image>, image: Image, now: real)
    requires Inv(s) && ImageOk(s, image) && image.upto <= |s.hist|
    requires disk != [] && disk[|disk| - 1] == image
    requires forall i :: 0 <= i < |disk| ==> ImageOk(s, disk[i])
    requires forall i, j :: 0 <= i < j < |disk| ==> disk[i].upto <= disk[j].upto
    ensures Inv(Restart(s, disk, image, now))
  {
    RestartCovers(s, disk, image, now);
    RestartLog(s, disk, image, now);
    RestartDisk(s, disk, image, now);
    InTurnPrefix(s.hist, s.mem.window.size, image.upto);
    var t := Restart(s, disk, image, now);
    assert SlotOk(t.mem) && t.mem.accepted == 0;
    hide Restart, Represents, LogOk, NoDup, InTurn, DiskOk, SlotOk, ImageOk;
  }

  lemma KillKeeps(s: System, renamed: bool, now: real)
    requires Inv(s)
    ensures Inv(Step(s, Kill(renamed, now)))
  {
    var disk := Versions(s, renamed);
    hide Inv, Restart, Versions, ImageOk, AcceptStep, Ready;
    VersionsOk(s, renamed);
    RestartKeeps(s, disk, disk[|disk| - 1], now);
  }

  lemma PowerLossKeeps(s: System, version: nat, now: real)
    requires Inv(s)
    ensures Inv(Step(s, PowerLoss(version, now)))
  {
    var disk := Versions(s, true);
    hide Inv, Restart, Versions, ImageOk, AcceptStep, Ready;
    VersionsOk(s, true);
    if version < |disk| {
      RestartKeeps(s, [disk[version]], disk[version], now);
    }
  }

  lemma StepKeeps(s: System, e: Event)
    requires Inv(s)
    ensures Inv(Step(s, e))
  {
    hide Inv, Step;
    match e
    case TryAccept(id, now) => AcceptKeeps(s, id, now);
    case Kill(renamed, now) => KillKeeps(s, renamed, now);
    case PowerLoss(version, now) => PowerLossKeeps(s, version, now);
    case _ => WriterKeeps(s, e);
  }

  lemma {:induction false} ExecKeeps(s: System, events: seq<Event>)
    requires Inv(s)
    ensures Inv(Exec(s, events))
  {
    hide Inv, Step;
    if events != [] {
      var n := |events| - 1;
      ExecKeeps(s, events[..n]);
      StepKeeps(Exec(s, events[..n]), events[n]);
    }
  }

  lemma StartInv(size: nat, batch: nat, interval: real, now: real)
    requires size >= MIN_SIZE
    ensures Inv(Start(size, batch, interval, now))
  {
    assert Start(size, batch, interval, now).hist[..0] == [];
  }

  // -------------------------------------------------------------------------------- what follows

  /** The state after any run from an empty directory. */
  ghost predicate Reachable(s: System) {
    exists size: nat, batch: nat, interval: real, now: real, events ::
      size >= MIN_SIZE && batch >= 1 && interval > 0.0 && s == Exec(Start(size, batch, interval, now), events)
  }

  lemma ReachableInv(s: System)
    requires Reachable(s)
    ensures Inv(s)
  {
    var size: nat, batch: nat, interval: real, now: real, events :|
      size >= MIN_SIZE && batch >= 1 && interval > 0.0 && s == Exec(Start(size, batch, interval, now), events);
    StartInv(size, batch, interval, now);
    ExecKeeps(Start(size, batch, interval, now), events);
  }

  /** In every reachable state: the slot rule, the counters' bound, and where the durable and the visible
      version stand with respect to what is reported persisted. */
  lemma WriterInvariant(s: System)
    requires Reachable(s)
    ensures SlotOk(s.mem)
    ensures Kept(s.mem) <= s.mem.accepted <= Kept(s.mem) + s.mem.errors
    ensures s.disk != [] && s.Durable().upto <= s.base + s.mem.persisted <= s.Visible().upto <= s.base + s.mem.accepted == |s.hist|
    ensures s.mem.checkpoints > 0 ==> Settled(s)
  {
    ReachableInv(s);
    VersionsOk(s, false);
    hide Represents, NoDup, InTurn, LogOk;
  }

  /** The durable version never goes back to an older generation, not even at a crash; the visible one does
      so only when the power fails, and the reported count only when the process ends. */
  lemma DiskMonotone(s: System, e: Event)
    requires Reachable(s)
    ensures s.disk != [] && Step(s, e).disk != []
    ensures s.Durable().upto <= Step(s, e).Durable().upto
    ensures !e.PowerLoss? ==> s.Visible().upto <= Step(s, e).Visible().upto
    ensures !e.Crash() ==> s.mem.persisted <= Step(s, e).mem.persisted
  {
    ReachableInv(s);
    hide *;
    StepEffect(s, e);
  }

  /** What any event does to the disk and to the history. */
  ghost predicate Effect(s: System, e: Event, t: System) {
    && s.disk != [] && t.disk != []
    && s.Durable().upto <= t.Durable().upto
    && (!e.PowerLoss? ==> s.Visible().upto <= t.Visible().upto)
    && (!e.Crash() ==> s.mem.persisted <= t.mem.persisted)
    && t.mem.window.size == s.mem.window.size
    && s.Durable().upto <= |s.hist|
    && (s.hist <= t.hist || (s.Durable().upto <= t.base <= |s.hist| && t.hist == s.hist[..t.base]))
  }

  lemma StepEffect(s: System, e: Event)
    requires Inv(s)
    ensures Effect(s, e, Step(s, e))
    ensures s.disk != [] && Step(s, e).disk != []
    ensures s.Durable().upto <= Step(s, e).Durable().upto
    ensures !e.PowerLoss? ==> s.Visible().upto <= Step(s, e).Visible().upto
    ensures !e.Crash() ==> s.mem.persisted <= Step(s, e).mem.persisted
  {
    match e
    case TryAccept(id, now) => AcceptEffect(s, id, now);
    case Kill(renamed, now) => KillEffect(s, renamed, now);
    case PowerLoss(version, now) => PowerLossEffect(s, version, now);
    case _ => WriterEffect(s, e);
    hide Inv, Step;
  }

  lemma AcceptEffect(s: System, id: FrameId, now: real)
    requires Inv(s)
    ensures Effect(s, TryAccept(id, now), Step(s, TryAccept(id, now)))
  {
    hide *;
    DurableBound(s);
    AcceptHist(s, id, now);
    EffectOf(s, TryAccept(id, now), Step(s, TryAccept(id, now)));
  }

  lemma KillEffect(s: System, renamed: bool, now: real)
    requires Inv(s)
    ensures Effect(s, Kill(renamed, now), Step(s, Kill(renamed, now)))
  {
    hide *;
    DurableBound(s);
    KillTo(s, renamed, now);
    EffectOf(s, Kill(renamed, now), Step(s, Kill(renamed, now)));
  }

  lemma PowerLossEffect(s: System, version: nat, now: real)
    requires Inv(s)
    ensures Effect(s, PowerLoss(version, now), Step(s, PowerLoss(version, now)))
  {
    hide *;
    DurableBound(s);
    if version < |Versions(s, true)| {
      PowerLossTo(s, version, now);
    } else {
      NoSuchVersion(s, version, now);
    }
    EffectOf(s, PowerLoss(version, now), Step(s, PowerLoss(version, now)));
  }

  lemma NoSuchVersion(s: System, version: nat, now: real)
    requires version >= |Versions(s, true)|
    ensures Step(s, PowerLoss(version, now)) == s
  {
  }

  lemma EffectOf(s: System, e: Event, t: System)
    requires s.disk != [] && t.disk != [] && s.disk[0].upto <= t.disk[0].upto
    requires !e.PowerLoss? ==> s.disk[|s.disk| - 1].upto <= t.disk[|t.disk| - 1].upto
    requires !(e.Kill? || e.PowerLoss?) ==> s.mem.persisted <= t.mem.persisted
    requires t.mem.window.size == s.mem.window.size
    requires s.disk[0].upto <= |s.hist|
    requires s.hist <= t.hist || (s.disk[0].upto <= t.base <= |s.hist| && t.hist == s.hist[..t.base])
    ensures Effect(s, e, t)
  {
  }

  lemma DurableBound(s: System)
    requires Inv(s)
    ensures s.disk != [] && s.disk[0].upto <= s.disk[|s.disk| - 1].upto && s.disk[0].upto <= |s.hist|
    ensures s.disk[0].upto <= s.base + s.mem.persisted
  {
    assert ImageOk(s, s.disk[0]);
    hide Represents, NoDup, InTurn, LogOk;
  }

  lemma WriterEffect(s: System, e: Event)
    requires Inv(s) && (e.Poll? || e.WriteOk? || e.WriteFail? || e.BeginClose?)
    ensures Effect(s, e, Step(s, e))
  {
    DurableBound(s);
    WriterLeaves(s, e);
    hide Inv, Step;
  }

  lemma WriterLeaves(s: System, e: Event)
    requires Inv(s)
    requires e.Poll? || e.WriteOk? || e.WriteFail? || e.BeginClose?
    ensures s.disk != [] && Step(s, e).disk != []
    ensures s.Durable().upto <= Step(s, e).Durable().upto
    ensures s.Visible().upto <= Step(s, e).Visible().upto
    ensures s.mem.persisted <= Step(s, e).mem.persisted
    ensures Step(s, e).hist == s.hist && Step(s, e).mem.window == s.mem.window
  {
    hide Represents, NoDup, InTurn, LogOk, Ready;
  }

  // --------------------------------------------------------------------- what a crash can expose

  lemma PersistedVisible(s: System)
    requires Inv(s)
    ensures s.disk != [] && s.Durable().upto <= s.base + s.mem.persisted <= s.Visible().upto
  {
  }

  lemma KillTo(s: System, renamed: bool, now: real)
    requires Inv(s)
    ensures var t, disk := Step(s, Kill(renamed, now)), Versions(s, renamed);
            && disk != [] && s.disk != [] && disk[0] == s.disk[0] && s.disk[|s.disk| - 1].upto <= disk[|disk| - 1].upto
            && s.disk[0].upto <= s.base + s.mem.persisted
            && t.base == disk[|disk| - 1].upto <= |s.hist|
            && t.hist == s.hist[..t.base] && t.mem.window.size == s.mem.window.size && Represents(t.mem.window, t.hist)
            && t.disk == disk && s.base + s.mem.persisted <= t.base
  {
    hide Inv, Represents, Restart, Versions, ImageOk, LoadFile, AcceptStep, TakeStep, WriteOkStep, WriteFailStep, Ready;
    VersionsOk(s, renamed);
    PersistedVisible(s);
    var disk := Versions(s, renamed);
    RestartCovers(s, disk, disk[|disk| - 1], now);
  }

  lemma PowerLossTo(s: System, version: nat, now: real)
    requires Inv(s) && version < |Versions(s, true)|
    ensures var t, disk := Step(s, PowerLoss(version, now)), Versions(s, true);
            && t.base == disk[version].upto <= |s.hist|
            && t.hist == s.hist[..t.base] && t.mem.window.size == s.mem.window.size && Represents(t.mem.window, t.hist)
            && t.disk == [disk[version]] && s.disk != [] && s.disk[0].upto <= t.base == t.disk[0].upto
            && (version == 0 ==> t.base == s.disk[0].upto)
  {
    hide Inv, Represents, Restart, Versions, ImageOk, LoadFile, AcceptStep, TakeStep, WriteOkStep, WriteFailStep, Ready;
    VersionsOk(s, true);
    PersistedVisible(s);
    var disk := Versions(s, true);
    RestartCovers(s, [disk[version]], disk[version], now);
    assert version > 0 ==> disk[0].upto <= disk[version].upto;
  }

  /** A restarted window that stands for the first n frames refuses those, and admits the next one. */
  lemma Refuses(t: System, h: seq<FrameId>, n: nat, id: FrameId)
    requires n <= |h| && t.hist == h[..n] && Represents(t.mem.window, t.hist) && t.mem.window.size >= MIN_SIZE
    requires InTurn(h, t.mem.window.size)
    ensures id in h && Accept(t.mem.window, id).0 ==> id in h[n..]
    ensures id in h[..n] ==> !Accept(t.mem.window, id).0
    ensures n < |h| ==> Accept(t.mem.window, h[n]).0
  {
    assert n < |h| ==> Admits(h[..n], t.mem.window.size, h[n]);
    hide Represents, Accept, InTurn, Admits;
    AcceptRefines(t.mem.window, t.hist, id);
    if n < |h| {
      AcceptRefines(t.mem.window, t.hist, h[n]);
    }
    KnownRefused(t.hist, t.mem.window.size, id);
    InOneHalf(h, n, id);
  }

  lemma InOneHalf(h: seq<FrameId>, n: nat, id: FrameId)
    requires n <= |h|
    ensures id in h && id !in h[..n] ==> id in h[n..]
  {
    if id in h && id !in h[..n] {
      var i :| 0 <= i < |h| && h[i] == id;
      assert h[n..][i - n] == id;
    }
  }

  lemma KnownRefused(h: seq<FrameId>, size: nat, id: FrameId)
    ensures id in h ==> !Admits(h, size, id)
  {
  }

  /** The frames of the history that the process can accept again lie among those the crash event may
      forget. After a kill these are among the last `Lag`; after a power loss, those that are not durable. */
  lemma CrashExposure(s: System, e: Event, id: FrameId)
    requires Reachable(s) && e.Crash() && id in s.hist && Accept(Step(s, e).mem.window, id).0
    ensures s.disk != [] && s.Durable().upto <= |s.hist| && 0 <= s.mem.Lag() <= |s.hist|
    ensures id in s.hist[s.Durable().upto..]
    ensures e.Kill? ==> id in s.hist[|s.hist| - s.mem.Lag()..]
    ensures Settled(s) ==> id in s.hist[|s.hist| - s.mem.Lag()..]
  {
    ReachableInv(s);
    WriterInvariant(s);
    hide Reachable, Represents, Accept, InTurn, Restart, Versions, SlotOk, DiskOk, LogOk, NoDup;
    var t := Step(s, e);
    match e
    case Kill(renamed, now) =>
      KillTo(s, renamed, now);
      Refuses(t, s.hist, t.base, id);
      Later(s.hist, s.base + s.mem.persisted, t.base, id);
      Later(s.hist, s.Durable().upto, t.base, id);
    case PowerLoss(version, now) =>
      if version < |Versions(s, true)| {
        PowerLossTo(s, version, now);
        Refuses(t, s.hist, t.base, id);
        Later(s.hist, s.Durable().upto, t.base, id);
      } else {
        AcceptRefines(s.mem.window, s.hist, id);
      }
  }

  lemma Later(h: seq<FrameId>, m: nat, n: nat, id: FrameId)
    requires m <= n <= |h| && id in h[n..]
    ensures id in h[m..]
  {
    var i :| 0 <= i < |h[n..]| && h[n..][i] == id;
    assert h[m..][n - m + i] == id;
  }

  /** The reported lag bounds what every crash can expose if and only if everything the process started from
      is durable. */
  lemma LagBoundsExposureIff(s: System)
    requires Reachable(s)
    ensures 0 <= s.mem.Lag() <= |s.hist|
    ensures Settled(s) <==>
              forall e: Event, id :: e.Crash() && id in s.hist && Accept(Step(s, e).mem.window, id).0 ==>
                                       id in s.hist[|s.hist| - s.mem.Lag()..]
  {
    ReachableInv(s);
    WriterInvariant(s);
    forall e: Event, id | Settled(s) && e.Crash() && id in s.hist && Accept(Step(s, e).mem.window, id).0
      ensures id in s.hist[|s.hist| - s.mem.Lag()..]
    {
      CrashExposure(s, e, id);
    }
    if !Settled(s) {
      var d := s.Durable().upto;
      VersionsOk(s, true);
      PowerLossTo(s, 0, 0.0);
      var e := PowerLoss(0, 0.0);
      Refuses(Step(s, e), s.hist, d, s.hist[d]);
      Once(s.hist, d, |s.hist| - s.mem.Lag());
      assert e.Crash() && s.hist[d] in s.hist;
    }
  }

  lemma Once(h: seq<FrameId>, d: nat, n: nat)
    requires NoDup(h) && d < n <= |h|
    ensures h[d] !in h[n..]
  {
  }

  lemma ExecSnoc(s: System, events: seq<Event>, e: Event)
    ensures Exec(s, events + [e]) == Step(Exec(s, events), e)
  {
    assert (events + [e])[..|events|] == events;
  }

  const FIRST: FrameId := FrameId(7, 5)

  /** One frame is accepted; its checkpoint is renamed into place but the directory sync fails; the process
      is killed and restarted from the visible file. */
  const UNSYNCED: seq<Event> := [TryAccept(FIRST, 0.0)] + [Poll(0.0)] + [WriteFail(true, 0.0)] + [Kill(false, 0.0)]

  lemma UnsyncedRun()
    ensures var s := Exec(Start(64, 1, 1.0, 0.0), UNSYNCED);
            && s.hist == [FIRST] && s.mem.Lag() == 0 && s.base == 1
            && |s.disk| == 2 && s.Durable() == Image(None, 0)
  {
    var s0 := Start(64, 1, 1.0, 0.0);
    var none: seq<Event> := [];
    var e1 := [TryAccept(FIRST, 0.0)];
    var e2 := e1 + [Poll(0.0)];
    var e3 := e2 + [WriteFail(true, 0.0)];
    assert none + e1 == e1;
    ExecSnoc(s0, none, TryAccept(FIRST, 0.0));
    ExecSnoc(s0, e1, Poll(0.0));
    ExecSnoc(s0, e2, WriteFail(true, 0.0));
    ExecSnoc(s0, e3, Kill(false, 0.0));
    var w := Window(64, Some(7), {}, 5, 1);
    assert Accept(Fresh(64), FIRST) == (true, w);
    OneBit();
    assert Restore(64, w) == Ok(w);
    hide Accept, Restore;
    assert Exec(s0, e1).hist == [FIRST];
  }

  lemma OneBit()
    ensures Bits.BitLength(1) == 1
  {
    assert Bits.BitLength(0) == 0;
  }

  /** So the reported lag can be 0 while a power loss makes an accepted frame acceptable again. */
  lemma LagCanHide()
    ensures var s := Exec(Start(64, 1, 1.0, 0.0), UNSYNCED);
            && Reachable(s) && !Settled(s)
            && s.mem.Lag() == 0 && FIRST in s.hist && Accept(Step(s, PowerLoss(0, 0.0)).mem.window, FIRST).0
  {
    UnsyncedRun();
    var s := Exec(Start(64, 1, 1.0, 0.0), UNSYNCED);
    assert Reachable(s);
    ReachableInv(s);
    VersionsOk(s, true);
    PowerLossTo(s, 0, 0.0);
    hide Exec, Step, Accept;
    Refuses(Step(s, PowerLoss(0, 0.0)), s.hist, 0, FIRST);
  }

  // ---------------------------------------------------------------------------- over whole runs

  /** One step keeps every frame that the durable version covers. */
  lemma PrefixStep(s: System, e: Event, k: nat)
    requires Inv(s) && s.disk != [] && k <= s.Durable().upto
    ensures var t := Step(s, e);
            && t.disk != [] && k <= t.Durable().upto
            && k <= |t.hist|
            && t.hist[..k] == s.hist[..k]
            && t.mem.window.size == s.mem.window.size
  {
    StepEffect(s, e);
    hide Inv, Step;
  }

  lemma PrefixBound(s: System, k: nat)
    requires Inv(s) && s.disk != [] && k <= s.Durable().upto
    ensures k <= |s.hist|
  {
    VersionsOk(s, false);
  }

  lemma {:induction false} PrefixKept(s: System, events: seq<Event>, k: nat)
    requires Inv(s) && s.disk != [] && k <= s.Durable().upto
    ensures var t := Exec(s, events);
            && Inv(t)
            && t.disk != [] && k <= t.Durable().upto
            && k <= |t.hist|
            && k <= |s.hist| && t.hist[..k] == s.hist[..k]
            && t.mem.window.size == s.mem.window.size
  {
    hide Step, Inv;
    ExecKeeps(s, events);
    PrefixBound(s, k);
    if events != [] {
      var n := |events| - 1;
      PrefixKept(s, events[..n], k);
      PrefixStep(Exec(s, events[..n]), events[n], k);
    }
  }

  /** A frame that the durable version covers is refused for ever after, through any number of write
      failures, kills, power losses and restarts. Once this process has confirmed a write, that is every
      frame reported persisted. */
  lemma CheckpointedForever(s: System, events: seq<Event>, id: FrameId)
    requires Reachable(s)
    ensures s.disk != [] && s.Durable().upto <= |s.hist|
    ensures s.mem.checkpoints > 0 ==> s.Durable().upto == s.base + s.mem.persisted
    ensures id in s.hist[..s.Durable().upto] ==> !Accept(Exec(s, events).mem.window, id).0
  {
    ReachableInv(s);
    WriterInvariant(s);
    VersionsOk(s, false);
    var k := s.Durable().upto;
    PrefixKept(s, events, k);
    var t := Exec(s, events);
    AcceptRefines(t.mem.window, t.hist, id);
    hide Reachable, Accept, Exec, NoDup, InTurn, DiskOk, SlotOk, Represents, LogOk;
    if id in s.hist[..k] {
      assert id in t.hist[..k];
      assert id in t.hist;
    }
  }

  lemma {:induction false} FlattenCount(ss: seq<seq<FrameId>>, id: FrameId)
    requires forall i :: 0 <= i < |ss| ==> NoDup(ss[i])
    ensures Flatten(ss)[id] <= |ss|
  {
    if ss != [] {
      FlattenCount(ss[..|ss| - 1], id);
      NoDupCount(ss[|ss| - 1], id);
    }
  }

  function Crashes(events: seq<Event>): nat {
    if events == [] then 0
    else Crashes(events[..|events| - 1]) + if events[|events| - 1].Crash() then 1 else 0
  }

  lemma {:induction false} LostPerCrash(s: System, events: seq<Event>)
    ensures |Exec(s, events).lost| <= |s.lost| + Crashes(events)
  {
    if events != [] {
      LostPerCrash(s, events[..|events| - 1]);
      hide AcceptStep, Versions, LoadFile, Ready;
    }
  }

  /** Over every run no frame is accepted more than once plus once per crash. */
  lemma AcceptedOncePerLife(size: nat, batch: nat, interval: real, now: real, events: seq<Event>, id: FrameId)
    requires size >= MIN_SIZE
    ensures multiset(Exec(Start(size, batch, interval, now), events).log)[id] <= 1 + Crashes(events)
  {
    var s0 := Start(size, batch, interval, now);
    StartInv(size, batch, interval, now);
    ExecKeeps(s0, events);
    var s := Exec(s0, events);
    NoDupCount(s.hist, id);
    FlattenCount(s.lost, id);
    LostPerCrash(s0, events);
  }

  /** What `close` answers once the writer thread has been joined. */
  predicate CloseSucceeds(m: Writer) {
    m.exited && m.Lag() == 0
  }

  /** A window that stands for a shorter history is a different window. */
  lemma ShorterDiffers(v: Window, w: Window, h: seq<FrameId>, n: nat)
    requires v.size == w.size >= MIN_SIZE && n < |h| && InTurn(h, w.size) && Represents(v, h[..n]) && Represents(w, h)
    ensures v != w
  {
    AcceptRefines(v, h[..n], h[n]);
    AcceptRefines(w, h, h[n]);
  }

  /** A writer that has returned always lets close succeed. A process started afterwards has exactly the
      window in memory, and so agrees with it on every future decision: after a kill always, and after every
      power loss if and only if all that the process started from is durable. */
  lemma CloseIsDurable(s: System)
    requires Reachable(s) && s.mem.exited
    ensures CloseSucceeds(s.mem)
    ensures forall renamed, now :: Step(s, Kill(renamed, now)).mem.window == s.mem.window
    ensures s.mem.checkpoints > 0 ==> Settled(s)
    ensures Settled(s) <==>
              forall version: nat, now :: version < |Versions(s, true)| ==> Step(s, PowerLoss(version, now)).mem.window == s.mem.window
  {
    ReachableInv(s);
    WriterInvariant(s);
    forall renamed, now
      ensures Step(s, Kill(renamed, now)).mem.window == s.mem.window
    {
      KillTo(s, renamed, now);
      SameWindow(s, Step(s, Kill(renamed, now)));
    }
    forall version: nat, now | Settled(s) && version < |Versions(s, true)|
      ensures Step(s, PowerLoss(version, now)).mem.window == s.mem.window
    {
      PowerLossTo(s, version, now);
      SameWindow(s, Step(s, PowerLoss(version, now)));
    }
    if !Settled(s) {
      VersionsOk(s, true);
      PowerLossTo(s, 0, 0.0);
      ShorterDiffers(Step(s, PowerLoss(0, 0.0)).mem.window, s.mem.window, s.hist, s.Durable().upto);
      var version: nat := 0;
      assert version < |Versions(s, true)|;
    }
  }

  lemma SameWindow(s: System, t: System)
    requires Inv(s) && t.mem.window.size == s.mem.window.size
    requires t.base <= |s.hist| && t.hist == s.hist[..t.base] && t.base >= |s.hist| && Represents(t.mem.window, t.hist)
    ensures t.mem.window == s.mem.window
  {
    assert t.hist == s.hist;
    RepresentsUnique(t.mem.window, s.mem.window, s.hist);
  }

  /** Once stopping has begun no frame is accepted until the process is restarted. */
  lemma {:induction false} NoAcceptWhileStopping(s: System, events: seq<Event>)
    requires s.mem.stopping && Crashes(events) == 0
    ensures Exec(s, events).mem.stopping
    ensures Exec(s, events).mem.window == s.mem.window && Exec(s, events).log == s.log
  {
    if events != [] {
      NoAcceptWhileStopping(s, events[..|events| - 1]);
      hide Accept, Versions, Ready;
    }
  }
}
