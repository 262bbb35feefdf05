/** When the checkpoint writer takes the slot, and that it always gets everything out. */
module Flushing {
  import opened Common
  import opened Replay
  import opened Checkpoint

  /** The waiting snapshot goes to the writer: the retry time has come, and the process is stopping, or a full
      batch has been accepted since the last attempt, or the interval since then has passed. */
  predicate Takes(m: Writer, now: real) {
    && m.inflight.None? && !m.exited && m.pending.Some? && now >= m.retryAt
    && (m.stopping || m.pendingFrames >= m.batch || now - m.lastAttempt >= m.interval)
  }

  /** What a look at the slot does, in every state: it takes the snapshot, or it returns, or nothing. */
  lemma PollDecides(s: System, now: real)
    ensures var t := Step(s, Poll(now));
            && (Takes(s.mem, now) ==>
                  t == s.(mem := s.mem.(inflight := s.mem.pending, pending := None, pendingFrames := 0, lastAttempt := now)))
            && (!Takes(s.mem, now) && s.mem.inflight.None? && s.mem.stopping && s.mem.pending.None? ==> t == s.(mem := s.mem.(exited := true)))
            && (!Takes(s.mem, now) && !(s.mem.inflight.None? && s.mem.stopping && s.mem.pending.None?) ==> t == s)
  {
  }

  lemma ExecTwo(s: System, a: Event, b: Event)
    ensures Exec(s, [a, b]) == Step(Step(s, a), b)
  {
    var none: seq<Event> := [];
    assert none + [a] == [a] && [a] + [b] == [a, b];
    hide Step;
    ExecSnoc(s, none, a);
    ExecSnoc(s, [a], b);
  }

  /** A write that succeeds puts what was taken on the disk. */
  lemma WrittenOut(s: System, now: real)
    requires Takes(s.mem, now)
    ensures var t := Step(Step(s, Poll(now)), WriteOk);
            && t.mem == s.mem.(pending := None, pendingFrames := 0, lastAttempt := now, persisted := s.mem.pending.value.generation,
                               checkpoints := s.mem.checkpoints + 1)
            && t.disk == [Image(Some(s.mem.pending.value.state), s.base + s.mem.pending.value.generation)]
            && t.hist == s.hist && t.base == s.base
  {
    PollDecides(s, now);
  }

  /** Whenever the slot may be taken, one look and one successful write leave no lag at all: the whole window
      is on the disk, and durable. */
  lemma FlushedAtOnce(s: System, now: real)
    requires Reachable(s) && Takes(s.mem, now)
    ensures var t := Exec(s, [Poll(now), WriteOk]);
            && t.mem.Lag() == 0 && t.mem.pending.None? && t.mem.inflight.None?
            && t.disk == [Image(Some(s.mem.window), |s.hist|)]
            && t.mem.window == s.mem.window && t.hist == s.hist && t.mem.stopping == s.mem.stopping
  {
    WriterInvariant(s);
    ReachableInv(s);
    ExecTwo(s, Poll(now), WriteOk);
    WrittenOut(s, now);
    hide Reachable, Exec, Step, Represents, NoDup, InTurn, LogOk, DiskOk;
  }

  /** What a stopping writer does from the top of its loop once the retry time has come. */
  lemma IdleReturns(s: System, now: real, later: real)
    requires SlotOk(s.mem) && s.mem.stopping && s.mem.inflight.None? && now >= s.mem.retryAt
    ensures var t := Step(Step(Step(s, Poll(now)), WriteOk), Poll(later));
            CloseSucceeds(t.mem) && t.mem.window == s.mem.window
  {
    if Takes(s.mem, now) {
      WrittenOut(s, now);
      PollDecides(Step(Step(s, Poll(now)), WriteOk), later);
      hide Step, Takes;
    } else {
      assert s.mem.pending.None?;
      PollDecides(s, now);
      var s1 := s.(mem := s.mem.(exited := true));
      assert Step(s, Poll(now)) == s1;
      assert Step(s1, WriteOk) == s1;
      PollDecides(s1, later);
      hide Step;
      assert !Takes(s1.mem, later);
    }
  }

  lemma ExecFour(s: System, a: Event, b: Event, c: Event, d: Event)
    ensures Exec(s, [a, b, c, d]) == Step(Step(Step(Step(s, a), b), c), d)
  {
    ExecTwo(s, a, b);
    hide Step;
    ExecSnoc(s, [a, b], c);
    ExecSnoc(s, [a, b, c], d);
    assert [a, b] + [c] == [a, b, c] && [a, b, c] + [d] == [a, b, c, d];
  }

  /** From every reachable state in which closing has begun, the writer returns and close succeeds after at
      most two successful writes, if it looks at the slot no earlier than the retry time. */
  lemma CloseIsReached(s: System, now: real, later: real)
    requires Reachable(s) && s.mem.stopping && now >= s.mem.retryAt
    ensures var t := Exec(s, [WriteOk, Poll(now), WriteOk, Poll(later)]);
            CloseSucceeds(t.mem) && t.mem.window == s.mem.window
  {
    WriterInvariant(s);
    ReachableInv(s);
    var s1 := Step(s, WriteOk);
    StepKeeps(s, WriteOk);
    assert SlotOk(s1.mem) && s1.mem.stopping && s1.mem.inflight.None? && s1.mem.retryAt == s.mem.retryAt && s1.mem.window == s.mem.window;
    ExecFour(s, WriteOk, Poll(now), WriteOk, Poll(later));
    hide Reachable, Exec, Step, Inv, SlotOk;
    IdleReturns(s1, now, later);
  }

  // ------------------------------------------------------------------------------------- the pace

  /** No crash and no taking. */
  ghost predicate Untaken(s: System, events: seq<Event>) {
    events == [] ||
    (var p, e := events[..|events| - 1], events[|events| - 1];
     Untaken(s, p) && !e.Crash() && !(e.Poll? && Takes(Exec(s, p).mem, e.now)))
  }

  /** What one such event leaves as it was. */
  lemma UntakenStep(s: System, e: Event)
    requires !e.Crash() && !(e.Poll? && Takes(s.mem, e.now))
    ensures var t := Step(s, e);
            && t.mem.lastAttempt == s.mem.lastAttempt && t.mem.batch == s.mem.batch && t.mem.interval == s.mem.interval
            && |s.hist| <= |t.hist| && t.mem.pendingFrames - s.mem.pendingFrames == |t.hist| - |s.hist|
            && (s.mem.inflight.None? ==> t.mem.inflight.None? && t.mem.retryAt == s.mem.retryAt)
  {
    hide Accept;
  }

  /** While nothing is taken the frames accepted are counted, and the time of the last attempt stands; with no
      write under way the retry time stands too. */
  lemma {:induction false} SinceTaken(s: System, events: seq<Event>)
    requires Untaken(s, events)
    ensures var t := Exec(s, events);
            && t.mem.lastAttempt == s.mem.lastAttempt && t.mem.batch == s.mem.batch && t.mem.interval == s.mem.interval
            && |s.hist| <= |t.hist| && t.mem.pendingFrames - s.mem.pendingFrames == |t.hist| - |s.hist|
            && (s.mem.inflight.None? ==> t.mem.inflight.None? && t.mem.retryAt == s.mem.retryAt)
  {
    hide Step, Takes;
    if events != [] {
      var n := |events| - 1;
      SinceTaken(s, events[..n]);
      UntakenStep(Exec(s, events[..n]), events[n]);
    }
  }

  /** The pace of writing: between one taking and the next, in the same process, the interval passes, or a full
      batch is accepted, or the process is stopping. */
  lemma WritesArePaced(s: System, first: real, events: seq<Event>, next: real)
    requires Takes(s.mem, first) && Untaken(Step(s, Poll(first)), events) && Takes(Exec(Step(s, Poll(first)), events).mem, next)
    ensures var t := Exec(Step(s, Poll(first)), events);
            t.mem.stopping || |t.hist| - |s.hist| >= s.mem.batch || next - first >= s.mem.interval
  {
    PollDecides(s, first);
    hide Step;
    SinceTaken(Step(s, Poll(first)), events);
  }

  /** And conversely: once the retry time has come, the waiting snapshot is taken as soon as the interval has
      passed since the last taking, or a full batch has been accepted since. */
  lemma TakenInTime(s: System, first: real, events: seq<Event>, next: real)
    requires Takes(s.mem, first) && Untaken(Step(s, Poll(first)), events)
    requires var t := Exec(Step(s, Poll(first)), events);
             && t.mem.inflight.None? && !t.mem.exited && t.mem.pending.Some? && next >= t.mem.retryAt
             && (next - first >= s.mem.interval || |t.hist| - |s.hist| >= s.mem.batch)
    ensures var t := Exec(Step(s, Poll(first)), events); Step(t, Poll(next)).mem.inflight == t.mem.pending
  {
    PollDecides(s, first);
    SinceTaken(Step(s, Poll(first)), events);
    PollDecides(Exec(Step(s, Poll(first)), events), next);
    hide Step, Exec;
  }

  /** After a failed write nothing is taken for one interval, not even while stopping. */
  lemma FailureWaits(s: System, renamed: bool, failed: real, events: seq<Event>, next: real)
    requires s.mem.inflight.Some? && Untaken(Step(s, WriteFail(renamed, failed)), events)
    requires Takes(Exec(Step(s, WriteFail(renamed, failed)), events).mem, next)
    ensures next >= failed + s.mem.interval
  {
    var s1 := Step(s, WriteFail(renamed, failed));
    assert s1.mem.inflight.None? && s1.mem.retryAt == failed + s.mem.interval;
    hide Step;
    SinceTaken(s1, events);
  }

  lemma RetryStep(s: System, e: Event)
    requires s.mem.errors == 0 ==> s.mem.retryAt == 0.0
    ensures Step(s, e).mem.errors == 0 ==> Step(s, e).mem.retryAt == 0.0
  {
    hide Accept, Versions, LoadFile, Ready;
  }

  lemma {:induction false} RetryRun(s: System, events: seq<Event>)
    requires s.mem.errors == 0 ==> s.mem.retryAt == 0.0
    ensures var t := Exec(s, events); t.mem.errors == 0 ==> t.mem.retryAt == 0.0
  {
    hide Step;
    if events != [] {
      RetryRun(s, events[..|events| - 1]);
      RetryStep(Exec(s, events[..|events| - 1]), events[|events| - 1]);
    }
  }

  /** A process none of whose writes has failed never waits for a retry. */
  lemma NoFailureNoWait(s: System)
    requires Reachable(s)
    ensures s.mem.errors == 0 ==> s.mem.retryAt == 0.0
  {
    var size: nat, batch: nat, interval: real, now: real, events :|
      size >= MIN_SIZE && batch >= 1 && interval > 0.0 && s == Exec(Start(size, batch, interval, now), events);
    RetryRun(Start(size, batch, interval, now), events);
  }
}
