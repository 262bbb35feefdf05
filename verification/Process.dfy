/** One process and all its threads: any number of send and reply calls, each drawing one number and then
    sealing one frame at a time, in any interleaving. */
module Processes {
  import opened Common
  import opened Frames
  import opened Codecs
  import opened Counters
  import opened Endpoints
  import opened Fragmentation

  /** One call that encodes frames: what it has to encode, the number it has drawn for the next one, and
      the frames it has sealed. */
  datatype Job = Job(blanks: seq<Frame>, drawn: Option<nat>, done: seq<Frame>) {
    predicate Busy() { |done| < |blanks| }
  }

  datatype Process = Process(codec: Codec, numbers: Counter, jobs: map<int, Job>, sealed: seq<Frame>)

  datatype Event =
    | Begin(thread: int, blanks: seq<Frame>)
    | Draw(thread: int)
    | Encode(thread: int, timestamp: int)
    | Return(thread: int)

  /** The frame that a call encodes under the number drawn for it. */
  function Stamp(c: Codec, blank: Frame, q: nat, timestamp: int): Frame {
    blank.(tunnelId := c.tunnelId, session := c.session, sequence := q, timestamp := timestamp)
  }

  /** The thread's frame is sealed under the number q. */
  function SealBy(p: Process, thread: int, q: nat, f: Frame): Process
    requires thread in p.jobs
  {
    var job := p.jobs[thread];
    p.(numbers := p.numbers.Use({q}), jobs := p.jobs[thread := Job(job.blanks, None, job.done + [f])], sealed := p.sealed + [f])
  }

  /** An event that the thread cannot take changes nothing. A frame that the encoder refuses ends the call,
      and its number is never used. */
  function Step(p: Process, e: Event): Process {
    match e
    case Begin(thread, blanks) =>
      if thread in p.jobs then p else p.(jobs := p.jobs[thread := Job(blanks, None, [])])
    case Draw(thread) =>
      if thread in p.jobs && p.jobs[thread].Busy() && p.jobs[thread].drawn.None? then
        p.(numbers := p.numbers.Draw(), jobs := p.jobs[thread := p.jobs[thread].(drawn := Some(p.numbers.last + 1))])
      else p
    case Encode(thread, timestamp) =>
      if thread in p.jobs && p.jobs[thread].Busy() && p.jobs[thread].drawn.Some? then
        var job := p.jobs[thread];
        var f := Stamp(p.codec, job.blanks[|job.done|], job.drawn.value, timestamp);
        if EncodeGuards(f).Ok? then
          SealBy(p, thread, job.drawn.value, f)
        else p.(jobs := p.jobs - {thread})
      else p
    case Return(thread) => p.(jobs := p.jobs - {thread})
  }

  function Exec(p: Process, events: seq<Event>): Process {
    if events == [] then p else Step(Exec(p, events[..|events| - 1]), events[|events| - 1])
  }

  /** A process starts with a random last number, no calls and nothing sealed. */
  function Started(codec: Codec, last: nat): Process {
    Process(codec, Counter(last, {}), map[], [])
  }

  /** A call seals its frames in order, each under a later number than the one before; the number it holds
      is out, and later still. */
  ghost predicate JobOk(p: Process, job: Job) {
    && |job.done| <= |job.blanks|
    && (job.drawn.Some? ==> job.drawn.value in p.numbers.out)
    && (forall i :: 0 <= i < |job.done| ==> DoneOk(p, job, i))
    && (forall i, j :: 0 <= i < j < |job.done| ==> job.done[i].sequence < job.done[j].sequence)
  }

  ghost predicate DoneOk(p: Process, job: Job, i: nat)
    requires i < |job.done| <= |job.blanks|
  {
    var f := job.done[i];
    && f in p.sealed
    && 0 <= f.sequence <= p.numbers.last
    && (job.drawn.Some? ==> f.sequence < job.drawn.value)
    && f == Stamp(p.codec, job.blanks[i], f.sequence, f.timestamp)
  }

  ghost predicate Held(p: Process) {
    forall s, t :: s in p.jobs && t in p.jobs && s != t && p.jobs[s].drawn.Some? && p.jobs[t].drawn.Some? ==>
                     p.jobs[s].drawn.value != p.jobs[t].drawn.value
  }

  /** No two calls have sealed the same frame. */
  ghost predicate Apart(p: Process) {
    forall s, t :: s in p.jobs && t in p.jobs && s != t ==>
                     forall i, j :: 0 <= i < |p.jobs[s].done| && 0 <= j < |p.jobs[t].done| ==>
                                      p.jobs[s].done[i].sequence != p.jobs[t].done[j].sequence
  }

  ghost predicate ProcessInv(p: Process) {
    && OncePerNumber(p.numbers, p.codec.session, p.sealed)
    && (forall t :: t in p.jobs ==> JobOk(p, p.jobs[t]))
    && Held(p)
    && Apart(p)
  }

  lemma CounterValid(p: Process)
    requires ProcessInv(p)
    ensures p.numbers.Valid()
  {
  }

  lemma JobGrew(p: Process, p': Process, job: Job)
    requires JobOk(p, job) && p'.codec == p.codec && p.numbers.last <= p'.numbers.last
    requires forall f :: f in p.sealed ==> f in p'.sealed
    requires job.drawn.Some? ==> job.drawn.value in p'.numbers.out
    ensures JobOk(p', job)
  {
    hide Stamp;
    forall i | 0 <= i < |job.done|
      ensures DoneOk(p', job, i)
    {
      assert DoneOk(p, job, i);
    }
  }

  lemma DrawJob(p: Process, thread: int)
    requires ProcessInv(p) && thread in p.jobs && p.jobs[thread].Busy() && p.jobs[thread].drawn.None?
    ensures var p' := Step(p, Draw(thread)); JobOk(p', p'.jobs[thread])
  {
    hide OncePerNumber, Stamp;
    var p' := Step(p, Draw(thread));
    var job, job' := p.jobs[thread], p'.jobs[thread];
    forall i | 0 <= i < |job'.done|
      ensures DoneOk(p', job', i)
    {
      assert DoneOk(p, job, i);
    }
  }

  lemma DrawKeeps(p: Process, thread: int)
    requires ProcessInv(p)
    ensures ProcessInv(Step(p, Draw(thread)))
  {
    CounterValid(p);
    DrawOnce(p.numbers, p.codec.session, p.sealed);
    var p' := Step(p, Draw(thread));
    if thread in p.jobs && p.jobs[thread].Busy() && p.jobs[thread].drawn.None? {
      DrawJob(p, thread);
      hide OncePerNumber, JobOk;
      forall t | t in p'.jobs && t != thread
        ensures JobOk(p', p'.jobs[t])
      {
        assert JobOk(p, p.jobs[t]);
        HeldOut(p, p.jobs[t]);
        JobGrew(p, p', p.jobs[t]);
      }
      assert forall t :: t in p.jobs && p.jobs[t].drawn.Some? ==> p.jobs[t].drawn.value != p.numbers.last + 1 by {
        forall t | t in p.jobs && p.jobs[t].drawn.Some?
          ensures p.jobs[t].drawn.value != p.numbers.last + 1
        {
          HeldOut(p, p.jobs[t]);
        }
      }
    }
  }

  lemma HeldOut(p: Process, job: Job)
    requires JobOk(p, job)
    ensures job.drawn.Some? ==> job.drawn.value in p.numbers.out
  {
  }

  /** The number of a frame about to be sealed differs from every number already used. */
  lemma NewNumber(p: Process, q: nat, t: int, i: nat)
    requires ProcessInv(p) && q in p.numbers.out && t in p.jobs && i < |p.jobs[t].done|
    ensures p.jobs[t].done[i].sequence != q
  {
    assert JobOk(p, p.jobs[t]) && DoneOk(p, p.jobs[t], i);
    var k :| 0 <= k < |p.sealed| && p.sealed[k] == p.jobs[t].done[i];
    assert SealedUnder(p.numbers, p.codec.session, p.sealed[k]);
  }

  /** The thread can seal this frame now. */
  ghost predicate CanSeal(p: Process, thread: int, q: nat, f: Frame) {
    && thread in p.jobs && p.jobs[thread].Busy() && p.jobs[thread].drawn == Some(q) && f.sequence == q
    && f == Stamp(p.codec, p.jobs[thread].blanks[|p.jobs[thread].done|], q, f.timestamp)
    && EncodeGuards(f).Ok?
  }

  lemma SealJob(p: Process, thread: int, q: nat, f: Frame)
    requires ProcessInv(p) && CanSeal(p, thread, q, f)
    ensures var p' := SealBy(p, thread, q, f); JobOk(p', p'.jobs[thread])
  {
    CounterValid(p);
    HeldOut(p, p.jobs[thread]);
    hide OncePerNumber, Stamp, EncodeGuards, Apart, Held;
    var p' := SealBy(p, thread, q, f);
    var job, job' := p.jobs[thread], p'.jobs[thread];
    forall i | 0 <= i < |job'.done|
      ensures DoneOk(p', job', i) && (i < |job.done| ==> job'.done[i].sequence < q)
    {
      if i < |job.done| {
        assert DoneOk(p, job, i);
      }
    }
  }

  lemma SealOthers(p: Process, thread: int, q: nat, f: Frame, t: int)
    requires ProcessInv(p) && CanSeal(p, thread, q, f) && t in p.jobs && t != thread
    ensures JobOk(SealBy(p, thread, q, f), p.jobs[t])
  {
    assert JobOk(p, p.jobs[t]);
    HeldOut(p, p.jobs[t]);
    hide OncePerNumber, Stamp, EncodeGuards, Apart, JobOk;
    JobGrew(p, SealBy(p, thread, q, f), p.jobs[t]);
  }

  lemma SealApart(p: Process, thread: int, q: nat, f: Frame)
    requires ProcessInv(p) && CanSeal(p, thread, q, f)
    ensures Held(SealBy(p, thread, q, f)) && Apart(SealBy(p, thread, q, f))
  {
    HeldOut(p, p.jobs[thread]);
    forall t, i | t in p.jobs && 0 <= i < |p.jobs[t].done|
      ensures p.jobs[t].done[i].sequence != q
    {
      NewNumber(p, q, t, i);
    }
    hide OncePerNumber, JobOk, EncodeGuards, Stamp;
  }

  lemma EncodeKeeps(p: Process, thread: int, timestamp: int)
    requires ProcessInv(p)
    ensures ProcessInv(Step(p, Encode(thread, timestamp)))
  {
    var p' := Step(p, Encode(thread, timestamp));
    if thread in p.jobs && p.jobs[thread].Busy() && p.jobs[thread].drawn.Some? {
      var job := p.jobs[thread];
      var q := job.drawn.value;
      assert JobOk(p, job);
      var f := Stamp(p.codec, job.blanks[|job.done|], q, timestamp);
      if EncodeGuards(f).Ok? {
        HeldOut(p, job);
        SealOnce(p.numbers, p.codec.session, p.sealed, f);
        SealJob(p, thread, q, f);
        SealApart(p, thread, q, f);
        forall t | t in p'.jobs && t != thread
          ensures JobOk(p', p'.jobs[t])
        {
          SealOthers(p, thread, q, f, t);
        }
        hide OncePerNumber, EncodeGuards, JobOk, Apart, Held;
      } else {
        DropKeeps(p, thread);
      }
    }
  }

  lemma DropKeeps(p: Process, thread: int)
    requires ProcessInv(p)
    ensures ProcessInv(p.(jobs := p.jobs - {thread}))
  {
    hide OncePerNumber, Stamp;
    var p' := p.(jobs := p.jobs - {thread});
    forall t | t in p'.jobs
      ensures JobOk(p', p'.jobs[t])
    {
      assert JobOk(p, p.jobs[t]);
      JobGrew(p, p', p.jobs[t]);
    }
  }

  lemma BeginKeeps(p: Process, thread: int, blanks: seq<Frame>)
    requires ProcessInv(p) && thread !in p.jobs
    ensures ProcessInv(p.(jobs := p.jobs[thread := Job(blanks, None, [])]))
  {
    hide OncePerNumber, Stamp;
    var p' := p.(jobs := p.jobs[thread := Job(blanks, None, [])]);
    forall t | t in p'.jobs && t != thread
      ensures JobOk(p', p'.jobs[t])
    {
      assert JobOk(p, p.jobs[t]);
      JobGrew(p, p', p.jobs[t]);
    }
  }

  lemma StepKeeps(p: Process, e: Event)
    requires ProcessInv(p)
    ensures ProcessInv(Step(p, e)) && Step(p, e).codec == p.codec
  {
    hide ProcessInv;
    match e
    case Begin(thread, blanks) =>
      if thread !in p.jobs {
        BeginKeeps(p, thread, blanks);
      }
    case Draw(thread) => DrawKeeps(p, thread);
    case Encode(thread, timestamp) => EncodeKeeps(p, thread, timestamp);
    case Return(thread) => DropKeeps(p, thread);
  }

  lemma {:induction false} ExecKeeps(p: Process, events: seq<Event>)
    requires ProcessInv(p)
    ensures ProcessInv(Exec(p, events)) && Exec(p, events).codec == p.codec
  {
    hide ProcessInv, Step;
    if events != [] {
      ExecKeeps(p, events[..|events| - 1]);
      StepKeeps(Exec(p, events[..|events| - 1]), events[|events| - 1]);
    }
  }

  lemma StartedInv(codec: Codec, last: nat)
    ensures ProcessInv(Started(codec, last))
  {
  }

  /** In every run of one process, however the draws and encodings of its threads interleave, no two frames
      are ever sealed under one nonce. */
  lemma NoncesDistinct(codec: Codec, last: nat, events: seq<Event>, i: nat, j: nat)
    requires codec.Valid()
    requires i < j < |Exec(Started(codec, last), events).sealed|
    ensures var sealed := Exec(Started(codec, last), events).sealed;
            && EncodeGuards(sealed[i]).Ok? && EncodeGuards(sealed[j]).Ok?
            && NonceOf(codec.suite, sealed[i]) != NonceOf(codec.suite, sealed[j])
  {
    hide Exec, OncePerNumber;
    StartedInv(codec, last);
    ExecKeeps(Started(codec, last), events);
    var p := Exec(Started(codec, last), events);
    NumbersGiveNonces(codec.suite, p.numbers, codec.session, p.sealed, i, j);
  }

  /** The frames to encode for one message, before they have numbers. */
  function Blanks(c: Codec, kind: int, messageId: int, specs: seq<FragmentSpec>): seq<Frame> {
    seq(|specs|, i requires 0 <= i < |specs| => DataFrame(c, kind, messageId, specs[i], Slot(0, 0)))
  }

  /** In every run, a call that has encoded a whole message has produced the frames of that message, one per
      fragment in order, under strictly increasing numbers, none of them used by any other call. */
  lemma CallsEncodeTheirMessage(codec: Codec, last: nat, events: seq<Event>, thread: int, kind: int, messageId: int, specs: seq<FragmentSpec>)
    requires var p := Exec(Started(codec, last), events);
             thread in p.jobs && p.jobs[thread].blanks == Blanks(codec, kind, messageId, specs) && !p.jobs[thread].Busy()
    ensures var p := Exec(Started(codec, last), events);
            var done := p.jobs[thread].done;
            && |done| == |specs|
            && done == DataFrames(codec, kind, messageId, specs, seq(|done|, i requires 0 <= i < |done| => Slot(done[i].sequence, done[i].timestamp)))
            && (forall i, j :: 0 <= i < j < |done| ==> done[i].sequence < done[j].sequence)
            && (forall t, i, j :: t in p.jobs && t != thread && 0 <= i < |done| && 0 <= j < |p.jobs[t].done| ==>
                  done[i].sequence != p.jobs[t].done[j].sequence)
  {
    hide Exec, OncePerNumber;
    StartedInv(codec, last);
    ExecKeeps(Started(codec, last), events);
    var p := Exec(Started(codec, last), events);
    var job := p.jobs[thread];
    assert JobOk(p, job);
    forall i | 0 <= i < |job.done|
      ensures job.done[i] == DataFrame(codec, kind, messageId, specs[i], Slot(job.done[i].sequence, job.done[i].timestamp))
    {
      assert DoneOk(p, job, i);
    }
  }

  lemma ExecSnoc(p: Process, events: seq<Event>, e: Event)
    ensures Exec(p, events + [e]) == Step(Exec(p, events), e)
  {
    assert (events + [e])[..|events|] == events;
  }

  /** Encoding may overtake drawing: of two threads the one with the later number can seal first. */
  lemma SealedOutOfOrder(codec: Codec, a: Frame, b: Frame)
    requires EncodeGuards(Stamp(codec, a, 1, 0)).Ok? && EncodeGuards(Stamp(codec, b, 2, 0)).Ok?
    ensures exists events :: Exec(Started(codec, 0), events).sealed == [Stamp(codec, b, 2, 0), Stamp(codec, a, 1, 0)]
  {
    hide EncodeGuards, Exec;
    var p, none := Started(codec, 0), [];
    var e1 := none + [Begin(1, [a])];
    var e2 := e1 + [Begin(2, [b])];
    var e3 := e2 + [Draw(1)];
    var e4 := e3 + [Draw(2)];
    var e5 := e4 + [Encode(2, 0)];
    assert Exec(p, none) == p by {
      ExecNone(p);
    }
    ExecSnoc(p, none, Begin(1, [a]));
    ExecSnoc(p, e1, Begin(2, [b]));
    ExecSnoc(p, e2, Draw(1));
    ExecSnoc(p, e3, Draw(2));
    ExecSnoc(p, e4, Encode(2, 0));
    ExecSnoc(p, e5, Encode(1, 0));
  }

  lemma ExecNone(p: Process)
    ensures Exec(p, []) == p
  {
  }
}
