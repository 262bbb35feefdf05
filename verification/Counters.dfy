/** Frame numbers: a locked counter that any thread draws from at any time, and the frames sealed under
    the numbers drawn. */
module Counters {
  import opened Common
  import opened Frames
  import opened Codecs

  /** The last number drawn, and the numbers drawn of which no use has been made yet. */
  datatype Counter = Counter(last: nat, out: set<nat>) {
    predicate Valid() {
      forall q :: q in out ==> q <= last
    }

    function Draw(): Counter {
      Counter(last + 1, out + {last + 1})
    }

    function Use(qs: set<nat>): Counter {
      Counter(last, out - qs)
    }
  }

  /** Every frame of the list is sealed by this process under a number of its own, and none under a number
      that is still out. */
  ghost predicate OncePerNumber(c: Counter, session: int, sealed: seq<Frame>) {
    && c.Valid()
    && (forall i :: 0 <= i < |sealed| ==> SealedUnder(c, session, sealed[i]))
    && (forall i, j :: 0 <= i < j < |sealed| ==> sealed[i].sequence != sealed[j].sequence)
  }

  ghost predicate SealedUnder(c: Counter, session: int, f: Frame) {
    EncodeGuards(f).Ok? && f.session == session && 0 <= f.sequence <= c.last && f.sequence !in c.out
  }

  lemma DrawOnce(c: Counter, session: int, sealed: seq<Frame>)
    requires OncePerNumber(c, session, sealed)
    ensures OncePerNumber(c.Draw(), session, sealed) && c.last + 1 !in c.out
  {
    hide EncodeGuards;
  }

  /** Sealing a frame under a number that is out. */
  lemma SealOnce(c: Counter, session: int, sealed: seq<Frame>, f: Frame)
    requires OncePerNumber(c, session, sealed) && EncodeGuards(f).Ok? && f.session == session && f.sequence in c.out
    ensures OncePerNumber(c.Use({f.sequence as nat}), session, sealed + [f])
  {
    hide EncodeGuards;
    var s', c' := sealed + [f], c.Use({f.sequence as nat});
    forall i | 0 <= i < |s'|
      ensures SealedUnder(c', session, s'[i])
    {
      if i < |sealed| {
        assert SealedUnder(c, session, sealed[i]);
      }
    }
    forall i, j | 0 <= i < j < |s'|
      ensures s'[i].sequence != s'[j].sequence
    {
      assert SealedUnder(c, session, sealed[i]);
    }
  }

  function NonceOf(s: Suite, f: Frame): Bytes
    requires EncodeGuards(f).Ok?
  {
    Nonce(s, f.session, f.sequence, f.kind, f.flags, f.index)
  }

  /** Frames sealed under numbers of their own are sealed under nonces of their own. */
  lemma NumbersGiveNonces(s: Suite, c: Counter, session: int, sealed: seq<Frame>, i: nat, j: nat)
    requires Lawful(s) && OncePerNumber(c, session, sealed) && i < j < |sealed|
    ensures EncodeGuards(sealed[i]).Ok? && EncodeGuards(sealed[j]).Ok?
    ensures NonceOf(s, sealed[i]) != NonceOf(s, sealed[j])
  {
    var a, b := sealed[i], sealed[j];
    assert SealedUnder(c, session, a) && SealedUnder(c, session, b);
    NonceDistinct(s, a.session, a.sequence, a.kind, a.flags, a.index, b.session, b.sequence, b.kind, b.flags, b.index);
  }
}
