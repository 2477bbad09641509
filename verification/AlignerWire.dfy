/**
 What the aligner session and its worker process exchange, and the bookkeeping
 each side does per frame: the parent's stream fields, the worker's accumulator.
 */
module AlignerWire {

  datatype Kind = Partial | Final

  /** A PARTIAL_REQ or FINAL_REQ: the word list, how much audio there is, and the audio not sent before. */
  datatype Request = Request(kind: Kind, words: seq<string>, sr: int, seen: int, reset: bool, delta: seq<int>)

  datatype AlignedWord = AlignedWord(index: nat, text: string, t0: int, t1: int, conf: real)

  datatype Response = Response(kind: Kind, ok: bool, seen: int, words: seq<AlignedWord>)

  /** A response to a stream over `words` times a prefix of them, or nothing when it failed. */
  predicate Answers(r: Response, words: seq<string>) {
    && (!r.ok ==> r.words == [])
    && |r.words| <= |words|
    && forall i :: 0 <= i < |r.words| ==> r.words[i].index == i && r.words[i].text == words[i]
  }

  const MAX_INFLIGHT := 1

  /** The stream fields of the session. */
  datatype Stream = Stream(
    active: bool, hasSent: bool, words: seq<string>, sr: int,
    pending: seq<int>, pendingSeen: int, inflight: nat)

  function Idle(): Stream {
    Stream(false, false, [], 0, [], 0, 0)
  }

  function Begun(words: seq<string>, sr: int): Stream {
    Stream(true, false, words, sr, [], 0, 0)
  }

  function Pushed(s: Stream, pcm: seq<int>, seen: int): Stream {
    s.(pending := s.pending + pcm, pendingSeen := seen)
  }

  /** A partial goes out when there is audio, a slot is free and the throttle lets it. */
  predicate Due(s: Stream, throttled: bool) {
    s.pending != [] && s.inflight < MAX_INFLIGHT && !(s.hasSent && throttled)
  }

  function PartialOf(s: Stream): Request {
    Request(Partial, s.words, s.sr, s.pendingSeen, !s.hasSent, s.pending)
  }

  function AfterSend(s: Stream): Stream {
    s.(hasSent := true, pending := [], inflight := s.inflight + 1)
  }

  function AfterPartial(s: Stream): Stream {
    s.(inflight := if s.inflight > 0 then s.inflight - 1 else 0)
  }

  function FinalOf(s: Stream, tail: seq<int>, total: int): Request {
    Request(Final, s.words, s.sr, total, !s.hasSent, s.pending + tail)
  }

  /** Killing the worker forgets the stream but not its word list and rate. */
  function Killed(s: Stream): Stream {
    s.(active := false, hasSent := false, pending := [], pendingSeen := 0, inflight := 0)
  }

  // ---- the worker's accumulator ------------------------------------------------------------

  datatype Accumulator = Accumulator(pcm: seq<int>, sr: int)

  /** The checks the worker makes before it uses a request's audio. */
  predicate Accepts(a: Accumulator, q: Request) {
    q.words != [] && q.sr > 0 && (q.reset || a.sr == 0 || a.sr == q.sr)
  }

  function Take(a: Accumulator, q: Request): Accumulator {
    if q.words == [] || q.sr <= 0 then a
    else
      var base := if q.reset then Accumulator([], q.sr) else if a.sr == 0 then Accumulator(a.pcm, q.sr) else a;
      if base.sr != q.sr then base else Accumulator(base.pcm + q.delta, q.sr)
  }

  function TakeAll(a: Accumulator, qs: seq<Request>): Accumulator
    decreases qs
  {
    if qs == [] then a else TakeAll(Take(a, qs[0]), qs[1..])
  }

  predicate AllAccepted(a: Accumulator, qs: seq<Request>)
    decreases qs
  {
    qs == [] || (Accepts(a, qs[0]) && AllAccepted(Take(a, qs[0]), qs[1..]))
  }

  lemma {:induction false} TakeOneMore(a: Accumulator, qs: seq<Request>, q: Request)
    ensures TakeAll(a, qs + [q]) == Take(TakeAll(a, qs), q)
    ensures AllAccepted(a, qs) && Accepts(TakeAll(a, qs), q) ==> AllAccepted(a, qs + [q])
    decreases qs
  {
    if qs == [] {
      assert [] + [q] == [q] && [q][1..] == [];
    } else {
      assert (qs + [q])[1..] == qs[1..] + [q];
      TakeOneMore(Take(a, qs[0]), qs[1..], q);
    }
  }
}
