/**
 The worker's handling of one request: accumulate, align everything so far,
 trim a partial to its resolved prefix, reuse the last partial for a final that
 adds nothing. The aligner itself is a function of the audio, its rate and the
 words.
 */
module AlignerWorker {
  import opened Common
  import opened AlignerWire
  import AlignerRuns

  datatype Timing = Timing(t0: int, t1: int, conf: real)

  datatype Aligned = Failed | Timed(times: seq<Timing>)

  type Aligner = (Accumulator, seq<string>) -> Aligned

  /** One timing for every word. */
  ghost predicate TimesWords(align: Aligner) {
    forall a, words :: align(a, words).Timed? ==> |align(a, words).times| == |words|
  }

  // ---- the worker without its cache ----------------------------------------------------------

  /** What later requests depend on: the audio so far and the longest prefix emitted. */
  datatype Memory = Memory(acc: Accumulator, emitted: nat)

  /** Words from the front that end within the audio seen. */
  function Ended(times: seq<Timing>, seen: int): (n: nat)
    ensures n <= |times|
  {
    if times == [] || times[0].t1 > seen then 0 else 1 + Ended(times[1..], seen)
  }

  /** The same without its unsure tail. */
  function Sure(times: seq<Timing>, minConf: real): (n: nat)
    ensures n <= |times|
  {
    if times == [] || times[|times| - 1].conf >= minConf then |times| else Sure(times[..|times| - 1], minConf)
  }

  /** How many words a partial sends: the resolved prefix, never less than was sent before. */
  function Emits(times: seq<Timing>, seen: int, minConf: real, before: nat): nat {
    Max(Sure(times[..Ended(times, seen)], minConf), Min(before, |times|))
  }

  function Show(words: seq<string>, times: seq<Timing>, n: nat): seq<AlignedWord>
    requires n <= |words| == |times|
  {
    seq(n, i requires 0 <= i < n => AlignedWord(i, words[i], times[i].t0, times[i].t1, times[i].conf))
  }

  function Failure(q: Request): Response {
    Response(q.kind, false, q.seen, [])
  }

  /** What a request does to the memory before anything is aligned. */
  function Absorbed(m: Memory, q: Request): Memory {
    Memory(Take(m.acc, q), if q.words != [] && q.sr > 0 && q.reset then 0 else m.emitted)
  }

  /** The words sent are timed as the aligner timed them, in order from the first. */
  predicate Times(sent: seq<AlignedWord>, times: seq<Timing>) {
    |sent| <= |times|
    && forall i :: 0 <= i < |sent| ==>
         sent[i].t0 == times[i].t0 && sent[i].t1 == times[i].t1 && sent[i].conf == times[i].conf
  }

  /** The reply to one request, aligning everything accumulated anew. */
  function Reply(align: Aligner, trim: bool, minConf: real, m: Memory, q: Request): (r: (Memory, Response))
    requires TimesWords(align)
    ensures Answers(r.1, q.words) && r.1.kind == q.kind && r.1.seen == q.seen
    ensures r.0.acc == Take(m.acc, q)
    ensures r.1.ok <==> Accepts(m.acc, q) && align(Take(m.acc, q), q.words).Timed?
    ensures r.1.ok ==> Times(r.1.words, align(Take(m.acc, q), q.words).times)
    ensures r.1.ok && !(q.kind == Partial && trim) ==> |r.1.words| == |q.words|
  {
    var now := Absorbed(m, q);
    if !Accepts(m.acc, q) then (now, Failure(q))
    else
      match align(now.acc, q.words)
      case Failed => (now, Failure(q))
      case Timed(times) =>
        if q.kind == Partial && trim then
          var n := Emits(times, q.seen, minConf, now.emitted);
          (now.(emitted := n), Response(q.kind, true, q.seen, Show(q.words, times, n)))
        else
          (now, Response(q.kind, true, q.seen, Show(q.words, times, |q.words|)))
  }

  // ---- the trim ---------------------------------------------------------------------------------

  /** A prefix with every word ended in time, as long as such a prefix can be. */
  lemma {:induction false} EndedIsLongest(times: seq<Timing>, seen: int)
    ensures forall i :: 0 <= i < Ended(times, seen) ==> times[i].t1 <= seen
    ensures Ended(times, seen) < |times| ==> times[Ended(times, seen)].t1 > seen
  {
    if times != [] && times[0].t1 <= seen {
      EndedIsLongest(times[1..], seen);
    }
  }

  /** Only the unsure run at the end goes: the last word kept is sure, every word dropped is not. */
  lemma {:induction false} SureDropsTail(times: seq<Timing>, minConf: real)
    ensures Sure(times, minConf) > 0 ==> times[Sure(times, minConf) - 1].conf >= minConf
    ensures forall i :: Sure(times, minConf) <= i < |times| ==> times[i].conf < minConf
  {
    if times != [] && times[|times| - 1].conf < minConf {
      SureDropsTail(times[..|times| - 1], minConf);
    }
  }

  /** The first `j` words have all ended within the audio seen, and the last of them is sure. */
  predicate Resolved(times: seq<Timing>, seen: int, minConf: real, j: nat) {
    && j <= |times| && (forall i :: 0 <= i < j ==> times[i].t1 <= seen)
    && (j > 0 ==> times[j - 1].conf >= minConf)
  }

  /** The longest such prefix is what both gates leave. */
  lemma SureIsLongest(times: seq<Timing>, seen: int, minConf: real, j: nat)
    ensures Resolved(times, seen, minConf, Sure(times[..Ended(times, seen)], minConf))
    ensures Resolved(times, seen, minConf, j) ==> j <= Sure(times[..Ended(times, seen)], minConf)
  {
    EndedIsLongest(times, seen);
    SureDropsTail(times[..Ended(times, seen)], minConf);
  }

  /**
   How many words a partial sends: the longest resolved prefix, or as many as
   were sent before in the stream if that is more; the worker remembers it.
   */
  lemma PartialSends(align: Aligner, minConf: real, m: Memory, q: Request, j: nat)
    requires TimesWords(align) && q.kind == Partial && Reply(align, true, minConf, m, q).1.ok
    ensures var reply := Reply(align, true, minConf, m, q);
      var times, n := align(Take(m.acc, q), q.words).times, |reply.1.words|;
      var before := Min(if q.reset then 0 else m.emitted, |times|);
      && n >= before && (n > before ==> Resolved(times, q.seen, minConf, n))
      && (Resolved(times, q.seen, minConf, j) ==> j <= n)
      && reply.0.emitted == n
  {
    SureIsLongest(align(Take(m.acc, q), q.words).times, q.seen, minConf, j);
  }

  method CountEnded(times: seq<Timing>, seen: int) returns (n: nat)
    ensures n == Ended(times, seen)
  {
    n := 0;
    while n < |times| && times[n].t1 <= seen
      invariant n <= |times| && n + Ended(times[n..], seen) == Ended(times, seen)
    {
      assert times[n..][1..] == times[n + 1..];
      n := n + 1;
    }
  }

  method DropUnsure(times: seq<Timing>, minConf: real, start: nat) returns (n: nat)
    requires start <= |times|
    ensures n == Sure(times[..start], minConf)
  {
    n := start;
    while n > 0 && times[n - 1].conf < minConf
      invariant n <= start && Sure(times[..n], minConf) == Sure(times[..start], minConf)
    {
      assert times[..n][..n - 1] == times[..n - 1];
      n := n - 1;
    }
  }

  // ---- a whole stream ------------------------------------------------------------------------------

  /** The replies to the requests of one stream, in order. */
  function Replies(align: Aligner, trim: bool, minConf: real, m: Memory, qs: seq<Request>): (rs: seq<Response>)
    requires TimesWords(align)
    ensures |rs| == |qs|
    decreases qs
  {
    if qs == [] then []
    else
      var r := Reply(align, trim, minConf, m, qs[0]);
      [r.1] + Replies(align, trim, minConf, r.0, qs[1..])
  }

  /** The partials of one stream over one word list: the first clears the accumulator, no later one does. */
  predicate OneStream(qs: seq<Request>, words: seq<string>) {
    forall i :: 0 <= i < |qs| ==> qs[i].kind == Partial && qs[i].words == words && (qs[i].reset <==> i == 0)
  }

  /** The same from some point after the first. */
  predicate Continuing(qs: seq<Request>, words: seq<string>) {
    forall i :: 0 <= i < |qs| ==> qs[i].kind == Partial && qs[i].words == words && !qs[i].reset
  }

  /** A continuing request lowers no bound, and a successful reply meets it. */
  lemma ContinuingReply(align: Aligner, trim: bool, minConf: real, m: Memory, q: Request)
    requires TimesWords(align) && q.kind == Partial && !q.reset
    ensures var r := Reply(align, trim, minConf, m, q);
      && Min(m.emitted, |q.words|) <= r.0.emitted
      && (r.1.ok ==> Min(m.emitted, |q.words|) <= |r.1.words| <= |q.words|)
  {
  }

  /** Every successful reply of a continuing stream sends at least what the memory says was sent. */
  lemma {:induction false} NeverBelow(align: Aligner, trim: bool, minConf: real, m: Memory, qs: seq<Request>,
                                      words: seq<string>, j: nat)
    requires TimesWords(align) && Continuing(qs, words) && j < |qs|
    ensures var r := Replies(align, trim, minConf, m, qs)[j];
      r.ok ==> Min(m.emitted, |words|) <= |r.words| <= |words|
    decreases qs
  {
    ContinuingReply(align, trim, minConf, m, qs[0]);
    if j > 0 {
      NeverBelow(align, trim, minConf, Reply(align, trim, minConf, m, qs[0]).0, qs[1..], words, j - 1);
    }
  }

  /** Without the trim every successful reply names all words. */
  lemma {:induction false} FullWhenUntrimmed(align: Aligner, minConf: real, m: Memory, qs: seq<Request>,
                                             words: seq<string>, j: nat)
    requires TimesWords(align) && Continuing(qs, words) && j < |qs|
    ensures Replies(align, false, minConf, m, qs)[j].ok ==> |Replies(align, false, minConf, m, qs)[j].words| == |words|
    decreases qs
  {
    if j > 0 {
      FullWhenUntrimmed(align, minConf, Reply(align, false, minConf, m, qs[0]).0, qs[1..], words, j - 1);
    }
  }

  /** Of two successful replies the later sends no fewer words; this covers the step after the earlier one. */
  lemma FirstOfTwo(align: Aligner, trim: bool, minConf: real, m: Memory, qs: seq<Request>, words: seq<string>, j: nat)
    requires TimesWords(align) && 0 < j < |qs| && Continuing(qs[1..], words)
    requires qs[0].kind == Partial && qs[0].words == words
    ensures var rs := Replies(align, trim, minConf, m, qs);
      rs[0].ok && rs[j].ok ==> |rs[0].words| <= |rs[j].words| <= |words|
  {
    var r := Reply(align, trim, minConf, m, qs[0]);
    NeverBelow(align, trim, minConf, r.0, qs[1..], words, j - 1);
    if !trim {
      FullWhenUntrimmed(align, minConf, r.0, qs[1..], words, j - 1);
    }
  }

  lemma {:induction false} LaterOfTwo(align: Aligner, trim: bool, minConf: real, m: Memory, qs: seq<Request>,
                                      words: seq<string>, i: nat, j: nat)
    requires TimesWords(align) && Continuing(qs, words) && i < j < |qs|
    ensures var rs := Replies(align, trim, minConf, m, qs);
      rs[i].ok && rs[j].ok ==> |rs[i].words| <= |rs[j].words| <= |words|
    decreases qs
  {
    if i == 0 {
      FirstOfTwo(align, trim, minConf, m, qs, words, j);
    } else {
      LaterOfTwo(align, trim, minConf, Reply(align, trim, minConf, m, qs[0]).0, qs[1..], words, i - 1, j - 1);
    }
  }

  /**
   From a stream's first partial on, and whatever the worker did before it, the
   prefix sent by successive successful partials never shrinks and stays within
   the list.
   */
  lemma PrefixNeverShrinks(align: Aligner, trim: bool, minConf: real, m: Memory, qs: seq<Request>,
                           words: seq<string>, i: nat, j: nat)
    requires TimesWords(align) && OneStream(qs, words) && i < j < |qs|
    ensures var rs := Replies(align, trim, minConf, m, qs);
      rs[i].ok && rs[j].ok ==> |rs[i].words| <= |rs[j].words| <= |words|
  {
    if i == 0 {
      FirstOfTwo(align, trim, minConf, m, qs, words, j);
    } else {
      LaterOfTwo(align, trim, minConf, Reply(align, trim, minConf, m, qs[0]).0, qs[1..], words, i - 1, j - 1);
    }
  }

  // ---- the worker in a run --------------------------------------------------------------------------

  /** A run's state with the worker's memory of what it sent, and the lengths sent in the current stream. */
  datatype Watched = Watched(s: AlignerRuns.State, emitted: nat, sent: seq<nat>)

  /** The two-process step, the worker answering as its reply function says. */
  ghost predicate Allowed(align: Aligner, trim: bool, minConf: real, c: AlignerRuns.Config, x: Watched,
                          l: AlignerRuns.Label)
    requires TimesWords(align)
  {
    && AlignerRuns.Enabled(c, x.s, l)
    && (l.ChildAnswer? ==> l.r == Reply(align, trim, minConf, Memory(x.s.acc, x.emitted), x.s.work.req).1)
  }

  /** A killed worker and a new stream start over; every successful partial answer is noted. */
  ghost function Watch(align: Aligner, trim: bool, minConf: real, c: AlignerRuns.Config, x: Watched,
                       l: AlignerRuns.Label): Watched
    requires TimesWords(align) && Allowed(align, trim, minConf, c, x, l)
  {
    var s := AlignerRuns.Apply(c, x.s, l);
    match l
    case Begin(_, _) => Watched(s, x.emitted, [])
    case Kill => Watched(s, 0, [])
    case ChildAnswer(r) =>
      Watched(s, Reply(align, trim, minConf, Memory(x.s.acc, x.emitted), x.s.work.req).0.emitted,
              if r.kind == Partial && r.ok then x.sent + [|r.words|] else x.sent)
    case _ => Watched(s, x.emitted, x.sent)
  }

  ghost predicate WatchedRun(align: Aligner, trim: bool, minConf: real, c: AlignerRuns.Config, x: Watched,
                             labels: seq<AlignerRuns.Label>, y: Watched)
    requires TimesWords(align)
    decreases labels
  {
    if labels == [] then x == y
    else Allowed(align, trim, minConf, c, x, labels[0])
         && WatchedRun(align, trim, minConf, c, Watch(align, trim, minConf, c, x, labels[0]), labels[1..], y)
  }

  function Start(): Watched {
    Watched(AlignerRuns.Fresh(), 0, [])
  }

  predicate Rising(sent: seq<nat>) {
    forall i, j :: 0 <= i < j < |sent| ==> sent[i] <= sent[j]
  }

  /** The request that clears the worker is still to be handled. */
  predicate ClearPending(s: AlignerRuns.State) {
    AlignerRuns.Unhandled(s) != [] && AlignerRuns.Unhandled(s)[0].reset
  }

  /** The clearing request has been handled. */
  predicate Cleared(s: AlignerRuns.State) {
    s.stream.hasSent && !ClearPending(s)
  }

  /** Lengths that rise within a list of `n` words, below what the worker remembers to have sent. */
  predicate Bounded(trim: bool, n: nat, emitted: nat, sent: seq<nat>) {
    Rising(sent) &&
    (sent != [] ==>
       var last := sent[|sent| - 1];
       last <= n && if trim then last <= emitted else last == n)
  }

  ghost predicate SentOk(trim: bool, x: Watched) {
    x.s.stream.active && x.sent != [] ==>
      Cleared(x.s) && Bounded(trim, |x.s.stream.words|, x.emitted, x.sent)
  }

  lemma RisingOneMore(sent: seq<nat>, n: nat)
    requires Rising(sent) && (sent != [] ==> sent[|sent| - 1] <= n)
    ensures Rising(sent + [n])
  {
  }

  lemma QueueCleared(s: AlignerRuns.State, t: AlignerRuns.State, q: Request)
    requires Cleared(s) && t.stream.hasSent && !q.reset
    requires AlignerRuns.Unhandled(t) == AlignerRuns.Unhandled(s) + [q]
    ensures Cleared(t)
  {
  }

  lemma FlushCleared(c: AlignerRuns.Config, s: AlignerRuns.State, throttled: bool)
    requires Cleared(s)
    ensures Cleared(AlignerRuns.Flush(c, s, throttled))
    ensures AlignerRuns.Flush(c, s, throttled).stream == s.stream
  {
    if Due(s.stream, throttled) {
      QueueCleared(s, AlignerRuns.Flush(c, s, throttled), PartialOf(s.stream));
    }
  }

  lemma PollCleared(c: AlignerRuns.Config, s: AlignerRuns.State, tail: seq<int>, total: int)
    requires AlignerRuns.Enabled(c, s, AlignerRuns.FinalizePoll(tail, total)) && Cleared(s)
    ensures Cleared(AlignerRuns.Apply(c, s, AlignerRuns.FinalizePoll(tail, total)))
    ensures AlignerRuns.Apply(c, s, AlignerRuns.FinalizePoll(tail, total)).stream.words == s.stream.words
  {
    var t := AlignerRuns.Apply(c, s, AlignerRuns.FinalizePoll(tail, total));
    if t.control == AlignerRuns.SendingFinal {
      QueueCleared(s, t, FinalOf(s.stream, tail, total));
    } else {
      SameQueueCleared(s, t);
    }
  }

  /** The parent's calls queue requests that clear nothing once one was sent. */
  lemma CallCleared(c: AlignerRuns.Config, s: AlignerRuns.State, l: AlignerRuns.Label)
    requires AlignerRuns.Enabled(c, s, l) && (l.Push? || l.Drain? || l.Finalize? || l.FinalizePoll?)
    requires Cleared(s) && AlignerRuns.Apply(c, s, l).stream.active
    ensures Cleared(AlignerRuns.Apply(c, s, l)) && AlignerRuns.Apply(c, s, l).stream.words == s.stream.words
  {
    match l
    case Push(pcm, seen, throttled) =>
      FlushCleared(c, s.(stream := Pushed(s.stream, pcm, seen), pushed := s.pushed + pcm), throttled);
    case Drain(throttled) => FlushCleared(c, s, throttled);
    case FinalizePoll(tail, total) => PollCleared(c, s, tail, total);
    case _ =>
  }

  lemma SameQueueCleared(s: AlignerRuns.State, t: AlignerRuns.State)
    requires Cleared(s) && t.stream.hasSent && AlignerRuns.Unhandled(t) == AlignerRuns.Unhandled(s)
    ensures Cleared(t)
  {
  }

  /** Writing and reading leave the queue alone, and what was sent stays sent while the stream is open. */
  lemma ParentMoves(c: AlignerRuns.Config, s: AlignerRuns.State, l: AlignerRuns.Label)
    requires AlignerRuns.Enabled(c, s, l) && (l.ParentWrite? || l.ParentRead?)
    requires AlignerRuns.Apply(c, s, l).stream.active
    ensures var t := AlignerRuns.Apply(c, s, l);
      t.down.frames == s.down.frames && t.work == s.work && t.stream.words == s.stream.words
      && (s.stream.hasSent ==> t.stream.hasSent)
  {
  }

  lemma ParentMoveCleared(c: AlignerRuns.Config, s: AlignerRuns.State, l: AlignerRuns.Label)
    requires AlignerRuns.Enabled(c, s, l) && (l.ParentWrite? || l.ParentRead?)
    requires Cleared(s) && AlignerRuns.Apply(c, s, l).stream.active
    ensures Cleared(AlignerRuns.Apply(c, s, l)) && AlignerRuns.Apply(c, s, l).stream.words == s.stream.words
  {
    ParentMoves(c, s, l);
    SameQueueCleared(s, AlignerRuns.Apply(c, s, l));
  }

  lemma ChildMoveCleared(c: AlignerRuns.Config, s: AlignerRuns.State, l: AlignerRuns.Label)
    requires AlignerRuns.Enabled(c, s, l) && (l.ChildRead? || l.ChildWrite?) && Cleared(s)
    ensures Cleared(AlignerRuns.Apply(c, s, l)) && AlignerRuns.Apply(c, s, l).stream == s.stream
  {
    SameQueueCleared(s, AlignerRuns.Apply(c, s, l));
  }

  lemma ActiveBefore(c: AlignerRuns.Config, s: AlignerRuns.State, l: AlignerRuns.Label)
    requires AlignerRuns.Enabled(c, s, l) && AlignerRuns.Apply(c, s, l).stream.active && !l.Begin?
    ensures s.stream.active
  {
  }

  lemma OtherSent(align: Aligner, trim: bool, minConf: real, c: AlignerRuns.Config, x: Watched, l: AlignerRuns.Label)
    requires TimesWords(align) && SentOk(trim, x)
    requires Allowed(align, trim, minConf, c, x, l) && !l.ChildAnswer? && !l.Begin? && !l.Kill?
    ensures SentOk(trim, Watch(align, trim, minConf, c, x, l))
  {
    var t := AlignerRuns.Apply(c, x.s, l);
    if t.stream.active && x.sent != [] {
      ActiveBefore(c, x.s, l);
      if l.Push? || l.Drain? || l.Finalize? || l.FinalizePoll? {
        CallCleared(c, x.s, l);
      } else if l.ParentWrite? || l.ParentRead? {
        ParentMoveCleared(c, x.s, l);
      } else {
        ChildMoveCleared(c, x.s, l);
      }
    }
  }

  /** After an answer no clearing request is left; a partial's means one was sent. */
  lemma AnswerCleared(c: AlignerRuns.Config, s: AlignerRuns.State, r: Response)
    requires AlignerRuns.Inv(c, s) && AlignerRuns.Enabled(c, s, AlignerRuns.ChildAnswer(r))
    ensures var t := AlignerRuns.Apply(c, s, AlignerRuns.ChildAnswer(r));
      && !ClearPending(t) && s.stream.active && t.stream == s.stream && s.work.req.words == s.stream.words
      && (s.work.req.kind == Partial ==> s.stream.hasSent)
    ensures s.work.req.reset ==> ClearPending(s)
  {
    AlignerRuns.HandlingIsNext(s);
    var t := AlignerRuns.Apply(c, s, AlignerRuns.ChildAnswer(r));
    assert AlignerRuns.Unhandled(s)[0] == s.work.req && AlignerRuns.Unhandled(s)[1..] == AlignerRuns.Unhandled(t);
    if s.work.req.kind == Partial {
      PartialMeansSent(c, s);
    }
  }

  /** While a partial is being handled it has been sent. */
  lemma PartialMeansSent(c: AlignerRuns.Config, s: AlignerRuns.State)
    requires AlignerRuns.Inv(c, s) && s.work.Handling? && s.work.req.kind == Partial
    ensures s.stream.hasSent
  {
    AlignerRuns.HandlingIsNext(s);
    AlignerRuns.LineShort(s);
    assert AlignerRuns.Line(s)[|s.up.frames|] == Partial;
  }

  /** One more successful partial answer extends what was sent. */
  lemma PartialAnswer(align: Aligner, trim: bool, minConf: real, m: Memory, q: Request, sent: seq<nat>)
    requires TimesWords(align) && q.kind == Partial && Reply(align, trim, minConf, m, q).1.ok
    requires sent != [] ==> !q.reset && Bounded(trim, |q.words|, m.emitted, sent)
    ensures var r := Reply(align, trim, minConf, m, q);
      Bounded(trim, |q.words|, r.0.emitted, sent + [|r.1.words|])
  {
    if !q.reset {
      ContinuingReply(align, trim, minConf, m, q);
    }
    RisingOneMore(sent, |Reply(align, trim, minConf, m, q).1.words|);
  }

  /** A request that clears nothing does not lower what is remembered, within its words. */
  lemma EmittedKept(align: Aligner, trim: bool, minConf: real, m: Memory, q: Request, sent: seq<nat>)
    requires TimesWords(align) && !q.reset && Bounded(trim, |q.words|, m.emitted, sent)
    ensures Bounded(trim, |q.words|, Reply(align, trim, minConf, m, q).0.emitted, sent)
  {
  }

  /** Whatever the worker answers, what was sent stays in order. */
  lemma AnswerSent(align: Aligner, trim: bool, minConf: real, x: Watched, y: Watched)
    requires TimesWords(align) && SentOk(trim, x) && x.s.work.Handling? && x.s.stream.active
    requires x.s.work.req.words == x.s.stream.words && (x.s.work.req.reset ==> ClearPending(x.s))
    requires x.s.work.req.kind == Partial ==> x.s.stream.hasSent
    requires y.s.stream == x.s.stream && !ClearPending(y.s)
    requires var reply := Reply(align, trim, minConf, Memory(x.s.acc, x.emitted), x.s.work.req);
      y.emitted == reply.0.emitted
      && y.sent == if reply.1.kind == Partial && reply.1.ok then x.sent + [|reply.1.words|] else x.sent
    ensures SentOk(trim, y)
  {
    var m, q := Memory(x.s.acc, x.emitted), x.s.work.req;
    if q.kind == Partial && Reply(align, trim, minConf, m, q).1.ok {
      PartialAnswer(align, trim, minConf, m, q, x.sent);
    } else if x.sent != [] {
      EmittedKept(align, trim, minConf, m, q, x.sent);
    }
  }

  lemma KeepSent(align: Aligner, trim: bool, minConf: real, c: AlignerRuns.Config, x: Watched, l: AlignerRuns.Label)
    requires TimesWords(align) && AlignerRuns.Inv(c, x.s) && SentOk(trim, x)
    requires Allowed(align, trim, minConf, c, x, l)
    ensures SentOk(trim, Watch(align, trim, minConf, c, x, l))
  {
    match l
    case ChildAnswer(r) =>
      AnswerCleared(c, x.s, r);
      AnswerSent(align, trim, minConf, x, Watch(align, trim, minConf, c, x, l));
    case Begin(_, _) =>
    case Kill =>
    case _ => OtherSent(align, trim, minConf, c, x, l);
  }

  lemma {:induction false} WatchedKeeps(align: Aligner, trim: bool, minConf: real, c: AlignerRuns.Config, x: Watched,
                                        labels: seq<AlignerRuns.Label>, y: Watched)
    requires TimesWords(align) && AlignerRuns.Sized(c) && AlignerRuns.Inv(c, x.s) && SentOk(trim, x)
    requires WatchedRun(align, trim, minConf, c, x, labels, y)
    ensures AlignerRuns.Inv(c, y.s) && SentOk(trim, y)
    decreases labels
  {
    if labels != [] {
      AlignerRuns.KeepInv(c, x.s, labels[0]);
      KeepSent(align, trim, minConf, c, x, labels[0]);
      WatchedKeeps(align, trim, minConf, c, Watch(align, trim, minConf, c, x, labels[0]), labels[1..], y);
    }
  }

  /** A watched run is a run of the two processes. */
  lemma {:induction false} WatchedIsRun(align: Aligner, trim: bool, minConf: real, c: AlignerRuns.Config, x: Watched,
                                        labels: seq<AlignerRuns.Label>, y: Watched)
    requires TimesWords(align) && WatchedRun(align, trim, minConf, c, x, labels, y)
    ensures AlignerRuns.Run(c, x.s, labels, y.s)
    decreases labels
  {
    if labels != [] {
      WatchedIsRun(align, trim, minConf, c, Watch(align, trim, minConf, c, x, labels[0]), labels[1..], y);
    }
  }

  /** In every run, the successful partial answers of a stream name ever longer prefixes of its words, never more. */
  lemma SentNeverShrinks(align: Aligner, trim: bool, minConf: real, c: AlignerRuns.Config,
                         labels: seq<AlignerRuns.Label>, x: Watched)
    requires TimesWords(align) && AlignerRuns.Sized(c) && x.s.stream.active
    requires WatchedRun(align, trim, minConf, c, Start(), labels, x)
    ensures Rising(x.sent) && forall i :: 0 <= i < |x.sent| ==> x.sent[i] <= |x.s.stream.words|
  {
    WatchedKeeps(align, trim, minConf, c, Start(), labels, x);
  }

  /** Every reply is a step the two-process model allows, with the accumulator it prescribes. */
  lemma ReplyIsAStep(align: Aligner, trim: bool, minConf: real, emitted: nat, c: AlignerRuns.Config,
                     s: AlignerRuns.State)
    requires TimesWords(align) && s.work.Handling?
    ensures var reply := Reply(align, trim, minConf, Memory(s.acc, emitted), s.work.req);
      AlignerRuns.Enabled(c, s, AlignerRuns.ChildAnswer(reply.1))
      && AlignerRuns.Apply(c, s, AlignerRuns.ChildAnswer(reply.1)).acc == reply.0.acc
  {
  }

  /** In any run, FINAL is answered from all audio of the stream; it fails only if the aligner does. */
  lemma FinalTimesEverything(align: Aligner, trim: bool, minConf: real, emitted: nat, c: AlignerRuns.Config,
                             s: AlignerRuns.State)
    requires TimesWords(align) && AlignerRuns.Sized(c) && AlignerRuns.Reachable(c, s)
    requires s.work.Handling? && s.work.req.kind == Final
    ensures var reply := Reply(align, trim, minConf, Memory(s.acc, emitted), s.work.req).1;
      match align(Accumulator(s.pushed, s.stream.sr), s.stream.words)
      case Failed => !reply.ok && reply.words == []
      case Timed(times) =>
        && reply.ok && |reply.words| == |s.stream.words| == |times|
        && forall i :: 0 <= i < |times| ==>
             reply.words[i] == AlignedWord(i, s.stream.words[i], times[i].t0, times[i].t1, times[i].conf)
  {
    AlignerRuns.FinalSeesEverything(c, s);
  }

  // ---- the worker with its cache ---------------------------------------------------------------------

  class Worker {
    const align: Aligner
    /** QWEN3_FA_PARTIAL_TRIM and QWEN3_FA_PARTIAL_MIN_CONF. */
    const trim: bool
    const minConf: real

    var accPcm: seq<int>
    var accSr: int
    var maxEmitted: nat
    var cachedValid: bool
    var cachedSeen: int
    var cachedPcm: nat
    var cachedWords: seq<string>
    var cachedTimes: seq<Timing>

    constructor (align: Aligner, trim: bool, minConf: real)
      requires TimesWords(align)
      ensures Valid() && View() == Memory(Accumulator([], 0), 0)
      ensures this.align == align && this.trim == trim && this.minConf == minConf
    {
      this.align, this.trim, this.minConf := align, trim, minConf;
      accPcm, accSr, maxEmitted := [], 0, 0;
      cachedValid, cachedSeen, cachedPcm, cachedWords, cachedTimes := false, -1, 0, [], [];
    }

    function View(): Memory
      reads this
    {
      Memory(Accumulator(accPcm, accSr), maxEmitted)
    }

    /** The cache holds what aligning the first `cachedPcm` samples of the accumulator gives. */
    ghost predicate Valid()
      reads this
    {
      && TimesWords(align)
      && (cachedValid ==>
            accSr > 0 && cachedPcm <= |accPcm|
            && align(Accumulator(accPcm[..cachedPcm], accSr), cachedWords) == Timed(cachedTimes))
    }

    /** Every reply is the one a worker without a cache would give. */
    method HandleAlign(q: Request) returns (r: Response)
      requires Valid()
      modifies this
      ensures Valid()
      ensures (View(), r) == Reply(align, trim, minConf, old(View()), q)
    {
      if q.words == [] || q.sr <= 0 {
        return Failure(q);
      }
      var accepted := Accumulate(q);
      if !accepted {
        return Failure(q);
      }
      var times;
      if q.kind == Final && Reusable(q) {
        times := cachedTimes;
        assert accPcm[..cachedPcm] == accPcm;
      } else {
        var result := align(Accumulator(accPcm, accSr), q.words);
        if result.Failed? {
          return Failure(q);
        }
        times := result.times;
        if q.kind == Partial {
          cachedValid, cachedSeen, cachedPcm, cachedWords, cachedTimes := true, q.seen, |accPcm|, q.words, times;
          assert accPcm[..cachedPcm] == accPcm;
        }
      }
      var n := |q.words|;
      if q.kind == Partial && trim {
        n := CountEnded(times, q.seen);
        n := DropUnsure(times, minConf, n);
        if n < maxEmitted {
          n := Min(maxEmitted, |q.words|);
        }
        maxEmitted := n;
      }
      r := Response(q.kind, true, q.seen, Show(q.words, times, n));
    }

    /** A final that adds no audio to the last partial and asks for the same words at the same extent. */
    predicate Reusable(q: Request)
      reads this
    {
      cachedValid && q.delta == [] && cachedSeen == q.seen && cachedPcm == |accPcm| && cachedWords == q.words
    }

    /** The accumulator's part of a request; false when the rate changed mid-stream. */
    method Accumulate(q: Request) returns (accepted: bool)
      requires Valid() && q.words != [] && q.sr > 0
      modifies this
      ensures Valid() && View() == Absorbed(old(View()), q)
      ensures accepted <==> Accepts(old(View()).acc, q)
      ensures accepted ==> accSr == q.sr
      ensures cachedSeen == old(cachedSeen) && cachedPcm == old(cachedPcm)
      ensures cachedWords == old(cachedWords) && cachedTimes == old(cachedTimes)
    {
      if q.reset {
        accPcm, accSr, cachedValid, maxEmitted := [], q.sr, false, 0;
      }
      if accSr == 0 {
        accSr := q.sr;
      }
      accepted := accSr == q.sr;
      if accepted {
        ghost var before := accPcm;
        accPcm := accPcm + q.delta;
        assert cachedValid ==> accPcm[..cachedPcm] == before[..cachedPcm];
      }
    }
  }
}
