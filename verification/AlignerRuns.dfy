/**
 The aligner session and its worker as two processes over a pair of bounded
 byte pipes: every interleaving of the parent's calls, the worker's loop and
 partial reads and writes.
 */
module AlignerRuns {
  import opened AlignerWire

  // ---- one direction of the socket -----------------------------------------------------------

  /** Frames begun by the writer and not fully read: bytes of the first already read, of the last not yet written. */
  datatype Pipe<T> = Pipe(frames: seq<T>, taken: nat, unsent: nat)

  function Total<T>(frames: seq<T>, size: T -> nat): nat {
    if frames == [] then 0 else size(frames[0]) + Total(frames[1..], size)
  }

  lemma {:induction false} TotalAppend<T>(frames: seq<T>, f: T, size: T -> nat)
    ensures Total(frames + [f], size) == Total(frames, size) + size(f)
  {
    if frames == [] {
      assert [] + [f] == [f] && [f][1..] == [];
    } else {
      assert (frames + [f])[1..] == frames[1..] + [f];
      TotalAppend(frames[1..], f, size);
    }
  }

  /** Bytes in the socket buffer. */
  function Buffered<T>(p: Pipe<T>, size: T -> nat): int {
    Total(p.frames, size) - p.taken - p.unsent
  }

  ghost predicate PipeOk<T>(p: Pipe<T>, size: T -> nat, cap: nat) {
    && (p.frames == [] ==> p.taken == 0 && p.unsent == 0)
    && (p.frames != [] ==> p.taken < size(p.frames[0]) && p.unsent <= size(p.frames[|p.frames| - 1]))
    && 0 <= Buffered(p, size) <= cap
  }

  function Put<T>(p: Pipe<T>, f: T, size: T -> nat): Pipe<T> {
    Pipe(p.frames + [f], p.taken, size(f))
  }

  predicate CanWrite<T>(p: Pipe<T>, k: nat, size: T -> nat, cap: nat) {
    1 <= k <= p.unsent && Buffered(p, size) + k <= cap
  }

  function Wrote<T>(p: Pipe<T>, k: nat): Pipe<T>
    requires k <= p.unsent
  {
    p.(unsent := p.unsent - k)
  }

  predicate CanRead<T>(p: Pipe<T>, k: nat, size: T -> nat) {
    1 <= k <= Buffered(p, size) && p.frames != [] && p.taken + k <= size(p.frames[0])
  }

  /** Reading the last byte of the first frame. */
  predicate Completes<T>(p: Pipe<T>, k: nat, size: T -> nat)
    requires p.frames != []
  {
    p.taken + k == size(p.frames[0])
  }

  function Took<T>(p: Pipe<T>, k: nat, size: T -> nat): Pipe<T>
    requires p.frames != []
  {
    if Completes(p, k, size) then Pipe(p.frames[1..], 0, p.unsent) else p.(taken := p.taken + k)
  }

  lemma PutOk<T>(p: Pipe<T>, f: T, size: T -> nat, cap: nat)
    requires PipeOk(p, size, cap) && p.unsent == 0 && size(f) >= 1
    ensures PipeOk(Put(p, f, size), size, cap) && Buffered(Put(p, f, size), size) == Buffered(p, size)
  {
    TotalAppend(p.frames, f, size);
  }

  lemma TookOk<T>(p: Pipe<T>, k: nat, size: T -> nat, cap: nat)
    requires PipeOk(p, size, cap) && CanRead(p, k, size)
    requires forall f :: f in p.frames ==> size(f) >= 1
    ensures PipeOk(Took(p, k, size), size, cap)
  {
    if |p.frames| == 1 {
      assert p.frames[1..] == [] && Total(p.frames[1..], size) == 0;
    }
  }

  // ---- the two processes -----------------------------------------------------------------------

  /** Where the parent is inside its current call; other calls wait for the session's lock. */
  datatype Control = Free | SendingPartial | Draining | Polling | Dropping | SendingFinal | Awaiting

  datatype Work = Waiting | Handling(req: Request) | Answering

  /** `pushed` is the history: all audio of the current stream, the tail included once FINAL_REQ is made. */
  datatype State = State(
    stream: Stream, control: Control,
    acc: Accumulator, work: Work,
    down: Pipe<Request>, up: Pipe<Response>,
    pushed: seq<int>)

  datatype Config = Config(down: nat, up: nat, reqSize: Request -> nat, respSize: Response -> nat)

  /** Both socket buffers hold something; every frame has a header. */
  ghost predicate Sized(c: Config) {
    c.down >= 1 && c.up >= 1 && (forall q :: c.reqSize(q) >= 1) && (forall r :: c.respSize(r) >= 1)
  }

  function Fresh(): State {
    State(Idle(), Free, Accumulator([], 0), Waiting, Pipe([], 0, 0), Pipe([], 0, 0), [])
  }

  datatype Label =
    | Begin(words: seq<string>, sr: int)
    | Push(pcm: seq<int>, seen: int, throttled: bool)
    | Drain(throttled: bool)
    | Finalize
    | FinalizePoll(tail: seq<int>, total: int)
    | ParentWrite(k: nat)
    | ParentRead(k: nat)
    | ChildRead(k: nat)
    | ChildAnswer(r: Response)
    | ChildWrite(k: nat)
    | Kill

  predicate Enabled(c: Config, s: State, l: Label) {
    match l
    case Begin(words, sr) => s.control == Free && !s.stream.active && words != [] && sr > 0
    case Push(_, _, _) => s.control == Free && s.stream.active
    case Drain(_) => s.control == Free
    case Finalize => s.control == Free
    case FinalizePoll(_, _) => s.control == Polling
    case ParentWrite(k) =>
      (s.control == SendingPartial || s.control == SendingFinal) && CanWrite(s.down, k, c.reqSize, c.down)
    case ParentRead(k) => Reading(s.control) && CanRead(s.up, k, c.respSize)
    case ChildRead(k) => s.work == Waiting && CanRead(s.down, k, c.reqSize)
    case ChildAnswer(r) =>
      s.work.Handling? && r.kind == s.work.req.kind && r.seen == s.work.req.seen && Answers(r, s.work.req.words)
    case ChildWrite(k) => s.work == Answering && CanWrite(s.up, k, c.respSize, c.up)
    case Kill => s.control == Free
  }

  predicate Reading(p: Control) {
    p == Draining || p == Dropping || p == Awaiting
  }

  /** Starts sending a partial if one is due. */
  function Flush(c: Config, s: State, throttled: bool): State {
    if Due(s.stream, throttled)
    then s.(control := SendingPartial, down := Put(s.down, PartialOf(s.stream), c.reqSize))
    else s
  }

  function Apply(c: Config, s: State, l: Label): State
    requires Enabled(c, s, l)
  {
    match l
    case Begin(words, sr) => s.(stream := Begun(words, sr), pushed := [])
    case Push(pcm, seen, throttled) =>
      Flush(c, s.(stream := Pushed(s.stream, pcm, seen), pushed := s.pushed + pcm), throttled)
    case Drain(throttled) =>
      if Buffered(s.up, c.respSize) > 0 then s.(control := Draining) else Flush(c, s, throttled)
    case Finalize => if s.stream.active then s.(control := Polling) else s.(stream := Idle())
    case FinalizePoll(tail, total) =>
      if Buffered(s.up, c.respSize) > 0 then s.(control := Dropping)
      else s.(control := SendingFinal, stream := s.stream.(pending := []), pushed := s.pushed + tail,
              down := Put(s.down, FinalOf(s.stream, tail, total), c.reqSize))
    case ParentWrite(k) =>
      var t := s.(down := Wrote(s.down, k));
      if t.down.unsent > 0 then t
      else if s.control == SendingPartial then t.(control := Free, stream := AfterSend(s.stream))
      else t.(control := Awaiting)
    case ParentRead(k) =>
      var t := s.(up := Took(s.up, k, c.respSize));
      if !Completes(s.up, k, c.respSize) then t else Received(t, s.up.frames[0].kind)
    case ChildRead(k) =>
      var t := s.(down := Took(s.down, k, c.reqSize));
      if Completes(s.down, k, c.reqSize) then t.(work := Handling(s.down.frames[0])) else t
    case ChildAnswer(r) => s.(acc := Take(s.acc, s.work.req), work := Answering, up := Put(s.up, r, c.respSize))
    case ChildWrite(k) =>
      var t := s.(up := Wrote(s.up, k));
      if t.up.unsent > 0 then t else t.(work := Waiting)
    case Kill => Fresh().(stream := Killed(s.stream))
  }

  /** The parent has read a whole response. */
  function Received(s: State, kind: Kind): State {
    match s.control
    case Draining => s.(control := Free, stream := if kind == Partial then AfterPartial(s.stream) else s.stream)
    case Dropping => s.(control := Polling)
    case _ => if kind == Partial then s else s.(control := Free, stream := Idle())
  }

  ghost predicate Run(c: Config, s: State, labels: seq<Label>, t: State)
    decreases labels
  {
    if labels == [] then s == t
    else Enabled(c, s, labels[0]) && Run(c, Apply(c, s, labels[0]), labels[1..], t)
  }

  // ---- what every state keeps --------------------------------------------------------------------

  /** Requests the worker has not yet taken into its accumulator. */
  function Unhandled(s: State): seq<Request> {
    (if s.work.Handling? then [s.work.req] else []) + s.down.frames
  }

  function RequestKinds(qs: seq<Request>): seq<Kind> {
    seq(|qs|, i requires 0 <= i < |qs| => qs[i].kind)
  }

  function ResponseKinds(rs: seq<Response>): seq<Kind> {
    seq(|rs|, i requires 0 <= i < |rs| => rs[i].kind)
  }

  /** Everything outstanding, oldest first: responses not fully read, then requests not yet answered. */
  function Line(s: State): seq<Kind> {
    ResponseKinds(s.up.frames) + RequestKinds(Unhandled(s))
  }

  ghost predicate Pipes(c: Config, s: State) {
    && PipeOk(s.down, c.reqSize, c.down) && PipeOk(s.up, c.respSize, c.up)
    && (s.down.unsent > 0 <==> s.control == SendingPartial || s.control == SendingFinal)
    && (s.up.unsent > 0 <==> s.work == Answering)
    && (s.up.taken > 0 ==> Reading(s.control))
    && (s.down.taken > 0 ==> s.work == Waiting)
    && (s.control == Draining || s.control == Dropping ==> s.up.frames != [])
    && (s.work == Answering ==> s.up.frames != [])
  }

  ghost predicate LineOk(s: State) {
    && (match s.control
        case Free => Line(s) == Partials(s.stream.inflight)
        case Draining => Line(s) == Partials(s.stream.inflight)
        case SendingPartial => Line(s) == [Partial] && s.stream.inflight == 0
        case Polling => Line(s) == [] || Line(s) == [Partial]
        case Dropping => Line(s) == [] || Line(s) == [Partial]
        case SendingFinal => Line(s) == [Final] || Line(s) == [Partial, Final]
        case Awaiting => Line(s) == [Final] || Line(s) == [Partial, Final])
    && s.stream.inflight <= MAX_INFLIGHT
    && (!s.stream.active ==> s.control == Free && s.stream.inflight == 0)
    && (Partial in Line(s) && s.control != SendingPartial ==> s.stream.hasSent)
  }

  function Partials(n: nat): seq<Kind> {
    seq(n, _ => Partial)
  }

  predicate SameStream(s: Stream, q: Request) {
    q.words == s.words && q.sr == s.sr
  }

  /** Audio: accumulator, requests on their way and pending add up to everything pushed. */
  ghost predicate AudioOk(s: State) {
    var after := TakeAll(s.acc, Unhandled(s));
    match s.control
    case SendingPartial => after == Accumulator(s.pushed, s.stream.sr)
    case SendingFinal => after == Accumulator(s.pushed, s.stream.sr)
    case Awaiting => after == Accumulator(s.pushed, s.stream.sr)
    case _ =>
      if s.stream.hasSent then after.sr == s.stream.sr && after.pcm + s.stream.pending == s.pushed
      else Unhandled(s) == [] && s.stream.pending == s.pushed
  }

  ghost predicate Content(s: State) {
    s.stream.active ==>
      && s.stream.words != [] && s.stream.sr > 0
      && (forall q :: q in Unhandled(s) ==> SameStream(s.stream, q))
      && (forall r :: r in s.up.frames ==> Answers(r, s.stream.words))
      && AllAccepted(s.acc, Unhandled(s))
      && (forall i :: 1 <= i < |Unhandled(s)| ==> !Unhandled(s)[i].reset)
      && (forall q :: q in Unhandled(s) && q.kind == Final ==> (q.reset <==> !s.stream.hasSent))
      && AudioOk(s)
  }

  // ---- the sockets stay within bounds ---------------------------------------------------------------

  lemma FlushPipes(c: Config, s: State, throttled: bool)
    requires Sized(c) && Pipes(c, s) && s.control == Free
    ensures Pipes(c, Flush(c, s, throttled))
  {
    if Due(s.stream, throttled) {
      PutOk(s.down, PartialOf(s.stream), c.reqSize, c.down);
    }
  }

  lemma CallPipes(c: Config, s: State, l: Label)
    requires Sized(c) && Pipes(c, s) && Enabled(c, s, l)
    requires l.Begin? || l.Push? || l.Drain? || l.Finalize? || l.Kill?
    ensures Pipes(c, Apply(c, s, l))
  {
    match l
    case Push(pcm, seen, throttled) =>
      FlushPipes(c, s.(stream := Pushed(s.stream, pcm, seen), pushed := s.pushed + pcm), throttled);
    case Drain(throttled) => FlushPipes(c, s, throttled);
    case _ =>
  }

  lemma FinalPipes(c: Config, s: State, tail: seq<int>, total: int)
    requires Sized(c) && Pipes(c, s) && s.control == Polling
    ensures Pipes(c, Apply(c, s, FinalizePoll(tail, total)))
  {
    PutOk(s.down, FinalOf(s.stream, tail, total), c.reqSize, c.down);
  }

  lemma WritePipes(c: Config, s: State, k: nat)
    requires Sized(c) && Pipes(c, s) && Enabled(c, s, ParentWrite(k))
    ensures Pipes(c, Apply(c, s, ParentWrite(k)))
  {
  }

  lemma ReadPipes(c: Config, s: State, k: nat)
    requires Sized(c) && Pipes(c, s) && Enabled(c, s, ParentRead(k))
    ensures Pipes(c, Apply(c, s, ParentRead(k)))
  {
    TookOk(s.up, k, c.respSize, c.up);
    LastUnread(s.up, k, c.respSize, c.up);
    var t := s.(up := Took(s.up, k, c.respSize));
    if Completes(s.up, k, c.respSize) {
      ReceivedPipes(c, t, s.up.frames[0].kind);
    }
  }

  lemma ReceivedPipes(c: Config, t: State, kind: Kind)
    requires Pipes(c, t.(control := Awaiting)) && Reading(t.control) && t.up.taken == 0
    ensures Pipes(c, Received(t, kind))
  {
  }

  /** The frame a writer is in the middle of cannot be the one just completed. */
  lemma LastUnread<T>(p: Pipe<T>, k: nat, size: T -> nat, cap: nat)
    requires PipeOk(p, size, cap) && CanRead(p, k, size)
    ensures p.unsent > 0 ==> Took(p, k, size).frames != []
  {
    if |p.frames| == 1 {
      assert Total(p.frames[1..], size) == 0;
    }
  }

  lemma ChildReadPipes(c: Config, s: State, k: nat)
    requires Sized(c) && Pipes(c, s) && Enabled(c, s, ChildRead(k))
    ensures Pipes(c, Apply(c, s, ChildRead(k)))
  {
    TookOk(s.down, k, c.reqSize, c.down);
  }

  lemma AnswerPipes(c: Config, s: State, r: Response)
    requires Sized(c) && Pipes(c, s) && Enabled(c, s, ChildAnswer(r))
    ensures Pipes(c, Apply(c, s, ChildAnswer(r)))
  {
    PutOk(s.up, r, c.respSize, c.up);
  }

  lemma ChildWritePipes(c: Config, s: State, k: nat)
    requires Sized(c) && Pipes(c, s) && Enabled(c, s, ChildWrite(k))
    ensures Pipes(c, Apply(c, s, ChildWrite(k)))
  {
  }

  lemma KeepPipes(c: Config, s: State, l: Label)
    requires Sized(c) && Pipes(c, s) && Enabled(c, s, l)
    ensures Pipes(c, Apply(c, s, l))
  {
    match l
    case FinalizePoll(tail, total) => FinalPipes(c, s, tail, total);
    case ParentWrite(k) => WritePipes(c, s, k);
    case ParentRead(k) => ReadPipes(c, s, k);
    case ChildRead(k) => ChildReadPipes(c, s, k);
    case ChildAnswer(r) => AnswerPipes(c, s, r);
    case ChildWrite(k) => ChildWritePipes(c, s, k);
    case _ => CallPipes(c, s, l);
  }

  // ---- what is outstanding ------------------------------------------------------------------------------

  lemma PutLine(s: State, q: Request, t: State)
    requires t.up == s.up && t.work == s.work && t.down.frames == s.down.frames + [q]
    ensures Unhandled(t) == Unhandled(s) + [q] && Line(t) == Line(s) + [q.kind]
  {
    assert RequestKinds(Unhandled(s) + [q]) == RequestKinds(Unhandled(s)) + [q.kind];
  }

  lemma TookLine(s: State, t: State)
    requires s.up.frames != [] && t.work == s.work && t.down == s.down && t.up.frames == s.up.frames[1..]
    ensures Line(s) == [s.up.frames[0].kind] + Line(t)
  {
  }

  lemma AnsweredLine(s: State, r: Response, t: State)
    requires s.work.Handling? && r.kind == s.work.req.kind
    requires t.up.frames == s.up.frames + [r] && t.work == Answering && t.down == s.down
    ensures Unhandled(s) == [s.work.req] + Unhandled(t) && Line(t) == Line(s)
  {
    assert Unhandled(s) == [s.work.req] + s.down.frames;
    assert ResponseKinds(s.up.frames + [r]) == ResponseKinds(s.up.frames) + [r.kind];
    assert RequestKinds([s.work.req] + s.down.frames) == [r.kind] + RequestKinds(s.down.frames);
  }

  lemma ReadLine(s: State, t: State)
    requires s.work == Waiting && s.down.frames != [] && t.up == s.up
    requires t.down.frames == s.down.frames[1..] && t.work == Handling(s.down.frames[0])
    ensures Unhandled(t) == Unhandled(s) && Line(t) == Line(s)
  {
  }

  lemma FlushLine(c: Config, s: State, throttled: bool)
    requires LineOk(s) && s.control == Free && s.stream.active
    ensures LineOk(Flush(c, s, throttled))
  {
    if Due(s.stream, throttled) {
      PutLine(s, PartialOf(s.stream), Flush(c, s, throttled));
    }
  }

  lemma ReceivedLine(c: Config, s: State, k: nat)
    requires Pipes(c, s) && LineOk(s) && Enabled(c, s, ParentRead(k)) && Completes(s.up, k, c.respSize)
    ensures LineOk(Apply(c, s, ParentRead(k)))
  {
    var t := Apply(c, s, ParentRead(k));
    TookLine(s, t);
    match s.control
    case Draining => DrainedLine(s, t);
    case Dropping => DroppedLine(s, t);
    case Awaiting => AwaitedLine(s, t);
  }

  lemma DrainedLine(s: State, t: State)
    requires LineOk(s) && s.control == Draining && s.up.frames != []
    requires Line(s) == [s.up.frames[0].kind] + Line(t)
    requires t.control == Free
    requires t.stream == if s.up.frames[0].kind == Partial then AfterPartial(s.stream) else s.stream
    ensures LineOk(t)
  {
    assert Line(s)[0] == s.up.frames[0].kind && Line(t) == Line(s)[1..];
    assert Line(s) == [Partial] && Line(t) == Partials(0);
  }

  lemma DroppedLine(s: State, t: State)
    requires LineOk(s) && s.control == Dropping && s.up.frames != []
    requires Line(s) == [s.up.frames[0].kind] + Line(t) && t.control == Polling && t.stream == s.stream
    ensures LineOk(t)
  {
    assert Line(t) == Line(s)[1..] == [];
  }

  lemma AwaitedLine(s: State, t: State)
    requires LineOk(s) && s.control == Awaiting && s.up.frames != []
    requires Line(s) == [s.up.frames[0].kind] + Line(t)
    requires if s.up.frames[0].kind == Partial then t.control == Awaiting && t.stream == s.stream
             else t.control == Free && t.stream == Idle()
    ensures LineOk(t)
  {
    assert Line(s)[0] == s.up.frames[0].kind && Line(t) == Line(s)[1..];
    assert Line(t) == if s.up.frames[0].kind == Partial then [Final] else [];
  }

  lemma CallLine(c: Config, s: State, l: Label)
    requires Pipes(c, s) && LineOk(s) && Enabled(c, s, l)
    requires !s.stream.active ==> s.stream.pending == []
    requires l.Begin? || l.Push? || l.Drain? || l.Finalize? || l.Kill?
    ensures LineOk(Apply(c, s, l))
  {
    var t := Apply(c, s, l);
    match l
    case Push(pcm, seen, throttled) =>
      var pushed := s.(stream := Pushed(s.stream, pcm, seen), pushed := s.pushed + pcm);
      assert Line(pushed) == Line(s);
      FlushLine(c, pushed, throttled);
    case Drain(throttled) =>
      if Buffered(s.up, c.respSize) <= 0 && s.stream.active {
        FlushLine(c, s, throttled);
      } else {
        assert Line(t) == Line(s);
        assert Buffered(s.up, c.respSize) > 0 ==> s.up.frames != [] && Line(s) != [];
      }
    case Kill => assert Line(t) == [] == Partials(0);
    case Begin(_, _) => assert Line(t) == Line(s);
    case Finalize => assert Line(t) == Line(s);
  }

  lemma FinalLine(c: Config, s: State, tail: seq<int>, total: int)
    requires LineOk(s) && s.control == Polling
    ensures LineOk(Apply(c, s, FinalizePoll(tail, total)))
  {
    var t := Apply(c, s, FinalizePoll(tail, total));
    if Buffered(s.up, c.respSize) > 0 {
      assert Line(t) == Line(s);
    } else {
      PutLine(s, FinalOf(s.stream, tail, total), t);
    }
  }

  lemma ChildLine(c: Config, s: State, l: Label)
    requires Pipes(c, s) && LineOk(s) && Enabled(c, s, l)
    requires l.ChildRead? || l.ChildAnswer? || l.ChildWrite?
    ensures Line(Apply(c, s, l)) == Line(s)
  {
    match l
    case ChildRead(k) =>
      if Completes(s.down, k, c.reqSize) {
        ReadLine(s, Apply(c, s, l));
      }
    case ChildAnswer(r) => AnsweredLine(s, r, Apply(c, s, l));
    case ChildWrite(_) =>
  }

  lemma WriteLine(c: Config, s: State, k: nat)
    requires LineOk(s) && Enabled(c, s, ParentWrite(k))
    ensures LineOk(Apply(c, s, ParentWrite(k)))
  {
    var t := Apply(c, s, ParentWrite(k));
    assert t.up == s.up && t.work == s.work && t.down.frames == s.down.frames;
    WrittenLine(s, t);
  }

  /** A write moves no frame; finishing one moves the parent on. */
  lemma WrittenLine(s: State, t: State)
    requires LineOk(s) && t.up.frames == s.up.frames && t.work == s.work && t.down.frames == s.down.frames
    requires (t.control == s.control && t.stream == s.stream)
          || (s.control == SendingPartial && t.control == Free && t.stream == AfterSend(s.stream))
          || (s.control == SendingFinal && t.control == Awaiting && t.stream == s.stream)
    ensures LineOk(t)
  {
    assert Line(t) == Line(s) && Partials(1) == [Partial];
  }

  lemma ParentReadLine(c: Config, s: State, k: nat)
    requires Pipes(c, s) && LineOk(s) && Enabled(c, s, ParentRead(k))
    ensures LineOk(Apply(c, s, ParentRead(k)))
  {
    if Completes(s.up, k, c.respSize) {
      ReceivedLine(c, s, k);
    } else {
      assert Line(Apply(c, s, ParentRead(k))) == Line(s);
    }
  }

  lemma SameLine(s: State, t: State)
    requires LineOk(s) && Line(t) == Line(s) && t.control == s.control && t.stream == s.stream
    ensures LineOk(t)
  {
  }

  lemma KeepLine(c: Config, s: State, l: Label)
    requires Pipes(c, s) && LineOk(s) && Enabled(c, s, l)
    requires !s.stream.active ==> s.stream.pending == []
    ensures LineOk(Apply(c, s, l))
  {
    match l
    case FinalizePoll(tail, total) => FinalLine(c, s, tail, total);
    case ParentWrite(k) => WriteLine(c, s, k);
    case ParentRead(k) => ParentReadLine(c, s, k);
    case ChildRead(_) =>
      ChildLine(c, s, l);
      SameLine(s, Apply(c, s, l));
    case ChildAnswer(_) =>
      ChildLine(c, s, l);
      SameLine(s, Apply(c, s, l));
    case ChildWrite(_) =>
      ChildLine(c, s, l);
      SameLine(s, Apply(c, s, l));
    case _ => CallLine(c, s, l);
  }

  // ---- no audio is lost, doubled or left over -----------------------------------------------------------

  lemma PutContent(s: State, q: Request, t: State)
    requires s.stream.active && Content(s) && SameStream(s.stream, q)
    requires t.stream.words == s.stream.words && t.stream.sr == s.stream.sr && t.acc == s.acc
    requires t.up == s.up && t.work == s.work && t.down.frames == s.down.frames + [q]
    requires s.control == Free || s.control == Polling
    requires q.reset <==> !s.stream.hasSent
    ensures Unhandled(t) == Unhandled(s) + [q]
    ensures AllAccepted(t.acc, Unhandled(t))
    ensures forall i :: 1 <= i < |Unhandled(t)| ==> !Unhandled(t)[i].reset
    ensures TakeAll(t.acc, Unhandled(t))
         == Accumulator((if s.stream.hasSent then TakeAll(s.acc, Unhandled(s)).pcm else []) + q.delta, s.stream.sr)
  {
    PutLine(s, q, t);
    TakeOneMore(s.acc, Unhandled(s), q);
  }

  lemma FlushContent(c: Config, s: State, throttled: bool)
    requires Content(s) && s.stream.active && s.control == Free
    ensures Content(Flush(c, s, throttled))
  {
    if Due(s.stream, throttled) {
      PutContent(s, PartialOf(s.stream), Flush(c, s, throttled));
    }
  }

  lemma FinalContent(c: Config, s: State, tail: seq<int>, total: int)
    requires Content(s) && s.stream.active && s.control == Polling
    ensures Content(Apply(c, s, FinalizePoll(tail, total)))
  {
    if Buffered(s.up, c.respSize) <= 0 {
      var q, t := FinalOf(s.stream, tail, total), Apply(c, s, FinalizePoll(tail, total));
      PutContent(s, q, t);
      FinalAudio(s, tail);
      assert forall r :: r in Unhandled(t) ==> r in Unhandled(s) || r == q;
    }
  }

  /** All audio pushed, the tail included, is what the worker will have taken. */
  lemma FinalAudio(s: State, tail: seq<int>)
    requires Content(s) && s.stream.active && s.control == Polling
    ensures (if s.stream.hasSent then TakeAll(s.acc, Unhandled(s)).pcm else []) + (s.stream.pending + tail)
         == s.pushed + tail
  {
    if s.stream.hasSent {
      assert TakeAll(s.acc, Unhandled(s)).pcm + (s.stream.pending + tail) == s.pushed + tail;
    } else {
      assert [] + (s.stream.pending + tail) == s.pushed + tail;
    }
  }

  lemma PushContent(c: Config, s: State, pcm: seq<int>, seen: int, throttled: bool)
    requires Content(s) && s.stream.active && s.control == Free
    ensures Content(Apply(c, s, Push(pcm, seen, throttled)))
  {
    var pushed := s.(stream := Pushed(s.stream, pcm, seen), pushed := s.pushed + pcm);
    assert Unhandled(pushed) == Unhandled(s);
    var before := TakeAll(s.acc, Unhandled(s)).pcm;
    assert before + s.stream.pending + pcm == before + (s.stream.pending + pcm);
    FlushContent(c, pushed, throttled);
  }

  lemma CallContent(c: Config, s: State, l: Label)
    requires LineOk(s) && Content(s) && Enabled(c, s, l)
    requires !s.stream.active ==> s.stream.pending == []
    requires l.Begin? || l.Push? || l.Drain? || l.Finalize? || l.Kill?
    ensures Content(Apply(c, s, l))
  {
    match l
    case Begin(_, _) => QuietChild(s);
    case Push(pcm, seen, throttled) => PushContent(c, s, pcm, seen, throttled);
    case Drain(throttled) =>
      if Buffered(s.up, c.respSize) <= 0 && s.stream.active {
        FlushContent(c, s, throttled);
      }
    case _ =>
  }

  /** Between streams the worker has nothing left to do. */
  lemma QuietChild(s: State)
    requires LineOk(s) && !s.stream.active
    ensures s.up.frames == [] && s.down.frames == [] && !s.work.Handling?
  {
    assert |Line(s)| == 0;
  }

  lemma WriteContent(c: Config, s: State, k: nat)
    requires Pipes(c, s) && LineOk(s) && Content(s) && Enabled(c, s, ParentWrite(k))
    ensures Content(Apply(c, s, ParentWrite(k)))
  {
    var t := Apply(c, s, ParentWrite(k));
    assert Unhandled(t) == Unhandled(s) && t.up == s.up;
    assert s.pushed + [] == s.pushed;
    if s.control == SendingPartial {
      forall q | q in Unhandled(s)
        ensures q.kind == Partial
      {
        KindsOf(Unhandled(s), q, ResponseKinds(s.up.frames), Line(s));
      }
    }
  }

  lemma KindsOf(qs: seq<Request>, q: Request, before: seq<Kind>, line: seq<Kind>)
    requires q in qs && line == before + RequestKinds(qs)
    ensures q.kind in line
  {
    var i :| 0 <= i < |qs| && qs[i] == q;
    assert line[|before| + i] == q.kind;
  }

  predicate Between(p: Control) {
    p == Free || p == Draining || p == Polling || p == Dropping
  }

  lemma SameContent(s: State, t: State)
    requires Content(s) && s.stream.active && t.acc == s.acc && Unhandled(t) == Unhandled(s)
    requires t.pushed == s.pushed && t.stream == s.stream.(inflight := t.stream.inflight)
    requires t.control == s.control || (Between(s.control) && Between(t.control))
    requires forall r :: r in t.up.frames ==> r in s.up.frames
    ensures Content(t)
  {
  }

  lemma ReceivedIs(s: State, kind: Kind)
    requires Reading(s.control) && Received(s, kind).stream.active
    ensures Received(s, kind).control == s.control ||
            (Between(s.control) && Received(s, kind).control in {Free, Polling})
    ensures Received(s, kind).stream == s.stream.(inflight := Received(s, kind).stream.inflight)
  {
  }

  lemma ReadContent(c: Config, s: State, k: nat)
    requires LineOk(s) && Content(s) && Enabled(c, s, ParentRead(k))
    ensures Content(Apply(c, s, ParentRead(k)))
  {
    var t := Apply(c, s, ParentRead(k));
    if t.stream.active {
      TookFrames(s.up, k, c.respSize);
      if Completes(s.up, k, c.respSize) {
        ReceivedIs(s.(up := t.up), s.up.frames[0].kind);
      }
      SameContent(s, t);
    }
  }

  lemma TookFrames<T>(p: Pipe<T>, k: nat, size: T -> nat)
    requires p.frames != []
    ensures forall f :: f in Took(p, k, size).frames ==> f in p.frames
  {
  }

  lemma ChildReadContent(c: Config, s: State, k: nat)
    requires Content(s) && Enabled(c, s, ChildRead(k))
    ensures Content(Apply(c, s, ChildRead(k)))
  {
    if Completes(s.down, k, c.reqSize) {
      ReadLine(s, Apply(c, s, ChildRead(k)));
    }
  }

  lemma AnswerContent(c: Config, s: State, r: Response)
    requires Content(s) && Enabled(c, s, ChildAnswer(r))
    ensures Content(Apply(c, s, ChildAnswer(r)))
  {
    var t := Apply(c, s, ChildAnswer(r));
    AnsweredLine(s, r, t);
    assert Unhandled(s)[0] == s.work.req && Unhandled(s)[1..] == Unhandled(t);
    AnsweredContent(s, t, r);
  }

  /** Taking the oldest request into the accumulator leaves the sum of all audio as it was. */
  lemma AnsweredContent(s: State, t: State, r: Response)
    requires Content(s) && s.work.Handling? && Answers(r, s.work.req.words)
    requires Unhandled(s) == [s.work.req] + Unhandled(t) && t.acc == Take(s.acc, s.work.req)
    requires t.stream == s.stream && t.control == s.control && t.pushed == s.pushed
    requires t.up.frames == s.up.frames + [r]
    ensures Content(t)
  {
    assert Unhandled(s)[0] == s.work.req && Unhandled(s)[1..] == Unhandled(t);
    assert TakeAll(t.acc, Unhandled(t)) == TakeAll(s.acc, Unhandled(s));
    if s.stream.active {
      assert forall q :: q in Unhandled(t) ==> q in Unhandled(s);
      assert s.work.req in Unhandled(s);
    }
  }

  lemma ChildWriteContent(c: Config, s: State, k: nat)
    requires Content(s) && Enabled(c, s, ChildWrite(k))
    ensures Content(Apply(c, s, ChildWrite(k)))
  {
    var t := Apply(c, s, ChildWrite(k));
    assert Unhandled(t) == Unhandled(s) && t.up.frames == s.up.frames;
  }

  lemma KeepContent(c: Config, s: State, l: Label)
    requires Pipes(c, s) && LineOk(s) && Content(s) && Enabled(c, s, l)
    requires !s.stream.active ==> s.stream.pending == []
    ensures Content(Apply(c, s, l))
  {
    match l
    case FinalizePoll(tail, total) => FinalContent(c, s, tail, total);
    case ParentWrite(k) => WriteContent(c, s, k);
    case ParentRead(k) => ReadContent(c, s, k);
    case ChildRead(k) => ChildReadContent(c, s, k);
    case ChildAnswer(r) => AnswerContent(c, s, r);
    case ChildWrite(k) => ChildWriteContent(c, s, k);
    case _ => CallContent(c, s, l);
  }

  // ---- every run --------------------------------------------------------------------------------------------

  /** What every reachable state satisfies. */
  ghost predicate Inv(c: Config, s: State) {
    Pipes(c, s) && LineOk(s) && Content(s) && (!s.stream.active ==> s.stream.pending == [])
  }

  lemma KeepInv(c: Config, s: State, l: Label)
    requires Sized(c) && Inv(c, s) && Enabled(c, s, l)
    ensures Inv(c, Apply(c, s, l))
  {
    KeepPipes(c, s, l);
    KeepLine(c, s, l);
    KeepContent(c, s, l);
    KeepEmpty(c, s, l);
  }

  lemma KeepEmpty(c: Config, s: State, l: Label)
    requires LineOk(s) && Enabled(c, s, l) && (!s.stream.active ==> s.stream.pending == [])
    ensures !Apply(c, s, l).stream.active ==> Apply(c, s, l).stream.pending == []
  {
    match l
    case ParentRead(k) => ReadEmpty(c, s, k);
    case _ =>
  }

  lemma ReadEmpty(c: Config, s: State, k: nat)
    requires Enabled(c, s, ParentRead(k)) && (!s.stream.active ==> s.stream.pending == [])
    ensures !Apply(c, s, ParentRead(k)).stream.active ==> Apply(c, s, ParentRead(k)).stream.pending == []
  {
  }

  lemma {:induction false} RunsKeepInv(c: Config, s: State, labels: seq<Label>, t: State)
    requires Sized(c) && Inv(c, s) && Run(c, s, labels, t)
    ensures Inv(c, t)
    decreases labels
  {
    if labels != [] {
      KeepInv(c, s, labels[0]);
      RunsKeepInv(c, Apply(c, s, labels[0]), labels[1..], t);
    }
  }

  ghost predicate Reachable(c: Config, s: State) {
    exists labels :: Run(c, Fresh(), labels, s)
  }

  lemma ReachableInv(c: Config, s: State)
    requires Sized(c) && Reachable(c, s)
    ensures Inv(c, s)
  {
    var labels :| Run(c, Fresh(), labels, s);
    RunsKeepInv(c, Fresh(), labels, s);
  }

  /**
   Whatever the interleaving: when the worker takes up FINAL_REQ, its
   accumulator becomes all audio pushed since the stream began, then the tail;
   nothing is lost, doubled, reordered or left over from an earlier stream.
   */
  lemma FinalSeesEverything(c: Config, s: State)
    requires Sized(c) && Reachable(c, s) && s.work.Handling? && s.work.req.kind == Final
    ensures Accepts(s.acc, s.work.req) && s.work.req.words == s.stream.words
    ensures Take(s.acc, s.work.req) == Accumulator(s.pushed, s.stream.sr)
  {
    ReachableInv(c, s);
    HandlingIsNext(s);
    assert s.work.req.kind == Line(s)[|s.up.frames|];
    assert Unhandled(s)[1..] == [];
    assert TakeAll(s.acc, Unhandled(s)) == Take(s.acc, s.work.req);
  }

  lemma HandlingIsNext(s: State)
    requires LineOk(s) && Content(s) && s.work.Handling?
    ensures s.stream.active && Unhandled(s) == [s.work.req] + s.down.frames
    ensures Accepts(s.acc, s.work.req) && SameStream(s.stream, s.work.req)
  {
    assert Unhandled(s)[0] == s.work.req && s.work.req in Unhandled(s);
    assert Line(s)[|s.up.frames|] == s.work.req.kind;
  }

  lemma LineShort(s: State)
    requires LineOk(s)
    ensures |s.up.frames| + |Unhandled(s)| == |Line(s)| <= 2
  {
  }

  /** What a partial aligns is a prefix of the audio pushed so far. */
  lemma PartialSeesPrefix(c: Config, s: State)
    requires Sized(c) && Reachable(c, s) && s.work.Handling? && s.work.req.kind == Partial
    ensures Accepts(s.acc, s.work.req) && s.work.req.words == s.stream.words
    ensures Take(s.acc, s.work.req).pcm <= s.pushed
  {
    ReachableInv(c, s);
    HandlingIsNext(s);
    var taken := Take(s.acc, s.work.req);
    assert Unhandled(s)[1..] == s.down.frames;
    if s.down.frames == [] {
      assert TakeAll(s.acc, Unhandled(s)) == taken;
    } else {
      LineShort(s);
      var f := s.down.frames[0];
      assert |Unhandled(s)| == 1 + |s.down.frames| && |s.down.frames| == 1;
      assert Unhandled(s)[1] == f && s.down.frames[1..] == [];
      assert TakeAll(s.acc, Unhandled(s)) == TakeAll(taken, s.down.frames) == Take(taken, f);
      assert AllAccepted(taken, s.down.frames) && Accepts(taken, f);
      assert Take(taken, f).pcm == taken.pcm + f.delta;
    }
  }

  /** While a stream is open and no call is inside finalize, the counter is what is really outstanding, at most one. */
  lemma InflightIsOutstanding(c: Config, s: State)
    requires Sized(c) && Reachable(c, s) && s.stream.active && (s.control == Free || s.control == Draining)
    ensures s.stream.inflight == |s.up.frames| + |Unhandled(s)| <= 1
    ensures forall k :: k in Line(s) ==> k == Partial
  {
    ReachableInv(c, s);
  }

  /** Once finalize has read FINAL_RESP, and between streams, both sockets are empty and the worker waits. */
  lemma QuietBetweenStreams(c: Config, s: State)
    requires Sized(c) && Reachable(c, s) && !s.stream.active
    ensures s.control == Free && s.down.frames == [] && s.up.frames == [] && s.work == Waiting
  {
    ReachableInv(c, s);
    QuietChild(s);
  }

  // ---- who can be stuck -------------------------------------------------------------------------------------

  /** The parent is inside a call and neither process can take another step. */
  ghost predicate Stuck(c: Config, s: State) {
    s.control != Free && forall l: Label :: !Enabled(c, s, l)
  }

  /** A partial answer and a final request of one stream that both outgrow their socket buffers. */
  ghost predicate Clash(c: Config, words: seq<string>, sr: int, total: int, tail: seq<int>, r: Response) {
    && words != [] && sr > 0 && r.kind == Partial && Answers(r, words)
    && c.respSize(r) > c.up
    && c.reqSize(Request(Final, words, sr, total, false, tail)) > c.down
  }

  /** The worker can write, or is waiting on a full pipe. */
  lemma ReaderMoves(c: Config, s: State)
    requires Sized(c) && Inv(c, s) && Reading(s.control)
    ensures exists l: Label :: Enabled(c, s, l)
  {
    if s.work.Handling? {
      AnswerExists(c, s);
    } else if Buffered(s.up, c.respSize) > 0 {
      assert Enabled(c, s, ParentRead(1));
    } else if s.work == Answering {
      assert Enabled(c, s, ChildWrite(1));
    } else {
      NothingUp(c, s);
      assert Enabled(c, s, ChildRead(1));
    }
  }

  lemma PollingMoves(c: Config, s: State)
    requires s.control == Polling
    ensures exists l: Label :: Enabled(c, s, l)
  {
    assert Enabled(c, s, FinalizePoll([], 0));
  }

  lemma AnswerExists(c: Config, s: State)
    requires s.work.Handling?
    ensures exists l: Label :: Enabled(c, s, l)
  {
    assert Enabled(c, s, ChildAnswer(Response(s.work.req.kind, false, s.work.req.seen, [])));
  }

  lemma NothingUp(c: Config, s: State)
    requires Sized(c) && Inv(c, s) && Reading(s.control) && s.work == Waiting && Buffered(s.up, c.respSize) <= 0
    ensures CanRead(s.down, 1, c.reqSize)
  {
    EmptyUp(s.up, c.respSize, c.up);
    assert Line(s) == RequestKinds(s.down.frames);
    assert s.down.frames != [];
    SomeBuffered(s.down, c.reqSize, c.down);
  }

  lemma EmptyUp<T>(p: Pipe<T>, size: T -> nat, cap: nat)
    requires PipeOk(p, size, cap) && p.unsent == 0 && Buffered(p, size) <= 0
    ensures p.frames == []
  {
  }

  lemma SomeBuffered<T>(p: Pipe<T>, size: T -> nat, cap: nat)
    requires PipeOk(p, size, cap) && p.unsent == 0 && p.frames != []
    ensures CanRead(p, 1, size)
  {
  }

  lemma SenderMoves(c: Config, s: State)
    requires Sized(c) && Inv(c, s) && (s.control == SendingPartial || s.control == SendingFinal)
    requires s.work != Answering || Buffered(s.down, c.reqSize) < c.down || Buffered(s.up, c.respSize) < c.up
    ensures exists l: Label :: Enabled(c, s, l)
  {
    if Buffered(s.down, c.reqSize) < c.down {
      assert Enabled(c, s, ParentWrite(1));
    } else if s.work == Waiting {
      assert Enabled(c, s, ChildRead(1));
    } else if s.work.Handling? {
      AnswerExists(c, s);
    } else {
      assert Enabled(c, s, ChildWrite(1));
    }
  }

  /** Both pipes full with both writers in the middle of a frame: only a final behind an unread partial answer. */
  lemma BothFull(c: Config, s: State)
    requires Sized(c) && Inv(c, s) && (s.control == SendingPartial || s.control == SendingFinal)
    requires s.work == Answering && Buffered(s.down, c.reqSize) >= c.down && Buffered(s.up, c.respSize) >= c.up
    ensures s.control == SendingFinal && s.stream.words != [] && s.stream.sr > 0
    ensures |s.up.frames| == 1 == |s.down.frames|
    ensures s.up.frames[0].kind == Partial && s.down.frames[0].kind == Final && s.stream.hasSent
    ensures c.respSize(s.up.frames[0]) > c.up && c.reqSize(s.down.frames[0]) > c.down
  {
    LineShort(s);
    assert s.down.frames != [] && s.up.frames != [];
    assert Line(s)[0] == s.up.frames[0].kind && Line(s)[1] == s.down.frames[0].kind;
    assert Total(s.up.frames[1..], c.respSize) == 0 && Total(s.down.frames[1..], c.reqSize) == 0;
  }

  /** A stuck state is a clash. */
  lemma StuckIsClash(c: Config, s: State)
    requires Sized(c) && Reachable(c, s) && Stuck(c, s)
    ensures exists words, sr, total, tail, r :: Clash(c, words, sr, total, tail, r)
  {
    ReachableInv(c, s);
    if Reading(s.control) {
      ReaderMoves(c, s);
    } else if s.control == Polling {
      PollingMoves(c, s);
    } else {
      if s.work != Answering || Buffered(s.down, c.reqSize) < c.down || Buffered(s.up, c.respSize) < c.up {
        SenderMoves(c, s);
      }
      BothFull(c, s);
      var f, r := s.down.frames[0], s.up.frames[0];
      assert f in Unhandled(s) && r in s.up.frames;
      assert f == Request(Final, s.stream.words, s.stream.sr, f.seen, false, f.delta);
      assert Clash(c, s.stream.words, s.stream.sr, f.seen, f.delta, r);
    }
  }

  // ---- a run into the deadlock ------------------------------------------------------------------------------

  lemma {:induction false} RunAppend(c: Config, s: State, first: seq<Label>, t: State, l: Label)
    requires Run(c, s, first, t) && Enabled(c, t, l)
    ensures Run(c, s, first + [l], Apply(c, t, l))
    decreases first
  {
    if first == [] {
      assert [] + [l] == [l] && [l][1..] == [];
    } else {
      assert (first + [l])[0] == first[0] && (first + [l])[1..] == first[1..] + [l];
      RunAppend(c, Apply(c, s, first[0]), first[1..], t, l);
    }
  }

  lemma OneStep(c: Config, s: State, l: Label)
    requires Reachable(c, s) && Enabled(c, s, l)
    ensures Reachable(c, Apply(c, s, l))
  {
    var labels :| Run(c, Fresh(), labels, s);
    RunAppend(c, Fresh(), labels, s, l);
  }

  /** A stream in which one partial is being sent, `left` bytes of it not written and the rest read. */
  function Sending(words: seq<string>, sr: int, seen: int, size: nat, left: nat): State
    requires left <= size
  {
    var stream := Pushed(Begun(words, sr), [0], seen);
    State(stream, SendingPartial, Accumulator([], 0), Waiting,
          Pipe([PartialOf(stream)], size - left, left), Pipe([], 0, 0), [0])
  }

  /** The same stream with the partial handed to the worker. */
  function Delivered(words: seq<string>, sr: int, seen: int): State {
    var stream := Pushed(Begun(words, sr), [0], seen);
    State(AfterSend(stream), Free, Accumulator([], 0), Handling(PartialOf(stream)), Pipe([], 0, 0), Pipe([], 0, 0), [0])
  }

  lemma {:induction false} DeliverPartial(c: Config, words: seq<string>, sr: int, seen: int, size: nat, left: nat)
    requires Sized(c) && 1 <= left <= size
    requires size == c.reqSize(PartialOf(Pushed(Begun(words, sr), [0], seen)))
    requires Reachable(c, Sending(words, sr, seen, size, left))
    ensures Reachable(c, Delivered(words, sr, seen))
    decreases left
  {
    var s := Sending(words, sr, seen, size, left);
    OneFrame(s.down, c.reqSize);
    OneStep(c, s, ParentWrite(1));
    var t := Apply(c, s, ParentWrite(1));
    OneFrame(t.down, c.reqSize);
    OneStep(c, t, ChildRead(1));
    var u := Apply(c, t, ChildRead(1));
    if left > 1 {
      assert u == Sending(words, sr, seen, size, left - 1);
      DeliverPartial(c, words, sr, seen, size, left - 1);
    } else {
      assert u.down.frames == [];
      assert u == Delivered(words, sr, seen);
    }
  }

  lemma OneFrame<T>(p: Pipe<T>, size: T -> nat)
    requires |p.frames| == 1
    ensures Buffered(p, size) == size(p.frames[0]) - p.taken - p.unsent
  {
    assert Total(p.frames[1..], size) == 0;
  }

  lemma ReachDelivered(c: Config, words: seq<string>, sr: int, seen: int)
    requires Sized(c) && words != [] && sr > 0
    ensures Reachable(c, Delivered(words, sr, seen))
  {
    assert Run(c, Fresh(), [], Fresh());
    OneStep(c, Fresh(), Begin(words, sr));
    var begun := Apply(c, Fresh(), Begin(words, sr));
    OneStep(c, begun, Push([0], seen, false));
    var size := c.reqSize(PartialOf(Pushed(Begun(words, sr), [0], seen)));
    assert [] + [0] == [0];
    assert Apply(c, begun, Push([0], seen, false)) == Sending(words, sr, seen, size, size);
    DeliverPartial(c, words, sr, seen, size, size);
  }

  /** Finalize has started on FINAL_REQ while the worker answers the partial, `written` and `sent` bytes so far. */
  function Jammed(c: Config, words: seq<string>, sr: int, total: int, tail: seq<int>, r: Response,
                  written: nat, sent: nat): State
    requires written <= c.respSize(r)
    requires sent <= c.reqSize(Request(Final, words, sr, total, false, tail))
  {
    var f := Request(Final, words, sr, total, false, tail);
    State(AfterSend(Pushed(Begun(words, sr), [0], r.seen)), SendingFinal, Accumulator([0], sr), Answering,
      Pipe([f], 0, c.reqSize(f) - sent), Pipe([r], 0, c.respSize(r) - written), [0] + tail)
  }

  lemma ReachJammed(c: Config, words: seq<string>, sr: int, total: int, tail: seq<int>, r: Response)
    requires Sized(c) && Clash(c, words, sr, total, tail, r)
    ensures Reachable(c, Jammed(c, words, sr, total, tail, r, 0, 0))
  {
    ReachDelivered(c, words, sr, r.seen);
    var s := Delivered(words, sr, r.seen);
    OneStep(c, s, Finalize);
    var t := Apply(c, s, Finalize);
    assert Total(t.up.frames, c.respSize) == 0;
    OneStep(c, t, FinalizePoll(tail, total));
    var u := Apply(c, t, FinalizePoll(tail, total));
    assert [] + tail == tail;
    OneStep(c, u, ChildAnswer(r));
    assert [] + [0] == [0];
    assert Apply(c, u, ChildAnswer(r)) == Jammed(c, words, sr, total, tail, r, 0, 0);
  }

  /** A clash is reached: finalize starts sending just before the worker starts answering. */
  lemma ClashIsStuck(c: Config, words: seq<string>, sr: int, total: int, tail: seq<int>, r: Response)
    requires Sized(c) && Clash(c, words, sr, total, tail, r)
    ensures exists s :: Reachable(c, s) && Stuck(c, s)
  {
    ReachJammed(c, words, sr, total, tail, r);
    var s := Jammed(c, words, sr, total, tail, r, 0, 0);
    OneFrame(s.up, c.respSize);
    OneStep(c, s, ChildWrite(c.up));
    var t := Apply(c, s, ChildWrite(c.up));
    OneFrame(t.down, c.reqSize);
    OneStep(c, t, ParentWrite(c.down));
    var u := Apply(c, t, ParentWrite(c.down));
    OneFrame(u.up, c.respSize);
    OneFrame(u.down, c.reqSize);
    assert Stuck(c, u);
  }

  /**
   The two processes can lock each other up exactly when some partial answer
   outgrows the worker's send buffer and, in the same stream, some FINAL_REQ
   outgrows the parent's. One partial answer fitting the buffer rules it out.
   */
  lemma DeadlockIff(c: Config)
    requires Sized(c)
    ensures (exists s :: Reachable(c, s) && Stuck(c, s))
       <==> (exists words, sr, total, tail, r :: Clash(c, words, sr, total, tail, r))
  {
    if s :| Reachable(c, s) && Stuck(c, s) {
      StuckIsClash(c, s);
    }
    if words, sr, total, tail, r :| Clash(c, words, sr, total, tail, r) {
      ClashIsStuck(c, words, sr, total, tail, r);
    }
  }

  lemma FittingAnswersNeverStick(c: Config, s: State)
    requires Sized(c) && Reachable(c, s)
    requires forall r: Response :: r.kind == Partial ==> c.respSize(r) <= c.up
    ensures !Stuck(c, s)
  {
    if Stuck(c, s) {
      StuckIsClash(c, s);
      assert false;
    }
  }
}
