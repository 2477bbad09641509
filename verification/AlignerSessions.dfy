/**
 The parent's session object: its stream fields and the calls that change them,
 each call as it looks between the session's lock and unlock. `sent` is what it
 has written to the socket, `ready` what can be read without waiting.
 */
module AlignerSessions {
  import opened Common
  import opened AlignerWire

  datatype Answer = NoAnswer | Answered(r: Response)

  /** What reading one frame yields: a response, a frame whose body does not parse, or no frame at all. */
  datatype Incoming = Whole(r: Response) | Garbled(kind: Kind) | Unreadable

  /** The first FINAL_RESP among the frames still to come, partials before it dropped unparsed. */
  function FirstFinal(coming: seq<Incoming>): Answer {
    if coming == [] then NoAnswer
    else match coming[0]
         case Whole(r) => if r.kind == Final then Answered(r) else FirstFinal(coming[1..])
         case Garbled(kind) => if kind == Final then NoAnswer else FirstFinal(coming[1..])
         case Unreadable => NoAnswer
  }

  /** A drain stops at a frame it cannot read or a partial it cannot parse; it does not parse other frames. */
  predicate Stops(f: Incoming) {
    f.Unreadable? || f == Garbled(Partial)
  }

  /** The responses before the frame a drain stops at. */
  function Good(ins: seq<Incoming>): seq<Response> {
    if ins == [] || Stops(ins[0]) then []
    else (if ins[0].Whole? then [ins[0].r] else []) + Good(ins[1..])
  }

  /** That frame and those after it, if there is one. */
  function Bad(ins: seq<Incoming>): seq<Incoming> {
    if ins == [] || Stops(ins[0]) then ins else Bad(ins[1..])
  }

  /** What a drain that only discards leaves: the frames after one that cannot be read. */
  function Unread(ins: seq<Incoming>): seq<Incoming> {
    if ins == [] then [] else if ins[0].Unreadable? then ins[1..] else Unread(ins[1..])
  }

  /** The stream after reading these responses in a drain. */
  function AfterResponses(s: Stream, rs: seq<Response>): Stream
    decreases rs
  {
    if rs == [] then s
    else AfterResponses(if rs[0].kind == Partial then AfterPartial(s) else s, rs[1..])
  }

  /** The partials a drain hands to its callback. */
  function Shown(rs: seq<Response>): seq<Response> {
    if rs == [] then []
    else (if rs[0].kind == Partial && rs[0].ok then [rs[0]] else []) + Shown(rs[1..])
  }

  /** One send if a partial is due: the stream after it and the frames it writes. */
  function Flushed(s: Stream, throttled: bool): (Stream, seq<Request>) {
    if Due(s, throttled) then (AfterSend(s), [PartialOf(s)]) else (s, [])
  }

  /** The stream after a drain stopped at a frame it cannot use; a partial that does not parse still frees its slot. */
  function AfterBad(s: Stream, bad: Incoming): Stream {
    if bad == Garbled(Partial) then AfterPartial(s) else s
  }

  lemma ShownCons(r: Response, rs: seq<Response>)
    ensures Shown([r] + rs) == (if r.kind == Partial && r.ok then [r] else []) + Shown(rs)
  {
    assert ([r] + rs)[1..] == rs;
  }

  lemma OneMoreGood(ins: seq<Incoming>, shown: seq<Response>)
    requires ins != [] && !Stops(ins[0])
    ensures ins[0].Whole? ==> Good(ins) == [ins[0].r] + Good(ins[1..])
    ensures !ins[0].Whole? ==> Good(ins) == Good(ins[1..])
    ensures var good := ins[0].Whole? && ins[0].r.kind == Partial && ins[0].r.ok;
      shown + Shown(Good(ins)) == (if good then shown + [ins[0].r] else shown) + Shown(Good(ins[1..]))
  {
    var rest := Good(ins[1..]);
    if ins[0].Whole? {
      var r := ins[0].r;
      ShownCons(r, rest);
      if r.kind == Partial && r.ok {
        Regroup(shown, [r], Shown(rest));
      } else {
        assert [] + Shown(rest) == Shown(rest);
      }
    } else {
      assert [] + rest == rest;
    }
  }

  class AlignerSession {
    var alive: bool
    var active: bool
    var hasSent: bool
    var words: seq<string>
    var sampleRate: int
    var pending: seq<int>
    var pendingSeen: int
    var inflight: nat

    var sent: seq<Request>
    var ready: seq<Incoming>

    /** A session whose worker has been spawned and loaded. */
    constructor ()
      ensures View() == Idle() && alive && sent == [] && ready == []
    {
      alive, active, hasSent, words, sampleRate := true, false, false, [], 0;
      pending, pendingSeen, inflight, sent, ready := [], 0, 0, [], [];
    }

    function View(): Stream
      reads this
    {
      Stream(active, hasSent, words, sampleRate, pending, pendingSeen, inflight)
    }

    method BeginStreamingAlign(newWords: seq<string>, sr: int) returns (ok: bool)
      modifies this
      ensures ok <==> !old(active) && newWords != [] && sr > 0
      ensures View() == if ok then Begun(newWords, sr) else old(View())
      ensures alive == old(alive) && sent == old(sent) && ready == old(ready)
    {
      if active || newWords == [] || sr <= 0 {
        return false;
      }
      words, sampleRate, active, hasSent := newWords, sr, true, false;
      pending, pendingSeen, inflight := [], 0, 0;
      ok := true;
    }

    /** Sends the pending audio as one partial if a slot is free. `throttled` is the lead-time test's outcome. */
    method FlushPending(throttled: bool) returns (ok: bool)
      modifies this
      ensures ok == alive == old(alive) && ready == old(ready)
      ensures ok ==> View() == Flushed(old(View()), throttled).0
      ensures ok ==> sent == old(sent) + Flushed(old(View()), throttled).1
      ensures !ok ==> View() == old(View()) && sent == old(sent)
    {
      if !alive {
        return false;
      }
      if pending == [] || inflight >= MAX_INFLIGHT || (hasSent && throttled) {
        return true;
      }
      sent := sent + [Request(Partial, words, sampleRate, pendingSeen, !hasSent, pending)];
      hasSent, pending, inflight := true, [], inflight + 1;
      ok := true;
    }

    method PushPartialPcm(pcm: seq<int>, seen: int, throttled: bool) returns (ok: bool)
      modifies this
      ensures ok <==> old(active) && old(alive)
      ensures alive == old(alive) && ready == old(ready)
      ensures ok ==> View() == Flushed(Pushed(old(View()), pcm, seen), throttled).0
      ensures ok ==> sent == old(sent) + Flushed(Pushed(old(View()), pcm, seen), throttled).1
      ensures !ok ==> View() == old(View()) && sent == old(sent)
    {
      if !active || !alive {
        return false;
      }
      pending, pendingSeen := pending + pcm, seen;
      ok := FlushPending(throttled);
    }

    /**
     Reads everything ready, frees its slots, hands the good partials on, then
     flushes; a frame that cannot be used ends the drain without a flush.
     */
    method DrainPartialAlignments(throttled: bool) returns (ok: bool, shown: seq<Response>)
      modifies this
      ensures alive == old(alive)
      ensures !alive ==> ok && shown == [] && View() == old(View()) && sent == old(sent) && ready == old(ready)
      ensures alive ==> shown == Shown(Good(old(ready))) && (ok <==> Bad(old(ready)) == [])
      ensures alive && ok ==>
                var after := Flushed(AfterResponses(old(View()), Good(old(ready))), throttled);
                ready == [] && View() == after.0 && sent == old(sent) + after.1
      ensures alive && !ok ==>
                var bad := Bad(old(ready));
                ready == bad[1..] && sent == old(sent)
                && View() == AfterBad(AfterResponses(old(View()), Good(old(ready))), bad[0])
    {
      ok, shown := true, [];
      if !alive {
        return;
      }
      while ready != [] && !Stops(ready[0])
        invariant alive && sent == old(sent)
        invariant AfterResponses(View(), Good(ready)) == AfterResponses(old(View()), Good(old(ready)))
        invariant shown + Shown(Good(ready)) == Shown(Good(old(ready)))
        invariant Bad(ready) == Bad(old(ready))
        decreases |ready|
      {
        var next := ready[0];
        OneMoreGood(ready, shown);
        assert next.Whole? ==> ([next.r] + Good(ready[1..]))[1..] == Good(ready[1..]);
        ready := ready[1..];
        if next.Whole? && next.r.kind == Partial {
          inflight := if inflight > 0 then inflight - 1 else 0;
          if next.r.ok {
            shown := shown + [next.r];
          }
        }
      }
      if ready != [] {
        if ready[0] == Garbled(Partial) {
          inflight := if inflight > 0 then inflight - 1 else 0;
        }
        ready := ready[1..];
        return false, shown;
      }
      ok := FlushPending(throttled);
    }

    /**
     Ends the stream: drops stragglers, sends FINAL_REQ with whatever was never
     sent, and reads on until FINAL_RESP. The stream is reset however it ends.
     */
    method FinalizeStreamingAlign(tail: seq<int>, total: int, coming: seq<Incoming>)
      returns (ok: bool, out: seq<AlignedWord>)
      modifies this
      ensures View() == Idle() && alive == old(alive)
      ensures !old(active) || !alive ==> !ok && sent == old(sent) && ready == old(ready)
      ensures old(active) && alive ==> sent == old(sent) + [FinalOf(old(View()), tail, total)]
      ensures old(active) && alive ==>
                var final := FirstFinal(Unread(old(ready)) + coming);
                (ok <==> final.Answered? && final.r.ok) && (ok ==> out == final.r.words)
    {
      ok, out := false, [];
      if active && alive {
        DropStragglers();
        var finalTail := pending;
        pending := [];
        finalTail := finalTail + tail;
        sent := sent + [Request(Final, words, sampleRate, total, !hasSent, finalTail)];
        ok, out := ReadFinal(ready + coming);
      }
      active, hasSent, words, sampleRate := false, false, [], 0;
      pending, pendingSeen, inflight := [], 0, 0;
    }

    /** Reads and discards what is ready, up to a frame that cannot be read. */
    method DropStragglers()
      modifies `ready
      ensures ready == Unread(old(ready))
    {
      while ready != []
        invariant Unread(ready) == Unread(old(ready))
        decreases |ready|
      {
        var next := ready[0];
        ready := ready[1..];
        if next.Unreadable? {
          return;
        }
      }
    }

    /** Reads on, past partials, to the answer or to a frame that cannot be it. */
    method ReadFinal(coming: seq<Incoming>) returns (ok: bool, out: seq<AlignedWord>)
      ensures ok <==> FirstFinal(coming).Answered? && FirstFinal(coming).r.ok
      ensures ok ==> out == FirstFinal(coming).r.words
    {
      var i := 0;
      while i < |coming| && (coming[i] == Garbled(Partial) || (coming[i].Whole? && coming[i].r.kind == Partial))
        invariant 0 <= i <= |coming| && FirstFinal(coming[i..]) == FirstFinal(coming)
      {
        assert coming[i..][1..] == coming[i + 1..];
        i := i + 1;
      }
      if i == |coming| || !coming[i].Whole? || !coming[i].r.ok {
        return false, [];
      }
      return true, coming[i].r.words;
    }

    method KillWorker()
      modifies this
      ensures View() == Killed(old(View())) && !alive
    {
      alive, active, hasSent := false, false, false;
      pending, pendingSeen, inflight := [], 0, 0;
    }
  }
}
