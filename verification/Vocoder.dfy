/**
 The audio tokenizer decoder: one-shot decode, stateful streaming decode over a
 growing key/value slab, and snapshots of the streaming state.
 */
module Vocoder {
  import opened Common
  import opened Frames
  import opened Attention
  import opened CausalNet
  import opened Streaming

  /** A host-side copy of the streaming state; `rows` are the written rows of each layer's slab. */
  datatype Snapshot = Snapshot(
    past: nat,
    tails: map<Slot, seq<Frame>>,
    overlaps: map<Slot, seq<Frame>>,
    rows: seq<seq<Row>>,
    dtype: string)

  /** How a restore ends; `Aborted` is the backend's bounds check on a slab read. */
  datatype Restored = Accepted | Rejected | Aborted

  /** What a decoder has streamed since its history length was last zero, and the buffers it carried then. */
  datatype History = History(seed: Buffers, frames: seq<Frame>)

  const FRESH: History := History(CLEARED, [])

  function After(k: History, x: seq<Frame>): History {
    k.(frames := k.frames + x)
  }

  /** The sound of everything streamed. */
  function Heard(net: Stage, k: History): seq<Frame>
    requires Shaped(net)
  {
    Seeded(net, k.seed, k.frames)
  }

  /** After a reset the sound is the one-shot decode. */
  lemma FreshIsWhole(net: Stage, x: seq<Frame>)
    requires Shaped(net)
    ensures Heard(net, After(FRESH, x)) == Whole(net, x)
  {
    NothingIsSilent(net);
    SilentIsWhole(net, CLEARED, x);
    assert [] + x == x;
  }

  lemma NothingHeard(net: Stage, b: Buffers)
    requires Shaped(net)
    ensures Heard(net, History(b, [])) == []
  {
    NothingSeededIsNothing(net, b);
  }

  /** The split law, in terms of histories. */
  lemma HistoryExtends(net: Stage, layers: nat, c: Carry, mask: seq<seq<bool>>, width: nat, k: History, x: seq<Frame>)
    requires Callable(net, layers, c, mask, width, x) && Remembers(net, layers, c, k.seed, k.frames)
    ensures var o := Call(net, layers, c, mask, width, x);
      && Heard(net, After(k, x)) == Heard(net, k) + o.y
      && Remembers(net, layers, Roll(c, o, |x|), k.seed, After(k, x).frames)
  {
    CallExtends(net, layers, c, mask, width, k.seed, k.frames, x);
  }

  function BuffersOf(snap: Snapshot): Buffers {
    Buffers(snap.tails, snap.overlaps)
  }

  /** The snapshot is what history `k` leaves behind in a decoder running `net`. */
  ghost predicate Records(snap: Snapshot, net: Stage, layers: nat, k: History)
    requires Streams(net, layers)
  {
    var h := k.frames;
    && snap.past == |h|
    && (snap.rows == [] ==> h == [])
    && (snap.rows != [] ==> |snap.rows| == layers && forall l :: 0 <= l < layers ==> |snap.rows[l]| == |h|)
    && Remembers(net, layers,
         Carry(|h|, snap.tails, snap.overlaps, if snap.rows == [] then Empty(layers) else snap.rows), k.seed, h)
  }

  /** A snapshot of an empty history makes no claim on the slab. */
  lemma RecordsNothing(snap: Snapshot, net: Stage, layers: nat, c: Carry, k: History)
    requires Streams(net, layers) && Records(snap, net, layers, k) && k.frames == []
    requires c.past == 0 && c.tails == snap.tails && c.overlaps == snap.overlaps && |c.slabs| == layers
    ensures Remembers(net, layers, c, k.seed, [])
  {
    var rows := if snap.rows == [] then Empty(layers) else snap.rows;
    RemembersFrame(net, layers, Carry(0, snap.tails, snap.overlaps, rows), c, k.seed, []);
  }

  lemma RecordsRows(snap: Snapshot, net: Stage, layers: nat, c: Carry, k: History)
    requires Streams(net, layers) && Records(snap, net, layers, k) && snap.rows != []
    requires c.past == snap.past && c.tails == snap.tails && c.overlaps == snap.overlaps && |c.slabs| == layers
    requires forall l :: 0 <= l < layers ==> snap.past <= |c.slabs[l]| && c.slabs[l][..snap.past] == snap.rows[l]
    ensures Remembers(net, layers, c, k.seed, k.frames)
  {
    var d := Carry(snap.past, snap.tails, snap.overlaps, snap.rows);
    forall l | 0 <= l < layers
      ensures AgreeUpTo(d.slabs[l], c.slabs[l], snap.past)
    {
      assert snap.rows[l][..snap.past] == snap.rows[l];
    }
    RemembersFrame(net, layers, d, c, k.seed, k.frames);
  }

  /** The rows fit a decoder's slab: its element type, one set of rows per layer, `past` rows each. */
  predicate RowsFit(snap: Snapshot, layers: nat, dtype: string) {
    snap.dtype in {dtype, ""} && |snap.rows| == layers
    && forall l :: 0 <= l < layers ==> |snap.rows[l]| == snap.past
  }

  function Empty(layers: nat): seq<seq<Row>> {
    seq(layers, _ => [])
  }

  /** The tail and overlap slots in the order the graph builder registers them. */
  function TailOrder(st: Stage): (order: seq<Slot>)
    ensures forall s :: s in order <==> s in TailSlots(st)
  {
    match st
    case Conv(slot, _, _, _) => [slot]
    case Skip(body) => TailOrder(body)
    case Then(first, next) => TailOrder(first) + TailOrder(next)
    case _ => []
  }

  function OverlapOrder(st: Stage): (order: seq<Slot>)
    ensures forall s :: s in order <==> s in OverlapSlots(st)
  {
    match st
    case Transpose(slot, _) => [slot]
    case Skip(body) => OverlapOrder(body)
    case Then(first, next) => OverlapOrder(first) + OverlapOrder(next)
    case _ => []
  }

  /** The slab size a call asks for: grow by doubling up to a soft `cap`, but never below what attention reads. */
  function Target(current: nat, needed: nat, cap: nat): (t: nat)
    ensures t >= needed && (current >= needed ==> t == current)
    ensures current < needed <= cap ==> t <= cap && (t >= 2 * current || t == cap)
    ensures current < needed && needed > cap ==> t == needed
    ensures current < needed ==> t == Max(needed, Min(Max(needed, if current == 0 then 256 else 2 * current), cap))
  {
    if current >= needed then current
    else
      var doubled := if current == 0 then 256 else current * 2;
      var grown := if needed >= doubled then needed else doubled;
      if grown > cap then (if needed >= cap then needed else cap) else grown
  }

  class AudioTokenizerDecoder {
    const net: Stage
    const layers: nat
    const rowWidth: nat
    const dtype: string
    /** QWEN3_TTS_STREAM_KV_MAX_NPAST, when set; QWEN3_TTS_STREAM_KV_KEEP. */
    const envCap: Option<int>
    const keepSlab: bool

    var streaming: bool
    var past: nat
    var hint: nat
    var tailRings: map<Slot, seq<Frame>>
    var overlapHosts: map<Slot, seq<Frame>>
    var hasSlab: bool
    var slabs: seq<seq<Row>>
    var capacity: nat

    constructor (net: Stage, layers: nat, rowWidth: nat, dtype: string, envCap: Option<int>, keepSlab: bool)
      requires Streams(net, layers) && layers >= 1
      ensures this.net == net && this.layers == layers && this.dtype == dtype && this.envCap == envCap
      ensures Mid(FRESH) && !hasSlab && hint == 0
    {
      this.net, this.layers, this.rowWidth := net, layers, rowWidth;
      this.dtype, this.envCap, this.keepSlab := dtype, envCap, keepSlab;
      streaming, past, hint := false, 0, 0;
      tailRings, overlapHosts := map[], map[];
      hasSlab, slabs, capacity := false, [], 0;
      new;
      SeedRemembers(net, layers, Now());
    }

    /** The slab is absent or has one buffer of `capacity` rows per layer. */
    ghost predicate Usable()
      reads this
    {
      && Streams(net, layers) && layers >= 1
      && (hasSlab ==> |slabs| == layers && forall l :: 0 <= l < layers ==> |slabs[l]| == capacity)
      && (!hasSlab ==> slabs == [] && capacity == 0)
    }

    function Now(): Carry
      reads this
    {
      Carry(past, tailRings, overlapHosts, if hasSlab then slabs else Empty(layers))
    }

    /** The decoder is mid-stream, `k` being what it has streamed. */
    ghost predicate Mid(k: History)
      reads this
    {
      && Usable() && past == |k.frames| && past <= capacity
      && Remembers(net, layers, Now(), k.seed, k.frames)
    }

    /** The buffers carried from call to call. */
    function Held(): Buffers
      reads this
    {
      Buffers(tailRings, overlapHosts)
    }

    /** At history length zero a stream begins with the buffers carried, as good as fresh if they are silent. */
    lemma AtZero()
      requires Usable() && past == 0
      ensures Mid(History(Held(), [])) && (Mid(FRESH) <==> Silent(net, Held()))
    {
      SeedRemembers(net, layers, Now());
      FreshIffSilent(net, layers, Now());
    }

    method FreeStreamKvCache()
      modifies `hasSlab, `slabs, `capacity
      ensures !hasSlab && slabs == [] && capacity == 0
    {
      hasSlab, slabs, capacity := false, [], 0;
    }

    /**
     Makes room for `wanted` rows, copying the written rows when the slab must
     grow. Reading more rows than the old slab holds aborts the process.
     */
    method EnsureStreamKvCache(wanted: int) returns (ok: bool)
      requires Usable()
      modifies `hasSlab, `slabs, `capacity
      ensures Usable()
      ensures ok <==> !(old(hasSlab) && old(capacity) < Rounded(wanted) && old(capacity) < past)
      ensures !ok ==> unchanged(this)
      ensures ok ==> hasSlab && capacity ==
                      (if old(hasSlab) && old(capacity) >= Rounded(wanted) then old(capacity) else Rounded(wanted))
      ensures ok && old(hasSlab) && past <= old(capacity) ==>
                forall l :: 0 <= l < layers ==> past <= |slabs[l]| && slabs[l][..past] == old(slabs)[l][..past]
    {
      var rows: nat := if wanted <= 0 then 256 else wanted;
      if hasSlab && capacity >= rows {
        return true;
      }
      var saved: seq<seq<Row>>, savedPast := [], 0;
      if hasSlab && past > 0 {
        if past > capacity {
          return false;
        }
        savedPast := past;
        for il := 0 to layers
          invariant |saved| == il && forall l :: 0 <= l < il ==> saved[l] == slabs[l][..past]
        {
          saved := saved + [slabs[il][..past]];
        }
      }
      FreeStreamKvCache();
      var cold: seq<seq<Row>> := seq(layers, _ => Blank(rows, rowWidth));
      assert forall l :: 0 <= l < layers ==> |cold[l]| == |Blank(rows, rowWidth)|;
      if savedPast > 0 {
        for il := 0 to layers
          invariant |cold| == layers
          invariant forall l :: 0 <= l < layers ==> |cold[l]| == rows
          invariant forall l :: 0 <= l < il ==> cold[l][..savedPast] == saved[l]
        {
          cold := cold[il := saved[il] + cold[il][savedPast..]];
        }
      }
      hasSlab, slabs, capacity := true, cold, rows;
      return true;
    }

    /** Starts a new utterance, dropping a slab far larger than it can need. */
    method StreamReset(maxPastHint: int)
      requires Usable()
      modifies this
      ensures Mid(FRESH) && !streaming
      ensures hint == if maxPastHint > 0 then maxPastHint else 0
      ensures hasSlab ==> old(hasSlab) && slabs == old(slabs)
      ensures old(hasSlab) && !hasSlab <==>
                old(hasSlab) && !keepSlab && hint > 0 && old(capacity) > 1024 && old(capacity) >= 2 * hint
    {
      streaming, past := false, 0;
      hint := if maxPastHint > 0 then maxPastHint else 0;
      tailRings, overlapHosts := map[], map[];
      if !keepSlab && hint > 0 && capacity > 1024 && capacity >= 2 * hint {
        FreeStreamKvCache();
      }
      AtZero();
      NothingIsSilent(net);
    }

    /**
     One-shot decode. It clears the history length but not the carried
     buffers, which are then what a stream without a reset begins with.
     */
    method Decode(codes: seq<Frame>) returns (samples: seq<Frame>)
      requires Usable()
      modifies `streaming, `past
      ensures !streaming && past == 0
      ensures samples == Whole(net, codes)
      ensures Mid(History(Held(), [])) && (Mid(FRESH) <==> Silent(net, Held()))
    {
      streaming, past := false, 0;
      samples := Whole(net, codes);
      AtZero();
    }

    /** The slab size growth is held to while attention does not need more. */
    function SoftCap(): nat
      reads `hint
    {
      var cap := if envCap.Some? && envCap.value > 0 then envCap.value else 8192;
      if 0 < hint < cap then hint else cap
    }

    /** Makes the slab cover the width attention is about to read, soft cap or not. */
    method CoverNext(width: nat, ghost k: History)
      requires Mid(k)
      modifies `hasSlab, `slabs, `capacity
      ensures Mid(k) && hasSlab
      ensures capacity >= width && capacity >= old(capacity)
      ensures capacity == Rounded(Target(old(capacity), width, SoftCap()))
      ensures hint > 0 && width <= hint && 256 <= hint && old(capacity) <= hint ==> capacity <= hint
      ensures envCap.Some? && envCap.value >= 256 && width <= envCap.value && old(capacity) <= envCap.value ==>
                capacity <= envCap.value
      ensures !(envCap.Some? && envCap.value > 0) && width <= 8192 && old(capacity) <= 8192 ==> capacity <= 8192
    {
      ghost var before := Now();
      var ok := EnsureStreamKvCache(Target(capacity, width, SoftCap()));
      assert ok;
      RemembersFrame(net, layers, before, Now(), k.seed, k.frames);
    }

    /** Decodes one more chunk of the stream, appending its samples. */
    method StreamDecode(codes: seq<Frame>, samples: seq<Frame>, ghost k: History) returns (out: seq<Frame>)
      requires Mid(k) && codes != []
      modifies this
      ensures Mid(After(k, codes))
      ensures |out| == |samples| + Samples(net, |codes|) && samples <= out
      ensures Heard(net, After(k, codes)) == Heard(net, k) + out[|samples|..]
      ensures hasSlab && capacity >= Padded(past) && capacity >= old(capacity) && hint == old(hint)
      ensures capacity == Rounded(Target(old(capacity), Padded(past), SoftCap()))
    {
      streaming := true;
      var width := Padded(past + |codes|);
      CoverNext(width, k);
      var y := Step(codes, width, k);
      out := samples + y;
      assert out[|samples|..] == y;
    }

    /** One chunk through the graph, on a slab that covers it. */
    method Step(codes: seq<Frame>, width: nat, ghost k: History) returns (y: seq<Frame>)
      requires Mid(k) && codes != [] && hasSlab && past + |codes| <= width <= capacity
      modifies `tailRings, `overlapHosts, `slabs, `past
      ensures Mid(After(k, codes)) && past == old(past) + |codes|
      ensures |y| == Samples(net, |codes|) && Heard(net, After(k, codes)) == Heard(net, k) + y
    {
      var mask := FillMask(past, |codes|, width);
      HistoryExtends(net, layers, Now(), mask, width, k, codes);
      var o := Call(net, layers, Now(), mask, width, codes);
      y := o.y;
      RollForward(o, |codes|);
    }

    /** Puts a call's buffers in place of those it read. */
    method RollForward(o: Outcome, n: nat)
      requires o.tails.Keys == TailSlots(net) && o.overlaps.Keys == OverlapSlots(net) && hasSlab
      modifies `tailRings, `overlapHosts, `slabs, `past
      ensures Now() == Roll(old(Now()), o, n)
    {
      tailRings := RollBuffers(tailRings, o.tails, TailOrder(net));
      overlapHosts := RollBuffers(overlapHosts, o.overlaps, OverlapOrder(net));
      slabs := o.slabs;
      past := past + n;
    }

    /** Copies the streaming state out, the written slab rows with it. */
    method CaptureStreamState(ghost k: History) returns (snap: Snapshot)
      requires Mid(k)
      ensures Records(snap, net, layers, k) && (snap.rows != [] ==> snap.dtype == dtype)
    {
      if past == 0 || slabs == [] {
        snap := Snapshot(past, tailRings, overlapHosts, [], "");
        RemembersFrame(net, layers, Now(), Carry(past, tailRings, overlapHosts, Empty(layers)), k.seed, k.frames);
        return;
      }
      var rows: seq<seq<Row>> := [];
      for il := 0 to layers
        invariant |rows| == il && forall l :: 0 <= l < il ==> rows[l] == slabs[l][..past]
      {
        rows := rows + [slabs[il][..past]];
      }
      snap := Snapshot(past, tailRings, overlapHosts, rows, dtype);
      RemembersFrame(net, layers, Now(), Carry(past, tailRings, overlapHosts, rows), k.seed, k.frames);
    }

    /** Writes a snapshot's rows into the slab, layer by layer until one has the wrong size. */
    method CopyRows(snap: Snapshot) returns (ok: bool)
      requires Usable() && hasSlab && snap.past <= capacity && |snap.rows| == layers
      modifies `slabs
      ensures Usable()
      ensures ok <==> forall l :: 0 <= l < layers ==> |snap.rows[l]| == snap.past
      ensures ok ==> forall l :: 0 <= l < layers ==> slabs[l][..snap.past] == snap.rows[l]
    {
      for il := 0 to layers
        invariant Usable()
        invariant forall l :: 0 <= l < il ==> |snap.rows[l]| == snap.past && slabs[l][..snap.past] == snap.rows[l]
      {
        if |snap.rows[il]| != snap.past {
          return false;
        }
        slabs := slabs[il := snap.rows[il] + slabs[il][snap.past..]];
      }
      return true;
    }

    /** Makes the slab hold a snapshot; false when growing it reads past the end of the old one. */
    method CoverSnapshot(snap: Snapshot) returns (ok: bool)
      requires Usable() && past == snap.past > 0
      modifies `hasSlab, `slabs, `capacity
      ensures Usable() && (ok <==> !(old(hasSlab) && old(capacity) < snap.past))
      ensures ok ==> hasSlab && snap.past <= capacity
    {
      var wanted := snap.past + 32;
      if envCap.Some? {
        if envCap.value > wanted { wanted := envCap.value; }
      } else if 8192 > wanted {
        wanted := 8192;
      }
      ok := EnsureStreamKvCache(wanted);
    }

    /**
     Puts a snapshot back. With a slab too small for it the growth reads past
     the slab's end and the process aborts; otherwise it is accepted exactly
     when its rows fit or it has none, and a rejected one leaves its buffers in
     place at history length zero, which is a reset only if they are silent.
     */
    method RestoreStreamState(snap: Snapshot, ghost k: History) returns (res: Restored)
      requires Usable()
      modifies this
      ensures res.Aborted? <==> snap.past > 0 && snap.rows != [] && old(hasSlab) && old(capacity) < snap.past
      ensures res.Accepted? <==> !res.Aborted? && (snap.past == 0 || snap.rows == [] || RowsFit(snap, layers, dtype))
      ensures !res.Aborted? ==> Usable() && Held() == BuffersOf(snap) && hint == old(hint)
      ensures res.Accepted? ==> past == snap.past
      ensures res.Accepted? && Records(snap, net, layers, k) ==> Mid(k)
      ensures res.Rejected? ==> Mid(History(BuffersOf(snap), [])) && (Mid(FRESH) <==> Silent(net, BuffersOf(snap)))
    {
      streaming, past := true, snap.past;
      tailRings, overlapHosts := snap.tails, snap.overlaps;
      if snap.past == 0 || snap.rows == [] {
        if Records(snap, net, layers, k) {
          RecordsNothing(snap, net, layers, Now(), k);
        }
        return Accepted;
      }
      res := RestoreRows(snap);
      if res.Rejected? {
        AtZero();
      } else if res.Accepted? && Records(snap, net, layers, k) {
        RecordsRows(snap, net, layers, Now(), k);
      }
    }

    /** The slab's part of a restore. */
    method RestoreRows(snap: Snapshot) returns (res: Restored)
      requires Usable() && past == snap.past > 0
      modifies `hasSlab, `slabs, `capacity, `past
      ensures res.Aborted? <==> old(hasSlab) && old(capacity) < snap.past
      ensures res.Accepted? <==> !res.Aborted? && RowsFit(snap, layers, dtype)
      ensures !res.Aborted? ==> Usable() && past == if res.Accepted? then snap.past else 0
      ensures res.Accepted? ==> hasSlab && past <= capacity
      ensures res.Accepted? ==> forall l :: 0 <= l < layers ==> slabs[l][..snap.past] == snap.rows[l]
    {
      var ok := CoverSnapshot(snap);
      if !ok {
        return Aborted;
      }
      ok := (snap.dtype == "" || snap.dtype == dtype) && |snap.rows| == layers;
      if ok {
        ok := CopyRows(snap);
      }
      if !ok {
        past := 0;
        return Rejected;
      }
      return Accepted;
    }
  }

  /** Rolls named buffers forward one by one, in registration order. */
  method RollBuffers(before: map<Slot, seq<Frame>>, next: map<Slot, seq<Frame>>, order: seq<Slot>)
    returns (rolled: map<Slot, seq<Frame>>)
    requires forall s :: s in order <==> s in next
    ensures rolled == before + next
  {
    rolled := before;
    for i := 0 to |order|
      invariant forall s :: s in rolled <==> s in before || s in order[..i]
      invariant forall s :: s in rolled ==> rolled[s] == if s in order[..i] then next[s] else before[s]
    {
      rolled := rolled[order[i] := next[order[i]]];
      assert order[..i + 1] == order[..i] + [order[i]];
    }
    assert order[..|order|] == order;
  }

  /** Streams a clip chunk by chunk after a reset, and decodes it in one shot: the same samples. */
  method DecodeInChunks(d: AudioTokenizerDecoder, chunks: seq<seq<Frame>>, hint: int)
    returns (streamed: seq<Frame>, oneShot: seq<Frame>)
    requires d.Usable() && forall i :: 0 <= i < |chunks| ==> chunks[i] != []
    modifies d
    ensures streamed == Whole(d.net, Flatten(chunks)) == oneShot
  {
    d.StreamReset(hint);
    streamed := StreamOn(d, chunks, FRESH);
    NothingHeard(d.net, CLEARED);
    FreshIsWhole(d.net, Flatten(chunks));
    oneShot := d.Decode(Flatten(chunks));
  }

  /** Feeds chunks to a decoder already mid-stream. */
  method StreamOn(d: AudioTokenizerDecoder, chunks: seq<seq<Frame>>, ghost k: History) returns (out: seq<Frame>)
    requires d.Mid(k) && forall i :: 0 <= i < |chunks| ==> chunks[i] != []
    modifies d
    ensures d.Mid(After(k, Flatten(chunks)))
    ensures Heard(d.net, After(k, Flatten(chunks))) == Heard(d.net, k) + out
  {
    out := [];
    ghost var seen := k;
    for i := 0 to |chunks|
      invariant d.Mid(seen) && Heard(d.net, seen) == Heard(d.net, k) + out
      invariant seen == After(k, Flatten(chunks[..i]))
    {
      ghost var sofar := out;
      out := d.StreamDecode(chunks[i], out, seen);
      AppendStep(Heard(d.net, k), sofar, out, Heard(d.net, seen), Heard(d.net, After(seen, chunks[i])));
      FlattenNext(k.frames, chunks, i);
      seen := After(seen, chunks[i]);
    }
    assert chunks[..|chunks|] == chunks;
  }

  lemma AppendStep<T>(base: seq<T>, sofar: seq<T>, out: seq<T>, before: seq<T>, after: seq<T>)
    requires before == base + sofar && sofar <= out && after == before + out[|sofar|..]
    ensures after == base + out
  {
  }

  lemma FlattenNext<T>(h: seq<T>, chunks: seq<seq<T>>, i: nat)
    requires i < |chunks|
    ensures h + Flatten(chunks[..i]) + chunks[i] == h + Flatten(chunks[..i + 1])
  {
    assert chunks[..i + 1] == chunks[..i] + [chunks[i]];
    FlattenAppend(chunks[..i], chunks[i]);
  }

  /**
   A decoder restored from a snapshot streams on exactly like the one the
   snapshot was taken from, whatever it decoded before the restore.
   */
  method ResumeElsewhere(a: AudioTokenizerDecoder, b: AudioTokenizerDecoder, chunks: seq<seq<Frame>>, ghost k: History)
    returns (fromA: seq<Frame>, fromB: seq<Frame>)
    requires a != b && a.net == b.net && a.layers == b.layers && a.dtype == b.dtype
    requires a.Mid(k) && b.Usable() && (b.hasSlab ==> |k.frames| <= b.capacity)
    requires forall i :: 0 <= i < |chunks| ==> chunks[i] != []
    modifies a, b
    ensures fromA == fromB
  {
    var snap := a.CaptureStreamState(k);
    var res := b.RestoreStreamState(snap, k);
    fromA := StreamOn(a, chunks, k);
    fromB := StreamOn(b, chunks, k);
    assert fromA == Heard(a.net, After(k, Flatten(chunks)))[|Heard(a.net, k)|..] == fromB;
  }

  // ---- when a restore is refused ----------------------------------------------------

  /**
   What is heard after a rejected restore: the decode of the later chunks from
   the snapshot's buffers. It is a fresh stream's sound when those are silent.
   */
  method StreamAfterReject(d: AudioTokenizerDecoder, snap: Snapshot, chunks: seq<seq<Frame>>)
    returns (res: Restored, out: seq<Frame>)
    requires d.Usable() && forall i :: 0 <= i < |chunks| ==> chunks[i] != []
    modifies d
    ensures res.Rejected? <==> snap.past > 0 && snap.rows != [] && (old(d.hasSlab) ==> snap.past <= old(d.capacity))
                               && !RowsFit(snap, d.layers, d.dtype)
    ensures res.Rejected? ==> d.Usable() && out == Seeded(d.net, BuffersOf(snap), Flatten(chunks))
    ensures res.Rejected? && Silent(d.net, BuffersOf(snap)) ==> out == Whole(d.net, Flatten(chunks))
  {
    ghost var k := History(BuffersOf(snap), []);
    res := d.RestoreStreamState(snap, k);
    out := [];
    if res.Rejected? {
      out := StreamOn(d, chunks, k);
      NothingHeard(d.net, k.seed);
      assert [] + Flatten(chunks) == Flatten(chunks);
      if Silent(d.net, k.seed) {
        SilentIsWhole(d.net, k.seed, Flatten(chunks));
      }
    }
  }

  function Oldest(window: seq<Frame>): Frame {
    if window == [] then [] else window[0]
  }

  /** One convolution that shows the frame before the current one. */
  function Echo(): Stage {
    Conv(TailFinal, 1, 1, Oldest)
  }

  lemma EchoStreams()
    ensures Streams(Echo(), 1)
  {
  }

  lemma Echoes(tail: seq<Frame>, f: Frame)
    requires |tail| == 1
    ensures Windows(tail, [f], Oldest) == tail
  {
    OneWindow(tail, f, Oldest);
  }

  /** A restore rejected for its element type, then a chunk that a fresh stream decodes to silence. */
  method RejectedLeaks() returns (res: Restored, leaked: seq<Frame>, clean: seq<Frame>)
    ensures res.Rejected? && leaked == [[7]] && clean == [[0]]
  {
    EchoStreams();
    var d := new AudioTokenizerDecoder(Echo(), 1, 0, "f16", None, false);
    var chunks: seq<seq<Frame>> := [[[0]]];
    assert chunks[1..] == [] && Flatten(chunks) == [[0]];
    var snap := Snapshot(1, map[TailFinal := [[7]]], map[], [[[]]], "f32");
    assert "f32"[1] != "f16"[1];
    res, leaked := StreamAfterReject(d, snap, chunks);
    Echoes([[7]], [0]);
    clean := d.Decode([[0]]);
    Echoes(Quiet(1, 1), [0]);
    assert Silence(1) == [0];
  }

  /** A slab of 256 rows, and a snapshot of one row more. */
  method AbortedRestore() returns (slab: nat, rows: nat, res: Restored)
    ensures slab == 256 && rows == 257 && res.Aborted?
  {
    EchoStreams();
    var d := new AudioTokenizerDecoder(Echo(), 1, 0, "f16", None, false);
    var out := d.StreamDecode([[0]], [], FRESH);
    slab := d.capacity;
    var snap := Snapshot(257, map[], map[], [Blank(257, 0)], "f16");
    rows := |snap.rows[0]|;
    res := d.RestoreStreamState(snap, FRESH);
  }

  function Blank(rows: nat, width: nat): (b: seq<Row>)
    ensures |b| == rows
  {
    seq(rows, _ => Silence(width))
  }

  /** The capacity a request stands for: 256 rows for a non-positive one. */
  function Rounded(wanted: int): nat {
    if wanted <= 0 then 256 else wanted
  }
}
