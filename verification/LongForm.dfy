/**
 Long-form synthesis: the chunks of a text are generated one after another,
 each conditioned on the chunk before it, and delivered as one signal.
 */
module LongForm {
  import opened Common
  import opened Frames
  import opened CausalNet
  import opened Vocoder
  import opened Speech

  /** A clone template: audio codes and the transcript they belong to; no codes means no voice. */
  datatype Voice = Voice(codes: seq<Frame>, text: string)

  const DEFAULT_HISTORY := 600

  /** The template for the next chunk: this chunk whole, or the caller's voice, or an untranscribed tail. */
  function Carried(codes: seq<Frame>, text: string, ref: Voice, budget: nat): Voice {
    if |codes| <= budget then Voice(codes, text)
    else if ref.codes != [] then ref
    else Voice(Suffix(codes, budget), "")
  }

  /** What chunk `k` is conditioned on. */
  function Template(r: Read, parts: seq<seq<Frame>>, k: nat): Voice
    requires k <= |parts| <= |r.chunks|
  {
    if k == 0 then r.ref else Carried(parts[k - 1], r.chunks[k - 1], r.ref, Budget(r))
  }

  /**
   The template after `k` chunks: the last chunk whole with its own transcript
   when it fits the budget, else the caller's voice, else an untranscribed tail;
   it is empty only after a chunk that said nothing.
   */
  ghost predicate Paired(r: Read, parts: seq<seq<Frame>>, k: nat)
    requires 1 <= k <= |parts| <= |r.chunks|
  {
    var h, last := Template(r, parts, k), parts[k - 1];
    var budget := if r.refMaxFrames <= 0 then 600 else r.refMaxFrames;
    && (|last| <= budget ==> h.codes == last && h.text == r.chunks[k - 1])
    && (|last| > budget && r.ref.codes != [] ==> h == r.ref)
    && (|last| > budget && r.ref.codes == [] ==> h.codes == last[|last| - budget..] && h.text == "")
    && (h.codes == [] <==> last == []) && (|h.codes| <= budget || h == r.ref)
  }

  /** The passage: every chunk's decode, silence between chunks. */
  function Passage(net: Stage, parts: seq<seq<Frame>>, gap: seq<Frame>): seq<Frame>
    requires Shaped(net)
  {
    if parts == [] then []
    else
      Passage(net, parts[..|parts| - 1], gap)
      + (if |parts| > 1 then gap else [])
      + Whole(net, parts[|parts| - 1])
  }

  /** Blocks of one chunk as the caller sees them: only the last chunk may end the stream. */
  function Forwarded(blocks: seq<Block>, last: bool): seq<Block> {
    seq(|blocks|, k requires 0 <= k < |blocks| => Block(blocks[k].pcm, blocks[k].final && last))
  }

  lemma DeliveredOneMore(blocks: seq<Block>, b: Block)
    ensures Delivered(blocks + [b]) == Delivered(blocks) + b.pcm
  {
    assert (blocks + [b])[..|blocks|] == blocks;
  }

  lemma {:induction false} DeliveredAppend(a: seq<Block>, b: seq<Block>)
    ensures Delivered(a + b) == Delivered(a) + Delivered(b)
  {
    if b == [] {
      assert a + b == a;
    } else {
      var init, last := b[..|b| - 1], b[|b| - 1];
      DeliveredAppend(a, init);
      DeliveredOneMore(a + init, last);
      DeliveredOneMore(init, last);
      assert b == init + [last];
      Regroup(a, init, [last]);
      Regroup(Delivered(a), Delivered(init), last.pcm);
    }
  }

  lemma {:induction false} DeliveredForwarded(blocks: seq<Block>, last: bool)
    ensures Delivered(Forwarded(blocks, last)) == Delivered(blocks)
  {
    if blocks != [] {
      var n := |blocks| - 1;
      DeliveredForwarded(blocks[..n], last);
      assert Forwarded(blocks, last)[..n] == Forwarded(blocks[..n], last);
    }
  }

  /** Only the last block may be final, and it is when `ends` holds. */
  ghost predicate ChunkEnds(blocks: seq<Block>, ends: bool) {
    && (blocks != [] ==> NoneFinal(blocks[..|blocks| - 1]))
    && ((blocks != [] && blocks[|blocks| - 1].final) <==> ends)
  }

  lemma ForwardedFinals(mine: seq<Block>, last: bool)
    requires mine != [] && NoneFinal(mine[..|mine| - 1]) && mine[|mine| - 1].final
    ensures |Forwarded(mine, last)| == |mine| && Forwarded(mine, last)[|mine| - 1].final == last
    ensures NoneFinal(Forwarded(mine, last)[..|mine| - 1])
  {
    var init := mine[..|mine| - 1];
    assert Forwarded(mine, last)[..|mine| - 1] == Forwarded(init, last);
    assert NoneFinal(Forwarded(init, last));
  }

  lemma NoneFinalJoin(a: seq<Block>, b: seq<Block>)
    requires NoneFinal(a) && NoneFinal(b)
    ensures NoneFinal(a + b)
  {
  }

  lemma FinalsAfter(before: seq<Block>, more: seq<Block>)
    requires NoneFinal(before) && more != [] && NoneFinal(more[..|more| - 1])
    ensures NoneFinal((before + more)[..|before + more| - 1])
    ensures (before + more)[|before + more| - 1] == more[|more| - 1]
  {
    NoneFinalJoin(before, more[..|more| - 1]);
    assert (before + more)[..|before + more| - 1] == before + more[..|more| - 1];
  }

  /** A chunk's blocks forwarded: the whole sound, and an end only if the chunk is the last. */
  lemma ForwardedAfter(before: seq<Block>, mine: seq<Block>, last: bool)
    requires NoneFinal(before) && mine != [] && NoneFinal(mine[..|mine| - 1]) && mine[|mine| - 1].final
    ensures var next := before + Forwarded(mine, last);
      next != [] && NoneFinal(next[..|next| - 1]) && next[|next| - 1].final == last
  {
    ForwardedFinals(mine, last);
    FinalsAfter(before, Forwarded(mine, last));
  }

  lemma ScheduledOnes(blocks: seq<Block>, first: nat, net: Stage)
    requires Scheduled(blocks, first, net)
    ensures NoneFinal(blocks)
  {
  }

  /** The settings of one long read. `speak` is the prompted model, None when the prompt cannot be built. */
  datatype Read = Read(
    chunks: seq<string>, ref: Voice, speak: (string, Voice) -> Option<Source>,
    maxNewFrames: nat, refMaxFrames: int, streamFrames: int, hasCallback: bool, gap: seq<Frame>)

  /** How many frames of history are carried at most. */
  function Budget(r: Read): (b: nat)
    ensures b >= 1
  {
    if r.refMaxFrames <= 0 then DEFAULT_HISTORY else r.refMaxFrames
  }

  predicate Streaming(r: Read) {
    r.streamFrames > 0 && r.hasCallback
  }

  /** The model prompted for the chunk after `parts`. */
  function Asked(r: Read, parts: seq<seq<Frame>>): Option<Source>
    requires |parts| < |r.chunks|
  {
    r.speak(r.chunks[|parts|], Template(r, parts, |parts|))
  }

  /** The chunks generated so far are what the model says after its history. */
  ghost predicate Spoken(r: Read, parts: seq<seq<Frame>>) {
    && |parts| <= |r.chunks|
    && forall k :: 0 <= k < |parts| ==> SpokenAt(r, parts[..k], parts[k])
  }

  ghost predicate SpokenAt(r: Read, before: seq<seq<Frame>>, codes: seq<Frame>)
    requires |before| < |r.chunks|
  {
    && Asked(r, before).Some? && !Breaks(Asked(r, before).value, r.maxNewFrames, [])
    && codes == Generated(Asked(r, before).value, r.maxNewFrames, [])
  }

  /** The chunk after `parts` cannot be spoken: its prompt cannot be built or its generation fails. */
  ghost predicate Unspeakable(r: Read, parts: seq<seq<Frame>>) {
    |parts| < |r.chunks| && (Asked(r, parts).None? || Breaks(Asked(r, parts).value, r.maxNewFrames, []))
  }

  /** What the caller heard of a chunk whose generation failed: the sound of its first frames, when streaming. */
  ghost predicate HeardOfFailed(r: Read, net: Stage, parts: seq<seq<Frame>>, heard: seq<Frame>)
    requires Shaped(net)
  {
    heard == [] || (Streaming(r) && |parts| < |r.chunks| && Asked(r, parts).Some?
                    && SoundOfSome(net, Generated(Asked(r, parts).value, r.maxNewFrames, []), heard))
  }

  lemma SpokenOneMore(r: Read, parts: seq<seq<Frame>>, next: seq<Frame>)
    requires Spoken(r, parts) && |parts| < |r.chunks| && SpokenAt(r, parts, next)
    ensures Spoken(r, parts + [next])
  {
    forall k | 0 <= k <= |parts|
      ensures SpokenAt(r, (parts + [next])[..k], (parts + [next])[k])
    {
      assert (parts + [next])[..k] == parts[..k];
      assert k == |parts| ==> parts[..k] == parts;
    }
  }

  /** What is generated, delivered and heard after the chunks in `parts`. */
  ghost predicate Progress(r: Read, net: Stage, parts: seq<seq<Frame>>, pcm: seq<Frame>, blocks: seq<Block>)
    requires Shaped(net)
  {
    && Spoken(r, parts) && pcm == Passage(net, parts, r.gap)
    && Delivered(blocks) == (if r.hasCallback then pcm else [])
    && Closing(r, net, parts, blocks)
  }

  /** The last block ends the stream exactly when the last chunk is through; no other block does. */
  ghost predicate Closing(r: Read, net: Stage, parts: seq<seq<Frame>>, blocks: seq<Block>)
    requires Shaped(net)
  {
    ChunkEnds(blocks, parts != [] && |parts| == |r.chunks| && r.hasCallback
                      && (r.streamFrames > 0 || Whole(net, parts[|parts| - 1]) != []))
  }

  lemma NotClosed(r: Read, net: Stage, parts: seq<seq<Frame>>, blocks: seq<Block>)
    requires Shaped(net) && Closing(r, net, parts, blocks) && |parts| < |r.chunks|
    ensures NoneFinal(blocks)
  {
    if blocks != [] {
      assert blocks == blocks[..|blocks| - 1] + [blocks[|blocks| - 1]];
    }
  }

  lemma AllPaired(r: Read, parts: seq<seq<Frame>>)
    requires |parts| <= |r.chunks|
    ensures forall k :: 1 <= k <= |parts| ==> Paired(r, parts, k)
  {
  }

  /**
   The long read. `parts` are the codes of the chunks completed; a cancelled
   read stops between chunks, a failed one at a chunk that cannot be spoken,
   `heard` being what the caller heard of that chunk.
   */
  method SynthesizeLong(voc: AudioTokenizerDecoder, r: Read, cancelled: nat -> bool)
    returns (ok: bool, parts: seq<seq<Frame>>, pcm: seq<Frame>, blocks: seq<Block>, ghost heard: seq<Frame>)
    requires voc.Usable()
    modifies voc
    ensures voc.Usable() && Spoken(r, parts)
    ensures ok ==> Progress(r, voc.net, parts, pcm, blocks)
    ensures ok && |parts| < |r.chunks| ==> cancelled(|parts|)
    ensures forall k :: 1 <= k <= |parts| ==> Paired(r, parts, k)
    ensures !ok ==> r.chunks == [] || Unspeakable(r, parts)
    ensures !ok ==> pcm == Passage(voc.net, parts, r.gap) + Before(r, parts)
    ensures !ok ==> NoneFinal(blocks) && Delivered(blocks) == if r.hasCallback then pcm + heard else []
    ensures !ok ==> HeardOfFailed(r, voc.net, parts, heard)
  {
    ok, parts, pcm, blocks, heard := r.chunks != [], [], [], [], [];
    while |parts| < |r.chunks| && !cancelled(|parts|)
      invariant voc.Usable() && ok == (r.chunks != []) && heard == []
      invariant Progress(r, voc.net, parts, pcm, blocks)
      decreases |r.chunks| - |parts|
    {
      ok, parts, pcm, blocks, heard := ReadChunk(voc, r, parts, pcm, blocks);
      if !ok {
        AllPaired(r, parts);
        return;
      }
    }
    AllPaired(r, parts);
  }

  /** Silence before every chunk but the first. */
  function Before(r: Read, parts: seq<seq<Frame>>): seq<Frame> {
    if parts != [] then r.gap else []
  }

  /** The caller hears that silence when there is a caller and any silence. */
  predicate HearsGap(r: Read, parts: seq<seq<Frame>>) {
    parts != [] && r.gap != [] && r.hasCallback
  }

  function Gapped(r: Read, parts: seq<seq<Frame>>, blocks: seq<Block>): seq<Block> {
    if HearsGap(r, parts) then Deliver(blocks, r.gap, false) else blocks
  }

  lemma GappedNoneFinal(r: Read, parts: seq<seq<Frame>>, blocks: seq<Block>)
    requires NoneFinal(blocks)
    ensures NoneFinal(Gapped(r, parts, blocks))
  {
    if HearsGap(r, parts) {
      var next := Deliver(blocks, r.gap, false);
      assert forall k :: 0 <= k < |blocks| ==> next[k] == next[..|blocks|][k];
    }
  }

  lemma GappedDelivered(r: Read, parts: seq<seq<Frame>>, pcm: seq<Frame>, blocks: seq<Block>)
    requires Delivered(blocks) == if r.hasCallback then pcm else []
    ensures Delivered(Gapped(r, parts, blocks)) == if r.hasCallback then pcm + Before(r, parts) else []
  {
    if !HearsGap(r, parts) && r.hasCallback {
      assert pcm + Before(r, parts) == pcm;
    }
  }

  /** The next chunk: silence if it is not the first, then its speech under the history it is due. */
  method ReadChunk(voc: AudioTokenizerDecoder, r: Read, parts: seq<seq<Frame>>, pcm: seq<Frame>, blocks: seq<Block>)
    returns (ok: bool, parts': seq<seq<Frame>>, pcm': seq<Frame>, blocks': seq<Block>, ghost heard: seq<Frame>)
    requires voc.Usable() && Progress(r, voc.net, parts, pcm, blocks) && |parts| < |r.chunks|
    modifies voc
    ensures voc.Usable()
    ensures ok ==> Progress(r, voc.net, parts', pcm', blocks') && |parts'| == |parts| + 1 && heard == []
    ensures !ok ==> parts' == parts && Unspeakable(r, parts) && pcm' == pcm + Before(r, parts)
    ensures !ok ==> NoneFinal(blocks') && Delivered(blocks') == if r.hasCallback then pcm' + heard else []
    ensures !ok ==> HeardOfFailed(r, voc.net, parts, heard)
  {
    NotClosed(r, voc.net, parts, blocks);
    GappedNoneFinal(r, parts, blocks);
    GappedDelivered(r, parts, pcm, blocks);
    parts', pcm', blocks', heard := parts, pcm + Before(r, parts), Gapped(r, parts, blocks), [];
    assert pcm' + heard == pcm';
    var src := Asked(r, parts);
    ok := src.Some?;
    if ok {
      var codes, sound;
      ok, codes, sound, blocks', heard := SpeakChunk(voc, r, src.value, |parts| + 1 == |r.chunks|, blocks');
      if ok {
        ProgressOneMore(r, voc.net, parts, pcm, blocks, codes, blocks');
        parts', pcm' := parts + [codes], pcm' + sound;
      }
    }
  }

  lemma ProgressOneMore(r: Read, net: Stage, parts: seq<seq<Frame>>, pcm: seq<Frame>, blocks: seq<Block>,
                        codes: seq<Frame>, next: seq<Block>)
    requires Shaped(net) && Progress(r, net, parts, pcm, blocks)
    requires |parts| < |r.chunks| && SpokenAt(r, parts, codes)
    requires Delivered(next) == if r.hasCallback then pcm + Before(r, parts) + Whole(net, codes) else []
    requires ChunkEnds(next, |parts| + 1 == |r.chunks| && r.hasCallback
                             && (r.streamFrames > 0 || Whole(net, codes) != []))
    ensures Progress(r, net, parts + [codes], pcm + Before(r, parts) + Whole(net, codes), next)
  {
    SpokenOneMore(r, parts, codes);
    PassageOneMore(net, parts, codes, r.gap);
  }

  lemma PassageOneMore(net: Stage, parts: seq<seq<Frame>>, codes: seq<Frame>, gap: seq<Frame>)
    requires Shaped(net)
    ensures Passage(net, parts + [codes], gap)
         == Passage(net, parts, gap) + (if parts != [] then gap else []) + Whole(net, codes)
  {
    assert (parts + [codes])[..|parts|] == parts;
  }

  /** One chunk: block by block when streaming, as one block otherwise. */
  method SpeakChunk(voc: AudioTokenizerDecoder, r: Read, src: Source, last: bool, blocks: seq<Block>)
    returns (ok: bool, codes: seq<Frame>, sound: seq<Frame>, blocks': seq<Block>, ghost heard: seq<Frame>)
    requires voc.Usable() && NoneFinal(blocks)
    modifies voc
    ensures voc.Usable()
    ensures codes == Generated(src, r.maxNewFrames, []) && (ok <==> !Breaks(src, r.maxNewFrames, []))
    ensures ok ==> sound == Whole(voc.net, codes) && heard == []
    ensures ok ==> Delivered(blocks') == if r.hasCallback then Delivered(blocks) + sound else Delivered(blocks)
    ensures ok ==> ChunkEnds(blocks', last && r.hasCallback && (r.streamFrames > 0 || sound != []))
    ensures !ok ==> NoneFinal(blocks') && (r.hasCallback ==> Delivered(blocks') == Delivered(blocks) + heard)
    ensures !ok ==> (!r.hasCallback ==> blocks' == blocks)
    ensures !ok ==> heard == [] || (Streaming(r) && SoundOfSome(voc.net, codes, heard))
  {
    heard := [];
    if Streaming(r) {
      ok, codes, sound, blocks' := StreamChunk(voc, src, r.maxNewFrames, r.streamFrames, last, blocks);
      heard := if ok then [] else sound;
    } else {
      var truncated, mine;
      ok, codes, sound, truncated, mine := RunAr(voc, src, r.maxNewFrames, 0, false, FRESH);
      blocks' := if ok && r.hasCallback && sound != [] then Deliver(blocks, sound, last) else blocks;
      DeliveredFinals(blocks, sound, last);
      NoneFinalEnds(blocks);
      assert Delivered(blocks) + [] == Delivered(blocks);
    }
  }

  lemma DeliveredFinals(blocks: seq<Block>, sound: seq<Frame>, last: bool)
    requires NoneFinal(blocks)
    ensures ChunkEnds(Deliver(blocks, sound, last), last)
  {
    assert Deliver(blocks, sound, last)[..|blocks|] == blocks;
  }

  lemma NoneFinalEnds(blocks: seq<Block>)
    requires NoneFinal(blocks)
    ensures ChunkEnds(blocks, false)
  {
  }

  /** A chunk's blocks as they land, an end only after the last chunk; a failed chunk leaves what it got to. */
  method StreamChunk(voc: AudioTokenizerDecoder, src: Source, maxNewFrames: nat, first: int, last: bool,
                     blocks: seq<Block>)
    returns (ok: bool, codes: seq<Frame>, sound: seq<Frame>, blocks': seq<Block>)
    requires voc.Usable() && NoneFinal(blocks) && first > 0
    modifies voc
    ensures voc.Usable()
    ensures codes == Generated(src, maxNewFrames, []) && (ok <==> !Breaks(src, maxNewFrames, []))
    ensures Delivered(blocks') == Delivered(blocks) + sound
    ensures ok ==> sound == Whole(voc.net, codes) && ChunkEnds(blocks', last)
    ensures !ok ==> SoundOfSome(voc.net, codes, sound) && NoneFinal(blocks')
  {
    var truncated, mine;
    ok, codes, sound, truncated, mine := RunAr(voc, src, maxNewFrames, first, true, FRESH);
    blocks' := blocks + Forwarded(mine, last);
    DeliveredForwarded(mine, last);
    DeliveredAppend(blocks, Forwarded(mine, last));
    if ok {
      ScheduledOnes(mine[..|mine| - 1], first, voc.net);
      ForwardedAfter(blocks, mine, last);
    } else {
      NoneFinalJoin(blocks, Forwarded(mine, last));
    }
  }
}
