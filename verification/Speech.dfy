/**
 The autoregressive loop of the speech engine: frames are generated one by one,
 and in streaming mode handed to the vocoder in slices of doubling size.
 */
module Speech {
  import opened Common
  import opened Frames
  import opened CausalNet
  import opened Streaming
  import opened Vocoder

  /** One delivery to the caller: samples, and whether the stream ends with them. */
  datatype Block = Block(pcm: seq<Frame>, final: bool)

  datatype Next = More(frame: Frame) | EndOfSpeech | Broken

  /** What the model generates after some frames; `cancelled` is polled before each step. */
  datatype Source = Source(next: seq<Frame> -> Next, cancelled: nat -> bool)

  /** Generation from `sofar` with a budget of `max` frames. */
  function Generated(src: Source, max: nat, sofar: seq<Frame>): seq<Frame>
    decreases max - |sofar|
  {
    if |sofar| >= max || src.cancelled(|sofar|) then sofar
    else match src.next(sofar)
         case More(f) => Generated(src, max, sofar + [f])
         case _ => sofar
  }

  /** The same generation ends in a failing step. */
  predicate Breaks(src: Source, max: nat, sofar: seq<Frame>)
    decreases max - |sofar|
  {
    |sofar| < max && !src.cancelled(|sofar|) &&
    match src.next(sofar)
    case More(f) => Breaks(src, max, sofar + [f])
    case EndOfSpeech => false
    case Broken => true
  }

  /** Slice sizes of a stream: `first`, then doubling up to 48 frames (or `first`, when that is larger). */
  function Slice(first: nat, k: nat): nat {
    if k == 0 then first else Min(Slice(first, k - 1) * 2, Max(first, 48))
  }

  function Delivered(blocks: seq<Block>): seq<Frame> {
    if blocks == [] then [] else Delivered(blocks[..|blocks| - 1]) + blocks[|blocks| - 1].pcm
  }

  /** The blocks before the last follow the slice schedule and none of them ends the stream. */
  ghost predicate Scheduled(blocks: seq<Block>, first: nat, net: Stage) {
    forall k :: 0 <= k < |blocks| ==> !blocks[k].final && |blocks[k].pcm| == Samples(net, Slice(first, k))
  }

  predicate NoneFinal(blocks: seq<Block>) {
    forall k :: 0 <= k < |blocks| ==> !blocks[k].final
  }

  /** `done` has gone through the vocoder on top of `past`, and its samples to the caller. */
  ghost predicate Sent(voc: AudioTokenizerDecoder, past: History, done: seq<Frame>, pcm: seq<Frame>, blocks: seq<Block>)
    reads voc
  {
    && voc.Mid(After(past, done)) && Delivered(blocks) == pcm
    && Heard(voc.net, After(past, done)) == Heard(voc.net, past) + pcm
  }

  function Deliver(blocks: seq<Block>, pcm: seq<Frame>, final: bool): (r: seq<Block>)
    ensures Delivered(r) == Delivered(blocks) + pcm
    ensures |r| == |blocks| + 1 && r[..|blocks|] == blocks && r[|blocks|] == Block(pcm, final)
  {
    var r := blocks + [Block(pcm, final)];
    assert r[..|r| - 1] == blocks;
    r
  }

  /** Decodes one slice of new frames and hands its samples over. */
  method EmitSlice(voc: AudioTokenizerDecoder, slice: seq<Frame>, pcm: seq<Frame>, blocks: seq<Block>, final: bool,
                   ghost past: History, ghost done: seq<Frame>)
    returns (pcm': seq<Frame>, blocks': seq<Block>)
    requires Sent(voc, past, done, pcm, blocks) && slice != []
    modifies voc
    ensures Sent(voc, past, done + slice, pcm', blocks')
    ensures |blocks'| == |blocks| + 1 && blocks'[..|blocks|] == blocks
    ensures blocks'[|blocks|].final == final && |blocks'[|blocks|].pcm| == Samples(voc.net, |slice|)
  {
    var chunk := voc.StreamDecode(slice, [], After(past, done));
    assert chunk[0..] == chunk;
    Regroup(past.frames, done, slice);
    Regroup(Heard(voc.net, past), pcm, chunk);
    blocks' := Deliver(blocks, chunk, final);
    pcm' := pcm + chunk;
  }

  /** Hands over what no regular slice covered, and ends the stream. */
  method EmitLast(voc: AudioTokenizerDecoder, rest: seq<Frame>, pcm: seq<Frame>, blocks: seq<Block>,
                  ghost past: History, ghost done: seq<Frame>)
    returns (pcm': seq<Frame>, blocks': seq<Block>)
    requires Sent(voc, past, done, pcm, blocks)
    modifies voc
    ensures Sent(voc, past, done + rest, pcm', blocks')
    ensures |blocks'| == |blocks| + 1 && blocks'[..|blocks|] == blocks && blocks'[|blocks|].final
  {
    if rest != [] {
      pcm', blocks' := EmitSlice(voc, rest, pcm, blocks, true, past, done);
    } else {
      assert done + rest == done;
      pcm', blocks' := pcm, Deliver(blocks, [], true);
    }
  }

  /** What `codes` add to the sound of `k`. */
  function Added(net: Stage, k: History, codes: seq<Frame>): seq<Frame>
    requires Shaped(net)
  {
    SamplesAdd(net, |k.frames|, |codes|, |k.frames + codes|);
    Heard(net, After(k, codes))[|Heard(net, k)|..]
  }

  /**
   The sound of a run. Only a callback with a positive chunk size resets the
   vocoder; with another size the run continues `k`, what it streamed before.
   */
  function Sound(net: Stage, hasCallback: bool, chunkFrames: int, k: History, codes: seq<Frame>): seq<Frame>
    requires Shaped(net)
  {
    if hasCallback && chunkFrames <= 0 then Added(net, k, codes) else Whole(net, codes)
  }

  /** The sound of the first frames of a run, as far as a failed one got. */
  ghost predicate SoundOfSome(net: Stage, codes: seq<Frame>, pcm: seq<Frame>)
    requires Shaped(net)
  {
    exists done :: done <= codes && pcm == Whole(net, done)
  }

  lemma SentIsAdded(voc: AudioTokenizerDecoder, past: History, done: seq<Frame>, pcm: seq<Frame>, blocks: seq<Block>)
    requires Sent(voc, past, done, pcm, blocks)
    ensures pcm == Added(voc.net, past, done)
    ensures past == FRESH ==> pcm == Whole(voc.net, done)
  {
    assert (Heard(voc.net, past) + pcm)[|Heard(voc.net, past)|..] == pcm;
    if past == FRESH {
      NothingHeard(voc.net, CLEARED);
      FreshIsWhole(voc.net, done);
      assert [] + pcm == pcm;
    }
  }

  lemma SentNothing(voc: AudioTokenizerDecoder, past: History)
    requires voc.Mid(past)
    ensures Sent(voc, past, [], [], [])
  {
    assert past.frames + [] == past.frames && Heard(voc.net, past) + [] == Heard(voc.net, past);
  }

  /** The generation loop; `k` is what the vocoder has streamed before. */
  method RunAr(voc: AudioTokenizerDecoder, src: Source, maxNewFrames: nat, chunkFrames: int, hasCallback: bool,
               ghost k: History)
    returns (ok: bool, codes: seq<Frame>, pcm: seq<Frame>, truncated: bool, blocks: seq<Block>)
    requires voc.Usable() && (hasCallback && chunkFrames <= 0 ==> voc.Mid(k))
    modifies voc
    ensures voc.Usable()
    ensures codes == Generated(src, maxNewFrames, []) && (ok <==> !Breaks(src, maxNewFrames, []))
    ensures ok ==> (truncated <==> |codes| == maxNewFrames)
    ensures ok ==> pcm == Sound(voc.net, hasCallback, chunkFrames, k, codes)
    ensures !ok ==> SoundOfSome(voc.net, codes, pcm)
    ensures Delivered(blocks) == (if hasCallback then pcm else []) && (!hasCallback ==> blocks == [])
    ensures !ok ==> NoneFinal(blocks)
    ensures ok && hasCallback ==> blocks != [] && blocks[|blocks| - 1].final
    ensures ok && hasCallback && chunkFrames > 0 ==> Scheduled(blocks[..|blocks| - 1], chunkFrames, voc.net)
    ensures ok && hasCallback && chunkFrames <= 0 ==> |blocks| == 1
  {
    if hasCallback {
      var first: nat := if chunkFrames > 0 then chunkFrames else 0;
      if first > 0 {
        voc.StreamReset(maxNewFrames);
      }
      var from := if first > 0 then FRESH else k;
      ok, codes, pcm, truncated, blocks := RunWithCallback(voc, src, maxNewFrames, first, from);
    } else {
      ok, codes, pcm, truncated, blocks := RunBuffered(voc, src, maxNewFrames);
    }
  }

  /** Generates everything, then decodes it at once. */
  method RunBuffered(voc: AudioTokenizerDecoder, src: Source, maxNewFrames: nat)
    returns (ok: bool, codes: seq<Frame>, pcm: seq<Frame>, truncated: bool, blocks: seq<Block>)
    requires voc.Usable()
    modifies voc
    ensures voc.Usable() && blocks == []
    ensures codes == Generated(src, maxNewFrames, []) && (ok <==> !Breaks(src, maxNewFrames, []))
    ensures ok ==> (truncated <==> |codes| == maxNewFrames)
    ensures if ok then pcm == Whole(voc.net, codes) else SoundOfSome(voc.net, codes, pcm)
  {
    var emitted: nat;
    var hitEos: bool;
    ok, codes, pcm, blocks, emitted, hitEos := Generate(voc, src, maxNewFrames, 0, FRESH);
    truncated := !hitEos;
    NothingDecodesToNothing(voc.net);
    if !ok {
      assert [] <= codes;
    } else if |codes| > 0 {
      pcm := voc.Decode(codes);
    }
  }

  /** Generates, handing slices over when `first` is positive, and the rest at the end. */
  method RunWithCallback(voc: AudioTokenizerDecoder, src: Source, maxNewFrames: nat, first: nat, ghost past: History)
    returns (ok: bool, codes: seq<Frame>, pcm: seq<Frame>, truncated: bool, blocks: seq<Block>)
    requires voc.Mid(past) && (first > 0 ==> past == FRESH)
    modifies voc
    ensures voc.Usable() && Delivered(blocks) == pcm
    ensures codes == Generated(src, maxNewFrames, []) && (ok <==> !Breaks(src, maxNewFrames, []))
    ensures ok ==> (truncated <==> |codes| == maxNewFrames)
    ensures ok ==> pcm == Added(voc.net, past, codes) && (past == FRESH ==> pcm == Whole(voc.net, codes))
    ensures !ok ==> SoundOfSome(voc.net, codes, pcm) && NoneFinal(blocks)
    ensures ok ==> blocks != [] && blocks[|blocks| - 1].final
    ensures ok && first > 0 ==> Scheduled(blocks[..|blocks| - 1], first, voc.net)
    ensures ok && first == 0 ==> |blocks| == 1
  {
    var emitted: nat;
    var hitEos: bool;
    ok, codes, pcm, blocks, emitted, hitEos := Generate(voc, src, maxNewFrames, first, past);
    truncated := !hitEos;
    if !ok {
      BrokenSound(voc, first > 0, past, codes, emitted, pcm, blocks);
      return;
    }
    if first == 0 {
      SentNothing(voc, past);
      assert codes[..emitted] == [];
    }
    assert codes[..emitted] + codes[emitted..] == codes;
    pcm, blocks := EmitLast(voc, codes[emitted..], pcm, blocks, past, codes[..emitted]);
    SentIsAdded(voc, past, codes, pcm, blocks);
  }

  /** What was emitted before a failing step is the sound of the first frames. */
  lemma BrokenSound(voc: AudioTokenizerDecoder, streaming: bool, past: History, codes: seq<Frame>, emitted: nat,
                    pcm: seq<Frame>, blocks: seq<Block>)
    requires Streams(voc.net, voc.layers) && emitted <= |codes|
    requires streaming ==> past == FRESH && Sent(voc, past, codes[..emitted], pcm, blocks)
    requires !streaming ==> pcm == []
    ensures SoundOfSome(voc.net, codes, pcm)
  {
    NothingDecodesToNothing(voc.net);
    if streaming {
      SentIsAdded(voc, past, codes[..emitted], pcm, blocks);
      assert codes[..emitted] <= codes;
    } else {
      assert [] <= codes;
    }
  }

  /** The streaming loop's state between frames. */
  ghost predicate Going(first: nat, voc: AudioTokenizerDecoder, past: History, codes: seq<Frame>,
                        pcm: seq<Frame>, blocks: seq<Block>, emitted: nat, nextChunk: nat)
    requires emitted <= |codes|
    reads voc
  {
    && Sent(voc, past, codes[..emitted], pcm, blocks)
    && nextChunk == Slice(first, |blocks|) && |codes| - emitted < nextChunk && Scheduled(blocks, first, voc.net)
  }

  /** Generates frames, emitting a slice whenever the schedule is met; `first` is 0 when not streaming. */
  method Generate(voc: AudioTokenizerDecoder, src: Source, maxNewFrames: nat, first: nat, ghost past: History)
    returns (ok: bool, codes: seq<Frame>, pcm: seq<Frame>, blocks: seq<Block>, emitted: nat, hitEos: bool)
    requires first > 0 ==> voc.Mid(past)
    modifies voc
    ensures codes == Generated(src, maxNewFrames, []) && (ok <==> !Breaks(src, maxNewFrames, []))
    ensures |codes| <= maxNewFrames && (ok ==> (hitEos <==> |codes| < maxNewFrames)) && emitted <= |codes|
    ensures first > 0 ==> Sent(voc, past, codes[..emitted], pcm, blocks) && Scheduled(blocks, first, voc.net)
    ensures first == 0 ==> unchanged(voc) && blocks == [] && pcm == [] && emitted == 0
  {
    ok, codes, pcm, blocks, emitted, hitEos := true, [], [], [], 0, false;
    var nextChunk: nat := first;
    assert codes[..emitted] == [];
    if first > 0 {
      SentNothing(voc, past);
    }
    while |codes| < maxNewFrames
      invariant |codes| <= maxNewFrames && ok && !hitEos && emitted <= |codes|
      invariant Generated(src, maxNewFrames, codes) == Generated(src, maxNewFrames, [])
      invariant Breaks(src, maxNewFrames, codes) == Breaks(src, maxNewFrames, [])
      invariant first > 0 ==> Going(first, voc, past, codes, pcm, blocks, emitted, nextChunk)
      invariant first == 0 ==> unchanged(voc) && blocks == [] && pcm == [] && emitted == 0
      decreases maxNewFrames - |codes|
    {
      if src.cancelled(|codes|) {
        hitEos := true;
        break;
      }
      var next := src.next(codes);
      if next.EndOfSpeech? {
        hitEos := true;
        break;
      }
      if next.Broken? {
        ok := false;
        break;
      }
      if first > 0 {
        pcm, blocks, emitted, nextChunk :=
          EmitDue(voc, codes, next.frame, pcm, blocks, emitted, nextChunk, first, past);
      }
      codes := codes + [next.frame];
    }
  }

  /** Takes one more frame, emitting the pending ones once they fill the next slice. */
  method EmitDue(voc: AudioTokenizerDecoder, before: seq<Frame>, frame: Frame, pcm: seq<Frame>, blocks: seq<Block>,
                 emitted: nat, nextChunk: nat, first: nat, ghost past: History)
    returns (pcm': seq<Frame>, blocks': seq<Block>, emitted': nat, nextChunk': nat)
    requires first > 0 && emitted <= |before| && Going(first, voc, past, before, pcm, blocks, emitted, nextChunk)
    modifies voc
    ensures emitted' <= |before| + 1
    ensures Going(first, voc, past, before + [frame], pcm', blocks', emitted', nextChunk')
  {
    var codes := before + [frame];
    pcm', blocks', emitted', nextChunk' := pcm, blocks, emitted, nextChunk;
    assert codes[..emitted] == before[..emitted];
    if |codes| - emitted >= nextChunk {
      SlicePositive(first, |blocks|);
      pcm', blocks' := EmitSlice(voc, codes[emitted..], pcm, blocks, false, past, codes[..emitted]);
      assert codes[..|codes|] == codes[..emitted] + codes[emitted..];
      assert forall k :: 0 <= k < |blocks| ==> blocks'[k] == blocks'[..|blocks|][k];
      emitted' := |codes|;
      nextChunk' := Min(nextChunk * 2, Max(first, 48));
      SlicePositive(first, |blocks'|);
    }
  }

  /** Twice the size before, `k` times. */
  function Doubled(first: nat, k: nat): nat {
    if k == 0 then first else 2 * Doubled(first, k - 1)
  }

  lemma {:induction false} DoubledGrows(first: nat, k: nat)
    ensures Doubled(first, k) >= first
  {
    if k > 0 {
      DoubledGrows(first, k - 1);
    }
  }

  /** Slice `k` is the first size doubled `k` times, held at 48 frames or at the first size if that is more. */
  lemma {:induction false} SliceDoubles(first: nat, k: nat)
    ensures Slice(first, k)
         == if Doubled(first, k) <= 48 || Doubled(first, k) <= first then Doubled(first, k)
            else if first <= 48 then 48 else first
  {
    if k > 0 {
      SliceDoubles(first, k - 1);
      DoubledGrows(first, k - 1);
    }
  }

  /** The frames are what the model gives in turn until it ends, breaks, is cancelled or has no budget left. */
  lemma {:induction false} GeneratedAre(src: Source, max: nat, sofar: seq<Frame>)
    requires |sofar| <= max
    requires forall k :: 0 <= k < |sofar| ==> src.next(sofar[..k]) == More(sofar[k]) && !src.cancelled(k)
    ensures var codes := Generated(src, max, sofar);
      && sofar <= codes && |codes| <= max
      && (forall k :: 0 <= k < |codes| ==> src.next(codes[..k]) == More(codes[k]) && !src.cancelled(k))
      && (|codes| < max && !src.cancelled(|codes|) ==> !src.next(codes).More?)
      && (Breaks(src, max, sofar) <==> |codes| < max && !src.cancelled(|codes|) && src.next(codes).Broken?)
    decreases max - |sofar|
  {
    if |sofar| < max && !src.cancelled(|sofar|) {
      match src.next(sofar) {
        case More(f) =>
          var longer := sofar + [f];
          forall k | 0 <= k < |longer|
            ensures src.next(longer[..k]) == More(longer[k]) && !src.cancelled(k)
          {
            assert longer[..k] == if k < |sofar| then sofar[..k] else sofar;
          }
          GeneratedAre(src, max, longer);
        case EndOfSpeech =>
        case Broken =>
      }
    }
  }

  lemma {:induction false} SlicePositive(first: nat, k: nat)
    requires first > 0
    ensures 1 <= Slice(first, k) <= Max(first, 48)
  {
    if k > 0 {
      SlicePositive(first, k - 1);
    }
  }

  // ---- when the sound is the decode of the codes ----------------------------------

  /** A decoder that has streamed `h` since its last reset carries `c`. */
  ghost predicate Streamed(net: Stage, layers: nat, c: Carry, h: seq<Frame>) {
    && Streams(net, layers) && c.past == |h| && |c.slabs| == layers
    && Remembers(net, layers, c, CLEARED, h)
  }

  /** What a run then begins with; a one-shot decode in between clears the history length only. */
  function Start(c: Carry, h: seq<Frame>, decoded: bool): History {
    if decoded then History(Left(c), []) else History(CLEARED, h)
  }

  function Mark(f: Frame): Frame {
    [1]
  }

  /** A frame marked and delayed: what is heard tells whether anything came before. */
  function Marked(): Stage {
    Then(Point(Mark), Echo())
  }

  lemma MarkedStreams()
    ensures Streams(Marked(), 1)
  {
    EchoStreams();
  }

  /** The last frame heard is what the delay held before it. */
  lemma LastEchoed(tail: seq<Frame>, ones: seq<Frame>)
    requires |tail| == 1 && ones != []
    ensures |Windows(tail, ones, Oldest)| == |ones|
    ensures Windows(tail, ones, Oldest)[|ones| - 1] == (tail + ones)[|ones| - 1]
  {
    var t := |ones| - 1;
    assert Windows(tail, ones, Oldest)[t] == Oldest((tail + ones)[t..t + 2]);
  }

  lemma MarkedHeard(b: Buffers, x: seq<Frame>)
    requires x != []
    ensures Streams(Marked(), 1) && |Seeded(Marked(), b, x)| == |x|
    ensures Seeded(Marked(), b, x)[|x| - 1] == if |x| == 1 then Carried(b.tails, TailFinal, 1, 1)[0] else [1]
  {
    MarkedStreams();
    var ones := Seeded(Point(Mark), b, x);
    LastEchoed(Carried(b.tails, TailFinal, 1, 1), ones);
    assert Seeded(Marked(), b, x) == Seeded(Echo(), b, ones);
  }

  lemma MarkedWhole(f: Frame)
    ensures Streams(Marked(), 1) && Whole(Marked(), [f]) == [[0]]
  {
    MarkedHeard(CLEARED, [f]);
    FreshIsWhole(Marked(), [f]);
    assert [] + [f] == [f] && Silence(1) == [0];
  }

  /** After any frame, the marked decoder carries a mark. */
  lemma MarkedCarries(c: Carry, h: seq<Frame>)
    requires h != [] && Streams(Marked(), 1) && Remembers(Marked(), 1, c, CLEARED, h)
    ensures Carried(c.tails, TailFinal, 1, 1) == [[1]]
  {
    var ones := Seeded(Point(Mark), CLEARED, h);
    assert Suffix(Quiet(1, 1) + ones, 1)[0] == ones[|h| - 1];
  }

  lemma MarkedStream(h: seq<Frame>) returns (c: Carry)
    requires h != []
    ensures Streamed(Marked(), 1, c, h) && Carried(c.tails, TailFinal, 1, 1) == [[1]]
  {
    MarkedStreams();
    c := Carry(|h|, map[TailFinal := [[1]]], map[], [[]]);
    var ones := Seeded(Point(Mark), CLEARED, h);
    assert Suffix(Quiet(1, 1) + ones, 1)[0] == ones[|h| - 1];
  }

  lemma FreshStart(net: Stage, layers: nat, c: Carry, decoded: bool, codes: seq<Frame>)
    requires Streamed(net, layers, c, [])
    ensures Added(net, Start(c, [], decoded), codes) == Whole(net, codes)
  {
    var k := Start(c, [], decoded);
    FreshIffSilent(net, layers, c);
    NothingIsSilent(net);
    SilentIsWhole(net, k.seed, codes);
    NothingHeard(net, k.seed);
    assert [] + codes == codes;
  }

  lemma MarkedDiffers(c: Carry, h: seq<Frame>, decoded: bool)
    requires h != [] && Streamed(Marked(), 1, c, h) && Carried(c.tails, TailFinal, 1, 1) == [[1]]
    ensures Added(Marked(), Start(c, h, decoded), [[0]]) == [[1]] && Whole(Marked(), [[0]]) == [[0]]
  {
    var k := Start(c, h, decoded);
    var x := k.frames + [[0]];
    MarkedHeard(k.seed, x);
    MarkedWhole([0]);
    assert |Heard(Marked(), k)| == |x| - 1;
  }

  /**
   Whatever net, carried state and codes: the sound is the decode of the codes
   exactly without a callback, with a positive chunk size, or when nothing was
   streamed since the reset, a one-shot decode in between or not.
   */
  lemma SoundIsDecodeIff(hasCallback: bool, chunkFrames: int, h: seq<Frame>, decoded: bool)
    ensures (forall net: Stage, layers: nat, c: Carry, codes: seq<Frame> :: Streamed(net, layers, c, h) ==>
               Sound(net, hasCallback, chunkFrames, Start(c, h, decoded), codes) == Whole(net, codes))
       <==> !hasCallback || chunkFrames > 0 || h == []
  {
    if hasCallback && chunkFrames <= 0 {
      if h == [] {
        forall net: Stage, layers: nat, c: Carry, codes: seq<Frame> | Streamed(net, layers, c, h)
          ensures Sound(net, hasCallback, chunkFrames, Start(c, h, decoded), codes) == Whole(net, codes)
        {
          FreshStart(net, layers, c, decoded, codes);
        }
      } else {
        var c := MarkedStream(h);
        MarkedDiffers(c, h, decoded);
        assert Sound(Marked(), hasCallback, chunkFrames, Start(c, h, decoded), [[0]]) != Whole(Marked(), [[0]]);
      }
    }
  }

  /** Such a run: one frame streamed before, with or without a decode in between, then a callback and chunk size 0. */
  method StaleRun(decoded: bool) returns (codes: seq<Frame>, pcm: seq<Frame>, oneShot: seq<Frame>)
    ensures codes == [[0]] && pcm == [[1]] && oneShot == [[0]]
  {
    var voc, c := UsedDecoder(decoded);
    var src := Source(sofar => More([0]), n => false);
    var ok, truncated, blocks;
    ghost var h: seq<Frame> := [[0]];
    MarkedDiffers(c, h, decoded);
    OneFrame(src);
    ok, codes, pcm, truncated, blocks := RunAr(voc, src, 1, 0, true, Start(c, h, decoded));
    oneShot := voc.Decode([[0]]);
  }

  method UsedDecoder(decoded: bool) returns (voc: AudioTokenizerDecoder, ghost c: Carry)
    ensures fresh(voc) && voc.net == Marked() && voc.Mid(Start(c, [[0]], decoded))
    ensures Streamed(Marked(), 1, c, [[0]]) && Carried(c.tails, TailFinal, 1, 1) == [[1]]
  {
    MarkedStreams();
    voc := new AudioTokenizerDecoder(Marked(), 1, 0, "f16", None, false);
    var first := voc.StreamDecode([[0]], [], FRESH);
    ghost var h: seq<Frame> := [[0]];
    assert After(FRESH, h) == History(CLEARED, h);
    c := voc.Now();
    MarkedCarries(c, h);
    if decoded {
      var oneShot := voc.Decode([[0]]);
    }
  }

  lemma OneFrame(src: Source)
    requires src.next([]) == More([0]) && !src.cancelled(0)
    ensures Generated(src, 1, []) == [[0]] && !Breaks(src, 1, [])
  {
    assert [] + [[0]] == [[0]];
  }
}
