/**
 The server's read-along events: each text chunk is announced with its word
 offset as generation reaches it, its audio is collected, and the whole chunk
 is aligned and placed into the passage's own word indices.
 */
module ReadAlong {
  import opened Bpe
  import opened TextChunks

  datatype PendingChunk = PendingChunk(words: seq<Text>, pcm: seq<int>, baseMs: nat, wordBase: nat)

  datatype Entry = Entry(text: Text, t0: int, t1: int)

  /** The chunk's words are the passage's words from its base on. */
  ghost predicate Placed(pc: PendingChunk, passage: seq<Text>) {
    pc.wordBase + |pc.words| <= |passage| && pc.words == passage[pc.wordBase..pc.wordBase + |pc.words|]
  }

  /** Chunks in passage order without overlap, all before word `end`. */
  ghost predicate InOrder(queue: seq<PendingChunk>, end: nat) {
    && (forall i, j :: 0 <= i < j < |queue| ==> queue[i].wordBase + |queue[i].words| <= queue[j].wordBase)
    && (forall i :: 0 <= i < |queue| ==> queue[i].wordBase + |queue[i].words| <= end)
  }

  /** Words held and queued are the passage's own, the chunk being filled last. */
  ghost predicate Sound(passage: seq<Text>, open: bool, base: nat, words: seq<Text>, queue: seq<PendingChunk>) {
    && (open ==> base <= |passage| && words == passage[base..])
    && (forall pc :: pc in queue ==> Placed(pc, passage) && pc.words != [] && pc.pcm != [])
    && InOrder(queue, if open then base else |passage|)
  }

  /** Announcing a chunk's words, whether or not they are collected. */
  lemma Announced(passage: seq<Text>, words: seq<Text>, queue: seq<PendingChunk>, base: nat, cur: seq<Text>)
    requires Sound(passage, false, base, cur, queue)
    ensures Sound(passage + words, true, |passage|, words, queue)
    ensures Sound(passage + words, false, base, cur, queue)
  {
    forall pc | pc in queue
      ensures Placed(pc, passage + words)
    {
      assert (passage + words)[pc.wordBase..pc.wordBase + |pc.words|] == passage[pc.wordBase..pc.wordBase + |pc.words|];
    }
  }

  /** The synth thread's side: what is announced, collected and handed to the aligner thread. */
  class Feed {
    const partials: bool

    var anchorWords: nat
    var audioMs: nat
    var curWords: seq<Text>
    var curPcm: seq<int>
    var curBaseMs: nat
    var curWordBase: nat
    var curOpen: bool
    var queue: seq<PendingChunk>

    /** The chunk texts announced so far. */
    ghost var started: seq<Text>

    constructor (partials: bool)
      ensures Valid() && started == [] && this.partials == partials && queue == []
    {
      this.partials := partials;
      anchorWords, audioMs, curWords, curPcm := 0, 0, [], [];
      curBaseMs, curWordBase, curOpen, queue, started := 0, 0, false, [], [];
    }

    ghost predicate Valid()
      reads this
    {
      && anchorWords == |AllWords(started)| && (curOpen ==> partials)
      && Sound(AllWords(started), curOpen, curWordBase, curWords, queue)
    }

    /** Announces a chunk: its offset counts every word of the chunks before it. */
    method EmitChunkStart(text: Text) returns (wordOffset: nat, wordCount: nat)
      requires Valid()
      modifies this
      ensures Valid() && started == old(started) + [text]
      ensures wordOffset == |AllWords(old(started))| && wordCount == |Words(text)|
      ensures anchorWords == wordOffset + wordCount && audioMs == old(audioMs)
      ensures partials ==> curOpen && curWords == Words(text) && curPcm == [] && curBaseMs == audioMs
    {
      var cw := WhitespaceSplitForAlign(text);
      wordOffset, wordCount := anchorWords, |cw|;
      if partials {
        CloseChunk();
        curWords, curBaseMs, curWordBase, curOpen := cw, audioMs, anchorWords, true;
      }
      anchorWords := anchorWords + |cw|;
      started := started + [text];
      AllWordsAppend(old(started), [text]);
      OneText(text);
      Announced(AllWords(old(started)), cw, queue, curWordBase, curWords);
    }

    method EmitAudio(pcm: seq<int>)
      requires Valid()
      modifies this
      ensures Valid() && started == old(started) && queue == old(queue)
      ensures curPcm == if curOpen then old(curPcm) + pcm else old(curPcm)
      ensures audioMs == old(audioMs) + |pcm| * 1000 / 24000
    {
      audioMs := audioMs + |pcm| * 1000 / 24000;
      if curOpen {
        curPcm := curPcm + pcm;
      }
    }

    /** Hands a complete chunk over, unless it has no words or no audio. */
    method CloseChunk()
      requires Valid()
      modifies this
      ensures Valid() && !curOpen && curPcm == [] && curWords == []
      ensures started == old(started) && anchorWords == old(anchorWords) && audioMs == old(audioMs)
      ensures queue == if old(curOpen && curPcm != [] && curWords != [])
        then old(queue) + [PendingChunk(old(curWords), old(curPcm), old(curBaseMs), old(curWordBase))] else old(queue)
    {
      if curOpen && curPcm != [] && curWords != [] {
        var pc := PendingChunk(curWords, curPcm, curBaseMs, curWordBase);
        assert Placed(pc, AllWords(started));
        queue := queue + [pc];
      }
      curPcm, curWords, curOpen := [], [], false;
    }
  }

  // ---- the aligner thread --------------------------------------------------------------------------

  /** Aligner times are relative to the chunk. */
  function Shift(e: Entry, ms: nat): Entry {
    Entry(e.text, e.t0 + ms, e.t1 + ms)
  }

  /** A list cut or padded with blanks to a length. */
  function Resized(list: seq<Entry>, n: nat): seq<Entry> {
    seq(n, i requires 0 <= i < n => if i < |list| then list[i] else Entry([], 0, 0))
  }

  /** Puts one chunk's timings at their place in the passage's list. */
  method PlaceChunk(aligned: seq<Entry>, pc: PendingChunk, got: seq<Entry>) returns (next: seq<Entry>)
    ensures |next| == pc.wordBase + |got|
    ensures forall i :: 0 <= i < |aligned| && i < pc.wordBase ==> next[i] == aligned[i]
    ensures forall i :: 0 <= i < |got| ==> next[pc.wordBase + i] == Shift(got[i], pc.baseMs)
    ensures forall i :: 0 <= i < |got| ==>
              next[pc.wordBase + i] == Entry(got[i].text, got[i].t0 + pc.baseMs, got[i].t1 + pc.baseMs)
  {
    next := if |aligned| < pc.wordBase then Resized(aligned, pc.wordBase) else aligned;
    next := Resized(next, pc.wordBase + |got|);
    for k := 0 to |got|
      invariant |next| == pc.wordBase + |got|
      invariant forall i :: 0 <= i < |aligned| && i < pc.wordBase ==> next[i] == aligned[i]
      invariant forall i :: 0 <= i < k ==> next[pc.wordBase + i] == Shift(got[i], pc.baseMs)
    {
      next := next[pc.wordBase + k := Shift(got[k], pc.baseMs)];
    }
  }

  /** The final alignment of a chunk: one timing per word, in order. */
  ghost predicate TimesChunk(got: seq<Entry>, words: seq<Text>) {
    |got| == |words| && forall i :: 0 <= i < |got| ==> got[i].text == words[i]
  }

  /** The list times chunk `pc`'s words at the passage's indices, in passage time. */
  ghost predicate Shows(aligned: seq<Entry>, pc: PendingChunk, got: seq<Entry>) {
    && pc.wordBase + |got| <= |aligned|
    && forall i :: 0 <= i < |got| ==> aligned[pc.wordBase + i] == Shift(got[i], pc.baseMs)
  }

  /** `answers[k]` is what aligning the k-th chunk gives, empty when it fails; one failure ends alignment. */
  method AlignQueue(queue: seq<PendingChunk>, end: nat, answers: seq<seq<Entry>>)
    returns (aligned: seq<Entry>, good: nat)
    requires InOrder(queue, end) && |answers| == |queue|
    requires forall k :: 0 <= k < |queue| ==> queue[k].words != []
    requires forall k :: 0 <= k < |queue| ==> answers[k] == [] || TimesChunk(answers[k], queue[k].words)
    ensures good <= |queue| && (good < |queue| ==> answers[good] == [])
    ensures forall k :: 0 <= k < good ==> answers[k] != [] && Shows(aligned, queue[k], answers[k])
    ensures |aligned| <= end
  {
    aligned, good := [], 0;
    while good < |queue| && answers[good] != []
      invariant good <= |queue|
      invariant forall k :: 0 <= k < good ==> answers[k] != [] && Shows(aligned, queue[k], answers[k])
      invariant |aligned| <= if good == 0 then 0 else queue[good - 1].wordBase + |queue[good - 1].words|
    {
      var pc := queue[good];
      var next := PlaceChunk(aligned, pc, answers[good]);
      forall k | 0 <= k < good
        ensures Shows(next, queue[k], answers[k])
      {
        Undisturbed(aligned, next, queue[k], answers[k], pc.wordBase);
      }
      aligned := next;
      good := good + 1;
    }
  }

  lemma Undisturbed(aligned: seq<Entry>, next: seq<Entry>, pc: PendingChunk, got: seq<Entry>, base: nat)
    requires Shows(aligned, pc, got) && pc.wordBase + |got| <= base <= |next|
    requires forall i :: 0 <= i < |aligned| && i < base ==> next[i] == aligned[i]
    ensures Shows(next, pc, got)
  {
  }

  /**
   Indices agree with the passage: when the chunks announced are the first
   chunks of the text, every chunk queued holds the text's own words at the
   text's own indices.
   */
  lemma IndicesAgree(s: Text, chunkWords: int, k: nat, pc: PendingChunk)
    requires k <= |Chunks(s, chunkWords)| && Placed(pc, AllWords(Chunks(s, chunkWords)[..k]))
    ensures Placed(pc, Words(s))
  {
    var chunks := Chunks(s, chunkWords);
    ChunksKeepWords(s, chunkWords);
    assert chunks == chunks[..k] + chunks[k..];
    AllWordsAppend(chunks[..k], chunks[k..]);
  }
}
