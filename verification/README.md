# A verified model of the speech engine's host-side logic

The engine keeps a speech model fast by computing things incrementally or in a
rearranged order: audio is decoded chunk by chunk from carried state, attention
runs over a cached slab, a transposed convolution is run as interleaved small
ones, a clip is decoded in bounded spans, byte pairs are merged with a heap over
a linked list, word timings are computed by a second process fed through a
bounded queue. Each of these has a simple meaning. The model gives both forms
and proves that they agree, for every input, every chunking and every
interleaving.

A signal is a sequence of frames, a frame a sequence of exact numbers. What a
trained kernel computes from the frames it reads is a function parameter; which
frames it reads, what is added to what, and what is carried from call to call is
modelled as the code does it. Every theorem therefore holds for all weights, in
exact arithmetic.

## The parts

- `Common`, `Frames`, `Attention`, `CausalNet`, `Indexed`: shared helpers, signals,
  masked attention over a slab, the decoder as a tree of causal stages with its
  one-shot meaning `Whole`, and what each stage computes frame by frame.
- `Streaming`, `DecoderGraph`, `Vocoder`: the same tree called chunk by chunk
  from carried state, the real graph, and the decoder object with its slab
  growth, reset, snapshot and restore.
- `Speech`, `LongForm`: the generation loop's emission schedule, and long texts
  generated chunk after chunk under a rolling history.
- `Backbone`, `Depth`: the two autoregressive caches against recomputing from
  scratch.
- `Bpe`, `Utf8`, `Tokenizer`: the heap-driven merge against the naive one, and
  the encode/decode round trip.
- `Polyphase`, `Seanet`, `Receptive`, `Mimi`: the weight repack, the span
  decode, and the exact left context it needs.
- `AlignerWire`, `AlignerRuns`, `AlignerWorker`, `AlignerSessions`: the aligner's
  two processes as interleaved steps over bounded pipes, and the two objects.
- `TextChunks`, `ReadAlong`: two text scanners that must agree on words, and the
  server's word bookkeeping.
- `AudioEncoder`, `WeightOrder`: the encoder graph and residual quantiser, and the
  order weights are laid out in.

## What the proofs brought out

- Holding back `stride` raw samples equals the one-shot trim of
  `kernel - stride` exactly when the kernel is twice the stride
  (`Streaming.HoldBackMatchesTrim`). The header's remark that the one-shot
  decode trims both sides (`src/audio_tokenizer_decoder.h:382-386`) no longer
  describes the code, which trims the right only; the model follows the code.
- Every state the vocoder can stream from is a history: what it has streamed
  since its length was last zero, and the buffers it carried then
  (`Vocoder.History`). A stream from carried buffers is the fresh one exactly when
  they are silent (`Streaming.FreshIffSilent`), and a stale buffer that is not is
  heard under some kernel (`Streaming.ConvHearsItsTail`,
  `Streaming.TransposeHearsItsOverlap`).
- `restore_stream_state` sets the history length before it grows the slab, and
  growth reads that many rows from the old slab. With a slab present that holds
  fewer rows than the snapshot the backend's bounds check aborts the process:
  `RestoreStreamState` ends in `Aborted` in exactly those cases, for instance 256
  rows against 257 (`Vocoder.AbortedRestore`). A rejected restore clears the
  history length but keeps the snapshot's buffers, which colour later chunks
  unless they are silent (`Vocoder.StreamAfterReject`, `Vocoder.RejectedLeaks`).
- `run_ar` with a callback but no positive chunk size skips the reset and yet
  streams at the end: what it delivers continues whatever the vocoder streamed
  before, and a one-shot decode in between clears only the history length. Its
  sound is the decode of the codes, for every graph, exactly without a callback,
  with a positive chunk size, or when nothing was streamed since the reset
  (`Speech.SoundIsDecodeIff`); `Speech.StaleRun` is a run where it is not.
- The tokenizer round trip fails on U+2581 (decoded as a space) and is exact
  without it on well-formed text (`Tokenizer.RoundTrip`). Text of any bytes comes
  back exactly when, in each piece between and including added tokens, a walk by
  lead bytes reaches over no space and meets no U+2581
  (`Tokenizer.ComesBackIff`).
- Eight latents of left context are exactly what the span decode needs; seven
  are not enough, the default of sixteen is ample (`Mimi.EightLatents`).
- The aligner's two processes can block each other for good exactly when a
  partial answer outgrows the worker's socket buffer and, in the same stream,
  the final request outgrows the parent's (`AlignerRuns.DeadlockIff`). The
  session's own kill waits for the lock that the blocked call holds.
- The history a long read carries never pairs a transcript with other audio, but
  a chunk that generates nothing leaves the next one without any voice, the
  caller's included (`LongForm.SynthesizeLong`).

## Model

| member | source | states |
|---|---|---|
| `Attention.CausalOpen` | src/audio_tokenizer_decoder.cpp:974-981 | a causal mask lets exactly rows 0..p through, whatever stale rows follow |
| `Attention.CallExtendsWhole` | src/audio_tokenizer_decoder.cpp:890-1041 | one attention layer called on new frames over a slab wider than the history gives what a pass over all frames adds, and the slab then carries the longer history |
| `Attention.StackExtends` | src/breeze_lm.cpp:188-232 | the same for a stack of layers, each over its own slab |
| `Attention.FillMask` | src/audio_tokenizer_decoder.cpp:1889-1910 | the uploaded mask row q opens the positions up to past + q and no other |
| `Indexed.LayerSample` | src/audio_tokenizer_decoder.cpp:890-1041 | an attention layer mixes each frame, at its own position, with the rows of all frames up to it and no other |
| `Indexed.ConvolvedIs` | src/audio_tokenizer_decoder.cpp:848-888 | a one-shot conv computes frame t from frames t - reach to t, silence before the clip |
| `Indexed.OverlappedIs` | src/audio_tokenizer_decoder.cpp:1192-1261 | with kernel twice the stride, sample t of the trimmed transposed conv is tap t mod stride of frame t / stride plus the tap one stride later of the frame before, channel by channel |
| `Indexed.StretchedIs` | src/audio_tokenizer_decoder.cpp:1043-1056 | with kernel equal to stride, sample t is tap t mod stride of frame t / stride alone |
| `Indexed.SkipAdds` | src/audio_tokenizer_decoder.cpp:1163 | a residual stage adds, channel by channel, its input to what its branch gives, decoded at once or from any carried buffers |
| `Indexed.StreamedSkipAdds` | src/audio_tokenizer_decoder.cpp:1163 | the same of one streamed chunk |
| `Streaming.EmitExtends` | src/audio_tokenizer_decoder.cpp:1198-1261 | overlap-adding the held-back samples continues the right-trimmed transposed conv without a seam |
| `Streaming.KeepExtends` | src/audio_tokenizer_decoder.cpp:1222-1232 | the samples a chunk holds back are what the whole history still owes |
| `Streaming.HoldBackMatchesTrim` | src/audio_tokenizer_decoder.cpp:1192-1261 | streamed and one-shot lengths agree if and only if the kernel is twice the stride |
| `Streaming.WindowsExtend` | src/audio_tokenizer_decoder.cpp:848-888 | a causal conv with the carried tail as left context continues the one-shot conv |
| `Streaming.SpreadExtends` | src/audio_tokenizer_decoder.cpp:1043-1056 | a transposed conv with kernel equal to stride needs no state |
| `Streaming.FreshIffSilent` | src/audio_tokenizer_decoder.cpp:1691-1717 | with no history, a decoder is in a fresh stream's state if and only if every buffer its graph reads is absent, mis-sized or silent |
| `Streaming.SilentIsWhole` | src/audio_tokenizer_decoder.cpp:1575-1672 | streaming from silent buffers gives the one-shot decode |
| `Streaming.ConvHearsItsTail` | src/audio_tokenizer_decoder.cpp:848-888 | a stale conv tail changes nothing under every kernel if and only if it is silent |
| `Streaming.TransposeHearsItsOverlap` | src/audio_tokenizer_decoder.cpp:1198-1261 | stale held-back samples change nothing under every kernel if and only if they are silent |
| `Streaming.TransposeExtends` | src/audio_tokenizer_decoder.cpp:1198-1261 | a transposed conv continues its output from the samples it holds, its own or older ones |
| `Streaming.CallExtends` | src/audio_tokenizer_decoder.cpp:1808-1993 | the split law for every stage tree and every buffers it started from: a call outputs what decoding the longer clip adds, and the rolled state remembers that clip |
| `Streaming.ThenExtends` | src/audio_tokenizer_decoder.cpp:1296-1573 | the split law is kept by sequential composition, each half reading only its own buffers |
| `DecoderGraph.GraphStreams` | src/audio_tokenizer_decoder.cpp:1296-1573 | in the real graph no two carried buffers share a name and attention runs at the code rate, so the split law applies to it |
| `DecoderGraph.UnitSample` | src/audio_tokenizer_decoder.cpp:1107-1164 | for every residual unit, frame and channel, output minus input is the second conv over the window of the activated first conv over the window of the activated input |
| `DecoderGraph.SilentUnit` | src/audio_tokenizer_decoder.cpp:1107-1164 | a unit whose last conv gives silence returns its input, decoded at once or from any carried buffers |
| `DecoderGraph.UnitStreams` | src/audio_tokenizer_decoder.cpp:1107-1164 | streamed from any state, a unit gives the chunk plus its branch, each conv reading its carried tail before the chunk; with a silent last conv it gives the chunk |
| `DecoderGraph.UpsampleSample` | src/audio_tokenizer_decoder.cpp:1043-1105 | sample 2i + p of an upsample block is tap p of frame i plus the convs over the seven upsampled samples up to it, by channel |
| `DecoderGraph.UpsampleStreams` | src/audio_tokenizer_decoder.cpp:1043-1105 | streamed from any state, an upsample block does the same with its carried tail before the chunk |
| `DecoderGraph.BlockIs` | src/audio_tokenizer_decoder.cpp:1166-1294 | a decoder block is its snake, its transposed conv by index, its bias and three residual units in order |
| `DecoderGraph.GraphIs` | src/audio_tokenizer_decoder.cpp:1296-1573 | the whole graph, one-shot, is the quantiser, the causal attention stack and every block in the builder's order, each stated by index |
| `DecoderGraph.DecodeModel` | src/audio_tokenizer_decoder.cpp:1296-1573 | for every loaded model and every split into non-empty chunks, the streamed samples are those of decoding the clip at once, and these are the graph's as stated by index |
| `Vocoder.AudioTokenizerDecoder.EnsureStreamKvCache` | src/audio_tokenizer_decoder.cpp:67-199 | growth keeps the written rows, reuse changes nothing, and the call fails exactly when the old slab is smaller than the history it is asked to copy |
| `Vocoder.AudioTokenizerDecoder.StreamReset` | src/audio_tokenizer_decoder.cpp:1691-1717 | the stream starts over; the slab is dropped exactly when a hint is given, keeping is off, and it is both over 1024 rows and at least twice the hint |
| `Vocoder.AudioTokenizerDecoder.Decode` | src/audio_tokenizer_decoder.cpp:1575-1672 | one-shot decode gives the whole clip's samples and leaves the carried buffers, so that streaming on is a fresh stream if and only if they are silent |
| `Vocoder.AudioTokenizerDecoder.CoverNext` | src/audio_tokenizer_decoder.cpp:1826-1846 | the slab is made to cover whatever width attention needs, soft cap or not, and keeps the history; growth stays within the caller's hint and the configured cap for as long as that width does |
| `Vocoder.AudioTokenizerDecoder.StreamDecode` | src/audio_tokenizer_decoder.cpp:1808-1993 | from any history the samples appended are exactly what decoding history plus chunk adds, the decoder then has the longer history, and the slab covers the 256-padded attention width |
| `Vocoder.AudioTokenizerDecoder.CaptureStreamState` | src/audio_tokenizer_decoder.cpp:1719-1749 | the snapshot records what the streamed history leaves behind |
| `Vocoder.AudioTokenizerDecoder.RestoreStreamState` | src/audio_tokenizer_decoder.cpp:1751-1806 | for every snapshot: it aborts if and only if a present slab holds fewer rows; otherwise it is accepted if and only if it has no rows or they fit; accepted, it resumes the history it records; rejected, it leaves its buffers at length zero, a reset if and only if they are silent |
| `Vocoder.RollBuffers` | src/audio_tokenizer_decoder.cpp:1940-1993 | every produced buffer replaces its predecessor, every other stays |
| `Vocoder.DecodeInChunks` | src/audio_tokenizer_decoder.cpp:1808-1993 | for every split into non-empty chunks after a reset, streaming and one-shot decode give the same samples |
| `Vocoder.ResumeElsewhere` | src/audio_tokenizer_decoder.cpp:1719-1806 | a decoder restored from a snapshot streams every later chunk sequence like the one it was taken from |
| `Vocoder.StreamAfterReject` | src/audio_tokenizer_decoder.cpp:1751-1806 | after a rejected restore every later chunk sequence decodes from the snapshot's buffers, and like a fresh stream when those are silent |
| `Vocoder.RejectedLeaks` | src/audio_tokenizer_decoder.cpp:1778-1783 | a restore rejected for its element type, after which a chunk sounds unlike a fresh decode |
| `Vocoder.AbortedRestore` | src/audio_tokenizer_decoder.cpp:1751-1775 | a slab of 256 rows and a snapshot of 257: the restore aborts |
| `Speech.RunAr` | src/breeze_tts.cpp:147-272 | codes are what the model generates; the sound is their one-shot decode without a callback or with a positive chunk size, and otherwise what the codes add to the vocoder's history, any history; a failing step leaves the sound of the first frames and no end; the final flag comes exactly once, last |
| `Speech.SoundIsDecodeIff` | src/breeze_tts.cpp:165-167 | the sound is the decode of the codes for every graph, state and codes if and only if there is no callback, a positive chunk size, or nothing streamed since the reset, with or without a one-shot decode in between |
| `Speech.StaleRun` | src/breeze_tts.cpp:242-270 | a run with a callback and chunk size 0 after one streamed frame, whose sound is not the decode of its codes |
| `Speech.Generate` | src/breeze_tts.cpp:177-239 | frames handed over so far are a prefix of the codes, in slices of the doubling schedule |
| `Speech.EmitDue` | src/breeze_tts.cpp:206-227 | a slice goes out exactly when the pending frames fill the scheduled size, and all of them go |
| `Speech.SlicePositive` | src/breeze_tts.cpp:170-173 | every slice has at least one frame and at most the larger of 48 and the first size |
| `Speech.SliceDoubles` | src/breeze_tts.cpp:170-226 | slice k is the first size doubled k times, held at 48 frames or at the first size when that is more |
| `Speech.GeneratedAre` | src/breeze_tts.cpp:177-239 | every frame is what the model gives after the ones before it; generation stops at a cancel, an end, a failing step or the budget, and fails only by a failing step |
| `LongForm.SynthesizeLong` | src/breeze_tts.cpp:391-507 | the sound is every chunk's decode with silence between, the caller hears all of it, the stream is ended only after the last chunk; a read stops early only when cancelled or at a chunk whose prompt or generation fails, having delivered at most the first frames of that chunk beyond its sound; after every chunk the template is that chunk with its own transcript if it fits the budget, else the caller's voice, else the chunk's untranscribed tail, and is empty exactly after a chunk that said nothing |
| `LongForm.SpeakChunk` | src/breeze_tts.cpp:441-455 | one chunk streamed or decoded at once gives the same sound, ended only if it is the last and the caller hears of it; a failed one ends nothing |
| `Backbone.LastExtends` | src/breeze_lm.cpp:285-384 | the last hidden state of a call over the slab is that of one causal pass over history and input |
| `Backbone.EmbeddingIsSum` | src/breeze_lm.cpp:170-180 | channel by channel, a code frame's embedding is the sum over codebooks c of table row code + c * vocab |
| `Backbone.EmbeddingReadsItsRows` | src/breeze_lm.cpp:342-349 | tables that agree on those rows embed the frame alike |
| `Backbone.EmbeddingCountsRows` | src/breeze_lm.cpp:342-349 | adding d to one row adds d to the frame once for each codebook that reads it |
| `Backbone.UploadCodes` | src/breeze_lm.cpp:342-349 | the index columns uploaded hold codes[i][c] + c * vocab for every frame and codebook |
| `Backbone.AnswerReadsItsRows` | src/breeze_lm.cpp:285-384 | after any history, tables that agree on the rows a call's codes name give the same hidden state |
| `Backbone.Backbone.Reset` | src/breeze_lm.cpp:103-106 | the history is empty and a grown slab shrinks back to its first size |
| `Backbone.Backbone.AllocKv` | src/breeze_lm.cpp:108-152 | a new slab keeps the written rows when asked and drops the graph that viewed the old one; copied rows are counted |
| `Backbone.Backbone.EnsureKv` | src/breeze_lm.cpp:154-160 | fails exactly when the padded need exceeds the rounded context, changing nothing; otherwise makes room and keeps capacity a multiple of 256 and total rows copied at most twice it |
| `Backbone.Backbone.GraphFor` | src/breeze_lm.cpp:285-330 | the graph a call runs on, cached or fresh, has the call's shape and views the current slab |
| `Backbone.Backbone.Run` | src/breeze_lm.cpp:285-384 | hidden state and logits equal those of one causal pass over everything fed since the reset |
| `Backbone.Backbone.PrefillFrames` | src/breeze_lm.cpp:427-434 | prefilling code frames extends the history by them; none at all changes nothing |
| `Backbone.Replay` | src/breeze_lm.cpp:424-434 | after any sequence of prompt, frame and decode calls the answer is that of one pass over all inputs |
| `Depth.InputsSplit` | src/breeze_depth.cpp:178-282 | position p embeds code p - 1 at offset (p - 1) * vocab, position 0 the hidden state |
| `Depth.RecomputedPicks` | src/breeze_depth.cpp:368-394 | a recomputed frame has one code per codebook, code k picked from head k - 1 over the codes before it with the reserved ids closed |
| `Depth.ReservedNeverPicked` | src/breeze_depth.cpp:368-394 | a sampler that picks only open ids never yields a reserved one |
| `Depth.FedIsRest` | src/breeze_depth.cpp:178-333 | what a step feeds is exactly the positions not yet in the slab |
| `Depth.DepthDecoder.SlotFor` | src/breeze_depth.cpp:160-176 | a reused graph slot always has the same frame count, position and head |
| `Depth.DepthDecoder.Step` | src/breeze_depth.cpp:290-333 | the logits are those of a causal pass from scratch, whatever older rows the slab holds |
| `Depth.DepthDecoder.RunFrame` | src/breeze_depth.cpp:368-394 | the frame's codes are those of recomputing the growing sequence at every codebook, each picked from its own head with reserved ids closed, for any stale slab |
| `Bpe.MergedIsFinal` | src/breeze_tokenizer.cpp:146-160 | naive merging ends with no adjacent pair left to merge |
| `Bpe.LowestRankFirst` | src/breeze_tokenizer.cpp:128-148 | if pair i has a rule whose rank is at most every other adjacent pair's and below those to its left, merging it first gives the same result |
| `Bpe.NoRuleNoMerge` | src/breeze_tokenizer.cpp:136-141 | where no adjacent pair has a rule nothing is merged |
| `Bpe.MergedIsRun` | src/breeze_tokenizer.cpp:128-160 | the naive result ends a run of such merges that stops only where no adjacent pair has a rule |
| `Bpe.ByteTokenSpelled` | src/breeze_tokenizer.cpp:119-124 | the fallback symbol of byte b is <0xHL> in capital hexadecimal |
| `Bpe.FreshIsLive` | src/breeze_tokenizer.cpp:146-153 | a candidate that passes the staleness test is the current pair's own, at its current rank |
| `Bpe.LiveIsFresh` | src/breeze_tokenizer.cpp:146-153 | a current pair's own candidate passes the test |
| `Bpe.PoppedIsBest` | src/breeze_tokenizer.cpp:128-148 | the first live candidate to leave the heap is the lowest-ranked, leftmost pair of the merge table |
| `Bpe.MergeCovers` | src/breeze_tokenizer.cpp:155-160 | after a merge, trying the two new neighbours puts every mergeable pair back in the heap |
| `Bpe.MergeLinked` | src/breeze_tokenizer.cpp:155-158 | the in-place writes of one merge leave a well-linked list without the merged symbol |
| `Bpe.SplitSymbols` | src/breeze_tokenizer.cpp:112-126 | a chunk is cut into vocabulary characters, each other character into its byte tokens |
| `Bpe.SymbolsAre` | src/breeze_tokenizer.cpp:14-20 | a character, as long as its lead byte says or as the chunk's end leaves it, is one symbol if the vocabulary has it and otherwise the <0xHL> symbol of each byte, in order |
| `Bpe.MergeAll` | src/breeze_tokenizer.cpp:146-160 | emptying the heap leaves the list standing for the naive result, and always ends |
| `Bpe.BpeChunk` | src/breeze_tokenizer.cpp:105-167 | the ids are, entry by entry, the vocabulary's (or the unknown id) for the result of merging the lowest-ranked, leftmost adjacent pair until none is left |
| `Utf8.WellFormedSuffix` | src/breeze_tokenizer.cpp:14-20 | what follows well-formed text in well-formed text is well formed |
| `Utf8.IsCharIsTable` | src/breeze_tokenizer.cpp:14-20 | a well-formed character is exactly a byte sequence of the table in section 4 of RFC 3629 |
| `Utf8.ReplacedAppend` | src/breeze_tokenizer.cpp:230-234 | replacing U+2581 never looks across a character boundary |
| `Utf8.ReplacedIdentity` | src/breeze_tokenizer.cpp:230-234 | replacing U+2581 changes a text if and only if it occurs |
| `Utf8.NormalisedShows` | src/breeze_tokenizer.cpp:174-186 | turning spaces into U+2581 and back shows a well-formed text with its own U+2581 as spaces |
| `Tokenizer.Load` | src/breeze_tokenizer.cpp:24-98 | ids and ranks are first positions in the file's lists; added tokens, from the file's list or its control tokens, have the id of their first listing; an id counts as added exactly when it is listed |
| `Tokenizer.FirstListedMerges` | src/breeze_tokenizer.cpp:47-53 | of the merge rules that apply to a symbol sequence the one listed first in the file is merged first, at its leftmost place |
| `Tokenizer.NegativeIdIsNoHit` | src/breeze_tokenizer.cpp:187-203 | where the longest added token has a negative id, no token is taken |
| `Tokenizer.Encode` | src/breeze_tokenizer.cpp:169-206 | the ids are the begin token if asked for, then the pieces' ids in order |
| `Tokenizer.BeginsWithBos` | src/breeze_tokenizer.cpp:169-171 | with special tokens the ids are the begin id and then the ids without |
| `Tokenizer.Decode` | src/breeze_tokenizer.cpp:213-237 | the text is every known id shown in order, byte tokens as bytes, U+2581 as a space, special ids left out when asked |
| `Tokenizer.SkippingIsDropping` | src/breeze_tokenizer.cpp:213-218 | skipping special ids is decoding the list without the added ones |
| `Tokenizer.ByteTextsAre` | src/breeze_tokenizer.cpp:219-234 | exactly the texts <0xHL>, hexadecimal digits in either case, are shown as a byte; any other token as its text with U+2581 as a space |
| `Tokenizer.RoundTrip` | src/breeze_tokenizer.cpp:169-237 | for well-formed text and a sound vocabulary, decoding the encoding gives the text with U+2581 as a space, hence the text itself if and only if it holds none |
| `Tokenizer.RunComesBackIff` | src/breeze_tokenizer.cpp:169-237 | a run of any bytes comes back if and only if the walk by lead bytes reaches over no space and meets no U+2581; otherwise some byte differs |
| `Tokenizer.AnyRunShows` | src/breeze_tokenizer.cpp:105-167 | whatever the merges, a run of any bytes decodes to the walk over its normalised bytes |
| `Tokenizer.ComesBackIff` | src/breeze_tokenizer.cpp:169-237 | for a sound vocabulary of byte tokens and whole characters, text of any bytes comes back if and only if every piece of its split is clean in that sense |
| `Tokenizer.RunTextComesBackIff` | src/breeze_tokenizer.cpp:169-237 | where no added token starts in it, text of any bytes comes back if and only if it is clean |
| `Tokenizer.IllFormedBreaks` | src/breeze_tokenizer.cpp:14-20 | an invalid lead byte before a space does not come back, unless a space is an added token |
| `Tokenizer.HitIsLongest` | src/breeze_tokenizer.cpp:187-196 | a match is made exactly where an added token starts, and no longer one starts there |
| `Tokenizer.SplitIsLeftmost` | src/breeze_tokenizer.cpp:187-205 | the split loses nothing and no added token starts inside a remaining run |
| `Polyphase.TwoFramesReach` | src/breeze_codec.cpp:201-210 | with kernel twice the stride, a raw output sample sums exactly the current frame's tap and the one before's |
| `Polyphase.InterleavedIsTrimmed` | src/breeze_codec.cpp:427-446 | interleaving the phases gives the right-trimmed transposed conv, sample for sample |
| `Polyphase.Repack` | src/breeze_codec.cpp:221-247 | refused exactly when the kernel is not twice the stride; otherwise every phase holds, for every channel pair, the later tap and then the current one |
| `Polyphase.PackedIs` | src/breeze_codec.cpp:221-247 | entry 2 * (co * CI + ci) of phase ph is weight (ci * CO + co) * K + ph + s, and the entry after it the weight s earlier |
| `Polyphase.RepackedIsTransposed` | src/breeze_codec.cpp:201-283 | running the repacked filters and interleaving equals the transposed conv of the file's weights, for every input |
| `Polyphase.DotIsSum` | src/breeze_codec.cpp:201-210 | an output channel sums every input channel times weight (ci * CO + co) * K + k |
| `Polyphase.SplitTaps` | src/breeze_codec.cpp:162-199 | tap j of channel c is the weight at c * K + j |
| `Polyphase.FiltersAreTransposed` | src/breeze_codec.cpp:386-399 | the shifted two-tap depthwise filters, interleaved, equal the depthwise transposed conv trimmed on the right |
| `Seanet.PrefixLaw` | src/breeze_codec.cpp:418-455 | later latents change no earlier sample |
| `Seanet.ForgetsHistory` | src/breeze_codec.cpp:418-455 | past its warm-up a stage's output does not depend on what came before |
| `Seanet.StretchIsWhole` | src/breeze_codec.cpp:500-540 | one span decoded with enough context, its warm-up dropped, is that stretch of the whole decode |
| `Seanet.SpansAreWhole` | src/breeze_codec.cpp:500-540 | from any position on, the spans are the rest of the whole decode, for every clip and span length |
| `Seanet.DecodeSpans` | src/breeze_codec.cpp:500-541 | the loop writes every span at its place in the output, leaving no gap |
| `Seanet.Decode` | src/breeze_codec.cpp:457-543 | the output has the whole decode's length, and is the whole decode when the context covers the warm-up |
| `Receptive.Reaches` | src/breeze_codec.cpp:345-355 | with all weights one, a loud latent is heard in every sample up to the warm-up bound |
| `Receptive.ExactContext` | src/breeze_codec.cpp:500-540 | for such weights every span decodes right if and only if the context covers the warm-up |
| `Mimi.UpsampleIsInterleaved` | src/breeze_codec.cpp:427-446 | the upsampling stage of the span decode is what the repacked, interleaved filters compute |
| `Mimi.BlockSample` | src/breeze_codec.cpp:427-446 | sample t of a block, by channel, is the biased sum of the taps of the activated input under it plus the residual branch over the activated window of three |
| `Mimi.NetIs` | src/breeze_codec.cpp:418-455 | the graph is the input conv over seven latents, the four blocks in order and the output conv over three activated samples, stated by index |
| `Mimi.SameImage` | src/breeze_codec.cpp:427-448 | signals with the same activation decode alike from any block on and through the output conv |
| `Mimi.SameImageDecodes` | src/breeze_codec.cpp:418-455 | clips whose input-conv outputs have the same activation decode to the same samples |
| `Mimi.NetNumbers` | src/breeze_codec.cpp:418-455 | the graph with rates 8, 6, 5, 4 makes 960 samples per latent and warms up in 7156 |
| `Mimi.EightLatents` | src/breeze_codec.h:111-116 | whatever the weights, clip and span, decoding in spans is exact if and only if the context is at least 8 latents |
| `Mimi.DecodeLatents` | src/breeze_codec.cpp:457-543 | with the default span and context the decode is the whole-clip decode, stage by stage as stated by index, 1920 samples per codec frame |
| `AlignerWire.TakeOneMore` | src/fa_session.cpp:561-569 | taking a list of requests and then one more is taking the longer list, accepted if each is |
| `AlignerRuns.KeepInv` | src/fa_session.cpp:257-420 | every step of either process keeps the pipes within bounds, the order of what is outstanding, and the audio sum |
| `AlignerRuns.FinalSeesEverything` | src/fa_session.cpp:561-569 | in every run, taking FINAL_REQ leaves the worker with all audio pushed since begin, then the tail, at the stream's rate, and nothing else |
| `AlignerRuns.PartialSeesPrefix` | src/fa_session.cpp:277-316 | in every run, a partial aligns a prefix of the audio pushed so far |
| `AlignerRuns.InflightIsOutstanding` | src/fa_session.h:152-162 | outside finalize the counter equals the partials queued, in work or answered but unread, and is at most one |
| `AlignerRuns.QuietBetweenStreams` | src/fa_session.cpp:370-451 | between streams both sockets are empty and the worker waits |
| `AlignerRuns.DeadlockIff` | src/fa_session.h:152-162 | a run can end with both processes blocked if and only if some partial answer and some final request of one stream outgrow their buffers |
| `AlignerRuns.FittingAnswersNeverStick` | src/fa_session.h:152-162 | if every partial answer fits the buffer, no reachable state has both sides blocked |
| `AlignerWorker.EndedIsLongest` | src/fa_session.cpp:702-704 | the first gate keeps the longest prefix of words ended within the audio |
| `AlignerWorker.SureDropsTail` | src/fa_session.cpp:706-720 | the second gate drops exactly the trailing run of unsure words |
| `AlignerWorker.Reply` | src/fa_session.cpp:534-749 | a reply is ok exactly when the request is accepted and the aligner succeeds; every word sent has the start, end and confidence the aligner gave it, the words are a prefix of the request's in order and all of them unless a partial is trimmed; the accumulator takes the request |
| `AlignerWorker.PartialSends` | src/fa_session.cpp:700-726 | a trimmed partial sends the longest prefix that has ended in the audio seen and ends in a sure word, or as many words as were sent before in the stream if that is more, and remembers the number |
| `AlignerWorker.PrefixNeverShrinks` | src/fa_session.cpp:700-726 | from a stream's first partial on, a later successful partial sends at least as many words, never more than the list |
| `AlignerWorker.SentNeverShrinks` | src/fa_session.cpp:534-749 | in every run of the two processes, the successful partial answers of the current stream name ever longer prefixes of its words, never more |
| `AlignerWorker.FinalTimesEverything` | src/fa_session.cpp:534-749 | in every run FINAL is answered with every word of the stream and the start, end and confidence the aligner gives it over all audio, and fails only if the aligner does |
| `AlignerWorker.ReplyIsAStep` | src/fa_session.cpp:789-808 | the worker's reply is always a step the two-process model allows |
| `AlignerWorker.Worker.HandleAlign` | src/fa_session.cpp:534-749 | with its cache the worker replies exactly as one that always realigns, so a cached FINAL equals recomputing it |
| `AlignerWorker.Worker.Accumulate` | src/fa_session.cpp:561-569 | reset, append and rate check, keeping the cache a true record of a prefix of the accumulator |
| `AlignerSessions.AlignerSession.BeginStreamingAlign` | src/fa_session.cpp:257-272 | succeeds exactly when no stream is open, there are words and the rate is positive, and then starts empty |
| `AlignerSessions.AlignerSession.FlushPending` | src/fa_session.cpp:277-316 | sends all pending audio as one partial exactly when some is pending, a slot is free and the throttle allows it |
| `AlignerSessions.AlignerSession.PushPartialPcm` | src/fa_session.cpp:318-329 | appends to the pending audio, then flushes; refused without an open stream or a worker |
| `AlignerSessions.AlignerSession.DrainPartialAlignments` | src/fa_session.cpp:331-368 | reads what is ready, frees one slot per partial, shows the successful ones in order, then flushes; a frame it cannot read or parse ends it without a flush |
| `AlignerSessions.AlignerSession.FinalizeStreamingAlign` | src/fa_session.cpp:370-451 | sends everything unsent and the tail as one FINAL_REQ, answers with the first FINAL_RESP if it can be read and parsed, and resets the stream however it ends |
| `TextChunks.WordsSplit` | src/breeze_server.cpp:177-190 | cutting a text where a separator follows cuts no word |
| `TextChunks.WordsAreRuns` | src/breeze_server.cpp:177-190 | every word is non-empty and free of separators |
| `TextChunks.WordsHoldAll` | src/breeze_server.cpp:177-190 | the words together are all word bytes in order |
| `TextChunks.WhitespaceSplitForAlign` | src/breeze_server.cpp:179-190 | the index loop yields exactly the text's words |
| `TextChunks.SplitSentences` | src/breeze_tts.cpp:348-371 | the scan yields the sentences, each ended by an ender and its closers before a space, a newline or the end |
| `TextChunks.StopsIs` | src/breeze_tts.cpp:348-371 | a sentence ends exactly at a full stop, exclamation mark, question mark or newline that only closing quotes and brackets separate from a space, a newline or the end |
| `TextChunks.TrimStarts` | src/breeze_tts.cpp:358-369 | a sentence starts at the first byte that is no space, tab or line end |
| `TextChunks.ChunkText` | src/breeze_tts.cpp:346-389 | the chunks are the greedily packed sentences, 120 words when no budget is given |
| `TextChunks.ChunksKeepWords` | src/breeze_tts.cpp:346-389 | the chunks' words, by the server's split, are the whole text's words |
| `TextChunks.PackKeepsSentences` | src/breeze_tts.cpp:378-387 | packing cuts, drops and moves no sentence |
| `TextChunks.ChunksWithinBudget` | src/breeze_tts.cpp:346-389 | every chunk is within the word budget or is one sentence |
| `TextChunks.ChunksAreFull` | src/breeze_tts.cpp:378-387 | a chunk ends only where the sentence the next chunk begins with would have gone over the budget |
| `TextChunks.OffsetsTile` | src/breeze_server.cpp:795-821 | chunk word offsets tile the text's word list without gap or overlap |
| `ReadAlong.Feed.EmitChunkStart` | src/breeze_server.cpp:796-821 | the announced offset counts all words of the chunks before, and the chunk's words are the passage's at that offset |
| `ReadAlong.Feed.CloseChunk` | src/breeze_server.cpp:724-740 | a chunk with words and audio is queued once, after all earlier ones, else dropped |
| `ReadAlong.PlaceChunk` | src/breeze_server.cpp:686-695 | a chunk's timings land at its word base in passage time and no earlier entry changes |
| `ReadAlong.AlignQueue` | src/breeze_server.cpp:657-714 | after any number of chunks every aligned one is still shown at its own indices; the first failure ends alignment |
| `ReadAlong.IndicesAgree` | src/breeze_server.cpp:795-821 | a queued chunk's words are the whole text's words at the same indices |
| `AudioEncoder.NestedCeil` | src/audio_codec_encoder.cpp:427-458 | rounding up by one stride and then another is rounding up by their product |
| `AudioEncoder.PaddedLength` | src/audio_codec_encoder.cpp:431-450 | the padded conv yields exactly the length the builder tracks |
| `AudioEncoder.Downsample` | src/audio_codec_encoder.cpp:438-458 | output frame i is the kernel over the stride frames before frame i * stride and the stride frames from it, silence outside the clip, and the tracked length is the real one |
| `AudioEncoder.Halve` | src/breeze_codec.cpp:581-594 | output frame i reads frames 2i - 2 to 2i + 1, the first and last frame held beyond the edges, and the length is halved rounding up |
| `AudioEncoder.Encode` | src/breeze_codec.cpp:545-607 | n samples become exactly the ceiling of n / 1920 frames, and these are the input conv, four residual units each activated and thinned, the output conv, the causal stack and the halving, stated by index |
| `AudioEncoder.Nearest` | src/breeze_codec.cpp:666-676 | the first entry at the least distance, or entry 0 when none is nearer than the sentinel |
| `AudioEncoder.ResidualConserves` | src/breeze_codec.cpp:681-690 | decoded entries and residual always add up to the input |
| `AudioEncoder.QuantiseAcoustic` | src/audio_codec_encoder.cpp:706-737 | every code is nearest to what the earlier codes left over, and the array ends as that residual |
| `AudioEncoder.QuantiseFrame` | src/audio_codec_encoder.cpp:679-738 | the acoustic codes start from their own projection, not from the semantic residual |
| `WeightOrder.PushGroupOk` | src/breeze_weights.cpp:108-138 | pushing one whole group puts it side by side and disturbs no other |
| `WeightOrder.Order` | src/breeze_weights.cpp:99-139 | each name once, every listed name that exists, and every complete group with a listed member side by side, in group order |

## Left out

- Kernel numerics: rounding, F16 and quantised types, RoPE values, flash attention and the sampler's probabilities; kernels are function parameters over exact numbers, so bit-identity is not claimed.
- Backend and graph failures, allocation failures, and the logits outputs beyond what is sampled from.
- HTTP, JSON, audio containers, process spawning, signals and file handling.
- `Tokenizer.RoundTrip`: asks for a vocabulary whose merges neither take nor make a string shaped like a byte token, since such a token decodes as its own spelling; texts with added tokens are covered when those tokens are well-formed and listed under their own ids.
- `Vocoder.AudioTokenizerDecoder.RestoreStreamState`: head counts and sizes other than the row count and the element type are fixed per model and not compared.
- `Streaming.TransposeHearsItsOverlap`: asks that the held frames have the conv's channels, as the code's flat buffers always do.
- `Tokenizer.ComesBackIff`: asks in addition that vocabulary entries are byte tokens or well-formed text.
- `Receptive.ExactContext`: the converse is stated for weights that are all one; other weights may happen to need less context.
- `AlignerRuns.KeepInv`: frames are moved byte by byte but arrive whole and in order; the sender's handling of repeated short writes is not modelled. A killed worker and its respawn are one step, and malformed frames or a worker crash are not modelled.
- `AlignerWorker.Reply`: the aligner is a function of audio, rate and words, its resampler and incremental mode included; a load that fails once and then succeeds is not modelled.
- `AlignerSessions.AlignerSession.DrainPartialAlignments`: the callback runs unlocked, so other calls can interleave there; `AlignerRuns` models that, this method a drain without such a call.
- `ReadAlong.AlignQueue`: client-time stretching and the events' text are left out.
- `AudioEncoder.Encode`: lengths are unbounded; sample counts within a stride of the 32-bit limit would wrap in the code.
- `AudioEncoder.Nearest`: distances are exact reals, so ties the code decides by rounding are decided exactly.
- `WeightOrder.Order`: adjacency in the creation order; that the allocator lays tensors out in that order, and the type and stride checks of the fusion, are not modelled.
- The older codec, the speaker encoder, voice storage, config loading and time stretching would add only easy members.
