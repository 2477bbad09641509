/**
 The load-time repack of transposed convolutions: a stride-s transposed conv
 with kernel 2s, trimmed on the right, is s interleaved two-tap causal convs.
 Weights are flat arrays in the file's layout, as the loader reads them.
 */
module Polyphase {
  import opened Common
  import opened Frames
  import opened CausalNet
  import Streaming

  // ---- interleaving phases, for any transposed conv -------------------------------------

  /** Phase `p` of output frame `i`: the current frame through tap `p`, the one before through tap `p + stride`. */
  function PhaseAt(up: Up, x: seq<Frame>, i: nat, p: nat): Frame
    requires i < |x|
  {
    Plus(up.tap(x[i], p), if i == 0 then Silence(up.channels) else up.tap(x[i - 1], p + up.stride))
  }

  /** Sample `i` of every phase, in phase order. */
  function Column(phases: seq<seq<Frame>>, i: nat): seq<Frame>
    requires forall p :: 0 <= p < |phases| ==> i < |phases[p]|
  {
    seq(|phases|, p requires 0 <= p < |phases| => phases[p][i])
  }

  /** The first `len` samples of the phases, merged phase by phase. */
  function Interleave(phases: seq<seq<Frame>>, len: nat): seq<Frame>
    requires forall p :: 0 <= p < |phases| ==> len <= |phases[p]|
  {
    if len == 0 then [] else Interleave(phases, len - 1) + Column(phases, len - 1)
  }

  lemma {:induction false} NothingYet(up: Up, x: seq<Frame>, t: int)
    requires TapsFit(up) && t < 0
    ensures RawAt(up, x, t) == Silence(up.channels)
  {
    if x != [] {
      NothingYet(up, x[1..], t - up.stride);
      PlusLaws(Silence(up.channels), Silence(up.channels), Silence(up.channels));
    }
  }

  /** Only two input frames reach any one output sample when the kernel is twice the stride. */
  lemma {:induction false} TwoFramesReach(up: Up, x: seq<Frame>, i: nat, p: nat)
    requires TapsFit(up) && up.kernel == 2 * up.stride && p < up.stride && i < |x|
    ensures RawAt(up, x, Times(i, up.stride) + p) == PhaseAt(up, x, i, p)
    decreases i
  {
    var s, silent := up.stride, Silence(up.channels);
    if i == 0 {
      NothingYet(up, x[1..], p - s);
    } else if i == 1 {
      assert Times(1, s) == s by { TimesIsProduct(1, s); }
      FirstReaches(up, x[1..], p);
      PlusLaws(up.tap(x[1], p), up.tap(x[0], p + s), silent);
    } else {
      TwoFramesReach(up, x[1..], i - 1, p);
      LateSample(i, s);
      PlusLaws(PhaseAt(up, x, i, p), silent, silent);
    }
  }

  lemma FirstReaches(up: Up, x: seq<Frame>, p: nat)
    requires TapsFit(up) && up.kernel == 2 * up.stride && p < up.stride && x != []
    ensures RawAt(up, x, p) == up.tap(x[0], p)
  {
    NothingYet(up, x[1..], p - up.stride);
    PlusLaws(up.tap(x[0], p), Silence(up.channels), Silence(up.channels));
  }

  lemma {:induction false} LateSample(i: nat, s: nat)
    requires i >= 2
    ensures Times(i, s) >= 2 * s && Times(i, s) - s == Times(i - 1, s)
  {
    if i > 2 {
      LateSample(i - 1, s);
    } else {
      TimesIsProduct(i, s);
    }
  }

  ghost predicate ArePhases(up: Up, x: seq<Frame>, phases: seq<seq<Frame>>) {
    && |phases| == up.stride
    && (forall p :: 0 <= p < |phases| ==> |phases[p]| == |x|)
    && forall p, i :: 0 <= p < |phases| && 0 <= i < |x| ==> phases[p][i] == PhaseAt(up, x, i, p)
  }

  lemma ColumnIsNext(up: Up, x: seq<Frame>, phases: seq<seq<Frame>>, i: nat, base: nat)
    requires TapsFit(up) && 1 <= up.stride && up.kernel == 2 * up.stride && i < |x|
    requires ArePhases(up, x, phases) && base == Times(i, up.stride)
    ensures base + up.stride <= |Trimmed(up, x)|
    ensures forall p :: 0 <= p < up.stride ==> Column(phases, i)[p] == Trimmed(up, x)[base + p]
  {
    var n := Times(|x|, up.stride);
    TimesAdd(up.stride, i + 1, |x| - i - 1, |x|);
    Streaming.TrimmedIs(up, x, n);
    forall p | 0 <= p < up.stride
      ensures Column(phases, i)[p] == Trimmed(up, x)[base + p]
    {
      TwoFramesReach(up, x, i, p);
    }
  }

  lemma OneMore(all: seq<Frame>, base: nat, next: seq<Frame>)
    requires base + |next| <= |all|
    requires forall p :: 0 <= p < |next| ==> next[p] == all[base + p]
    ensures all[..base] + next == all[..base + |next|]
  {
  }

  /** Interleaving the phases gives the transposed conv trimmed on the right, frame for frame. */
  lemma {:induction false} InterleavedIsTrimmed(up: Up, x: seq<Frame>, phases: seq<seq<Frame>>, len: nat)
    requires TapsFit(up) && 1 <= up.stride && up.kernel == 2 * up.stride && len <= |x|
    requires ArePhases(up, x, phases)
    ensures Times(len, up.stride) <= |Trimmed(up, x)|
    ensures Interleave(phases, len) == Trimmed(up, x)[..Times(len, up.stride)]
  {
    if len > 0 {
      InterleavedIsTrimmed(up, x, phases, len - 1);
      ColumnIsNext(up, x, phases, len - 1, Times(len - 1, up.stride));
      OneMore(Trimmed(up, x), Times(len - 1, up.stride), Column(phases, len - 1));
    }
  }

  lemma AllInterleaved(up: Up, x: seq<Frame>, phases: seq<seq<Frame>>)
    requires TapsFit(up) && 1 <= up.stride && up.kernel == 2 * up.stride
    requires ArePhases(up, x, phases)
    ensures Interleave(phases, |x|) == Trimmed(up, x)
  {
    InterleavedIsTrimmed(up, x, phases, |x|);
    Streaming.TrimmedIs(up, x, Times(|x|, up.stride));
  }

  // ---- the weights as the file lays them out -----------------------------------------------

  /** A transposed conv weight: `ci` input channels, `co` output channels, `kernel` taps, taps innermost. */
  datatype Shape = Shape(ci: nat, co: nat, kernel: nat)

  function Entry(f: seq<int>, at: nat): int {
    if at < |f| then f[at] else 0
  }

  /** `(ci * CO + co) * K + k`. */
  function WeightAt(sh: Shape, ci: nat, co: nat, k: nat): nat {
    Times(Times(ci, sh.co) + co, sh.kernel) + k
  }

  /** `(co * CI + ci) * 2`: where the pair (previous tap, current tap) of two channels sits. */
  function PairAt(sh: Shape, co: nat, ci: nat): nat {
    2 * (Times(co, sh.ci) + ci)
  }

  /** The places in plain arithmetic. */
  lemma LayoutIs(sh: Shape, ci: nat, co: nat, k: nat)
    ensures WeightAt(sh, ci, co, k) == (ci * sh.co + co) * sh.kernel + k
    ensures PairAt(sh, co, ci) == 2 * (co * sh.ci + ci)
  {
    TimesIsProduct(ci, sh.co);
    TimesIsProduct(ci * sh.co + co, sh.kernel);
    TimesIsProduct(co, sh.ci);
  }

  function Size(sh: Shape): nat {
    Times(Times(sh.ci, sh.co), sh.kernel)
  }

  function PackedSize(sh: Shape): nat {
    2 * Times(sh.co, sh.ci)
  }

  lemma {:induction false} TimesBelow(a: nat, b: nat, step: nat)
    requires a < b
    ensures Times(a, step) + step <= Times(b, step)
    decreases b
  {
    if a < b - 1 {
      TimesBelow(a, b - 1, step);
    }
  }

  lemma WeightFits(sh: Shape, ci: nat, co: nat, k: nat)
    requires ci < sh.ci && co < sh.co && k < sh.kernel
    ensures WeightAt(sh, ci, co, k) < Size(sh)
  {
    TimesBelow(ci, sh.ci, sh.co);
    TimesBelow(Times(ci, sh.co) + co, Times(sh.ci, sh.co), sh.kernel);
  }

  lemma PairFits(sh: Shape, co: nat, ci: nat)
    requires co < sh.co && ci < sh.ci
    ensures PairAt(sh, co, ci) + 2 <= PackedSize(sh)
  {
    TimesBelow(co, sh.co, sh.ci);
  }

  lemma PairsApart(sh: Shape, co: nat, ci: nat, laterCo: nat, laterCi: nat)
    requires ci < sh.ci && (co < laterCo || (co == laterCo && ci < laterCi))
    ensures PairAt(sh, co, ci) + 2 <= PairAt(sh, laterCo, laterCi)
  {
    if co < laterCo {
      TimesBelow(co, laterCo, sh.ci);
    }
  }

  /** Phase `ph` holds, for every channel pair, the tap one stride later and then the tap itself. */
  ghost predicate PairRight(f: seq<int>, sh: Shape, s: nat, ph: nat, packed: seq<int>, co: nat, ci: nat) {
    && Entry(packed, PairAt(sh, co, ci)) == Entry(f, WeightAt(sh, ci, co, ph + s))
    && Entry(packed, PairAt(sh, co, ci) + 1) == Entry(f, WeightAt(sh, ci, co, ph))
  }

  ghost predicate Packed(f: seq<int>, sh: Shape, s: nat, ph: nat, packed: seq<int>) {
    forall co: nat, ci: nat :: co < sh.co && ci < sh.ci ==> PairRight(f, sh, s, ph, packed, co, ci)
  }

  /** What a repacked phase holds for two channels, at the file's own places. */
  lemma PackedIs(f: seq<int>, sh: Shape, s: nat, ph: nat, packed: seq<int>, co: nat, ci: nat)
    requires Packed(f, sh, s, ph, packed) && co < sh.co && ci < sh.ci
    ensures Entry(packed, 2 * (co * sh.ci + ci)) == Entry(f, (ci * sh.co + co) * sh.kernel + (ph + s))
    ensures Entry(packed, 2 * (co * sh.ci + ci) + 1) == Entry(f, (ci * sh.co + co) * sh.kernel + ph)
  {
    assert PairRight(f, sh, s, ph, packed, co, ci);
    LayoutIs(sh, ci, co, ph);
    LayoutIs(sh, ci, co, ph + s);
  }

  datatype Repacked = Failed(message: string) | Phases(host: seq<seq<int>>)

  /** The repack of one layer, refused unless the kernel is twice the stride. */
  method Repack(f: seq<int>, sh: Shape, s: nat) returns (r: Repacked)
    requires |f| == Size(sh)
    ensures r.Phases? <==> sh.kernel == 2 * s
    ensures r.Phases? ==> |r.host| == s && forall ph :: 0 <= ph < s ==> Packed(f, sh, s, ph, r.host[ph])
  {
    if sh.kernel != 2 * s {
      return Failed("codec: transpose kernel is not 2*stride");
    }
    var host := [];
    for ph := 0 to s
      invariant |host| == ph && forall q :: 0 <= q < ph ==> Packed(f, sh, s, q, host[q])
    {
      var packed := RepackPhase(f, sh, s, ph);
      host := host + [packed[..]];
    }
    r := Phases(host);
  }

  method RepackPhase(f: seq<int>, sh: Shape, s: nat, ph: nat) returns (packed: array<int>)
    requires |f| == Size(sh) && sh.kernel == 2 * s && ph < s
    ensures Packed(f, sh, s, ph, packed[..])
  {
    packed := new int[PackedSize(sh)](_ => 0);
    for co := 0 to sh.co
      invariant packed.Length == PackedSize(sh)
      invariant forall c: nat, i: nat :: c < co && i < sh.ci ==> PairRight(f, sh, s, ph, packed[..], c, i)
    {
      for ci := 0 to sh.ci
        invariant packed.Length == PackedSize(sh)
        invariant forall c: nat, i: nat :: i < sh.ci && (c < co || (c == co && i < ci)) ==>
          PairRight(f, sh, s, ph, packed[..], c, i)
      {
        var base := PairAt(sh, co, ci);
        PairFits(sh, co, ci);
        WeightFits(sh, ci, co, ph + s);
        WeightFits(sh, ci, co, ph);
        ghost var was := packed[..];
        packed[base] := f[WeightAt(sh, ci, co, ph + s)];
        packed[base + 1] := f[WeightAt(sh, ci, co, ph)];
        forall c: nat, i: nat | i < sh.ci && (c < co || (c == co && i < ci))
          ensures PairRight(f, sh, s, ph, packed[..], c, i)
        {
          PairsApart(sh, c, i, co, ci);
          PairKept(was, packed[..], base, PairAt(sh, c, i));
          assert PairRight(f, sh, s, ph, was, c, i);
        }
      }
    }
  }

  lemma PairKept(was: seq<int>, now: seq<int>, base: nat, at: nat)
    requires |was| == |now| && at + 2 <= base <= |was| && was[..base] == now[..base]
    ensures Entry(was, at) == Entry(now, at) && Entry(was, at + 1) == Entry(now, at + 1)
  {
    assert was[..base][at] == now[..base][at] && was[..base][at + 1] == now[..base][at + 1];
  }

  // ---- the two forms of the layer --------------------------------------------------------------

  /** Sum over the first `n` input channels for output channel `co` at tap `k`. */
  function Dot(f: seq<int>, sh: Shape, x: Frame, co: nat, k: nat, n: nat): int {
    if n == 0 then 0
    else Dot(f, sh, x, co, k, n - 1) + Channel(x, n - 1) * Entry(f, WeightAt(sh, n - 1, co, k))
  }

  /** The sum in plain arithmetic: every input channel times its weight for this output channel and tap. */
  lemma {:induction false} DotIsSum(f: seq<int>, sh: Shape, x: Frame, co: nat, k: nat, n: nat)
    ensures Dot(f, sh, x, co, k, n)
         == SumTo(n, (ci: nat) => Channel(x, ci) * Entry(f, (ci * sh.co + co) * sh.kernel + k))
  {
    if n > 0 {
      DotIsSum(f, sh, x, co, k, n - 1);
      LayoutIs(sh, n - 1, co, k);
    }
  }

  /** The transposed conv the weights stand for. */
  function Dense(f: seq<int>, sh: Shape, s: nat): Up {
    Up(s, sh.kernel, sh.co, (x: Frame, k: nat) =>
      seq(sh.co, co requires 0 <= co < sh.co => Dot(f, sh, x, co, k, sh.ci)))
  }

  lemma DenseFits(f: seq<int>, sh: Shape, s: nat)
    ensures TapsFit(Dense(f, sh, s))
  {
    var up := Dense(f, sh, s);
    forall x: Frame, k: nat
      ensures |up.tap(x, k)| == sh.co
    {
    }
  }

  /** The two-tap causal conv with packed weights, at the two frames under its window. */
  function PairDot(packed: seq<int>, sh: Shape, before: Frame, now: Frame, co: nat, n: nat): int {
    if n == 0 then 0
    else
      PairDot(packed, sh, before, now, co, n - 1)
      + Channel(before, n - 1) * Entry(packed, PairAt(sh, co, n - 1))
      + Channel(now, n - 1) * Entry(packed, PairAt(sh, co, n - 1) + 1)
  }

  function TwoTap(packed: seq<int>, sh: Shape, before: Frame, now: Frame): Frame {
    seq(sh.co, co requires 0 <= co < sh.co => PairDot(packed, sh, before, now, co, sh.ci))
  }

  /** One phase over the whole signal, padded with one silent frame on the left. */
  function PhaseConv(packed: seq<int>, sh: Shape, x: seq<Frame>): seq<Frame> {
    var padded := [Silence(sh.ci)] + x;
    seq(|x|, i requires 0 <= i < |x| => TwoTap(packed, sh, padded[i], padded[i + 1]))
  }

  function PhaseConvs(host: seq<seq<int>>, sh: Shape, x: seq<Frame>): (phases: seq<seq<Frame>>)
    ensures |phases| == |host|
    ensures forall p :: 0 <= p < |phases| ==> |phases[p]| == |x|
  {
    seq(|host|, p requires 0 <= p < |host| => PhaseConv(host[p], sh, x))
  }

  lemma {:induction false} PairDotSplits(f: seq<int>, sh: Shape, s: nat, ph: nat, packed: seq<int>,
                                         before: Frame, now: Frame, co: nat, n: nat)
    requires Packed(f, sh, s, ph, packed) && co < sh.co && n <= sh.ci
    ensures PairDot(packed, sh, before, now, co, n) == Dot(f, sh, now, co, ph, n) + Dot(f, sh, before, co, ph + s, n)
  {
    if n > 0 {
      PairDotSplits(f, sh, s, ph, packed, before, now, co, n - 1);
      assert PairRight(f, sh, s, ph, packed, co, n - 1);
    }
  }

  lemma {:induction false} SilentDot(f: seq<int>, sh: Shape, co: nat, k: nat, n: nat)
    ensures Dot(f, sh, Silence(sh.ci), co, k, n) == 0
  {
    if n > 0 {
      SilentDot(f, sh, co, k, n - 1);
    }
  }

  lemma SilentTap(f: seq<int>, sh: Shape, s: nat, k: nat)
    ensures Dense(f, sh, s).tap(Silence(sh.ci), k) == Silence(sh.co)
  {
    forall co | 0 <= co < sh.co
      ensures Dense(f, sh, s).tap(Silence(sh.ci), k)[co] == 0
    {
      SilentDot(f, sh, co, k, sh.ci);
    }
  }

  lemma TwoTapSplits(f: seq<int>, sh: Shape, s: nat, ph: nat, packed: seq<int>, before: Frame, now: Frame)
    requires Packed(f, sh, s, ph, packed)
    ensures TwoTap(packed, sh, before, now) == Plus(Dense(f, sh, s).tap(now, ph), Dense(f, sh, s).tap(before, ph + s))
  {
    forall co | 0 <= co < sh.co
      ensures TwoTap(packed, sh, before, now)[co]
           == Dense(f, sh, s).tap(now, ph)[co] + Dense(f, sh, s).tap(before, ph + s)[co]
    {
      PairDotSplits(f, sh, s, ph, packed, before, now, co, sh.ci);
    }
  }

  lemma ConvIsPhase(f: seq<int>, sh: Shape, s: nat, ph: nat, packed: seq<int>, x: seq<Frame>, i: nat)
    requires Packed(f, sh, s, ph, packed) && i < |x|
    ensures PhaseConv(packed, sh, x)[i] == PhaseAt(Dense(f, sh, s), x, i, ph)
  {
    var before := if i == 0 then Silence(sh.ci) else x[i - 1];
    PaddedAt(sh, x, i);
    TwoTapSplits(f, sh, s, ph, packed, before, x[i]);
    if i == 0 {
      SilentTap(f, sh, s, ph + s);
    }
  }

  lemma PaddedAt(sh: Shape, x: seq<Frame>, i: nat)
    requires i < |x|
    ensures ([Silence(sh.ci)] + x)[i] == if i == 0 then Silence(sh.ci) else x[i - 1]
    ensures ([Silence(sh.ci)] + x)[i + 1] == x[i]
  {
  }

  /** The repacked layer is the transposed conv, trimmed to exactly `stride` samples per input frame. */
  lemma RepackedIsTransposed(f: seq<int>, sh: Shape, s: nat, host: seq<seq<int>>, x: seq<Frame>)
    requires 1 <= s && sh.kernel == 2 * s && |host| == s
    requires forall ph :: 0 <= ph < s ==> Packed(f, sh, s, ph, host[ph])
    ensures Interleave(PhaseConvs(host, sh, x), |x|) == Trimmed(Dense(f, sh, s), x)
  {
    DenseFits(f, sh, s);
    ConvsArePhases(f, sh, s, host, x);
    AllInterleaved(Dense(f, sh, s), x, PhaseConvs(host, sh, x));
  }

  lemma ConvsArePhases(f: seq<int>, sh: Shape, s: nat, host: seq<seq<int>>, x: seq<Frame>)
    requires |host| == s && forall ph :: 0 <= ph < s ==> Packed(f, sh, s, ph, host[ph])
    ensures ArePhases(Dense(f, sh, s), x, PhaseConvs(host, sh, x))
  {
    forall p, i | 0 <= p < s && 0 <= i < |x|
      ensures PhaseConvs(host, sh, x)[p][i] == PhaseAt(Dense(f, sh, s), x, i, p)
    {
      ConvIsPhase(f, sh, s, p, host[p], x, i);
    }
  }

  // ---- the depthwise doubling ----------------------------------------------------------------

  function TapAt(kernel: nat, c: nat, j: nat): nat {
    Times(c, kernel) + j
  }

  /** Tap `j` of every channel. */
  ghost predicate IsTap(f: seq<int>, kernel: nat, channels: nat, j: nat, col: seq<int>) {
    |col| == channels && forall c :: 0 <= c < channels ==> col[c] == Entry(f, TapAt(kernel, c, j))
  }

  /** The taps of the depthwise filter, pulled out of the flat weight. */
  method SplitTaps(f: seq<int>, kernel: nat, channels: nat) returns (taps: seq<seq<int>>)
    requires |f| == Times(channels, kernel)
    ensures |taps| == kernel && forall j :: 0 <= j < kernel ==> IsTap(f, kernel, channels, j, taps[j])
  {
    taps := [];
    for j := 0 to kernel
      invariant |taps| == j && forall q :: 0 <= q < j ==> IsTap(f, kernel, channels, q, taps[q])
    {
      var col := SplitTap(f, kernel, channels, j);
      taps := taps + [col[..]];
    }
  }

  method SplitTap(f: seq<int>, kernel: nat, channels: nat, j: nat) returns (col: array<int>)
    requires |f| == Times(channels, kernel) && j < kernel
    ensures IsTap(f, kernel, channels, j, col[..])
  {
    col := new int[channels];
    for c := 0 to channels
      invariant col.Length == channels
      invariant forall d :: 0 <= d < c ==> col[d] == Entry(f, TapAt(kernel, d, j))
    {
      TimesBelow(c, channels, kernel);
      col[c] := f[TapAt(kernel, c, j)];
    }
  }

  lemma TapIs(kernel: nat, c: nat, j: nat)
    ensures TapAt(kernel, c, j) == c * kernel + j
  {
    TimesIsProduct(c, kernel);
  }

  /** Each channel times its own tap. */
  function Scale(x: Frame, tap: seq<int>): Frame {
    seq(|tap|, c requires 0 <= c < |tap| => Channel(x, c) * tap[c])
  }

  /** The depthwise transposed conv with these taps: two at the current frame's rate and two one stride later. */
  function Depthwise(taps: seq<seq<int>>, channels: nat, s: nat): Up {
    Up(s, |taps|, channels, (x: Frame, k: nat) =>
      if k < |taps| && |taps[k]| == channels then Scale(x, taps[k]) else Silence(channels))
  }

  predicate TapsWide(taps: seq<seq<int>>, channels: nat) {
    forall j :: 0 <= j < |taps| ==> |taps[j]| == channels
  }

  /** One of the outputs: the signal times one tap plus the shifted signal times the tap one stride later. */
  function PhaseFilter(taps: seq<seq<int>>, channels: nat, s: nat, x: seq<Frame>, p: nat): (y: seq<Frame>)
    requires p < s && |taps| == 2 * s && TapsWide(taps, channels)
    ensures |y| == |x|
  {
    var shifted := ([Silence(channels)] + x)[..|x|];
    seq(|x|, i requires 0 <= i < |x| => Plus(Scale(x[i], taps[p]), Scale(shifted[i], taps[p + s])))
  }

  function PhaseFilters(taps: seq<seq<int>>, channels: nat, s: nat, x: seq<Frame>): (phases: seq<seq<Frame>>)
    requires |taps| == 2 * s && TapsWide(taps, channels)
    ensures |phases| == s && forall p :: 0 <= p < s ==> |phases[p]| == |x|
  {
    seq(s, p requires 0 <= p < s => PhaseFilter(taps, channels, s, x, p))
  }

  /** The upsampled latents: interleaved two-tap filters are the trimmed transposed conv (stride 2 in the codec). */
  lemma FiltersAreTransposed(taps: seq<seq<int>>, channels: nat, s: nat, x: seq<Frame>)
    requires 1 <= s && |taps| == 2 * s && TapsWide(taps, channels)
    ensures Interleave(PhaseFilters(taps, channels, s, x), |x|) == Trimmed(Depthwise(taps, channels, s), x)
  {
    DepthwiseFits(taps, channels, s);
    FiltersArePhases(taps, channels, s, x);
    AllInterleaved(Depthwise(taps, channels, s), x, PhaseFilters(taps, channels, s, x));
  }

  lemma DepthwiseFits(taps: seq<seq<int>>, channels: nat, s: nat)
    ensures TapsFit(Depthwise(taps, channels, s))
  {
    var up := Depthwise(taps, channels, s);
    forall x: Frame, k: nat
      ensures |up.tap(x, k)| == channels
    {
    }
  }

  lemma FiltersArePhases(taps: seq<seq<int>>, channels: nat, s: nat, x: seq<Frame>)
    requires 1 <= s && |taps| == 2 * s && TapsWide(taps, channels)
    ensures ArePhases(Depthwise(taps, channels, s), x, PhaseFilters(taps, channels, s, x))
  {
    forall p, i | 0 <= p < s && 0 <= i < |x|
      ensures PhaseFilters(taps, channels, s, x)[p][i] == PhaseAt(Depthwise(taps, channels, s), x, i, p)
    {
      FilterIsPhase(taps, channels, s, x, p, i);
    }
  }

  lemma FilterIsPhase(taps: seq<seq<int>>, channels: nat, s: nat, x: seq<Frame>, p: nat, i: nat)
    requires p < s && i < |x| && |taps| == 2 * s && TapsWide(taps, channels)
    ensures PhaseFilter(taps, channels, s, x, p)[i] == PhaseAt(Depthwise(taps, channels, s), x, i, p)
  {
    var shifted := ([Silence(channels)] + x)[..|x|];
    assert shifted[i] == if i == 0 then Silence(channels) else x[i - 1];
    SilentScale(taps[p + s], channels);
  }

  lemma SilentScale(tap: seq<int>, channels: nat)
    requires |tap| == channels
    ensures Scale(Silence(channels), tap) == Silence(channels)
  {
  }
}
