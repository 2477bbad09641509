/**
 The codec's SEANet decoder as the graph builder assembles it, its weights as
 the loader reads them, and the exact left context its span decode needs.
 */
module Mimi {
  import opened Common
  import opened Frames
  import opened CausalNet
  import opened Indexed
  import opened Seanet
  import opened Receptive
  import opened Polyphase
  import Streaming

  /** Upsampling by `rate` (weight flat, kernel 2 * rate), its bias, and one residual unit of kernels 3 and 1. */
  datatype Block = Block(
    rate: nat, weight: seq<int>, shape: Shape, bias: Frame -> Frame,
    conv1: seq<Frame> -> Frame, conv2: Frame -> Frame)

  datatype Weights = Weights(
    hidden: nat, inConv: seq<Frame> -> Frame, blocks: seq<Block>, last: nat, outConv: seq<Frame> -> Frame)

  const RATES: seq<nat> := [8, 6, 5, 4]
  const IN_REACH := 6
  const OUT_REACH := 2

  const SPAN := 64
  const CONTEXT := 16

  /** What the loader checks of each block: the kernel is twice the rate. */
  predicate Loaded(w: Weights) {
    |w.blocks| == 4 && forall i :: 0 <= i < 4 ==> w.blocks[i].rate == RATES[i] && BlockOk(w.blocks[i])
  }

  predicate BlockOk(b: Block) {
    b.rate >= 1 && b.shape.kernel == 2 * b.rate
  }

  // ---- the graph -----------------------------------------------------------------------------

  function Residual(elu: Frame -> Frame, b: Block, i: nat): Stage {
    Skip(Then(Point(elu),
         Then(Conv(TailResidual(i, 0, 0), 2, b.shape.co, b.conv1),
         Then(Point(elu), Point(b.conv2)))))
  }

  function Upsample(b: Block, i: nat): Stage {
    Transpose(Overlap(i), Dense(b.weight, b.shape, b.rate))
  }

  /** What the graph really runs for this stage: the repacked filters of the block, interleaved. */
  lemma UpsampleIsInterleaved(b: Block, i: nat, host: seq<seq<int>>, x: seq<Frame>)
    requires BlockOk(b) && |host| == b.rate
    requires forall ph :: 0 <= ph < b.rate ==> Packed(b.weight, b.shape, b.rate, ph, host[ph])
    ensures Shaped(Upsample(b, i))
    ensures Whole(Upsample(b, i), x) == Interleave(PhaseConvs(host, b.shape, x), |x|)
  {
    DenseFits(b.weight, b.shape, b.rate);
    RepackedIsTransposed(b.weight, b.shape, b.rate, host, x);
  }

  function BlockStage(elu: Frame -> Frame, b: Block, i: nat, rest: Stage): Stage {
    Then(Point(elu), Then(Upsample(b, i), Then(Point(b.bias), Then(Residual(elu, b, i), rest))))
  }

  /** The blocks from `i` on, then the output conv. */
  function Chain(elu: Frame -> Frame, w: Weights, i: nat): Stage
    decreases |w.blocks| - i
  {
    if i >= |w.blocks| then Then(Point(elu), Conv(TailFinal, OUT_REACH, w.last, w.outConv))
    else BlockStage(elu, w.blocks[i], i, Chain(elu, w, i + 1))
  }

  function Net(elu: Frame -> Frame, w: Weights): Stage {
    Then(Conv(TailDec0, IN_REACH, w.hidden, w.inConv), Chain(elu, w, 0))
  }

  ghost predicate BlocksOk(w: Weights) {
    forall i :: 0 <= i < |w.blocks| ==> BlockOk(w.blocks[i])
  }

  ghost predicate Good(st: Stage) {
    Shaped(st) && Finite(st)
  }

  lemma BothGood(first: Stage, next: Stage)
    requires Good(first) && Good(next)
    ensures Good(Then(first, next))
    ensures SameRate(first) && SameRate(next) ==> SameRate(Then(first, next))
  {
  }

  lemma ResidualGood(elu: Frame -> Frame, b: Block, i: nat)
    ensures Good(Residual(elu, b, i))
  {
    var conv, last := Conv(TailResidual(i, 0, 0), 2, b.shape.co, b.conv1), Then(Point(elu), Point(b.conv2));
    BothGood(Point(elu), Point(b.conv2));
    BothGood(conv, last);
    BothGood(Point(elu), Then(conv, last));
  }

  lemma BlockGood(elu: Frame -> Frame, b: Block, i: nat, rest: Stage)
    requires BlockOk(b) && Good(rest)
    ensures Good(BlockStage(elu, b, i, rest))
  {
    var unit := Then(Residual(elu, b, i), rest);
    ResidualGood(elu, b, i);
    DenseFits(b.weight, b.shape, b.rate);
    BothGood(Residual(elu, b, i), rest);
    BothGood(Point(b.bias), unit);
    BothGood(Upsample(b, i), Then(Point(b.bias), unit));
    BothGood(Point(elu), Then(Upsample(b, i), Then(Point(b.bias), unit)));
  }

  lemma {:induction false} ChainGood(elu: Frame -> Frame, w: Weights, i: nat)
    requires BlocksOk(w)
    ensures Good(Chain(elu, w, i))
    decreases |w.blocks| - i
  {
    if i < |w.blocks| {
      ChainGood(elu, w, i + 1);
      BlockGood(elu, w.blocks[i], i, Chain(elu, w, i + 1));
    }
  }

  // ---- what the graph computes, sample by sample ----------------------------------------------

  /** Sample `t` of the upsampling of `z`: the current frame's taps and the ones a rate later of the frame before. */
  function UpsampleAt(b: Block, z: seq<Frame>, t: nat): Frame
    requires b.rate >= 1 && t < |z| * b.rate
  {
    PhaseOf(|z|, b.rate, t);
    var i, p := t / b.rate, t % b.rate;
    seq(b.shape.co, c requires 0 <= c < b.shape.co =>
      Dot(b.weight, b.shape, z[i], c, p, b.shape.ci)
      + if i == 0 then 0 else Dot(b.weight, b.shape, z[i - 1], c, p + b.rate, b.shape.ci))
  }

  /** The biased upsampling of an activated signal. */
  function Upsampled(b: Block, z: seq<Frame>): (y: seq<Frame>)
    requires b.rate >= 1
    ensures |y| == |z| * b.rate
  {
    Area(|z|, b.rate);
    seq(|z| * b.rate, t requires 0 <= t < |z| * b.rate => b.bias(UpsampleAt(b, z, t)))
  }

  /** A block: the input activated, upsampled and biased, plus the branch's two convs, each after an activation. */
  function BlockOut(elu: Frame -> Frame, b: Block, x: seq<Frame>): (y: seq<Frame>)
    requires b.rate >= 1
    ensures |y| == |x| * b.rate
  {
    var up := Upsampled(b, Each(elu, x));
    Added(up, Each(b.conv2, Each(elu, Convolved(2, b.shape.co, b.conv1, Each(elu, up)))))
  }

  /** The blocks from `i` on, then the activated output conv over three frames. */
  function ChainOut(elu: Frame -> Frame, w: Weights, i: nat, x: seq<Frame>): seq<Frame>
    requires BlocksOk(w)
    decreases |w.blocks| - i
  {
    if i >= |w.blocks| then Convolved(2, w.last, w.outConv, Each(elu, x))
    else ChainOut(elu, w, i + 1, BlockOut(elu, w.blocks[i], x))
  }

  lemma FirstPoint(f: Frame -> Frame, next: Stage, x: seq<Frame>)
    requires Shaped(next)
    ensures Shaped(Then(Point(f), next)) && Whole(Then(Point(f), next), x) == Whole(next, Each(f, x))
  {
    EachIs(f, x);
  }

  lemma ResidualAdds(elu: Frame -> Frame, b: Block, i: nat, x: seq<Frame>)
    ensures Shaped(Residual(elu, b, i))
    ensures Whole(Residual(elu, b, i), x)
         == Added(x, Each(b.conv2, Each(elu, Convolved(2, b.shape.co, b.conv1, Each(elu, x)))))
  {
    var slot := TailResidual(i, 0, 0);
    var last := Then(Point(elu), Point(b.conv2));
    var body := Then(Point(elu), Then(Conv(slot, 2, b.shape.co, b.conv1), last));
    var x1 := Each(elu, x);
    var x2 := Convolved(2, b.shape.co, b.conv1, x1);
    EachIs(b.conv2, Each(elu, x2));
    FirstPoint(elu, Point(b.conv2), x2);
    ConvolvedIs(slot, 2, b.shape.co, b.conv1, x1);
    assert Whole(Then(Conv(slot, 2, b.shape.co, b.conv1), last), x1) == Whole(last, x2);
    FirstPoint(elu, Then(Conv(slot, 2, b.shape.co, b.conv1), last), x);
    ResidualGood(elu, b, i);
    SkipAdds(body, Streaming.CLEARED, x);
  }

  lemma TapChannel(b: Block, x: Frame, k: nat, c: nat)
    requires c < b.shape.co
    ensures Channel(Dense(b.weight, b.shape, b.rate).tap(x, k), c) == Dot(b.weight, b.shape, x, c, k, b.shape.ci)
  {
  }

  lemma UpsampleChannel(b: Block, z: seq<Frame>, t: nat, c: nat)
    requires BlockOk(b) && t < |z| * b.rate && c < b.shape.co
    ensures OverlapAt(Dense(b.weight, b.shape, b.rate), z, t)[c] == UpsampleAt(b, z, t)[c]
  {
    PhaseOf(|z|, b.rate, t);
    var i, p := t / b.rate, t % b.rate;
    TapChannel(b, z[i], p, c);
    if i >= 1 {
      TapChannel(b, z[i - 1], p + b.rate, c);
    }
  }

  lemma UpsampleSample(b: Block, z: seq<Frame>, t: nat)
    requires BlockOk(b) && t < |z| * b.rate
    ensures OverlapAt(Dense(b.weight, b.shape, b.rate), z, t) == UpsampleAt(b, z, t)
  {
    forall c: nat | c < b.shape.co
      ensures OverlapAt(Dense(b.weight, b.shape, b.rate), z, t)[c] == UpsampleAt(b, z, t)[c]
    {
      UpsampleChannel(b, z, t, c);
    }
  }

  lemma UpsampleIs(b: Block, i: nat, z: seq<Frame>)
    requires BlockOk(b)
    ensures Shaped(Upsample(b, i)) && Each(b.bias, Whole(Upsample(b, i), z)) == Upsampled(b, z)
  {
    DenseFits(b.weight, b.shape, b.rate);
    OverlappedIs(Overlap(i), Dense(b.weight, b.shape, b.rate), z);
    forall t: nat | t < |z| * b.rate
      ensures Overlapped(Dense(b.weight, b.shape, b.rate), z)[t] == UpsampleAt(b, z, t)
    {
      UpsampleSample(b, z, t);
    }
  }

  /** A block of the graph gives the rest what the block's samples are. */
  lemma BlockIs(elu: Frame -> Frame, b: Block, i: nat, rest: Stage, x: seq<Frame>)
    requires BlockOk(b) && Shaped(rest)
    ensures Shaped(BlockStage(elu, b, i, rest))
    ensures Whole(BlockStage(elu, b, i, rest), x) == Whole(rest, BlockOut(elu, b, x))
  {
    var z := Each(elu, x);
    var up := Upsampled(b, z);
    UpsampleIs(b, i, z);
    ResidualAdds(elu, b, i, up);
    var unit := Then(Residual(elu, b, i), rest);
    assert Whole(unit, up) == Whole(rest, Whole(Residual(elu, b, i), up));
    FirstPoint(b.bias, unit, Whole(Upsample(b, i), z));
    FirstPoint(elu, Then(Upsample(b, i), Then(Point(b.bias), unit)), x);
  }

  lemma {:induction false} ChainIs(elu: Frame -> Frame, w: Weights, i: nat, x: seq<Frame>)
    requires BlocksOk(w)
    ensures Shaped(Chain(elu, w, i)) && Whole(Chain(elu, w, i), x) == ChainOut(elu, w, i, x)
    decreases |w.blocks| - i
  {
    if i >= |w.blocks| {
      ConvolvedIs(TailFinal, OUT_REACH, w.last, w.outConv, Each(elu, x));
      FirstPoint(elu, Conv(TailFinal, OUT_REACH, w.last, w.outConv), x);
    } else {
      ChainIs(elu, w, i + 1, BlockOut(elu, w.blocks[i], x));
      BlockIs(elu, w.blocks[i], i, Chain(elu, w, i + 1), x);
    }
  }

  /** The graph, sample by sample: the input conv over seven latents, the blocks in order, the output conv. */
  lemma NetIs(elu: Frame -> Frame, w: Weights, lat: seq<Frame>)
    requires BlocksOk(w)
    ensures Shaped(Net(elu, w))
    ensures Whole(Net(elu, w), lat) == ChainOut(elu, w, 0, Convolved(6, w.hidden, w.inConv, lat))
  {
    ConvolvedIs(TailDec0, IN_REACH, w.hidden, w.inConv, lat);
    ChainIs(elu, w, 0, Convolved(6, w.hidden, w.inConv, lat));
  }

  /** Sample `t` of a block, channel `c`: the biased upsampling there, plus the residual branch's window over it. */
  lemma BlockSample(elu: Frame -> Frame, b: Block, x: seq<Frame>, t: nat, c: nat)
    requires b.rate >= 1 && t < |x| * b.rate
    ensures var up := Upsampled(b, Each(elu, x));
      var y := BlockOut(elu, b, x)[t];
      && up[t] == b.bias(UpsampleAt(b, Each(elu, x), t)) && |y| == |up[t]|
      && (c < |y| ==>
            y[c] - up[t][c] == Channel(b.conv2(elu(b.conv1(WindowAt(Each(elu, up), t, 2, b.shape.co)))), c))
  {
  }

  /** Signals with the same activation decode alike, entering any block or the output conv. */
  lemma SameImage(elu: Frame -> Frame, w: Weights, i: nat, a: seq<Frame>, b: seq<Frame>)
    requires BlocksOk(w) && Each(elu, a) == Each(elu, b)
    ensures Shaped(Chain(elu, w, i)) && Whole(Chain(elu, w, i), a) == Whole(Chain(elu, w, i), b)
  {
    ChainIs(elu, w, i, a);
    ChainIs(elu, w, i, b);
  }

  /** Clips whose input-conv outputs have the same activation decode to the same samples. */
  lemma SameImageDecodes(elu: Frame -> Frame, w: Weights, a: seq<Frame>, b: seq<Frame>)
    requires BlocksOk(w)
    requires Each(elu, Convolved(6, w.hidden, w.inConv, a)) == Each(elu, Convolved(6, w.hidden, w.inConv, b))
    ensures Shaped(Net(elu, w)) && Whole(Net(elu, w), a) == Whole(Net(elu, w), b)
  {
    NetIs(elu, w, a);
    NetIs(elu, w, b);
  }

  // ---- rate and warm-up of a chain of blocks ---------------------------------------------------

  /** Samples per frame entering block `i`. */
  function Factor(w: Weights, i: nat): nat
    decreases |w.blocks| - i
  {
    if i >= |w.blocks| then 1 else Times(w.blocks[i].rate, Factor(w, i + 1))
  }

  /** Samples of history from block `i` on: one rate from the transposed conv and two frames from the residual. */
  function History(w: Weights, i: nat): nat
    decreases |w.blocks| - i
  {
    if i >= |w.blocks| then OUT_REACH
    else Times(w.blocks[i].rate, Factor(w, i + 1)) + Times(2, Factor(w, i + 1)) + History(w, i + 1)
  }

  lemma {:induction false} TimesTimes(n: nat, a: nat, b: nat)
    ensures Times(Times(n, a), b) == Times(n, Times(a, b))
  {
    if n > 0 {
      TimesTimes(n - 1, a, b);
      TimesAdd(b, Times(n - 1, a), a, Times(n, a));
    }
  }

  lemma BlockSamples(elu: Frame -> Frame, b: Block, i: nat, rest: Stage, n: nat)
    ensures Samples(BlockStage(elu, b, i, rest), n) == Samples(rest, Times(n, b.rate))
  {
    var unit, m := Then(Residual(elu, b, i), rest), Times(n, b.rate);
    assert Samples(unit, m) == Samples(rest, m);
    assert Samples(Then(Point(b.bias), unit), m) == Samples(unit, m);
    assert Samples(Upsample(b, i), n) == m;
    assert Samples(Then(Upsample(b, i), Then(Point(b.bias), unit)), n) == Samples(Then(Point(b.bias), unit), m);
  }

  lemma {:induction false} ChainSamples(elu: Frame -> Frame, w: Weights, i: nat, n: nat)
    ensures Samples(Chain(elu, w, i), n) == Times(n, Factor(w, i))
    decreases |w.blocks| - i
  {
    if i >= |w.blocks| {
      TimesIsProduct(n, 1);
    } else {
      var b := w.blocks[i];
      BlockSamples(elu, b, i, Chain(elu, w, i + 1), n);
      ChainSamples(elu, w, i + 1, Times(n, b.rate));
      TimesTimes(n, b.rate, Factor(w, i + 1));
    }
  }

  lemma PointAddsNothing(f: Frame -> Frame, next: Stage)
    ensures Warm(Then(Point(f), next)) == Warm(next)
  {
    SamplesAdd(next, 0, 0, 0);
  }

  lemma ResidualWarm(elu: Frame -> Frame, b: Block, i: nat)
    ensures Warm(Residual(elu, b, i)) == 2
  {
    var last := Then(Point(elu), Point(b.conv2));
    var inner := Then(Conv(TailResidual(i, 0, 0), 2, b.shape.co, b.conv1), last);
    PointAddsNothing(elu, Point(b.conv2));
    assert Samples(last, 2) == 2;
    assert Warm(inner) == 2;
    PointAddsNothing(elu, inner);
  }

  /** A block's own warm-up, in samples of the rest: one rate from the transposed conv, two frames from the residual. */
  lemma BlockWarm(elu: Frame -> Frame, b: Block, i: nat, rest: Stage)
    requires BlockOk(b)
    ensures Warm(BlockStage(elu, b, i, rest)) == Samples(rest, b.rate) + Samples(rest, 2) + Warm(rest)
  {
    var unit := Then(Residual(elu, b, i), rest);
    var biased := Then(Point(b.bias), unit);
    ResidualWarm(elu, b, i);
    assert Warm(unit) == Samples(rest, 2) + Warm(rest);
    PointAddsNothing(b.bias, unit);
    assert Samples(unit, b.rate) == Samples(rest, b.rate);
    assert Samples(biased, b.rate) == Samples(unit, b.rate);
    assert Warm(Then(Upsample(b, i), biased)) == Samples(biased, b.rate) + Warm(biased);
    PointAddsNothing(elu, Then(Upsample(b, i), biased));
  }

  lemma {:induction false} ChainWarm(elu: Frame -> Frame, w: Weights, i: nat)
    requires BlocksOk(w)
    ensures Warm(Chain(elu, w, i)) == History(w, i)
    decreases |w.blocks| - i
  {
    if i >= |w.blocks| {
      PointAddsNothing(elu, Conv(TailFinal, OUT_REACH, w.last, w.outConv));
    } else {
      ChainWarm(elu, w, i + 1);
      BlockWarm(elu, w.blocks[i], i, Chain(elu, w, i + 1));
      ChainSamples(elu, w, i + 1, w.blocks[i].rate);
      ChainSamples(elu, w, i + 1, 2);
    }
  }

  // ---- the codec's own shape ---------------------------------------------------------------------

  lemma Factors(w: Weights)
    requires Loaded(w)
    ensures Factor(w, 4) == 1 && Factor(w, 3) == 4 && Factor(w, 2) == 20 && Factor(w, 1) == 120 && Factor(w, 0) == 960
  {
    TimesIsProduct(4, 1);
    TimesIsProduct(5, 4);
    TimesIsProduct(6, 20);
    TimesIsProduct(8, 120);
  }

  lemma Histories(w: Weights)
    requires Loaded(w)
    ensures History(w, 0) == 1396
  {
    Factors(w);
    TimesIsProduct(2, 1);
    TimesIsProduct(2, 4);
    TimesIsProduct(2, 20);
    TimesIsProduct(2, 120);
    assert History(w, 4) == 2;
    assert History(w, 3) == 8;
    assert History(w, 2) == 36;
    assert History(w, 1) == 196;
  }

  /** 960 samples per latent, and 7156 samples of warm-up. */
  lemma NetNumbers(elu: Frame -> Frame, w: Weights, n: nat)
    requires Loaded(w)
    ensures Shaped(Net(elu, w)) && Finite(Net(elu, w))
    ensures Samples(Net(elu, w), n) == 960 * n
    ensures Warm(Net(elu, w)) == 7156
  {
    ChainGood(elu, w, 0);
    ChainSamples(elu, w, 0, n);
    ChainSamples(elu, w, 0, IN_REACH);
    ChainWarm(elu, w, 0);
    Factors(w);
    Histories(w);
    TimesIsProduct(n, 960);
    TimesIsProduct(6, 960);
  }

  // ---- weights that are all one --------------------------------------------------------------------

  function SumOf(x: seq<Frame>): Frame {
    if Calm(x) then [Total(x)] else [0]
  }

  function Ones(n: nat): seq<int> {
    seq(n, _ => 1)
  }

  function PlainBlock(rate: nat): Block {
    Block(rate, Ones(2 * rate), Shape(1, 1, 2 * rate), x => x, x => SumOf(x), x => x)
  }

  function PlainWeights(): Weights {
    Weights(1, x => SumOf(x), seq(4, i requires 0 <= i < 4 => PlainBlock(RATES[i])), 1, x => SumOf(x))
  }

  lemma OnesDense(rate: nat)
    ensures OnesUp(Dense(Ones(2 * rate), Shape(1, 1, 2 * rate), rate))
  {
    var f, sh := Ones(2 * rate), Shape(1, 1, 2 * rate);
    forall x: Frame, j: nat | Mono(x) && j < 2 * rate
      ensures Dense(f, sh, rate).tap(x, j) == x
    {
      assert WeightAt(sh, 0, 0, j) == j;
      assert Dot(f, sh, x, 0, j, 0) == 0;
      assert Dot(f, sh, x, 0, j, 1) == x[0];
    }
  }

  lemma BothPlain(first: Stage, next: Stage)
    requires Plain(first) && Plain(next)
    ensures Plain(Then(first, next))
  {
  }

  lemma BlockPlain(elu: Frame -> Frame, rate: nat, i: nat, rest: Stage)
    requires (forall x: Frame :: Mono(x) ==> elu(x) == x) && Plain(rest)
    ensures Plain(BlockStage(elu, PlainBlock(rate), i, rest))
  {
    var b := PlainBlock(rate);
    var inner := Then(Point(elu), Point(b.conv2));
    BothPlain(Point(elu), Point(b.conv2));
    BothPlain(Conv(TailResidual(i, 0, 0), 2, b.shape.co, b.conv1), inner);
    BothPlain(Point(elu), Then(Conv(TailResidual(i, 0, 0), 2, b.shape.co, b.conv1), inner));
    OnesDense(rate);
    BothPlain(Residual(elu, b, i), rest);
    BothPlain(Point(b.bias), Then(Residual(elu, b, i), rest));
    BothPlain(Upsample(b, i), Then(Point(b.bias), Then(Residual(elu, b, i), rest)));
  }

  lemma {:induction false} ChainPlain(elu: Frame -> Frame, i: nat)
    requires forall x: Frame :: Mono(x) ==> elu(x) == x
    ensures Plain(Chain(elu, PlainWeights(), i))
    decreases 4 - i
  {
    if i < 4 {
      ChainPlain(elu, i + 1);
      BlockPlain(elu, RATES[i], i, Chain(elu, PlainWeights(), i + 1));
    }
  }

  // ---- the context bound ------------------------------------------------------------------------------

  /** Every span length decodes every clip right with these weights and this context. */
  ghost predicate Exact(elu: Frame -> Frame, w: Weights, ctx: nat) {
    Shaped(Net(elu, w)) && AlwaysWhole(Net(elu, w), ctx)
  }

  /**
   Eight latents of context are exactly what the span decode needs: with eight
   or more every clip and every span length decodes as the whole clip does,
   whatever the weights; with fewer there are weights for which it does not.
   The activation leaves values that are not negative alone, as ELU does.
   */
  lemma EightLatents(elu: Frame -> Frame, ctx: nat)
    requires forall x: Frame :: Mono(x) ==> elu(x) == x
    ensures (forall w: Weights :: Loaded(w) ==> Exact(elu, w, ctx)) <==> ctx >= 8
  {
    if ctx >= 8 {
      forall w: Weights | Loaded(w)
        ensures Exact(elu, w, ctx)
      {
        EnoughContext(elu, w, ctx);
      }
    } else {
      var w := PlainWeights();
      NetNumbers(elu, w, ctx);
      ChainPlain(elu, 0);
      ExactContext(Net(elu, w), ctx);
      assert Loaded(w) && !Exact(elu, w, ctx);
    }
  }

  lemma EnoughContext(elu: Frame -> Frame, w: Weights, ctx: nat)
    requires Loaded(w) && ctx >= 8
    ensures Exact(elu, w, ctx)
  {
    NetNumbers(elu, w, ctx);
    forall lat: seq<Frame>, span: nat | span > 0
      ensures InSpans(Net(elu, w), lat, span, ctx) == Whole(Net(elu, w), lat)
    {
      InSpansIsWhole(Net(elu, w), lat, span, ctx);
    }
  }

  /** The decode of `t` codec frames (two latents each) with the default span and context. */
  method DecodeLatents(elu: Frame -> Frame, w: Weights, lat: seq<Frame>, t: nat) returns (pcm: array<Frame>)
    requires Loaded(w) && |lat| == 2 * t
    ensures Shaped(Net(elu, w)) && pcm[..] == Whole(Net(elu, w), lat) && pcm.Length == 1920 * t
    ensures pcm[..] == ChainOut(elu, w, 0, Convolved(6, w.hidden, w.inConv, lat))
  {
    NetIs(elu, w, lat);
    NetNumbers(elu, w, CONTEXT);
    NetNumbers(elu, w, 2 * t);
    pcm := Decode(Net(elu, w), lat, Max(2, SPAN * 2), CONTEXT);
  }
}
