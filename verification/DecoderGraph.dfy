/**
 The decoder graph as the builder assembles it: quantiser lookup, pre-conv,
 pre-transformer, two upsample blocks, the decoder blocks and the final conv,
 each carried buffer under the name the builder gives it.
 */
module DecoderGraph {
  import opened Common
  import opened Frames
  import opened Attention
  import opened CausalNet
  import opened Indexed
  import opened Streaming
  import opened Vocoder

  /** A causal convolution as loaded: `reach` is (kernel - 1) * dilation. */
  datatype Kernel = Kernel(reach: nat, channels: nat, g: seq<Frame> -> Frame)

  datatype UpsampleBlock = UpsampleBlock(up: Up, depthwise: Kernel, pointwise: Frame -> Frame)

  datatype ResidualUnit = ResidualUnit(act1: Frame -> Frame, conv1: Kernel, act2: Frame -> Frame, conv2: Kernel)

  datatype DecoderBlock = DecoderBlock(snake: Frame -> Frame, up: Up, bias: Frame -> Frame, units: seq<ResidualUnit>)

  datatype Model = Model(
    quantiser: Frame -> Frame,
    preConv: Kernel,
    inputProj: Frame -> Frame,
    preTransformer: seq<Layer>,
    outputProj: Frame -> Frame,
    upsample: seq<UpsampleBlock>,
    dec0: Kernel,
    blocks: seq<DecoderBlock>,
    finalSnake: Frame -> Frame,
    finalConv: Kernel,
    tanh: Frame -> Frame)

  /** The shapes the loader's weights have: kernel 2 * rate per decoder block, kernel 2 at stride 2 per upsample. */
  ghost predicate Loaded(m: Model) {
    && |m.upsample| == 2
    && (forall i :: 0 <= i < |m.upsample| ==> UpsampleOk(m.upsample[i]))
    && BlocksOk(m.blocks)
    && m.preTransformer != []
  }

  ghost predicate UpsampleOk(b: UpsampleBlock) {
    b.up.stride == 2 == b.up.kernel && TapsFit(b.up) && b.depthwise.reach == 6
  }

  ghost predicate BlockOk(b: DecoderBlock) {
    1 <= b.up.stride && b.up.kernel == 2 * b.up.stride && TapsFit(b.up) && |b.units| == 3
  }

  ghost predicate BlocksOk(blocks: seq<DecoderBlock>) {
    forall i :: 0 <= i < |blocks| ==> BlockOk(blocks[i])
  }

  /** A convolution with no left context gets no carried tail. */
  function ConvStage(slot: Slot, k: Kernel): Stage {
    if k.reach > 0 then Conv(slot, k.reach, k.channels, k.g) else Point(f => k.g([f]))
  }

  function UnitStage(u: ResidualUnit, block: nat, unit: nat): Stage {
    Skip(Then(Point(u.act1),
         Then(ConvStage(TailResidual(block, unit, 1), u.conv1),
         Then(Point(u.act2), ConvStage(TailResidual(block, unit, 2), u.conv2)))))
  }

  function BlockStage(b: DecoderBlock, block: nat): Stage
    requires BlockOk(b)
  {
    Then(Point(b.snake), Then(Transpose(Overlap(block), b.up), Then(Point(b.bias),
      Then(UnitStage(b.units[0], block, 0),
      Then(UnitStage(b.units[1], block, 1), UnitStage(b.units[2], block, 2))))))
  }

  function BlockStages(blocks: seq<DecoderBlock>, block: nat): Stage
    requires BlocksOk(blocks)
  {
    if blocks == [] then Point(f => f)
    else Then(BlockStage(blocks[0], block), BlockStages(blocks[1..], block + 1))
  }

  function AttentionStages(layers: seq<Layer>, index: nat): Stage {
    if layers == [] then Point(f => f)
    else Then(Attend(index, layers[0]), AttentionStages(layers[1..], index + 1))
  }

  function UpsampleStage(b: UpsampleBlock, block: nat): Stage {
    Then(Spread(b.up), Skip(Then(ConvStage(TailUpsample(block), b.depthwise), Point(b.pointwise))))
  }

  function Front(m: Model): Stage {
    Then(Point(m.quantiser), Then(ConvStage(TailPreConv, m.preConv), Then(Point(m.inputProj),
      Then(AttentionStages(m.preTransformer, 0), Point(m.outputProj)))))
  }

  /** The output end: snake, conv and tanh. */
  function Output(m: Model): Stage {
    Then(Point(m.finalSnake), Then(ConvStage(TailFinal, m.finalConv), Point(m.tanh)))
  }

  /** The decoder proper, behind its first conv. */
  function Body(m: Model): Stage
    requires Loaded(m)
  {
    Then(ConvStage(TailDec0, m.dec0), Then(BlockStages(m.blocks, 1), Output(m)))
  }

  function Back(m: Model): Stage
    requires Loaded(m)
  {
    Then(UpsampleStage(m.upsample[0], 0), Then(UpsampleStage(m.upsample[1], 1), Body(m)))
  }

  function Graph(m: Model): Stage
    requires Loaded(m)
  {
    Then(Front(m), Back(m))
  }

  // ---- the graph can stream -------------------------------------------------

  /** What a stage touches: its tails are among `tails`, its overlaps among `overlaps`, its layers among `ls`. */
  ghost predicate Touches(st: Stage, layers: nat, tails: iset<Slot>, overlaps: iset<Slot>, ls: iset<nat>) {
    && Streams(st, layers)
    && (forall s :: s in TailSlots(st) ==> s in tails)
    && (forall s :: s in OverlapSlots(st) ==> s in overlaps)
    && (forall l :: l in Layers(st) ==> l in ls)
  }

  lemma {:induction false} PointTouches(f: Frame -> Frame, layers: nat)
    ensures Touches(Point(f), layers, iset{}, iset{}, iset{}) && SameRate(Point(f))
  {
  }

  lemma {:induction false} ConvTouches(slot: Slot, k: Kernel, layers: nat)
    ensures Touches(ConvStage(slot, k), layers, iset{slot}, iset{}, iset{}) && SameRate(ConvStage(slot, k))
  {
  }

  lemma {:induction false} ThenTouches(first: Stage, next: Stage, layers: nat,
                    t1: iset<Slot>, o1: iset<Slot>, l1: iset<nat>, t2: iset<Slot>, o2: iset<Slot>, l2: iset<nat>)
    requires Touches(first, layers, t1, o1, l1) && Touches(next, layers, t2, o2, l2)
    requires t1 !! t2 && o1 !! o2 && l1 !! l2
    requires l2 == iset{} || SameRate(first)
    ensures Touches(Then(first, next), layers, t1 + t2, o1 + o2, l1 + l2)
    ensures SameRate(first) && SameRate(next) ==> SameRate(Then(first, next))
  {
    if Layers(next) != {} {
      var l :| l in Layers(next);
      assert l in l2;
    }
  }

  lemma {:induction false} SkipTouches(body: Stage, layers: nat, t: iset<Slot>)
    requires Touches(body, layers, t, iset{}, iset{}) && SameRate(body)
    ensures Touches(Skip(body), layers, t, iset{}, iset{}) && SameRate(Skip(body))
  {
  }

  lemma {:induction false} PointFirst(f: Frame -> Frame, next: Stage, layers: nat,
                                      t: iset<Slot>, o: iset<Slot>, l: iset<nat>)
    requires Touches(next, layers, t, o, l)
    ensures Touches(Then(Point(f), next), layers, t, o, l) && (SameRate(next) ==> SameRate(Then(Point(f), next)))
  {
    PointTouches(f, layers);
    ThenTouches(Point(f), next, layers, iset{}, iset{}, iset{}, t, o, l);
  }

  lemma {:induction false} ConvFirst(slot: Slot, k: Kernel, next: Stage, layers: nat,
                                     t: iset<Slot>, o: iset<Slot>, l: iset<nat>)
    requires Touches(next, layers, t, o, l) && slot !in t
    ensures Touches(Then(ConvStage(slot, k), next), layers, iset{slot} + t, o, l)
    ensures SameRate(next) ==> SameRate(Then(ConvStage(slot, k), next))
  {
    ConvTouches(slot, k, layers);
    ThenTouches(ConvStage(slot, k), next, layers, iset{slot}, iset{}, iset{}, t, o, l);
  }

  ghost function UnitTails(block: nat, unit: nat): iset<Slot> {
    iset{TailResidual(block, unit, 1), TailResidual(block, unit, 2)}
  }

  lemma {:induction false} UnitTouches(u: ResidualUnit, block: nat, unit: nat, layers: nat)
    ensures var st := UnitStage(u, block, unit);
      Touches(st, layers, UnitTails(block, unit), iset{}, iset{}) && SameRate(st)
  {
    var s1, s2 := TailResidual(block, unit, 1), TailResidual(block, unit, 2);
    ConvTouches(s2, u.conv2, layers);
    var c := Then(Point(u.act2), ConvStage(s2, u.conv2));
    PointFirst(u.act2, ConvStage(s2, u.conv2), layers, iset{s2}, iset{}, iset{});
    ConvFirst(s1, u.conv1, c, layers, iset{s2}, iset{}, iset{});
    assert iset{s1} + iset{s2} == UnitTails(block, unit);
    PointFirst(u.act1, Then(ConvStage(s1, u.conv1), c), layers, UnitTails(block, unit), iset{}, iset{});
    SkipTouches(Then(Point(u.act1), Then(ConvStage(s1, u.conv1), c)), layers, UnitTails(block, unit));
  }

  ghost function BlockTails(block: nat): iset<Slot> {
    UnitTails(block, 0) + (UnitTails(block, 1) + UnitTails(block, 2))
  }

  lemma {:induction false} BlockTouches(b: DecoderBlock, block: nat, layers: nat)
    requires BlockOk(b)
    ensures Touches(BlockStage(b, block), layers, BlockTails(block), iset{Overlap(block)}, iset{})
  {
    var u0, u1, u2 := UnitStage(b.units[0], block, 0), UnitStage(b.units[1], block, 1), UnitStage(b.units[2], block, 2);
    UnitTouches(b.units[0], block, 0, layers);
    UnitTouches(b.units[1], block, 1, layers);
    UnitTouches(b.units[2], block, 2, layers);
    var t1, t2 := UnitTails(block, 1), UnitTails(block, 2);
    ThenTouches(u1, u2, layers, t1, iset{}, iset{}, t2, iset{}, iset{});
    ThenTouches(u0, Then(u1, u2), layers, UnitTails(block, 0), iset{}, iset{}, t1 + t2, iset{}, iset{});
    var units := Then(u0, Then(u1, u2));
    var biased := Then(Point(b.bias), units);
    PointFirst(b.bias, units, layers, BlockTails(block), iset{}, iset{});
    var t := Transpose(Overlap(block), b.up);
    assert Touches(t, layers, iset{}, iset{Overlap(block)}, iset{});
    ThenTouches(t, biased, layers, iset{}, iset{Overlap(block)}, iset{}, BlockTails(block), iset{}, iset{});
    PointFirst(b.snake, Then(t, biased), layers, BlockTails(block), iset{Overlap(block)}, iset{});
  }

  ghost function ResidualTailsFrom(block: nat): iset<Slot> {
    iset s: Slot | s.TailResidual? && s.block >= block
  }

  ghost function OverlapsFrom(block: nat): iset<Slot> {
    iset s: Slot | s.Overlap? && s.block >= block
  }

  lemma {:induction false} BlocksTouch(blocks: seq<DecoderBlock>, block: nat, layers: nat)
    requires BlocksOk(blocks)
    ensures Touches(BlockStages(blocks, block), layers, ResidualTailsFrom(block), OverlapsFrom(block), iset{})
  {
    if blocks == [] {
      PointTouches(f => f, layers);
    } else {
      BlockTouches(blocks[0], block, layers);
      BlocksTouch(blocks[1..], block + 1, layers);
      ThenTouches(BlockStage(blocks[0], block), BlockStages(blocks[1..], block + 1), layers,
                  BlockTails(block), iset{Overlap(block)}, iset{},
                  ResidualTailsFrom(block + 1), OverlapsFrom(block + 1), iset{});
    }
  }

  predicate AtLeast(l: nat, index: nat) {
    l >= index
  }

  ghost function LayersFrom(index: nat): iset<nat> {
    iset l: nat | AtLeast(l, index)
  }

  lemma {:induction false} AttentionTouches(ls: seq<Layer>, index: nat, layers: nat)
    requires index + |ls| <= layers
    ensures Touches(AttentionStages(ls, index), layers, iset{}, iset{}, LayersFrom(index))
    ensures SameRate(AttentionStages(ls, index))
  {
    if ls != [] {
      AttentionTouches(ls[1..], index + 1, layers);
      ThenTouches(Attend(index, ls[0]), AttentionStages(ls[1..], index + 1), layers,
                  iset{}, iset{}, iset{index}, iset{}, iset{}, LayersFrom(index + 1));
    }
  }

  lemma {:induction false} UpsampleTouches(b: UpsampleBlock, block: nat, layers: nat)
    requires UpsampleOk(b)
    ensures Touches(UpsampleStage(b, block), layers, iset{TailUpsample(block)}, iset{}, iset{})
  {
    var slot := TailUpsample(block);
    PointTouches(b.pointwise, layers);
    var inner := Then(ConvStage(slot, b.depthwise), Point(b.pointwise));
    ConvFirst(slot, b.depthwise, Point(b.pointwise), layers, iset{}, iset{}, iset{});
    assert iset{slot} + iset{} == iset{slot};
    SkipTouches(inner, layers, iset{slot});
    assert Touches(Spread(b.up), layers, iset{}, iset{}, iset{});
    ThenTouches(Spread(b.up), Skip(inner), layers, iset{}, iset{}, iset{}, iset{slot}, iset{}, iset{});
  }

  ghost function AllButPreConv(): iset<Slot> {
    iset s: Slot | !s.TailPreConv?
  }

  lemma {:induction false} FrontTouches(m: Model)
    ensures Touches(Front(m), |m.preTransformer|, iset{TailPreConv}, iset{}, LayersFrom(0))
  {
    var layers := |m.preTransformer|;
    var all := LayersFrom(0);
    var attention := AttentionStages(m.preTransformer, 0);
    AttentionTouches(m.preTransformer, 0, layers);
    PointTouches(m.outputProj, layers);
    ThenTouches(attention, Point(m.outputProj), layers, iset{}, iset{}, all, iset{}, iset{}, iset{});
    var a := Then(attention, Point(m.outputProj));
    PointFirst(m.inputProj, a, layers, iset{}, iset{}, all);
    ConvFirst(TailPreConv, m.preConv, Then(Point(m.inputProj), a), layers, iset{}, iset{}, all);
    assert iset{TailPreConv} + iset{} == iset{TailPreConv};
    PointFirst(m.quantiser, Then(ConvStage(TailPreConv, m.preConv), Then(Point(m.inputProj), a)), layers,
               iset{TailPreConv}, iset{}, all);
  }

  lemma OutputTouches(m: Model, layers: nat)
    ensures Touches(Output(m), layers, iset{TailFinal}, iset{}, iset{})
  {
    PointTouches(m.tanh, layers);
    ConvFirst(TailFinal, m.finalConv, Point(m.tanh), layers, iset{}, iset{}, iset{});
    assert iset{TailFinal} + iset{} == iset{TailFinal};
    var conv := Then(ConvStage(TailFinal, m.finalConv), Point(m.tanh));
    PointFirst(m.finalSnake, conv, layers, iset{TailFinal}, iset{}, iset{});
  }

  ghost function BodyTails(): iset<Slot> {
    iset{TailDec0} + (ResidualTailsFrom(1) + iset{TailFinal})
  }

  lemma BodyTouches(m: Model, layers: nat)
    requires Loaded(m)
    ensures Touches(Body(m), layers, BodyTails(), OverlapsFrom(1), iset{})
  {
    OutputTouches(m, layers);
    BlocksTouch(m.blocks, 1, layers);
    ThenTouches(BlockStages(m.blocks, 1), Output(m), layers, ResidualTailsFrom(1), OverlapsFrom(1), iset{},
                iset{TailFinal}, iset{}, iset{});
    assert OverlapsFrom(1) + iset{} == OverlapsFrom(1);
    ConvFirst(TailDec0, m.dec0, Then(BlockStages(m.blocks, 1), Output(m)), layers,
              ResidualTailsFrom(1) + iset{TailFinal}, OverlapsFrom(1), iset{});
  }

  lemma {:induction false} UpsampleFirst(b: UpsampleBlock, block: nat, next: Stage, layers: nat,
                                         t: iset<Slot>, o: iset<Slot>)
    requires UpsampleOk(b) && Touches(next, layers, t, o, iset{}) && TailUpsample(block) !in t
    ensures Touches(Then(UpsampleStage(b, block), next), layers, iset{TailUpsample(block)} + t, o, iset{})
  {
    UpsampleTouches(b, block, layers);
    ThenTouches(UpsampleStage(b, block), next, layers, iset{TailUpsample(block)}, iset{}, iset{}, t, o, iset{});
    assert iset{} + o == o;
  }

  lemma BackTouches(m: Model, layers: nat)
    requires Loaded(m)
    ensures Touches(Back(m), layers, AllButPreConv(), OverlapsFrom(1), iset{})
  {
    BodyTouches(m, layers);
    UpsampleFirst(m.upsample[1], 1, Body(m), layers, BodyTails(), OverlapsFrom(1));
    var rest := Then(UpsampleStage(m.upsample[1], 1), Body(m));
    UpsampleFirst(m.upsample[0], 0, rest, layers, iset{TailUpsample(1)} + BodyTails(), OverlapsFrom(1));
  }

  /** No two buffers of the decoder graph share a name, and attention runs at the rate of the codes. */
  lemma GraphStreams(m: Model)
    requires Loaded(m)
    ensures Streams(Graph(m), |m.preTransformer|)
  {
    FrontTouches(m);
    BackTouches(m, |m.preTransformer|);
    ThenTouches(Front(m), Back(m), |m.preTransformer|, iset{TailPreConv}, iset{}, LayersFrom(0),
                AllButPreConv(), OverlapsFrom(1), iset{});
  }

  // ---- what the graph computes, frame by frame ---------------------------------

  function ConvOut(k: Kernel, x: seq<Frame>): (y: seq<Frame>)
    ensures |y| == |x|
  {
    Convolved(k.reach, k.channels, k.g, x)
  }

  /** A residual unit's branch: activation, conv, activation, conv. */
  function Branch(u: ResidualUnit, x: seq<Frame>): (y: seq<Frame>)
    ensures |y| == |x|
  {
    ConvOut(u.conv2, Each(u.act2, ConvOut(u.conv1, Each(u.act1, x))))
  }

  function UnitOut(u: ResidualUnit, x: seq<Frame>): (y: seq<Frame>)
    ensures |y| == |x|
  {
    Added(x, Branch(u, x))
  }

  /** Two samples from each frame, plus what the depthwise and pointwise convs make of them. */
  function UpsampleOut(b: UpsampleBlock, x: seq<Frame>): seq<Frame>
    requires UpsampleOk(b)
  {
    var up := Stretched(b.up, x);
    Added(up, Each(b.pointwise, ConvOut(b.depthwise, up)))
  }

  function BlockOut(b: DecoderBlock, x: seq<Frame>): seq<Frame>
    requires BlockOk(b)
  {
    var up := Each(b.bias, Overlapped(b.up, Each(b.snake, x)));
    UnitOut(b.units[2], UnitOut(b.units[1], UnitOut(b.units[0], up)))
  }

  function BlocksOut(blocks: seq<DecoderBlock>, x: seq<Frame>): seq<Frame>
    requires BlocksOk(blocks)
  {
    if blocks == [] then x else BlocksOut(blocks[1..], BlockOut(blocks[0], x))
  }

  /** The pre-transformer's end of the decoder. */
  function FrontOut(m: Model, codes: seq<Frame>): seq<Frame> {
    Each(m.outputProj, WholeStack(m.preTransformer, Each(m.inputProj, ConvOut(m.preConv, Each(m.quantiser, codes)))))
  }

  /** The waveform's end: two upsample blocks, the first conv, the decoder blocks, snake, conv and tanh. */
  function BackOut(m: Model, x: seq<Frame>): seq<Frame>
    requires Loaded(m)
  {
    var up := UpsampleOut(m.upsample[1], UpsampleOut(m.upsample[0], x));
    Each(m.tanh, ConvOut(m.finalConv, Each(m.finalSnake, BlocksOut(m.blocks, ConvOut(m.dec0, up)))))
  }

  lemma ThenIs(first: Stage, next: Stage, x: seq<Frame>)
    requires Shaped(first) && Shaped(next)
    ensures Shaped(Then(first, next)) && Whole(Then(first, next), x) == Whole(next, Whole(first, x))
    ensures SameRate(first) && SameRate(next) ==> SameRate(Then(first, next))
  {
  }

  lemma ConvStageIs(slot: Slot, k: Kernel, x: seq<Frame>)
    ensures Shaped(ConvStage(slot, k)) && SameRate(ConvStage(slot, k)) && Whole(ConvStage(slot, k), x) == ConvOut(k, x)
  {
    if k.reach > 0 {
      ConvolvedIs(slot, k.reach, k.channels, k.g, x);
    } else {
      forall t | 0 <= t < |x|
        ensures Whole(ConvStage(slot, k), x)[t] == ConvOut(k, x)[t]
      {
        OwnWindow(x, t, k.channels);
      }
    }
  }

  lemma PointFirstIs(f: Frame -> Frame, next: Stage, x: seq<Frame>)
    requires Shaped(next)
    ensures Shaped(Then(Point(f), next)) && Whole(Then(Point(f), next), x) == Whole(next, Each(f, x))
    ensures SameRate(next) ==> SameRate(Then(Point(f), next))
  {
    EachIs(f, x);
  }

  lemma ConvFirstIs(slot: Slot, k: Kernel, next: Stage, x: seq<Frame>)
    requires Shaped(next)
    ensures var st := Then(ConvStage(slot, k), next); Shaped(st) && Whole(st, x) == Whole(next, ConvOut(k, x))
    ensures SameRate(next) ==> SameRate(Then(ConvStage(slot, k), next))
  {
    ConvStageIs(slot, k, x);
  }

  function UnitBody(u: ResidualUnit, block: nat, unit: nat): Stage {
    Then(Point(u.act1),
    Then(ConvStage(TailResidual(block, unit, 1), u.conv1),
    Then(Point(u.act2), ConvStage(TailResidual(block, unit, 2), u.conv2))))
  }

  lemma UnitBodyIs(u: ResidualUnit, block: nat, unit: nat, x: seq<Frame>)
    ensures Shaped(UnitBody(u, block, unit)) && SameRate(UnitBody(u, block, unit))
    ensures Whole(UnitBody(u, block, unit), x) == Branch(u, x)
  {
    var s1, s2 := TailResidual(block, unit, 1), TailResidual(block, unit, 2);
    var last := ConvStage(s2, u.conv2);
    var x1 := Each(u.act1, x);
    var x2 := ConvOut(u.conv1, x1);
    ConvStageIs(s2, u.conv2, Each(u.act2, x2));
    PointFirstIs(u.act2, last, x2);
    ConvFirstIs(s1, u.conv1, Then(Point(u.act2), last), x1);
    PointFirstIs(u.act1, Then(ConvStage(s1, u.conv1), Then(Point(u.act2), last)), x);
  }

  /** A residual unit gives its input plus what its branch alone gives. */
  lemma UnitAdds(u: ResidualUnit, block: nat, unit: nat, x: seq<Frame>)
    ensures Shaped(UnitStage(u, block, unit)) && Whole(UnitStage(u, block, unit), x) == UnitOut(u, x)
  {
    UnitBodyIs(u, block, unit, x);
    assert UnitStage(u, block, unit) == Skip(UnitBody(u, block, unit));
    SkipAdds(UnitBody(u, block, unit), CLEARED, x);
  }

  /** What its second conv reads: frame `i` is the first conv's window over the activated input, activated again. */
  function Inner(u: ResidualUnit, x: seq<Frame>): (y: seq<Frame>)
    ensures |y| == |x|
  {
    seq(|x|, i requires 0 <= i < |x| =>
      u.act2(u.conv1.g(WindowAt(Each(u.act1, x), i, u.conv1.reach, u.conv1.channels))))
  }

  /** Frame by frame and channel by channel, output minus input is what the branch alone gives. */
  lemma UnitSample(u: ResidualUnit, block: nat, unit: nat, x: seq<Frame>, t: nat, c: nat)
    requires t < |x| && c < |x[t]|
    ensures Shaped(UnitStage(u, block, unit)) && |Whole(UnitStage(u, block, unit), x)| == |x|
    ensures var y := Whole(UnitStage(u, block, unit), x)[t];
      && |y| == |x[t]|
      && y[c] - x[t][c] == Channel(u.conv2.g(WindowAt(Inner(u, x), t, u.conv2.reach, u.conv2.channels)), c)
  {
    UnitAdds(u, block, unit, x);
    assert Inner(u, x) == Each(u.act2, ConvOut(u.conv1, Each(u.act1, x)));
  }

  /** A unit whose last conv is silent returns its input, decoded at once or from any carried buffers. */
  lemma SilentUnit(u: ResidualUnit, block: nat, unit: nat, b: Buffers, x: seq<Frame>)
    requires forall w: seq<Frame> :: u.conv2.g(w) == Silence(|u.conv2.g(w)|)
    ensures Shaped(UnitStage(u, block, unit))
    ensures Whole(UnitStage(u, block, unit), x) == x && Seeded(UnitStage(u, block, unit), b, x) == x
  {
    UnitAdds(u, block, unit, x);
    HushedConv(u.conv2.reach, u.conv2.channels, u.conv2.g, Each(u.act2, ConvOut(u.conv1, Each(u.act1, x))));
    HushedAddsNothing(x, Branch(u, x));
    var body := UnitBody(u, block, unit);
    UnitBodyIs(u, block, unit, x);
    SkipAdds(body, b, x);
    SilentEnd(u, block, unit, b, x);
    HushedAddsNothing(x, Seeded(body, b, x));
  }

  lemma SilentEnd(u: ResidualUnit, block: nat, unit: nat, b: Buffers, x: seq<Frame>)
    requires forall w: seq<Frame> :: u.conv2.g(w) == Silence(|u.conv2.g(w)|)
    ensures Shaped(UnitBody(u, block, unit)) && Hushed(Seeded(UnitBody(u, block, unit), b, x))
  {
    UnitBodyIs(u, block, unit, x);
    var first := ConvStage(TailResidual(block, unit, 1), u.conv1);
    var last := ConvStage(TailResidual(block, unit, 2), u.conv2);
    ConvStageIs(TailResidual(block, unit, 1), u.conv1, x);
    ConvStageIs(TailResidual(block, unit, 2), u.conv2, x);
    var end := Then(Point(u.act2), last);
    var x1 := Seeded(Point(u.act1), b, x);
    var x2 := Seeded(first, b, x1);
    assert Seeded(end, b, x2) == Seeded(last, b, Seeded(Point(u.act2), b, x2));
    assert Seeded(Then(first, end), b, x1) == Seeded(end, b, x2);
    assert UnitBody(u, block, unit) == Then(Point(u.act1), Then(first, end));
  }

  /** The window of frame `t` of a chunk, the carried frames standing before the chunk. */
  function HeldWindow(held: seq<Frame>, x: seq<Frame>, t: nat): (w: seq<Frame>)
    requires t < |x|
    ensures |w| == |held| + 1
  {
    seq(|held| + 1, i requires 0 <= i <= |held| => if t + i < |held| then held[t + i] else x[t + i - |held|])
  }

  /** A conv over one chunk, behind its carried tail. */
  function HeldConv(slot: Slot, k: Kernel, c: Carry, x: seq<Frame>): (y: seq<Frame>)
    ensures |y| == |x|
  {
    seq(|x|, t requires 0 <= t < |x| => k.g(HeldWindow(Carried(c.tails, slot, k.reach, k.channels), x, t)))
  }

  /** What a unit's branch makes of one chunk. */
  function HeldBranch(u: ResidualUnit, block: nat, unit: nat, c: Carry, x: seq<Frame>): (y: seq<Frame>)
    ensures |y| == |x|
  {
    HeldConv(TailResidual(block, unit, 2), u.conv2, c,
      Each(u.act2, HeldConv(TailResidual(block, unit, 1), u.conv1, c, Each(u.act1, x))))
  }

  lemma HeldWindowIs(held: seq<Frame>, x: seq<Frame>, t: nat)
    requires t < |x|
    ensures (held + x)[t..t + |held| + 1] == HeldWindow(held, x, t)
  {
    var w, h := (held + x)[t..t + |held| + 1], HeldWindow(held, x, t);
    forall i | 0 <= i <= |held|
      ensures w[i] == h[i]
    {
      assert w[i] == (held + x)[t + i];
    }
  }

  lemma ConvCall(slot: Slot, k: Kernel, layers: nat, c: Carry, mask: seq<seq<bool>>, width: nat, x: seq<Frame>)
    requires Callable(ConvStage(slot, k), layers, c, mask, width, x)
    ensures var o := Call(ConvStage(slot, k), layers, c, mask, width, x);
      o.y == HeldConv(slot, k, c, x) && o.slabs == c.slabs
  {
    var held := Carried(c.tails, slot, k.reach, k.channels);
    var y := Call(ConvStage(slot, k), layers, c, mask, width, x).y;
    forall t | 0 <= t < |x|
      ensures y[t] == HeldConv(slot, k, c, x)[t]
    {
      HeldWindowIs(held, x, t);
      if k.reach == 0 {
        assert HeldWindow(held, x, t) == [x[t]];
      }
    }
  }

  /** A chunk through a stage without slabs and then another: the second reads the same carried state. */
  lemma ThenCall(first: Stage, next: Stage, layers: nat, c: Carry, mask: seq<seq<bool>>, width: nat, x: seq<Frame>,
                 x1: seq<Frame>)
    requires Callable(Then(first, next), layers, c, mask, width, x)
    requires Callable(first, layers, c, mask, width, x)
    requires var o := Call(first, layers, c, mask, width, x); o.y == x1 && o.slabs == c.slabs
    ensures Callable(next, layers, c, mask, width, x1)
    ensures Call(Then(first, next), layers, c, mask, width, x).y == Call(next, layers, c, mask, width, x1).y
    ensures Call(Then(first, next), layers, c, mask, width, x).slabs == Call(next, layers, c, mask, width, x1).slabs
  {
    var o := Call(first, layers, c, mask, width, x);
    assert c.(slabs := o.slabs) == c;
    ThenCallable(first, next, layers, c, mask, width, x, o);
  }

  lemma PointCall(f: Frame -> Frame, layers: nat, c: Carry, mask: seq<seq<bool>>, width: nat, x: seq<Frame>)
    requires Callable(Point(f), layers, c, mask, width, x)
    ensures var o := Call(Point(f), layers, c, mask, width, x); o.y == Each(f, x) && o.slabs == c.slabs
  {
    EachIs(f, x);
  }

  lemma BranchCall(u: ResidualUnit, block: nat, unit: nat, layers: nat, c: Carry, mask: seq<seq<bool>>, width: nat,
                   x: seq<Frame>)
    requires Callable(UnitBody(u, block, unit), layers, c, mask, width, x)
    ensures Call(UnitBody(u, block, unit), layers, c, mask, width, x).y == HeldBranch(u, block, unit, c, x)
  {
    var s1, s2 := TailResidual(block, unit, 1), TailResidual(block, unit, 2);
    var first, last := ConvStage(s1, u.conv1), ConvStage(s2, u.conv2);
    var x1 := Each(u.act1, x);
    PointCall(u.act1, layers, c, mask, width, x);
    ThenCall(Point(u.act1), Then(first, Then(Point(u.act2), last)), layers, c, mask, width, x, x1);
    var x2 := HeldConv(s1, u.conv1, c, x1);
    ConvCall(s1, u.conv1, layers, c, mask, width, x1);
    ThenCall(first, Then(Point(u.act2), last), layers, c, mask, width, x1, x2);
    PointCall(u.act2, layers, c, mask, width, x2);
    ThenCall(Point(u.act2), last, layers, c, mask, width, x2, Each(u.act2, x2));
    ConvCall(s2, u.conv2, layers, c, mask, width, Each(u.act2, x2));
  }

  lemma HeldHushed(slot: Slot, k: Kernel, c: Carry, x: seq<Frame>)
    requires forall w: seq<Frame> :: k.g(w) == Silence(|k.g(w)|)
    ensures Hushed(HeldConv(slot, k, c, x))
  {
    forall t | 0 <= t < |x|
      ensures HeldConv(slot, k, c, x)[t] == Silence(|HeldConv(slot, k, c, x)[t]|)
    {
      var w := HeldWindow(Carried(c.tails, slot, k.reach, k.channels), x, t);
      assert k.g(w) == Silence(|k.g(w)|);
    }
  }

  /** Streamed, from any state: the chunk plus what the branch makes of it behind its carried tails. */
  lemma UnitStreams(u: ResidualUnit, block: nat, unit: nat, layers: nat, c: Carry, mask: seq<seq<bool>>, width: nat,
                    x: seq<Frame>)
    requires Callable(UnitStage(u, block, unit), layers, c, mask, width, x)
    ensures Call(UnitStage(u, block, unit), layers, c, mask, width, x).y == Added(x, HeldBranch(u, block, unit, c, x))
    ensures (forall w: seq<Frame> :: u.conv2.g(w) == Silence(|u.conv2.g(w)|)) ==>
              Call(UnitStage(u, block, unit), layers, c, mask, width, x).y == x
  {
    assert UnitStage(u, block, unit) == Skip(UnitBody(u, block, unit));
    StreamedSkipAdds(UnitBody(u, block, unit), layers, c, mask, width, x);
    BranchCall(u, block, unit, layers, c, mask, width, x);
    if forall w: seq<Frame> :: u.conv2.g(w) == Silence(|u.conv2.g(w)|) {
      HeldHushed(TailResidual(block, unit, 2), u.conv2, c,
                 Each(u.act2, HeldConv(TailResidual(block, unit, 1), u.conv1, c, Each(u.act1, x))));
      HushedAddsNothing(x, HeldBranch(u, block, unit, c, x));
    }
  }

  // ---- upsample blocks, decoder blocks, the whole graph ---------------------------

  /** An upsample block: two samples from each frame, plus what its convs make of them. */
  lemma UpsampleAdds(b: UpsampleBlock, block: nat, x: seq<Frame>)
    requires UpsampleOk(b)
    ensures Shaped(UpsampleStage(b, block)) && Whole(UpsampleStage(b, block), x) == UpsampleOut(b, x)
  {
    var up := Stretched(b.up, x);
    var body := Then(ConvStage(TailUpsample(block), b.depthwise), Point(b.pointwise));
    assert Shaped(Spread(b.up));
    StretchedIs(b.up, x);
    EachIs(b.pointwise, ConvOut(b.depthwise, up));
    ConvFirstIs(TailUpsample(block), b.depthwise, Point(b.pointwise), up);
    SkipAdds(body, CLEARED, up);
  }

  /** Sample `2i + p` of an upsample block, by channel: tap `p` of frame `i`, plus the branch's window there. */
  lemma UpsampleSample(b: UpsampleBlock, block: nat, x: seq<Frame>, i: nat, p: nat, c: nat)
    requires UpsampleOk(b) && i < |x| && p < 2 && c < b.up.channels
    ensures Shaped(UpsampleStage(b, block)) && |Whole(UpsampleStage(b, block), x)| == 2 * |x|
    ensures |b.up.tap(x[i], p)| == |Whole(UpsampleStage(b, block), x)[2 * i + p]| == b.up.channels
    ensures Whole(UpsampleStage(b, block), x)[2 * i + p][c] - b.up.tap(x[i], p)[c]
         == Channel(b.pointwise(b.depthwise.g(WindowAt(Stretched(b.up, x), 2 * i + p, 6, b.depthwise.channels))), c)
  {
    UpsampleAdds(b, block, x);
    assert (2 * i + p) / 2 == i && (2 * i + p) % 2 == p;
    assert Stretched(b.up, x)[2 * i + p] == b.up.tap(x[i], p);
  }

  /** Streamed, from any state: the same with the depthwise conv behind its carried tail. */
  lemma UpsampleStreams(b: UpsampleBlock, block: nat, layers: nat, c: Carry, mask: seq<seq<bool>>, width: nat,
                        x: seq<Frame>)
    requires UpsampleOk(b) && Callable(UpsampleStage(b, block), layers, c, mask, width, x)
    ensures var up := Stretched(b.up, x);
      Call(UpsampleStage(b, block), layers, c, mask, width, x).y
      == Added(up, Each(b.pointwise, HeldConv(TailUpsample(block), b.depthwise, c, up)))
  {
    var up := Stretched(b.up, x);
    var conv := ConvStage(TailUpsample(block), b.depthwise);
    StretchedIs(b.up, x);
    ThenCall(Spread(b.up), Skip(Then(conv, Point(b.pointwise))), layers, c, mask, width, x, up);
    StreamedSkipAdds(Then(conv, Point(b.pointwise)), layers, c, mask, width, up);
    var y := HeldConv(TailUpsample(block), b.depthwise, c, up);
    ConvCall(TailUpsample(block), b.depthwise, layers, c, mask, width, up);
    ThenCall(conv, Point(b.pointwise), layers, c, mask, width, up, y);
    PointCall(b.pointwise, layers, c, mask, width, y);
  }

  lemma UnitsAre(units: seq<ResidualUnit>, block: nat, x: seq<Frame>)
    requires |units| == 3
    ensures
      var rest := Then(UnitStage(units[1], block, 1), UnitStage(units[2], block, 2));
      var st := Then(UnitStage(units[0], block, 0), rest);
      Shaped(st) && Whole(st, x) == UnitOut(units[2], UnitOut(units[1], UnitOut(units[0], x)))
  {
    var x1 := UnitOut(units[0], x);
    UnitAdds(units[0], block, 0, x);
    UnitAdds(units[1], block, 1, x1);
    UnitAdds(units[2], block, 2, UnitOut(units[1], x1));
    ThenIs(UnitStage(units[1], block, 1), UnitStage(units[2], block, 2), x1);
  }

  /** A decoder block: snake, transposed conv, bias, then three residual units in order. */
  lemma BlockIs(b: DecoderBlock, block: nat, x: seq<Frame>)
    requires BlockOk(b)
    ensures Shaped(BlockStage(b, block)) && Whole(BlockStage(b, block), x) == BlockOut(b, x)
  {
    var x1 := Each(b.snake, x);
    var x2 := Overlapped(b.up, x1);
    var rest := Then(UnitStage(b.units[1], block, 1), UnitStage(b.units[2], block, 2));
    var units := Then(UnitStage(b.units[0], block, 0), rest);
    UnitsAre(b.units, block, Each(b.bias, x2));
    PointFirstIs(b.bias, units, x2);
    OverlappedIs(Overlap(block), b.up, x1);
    ThenIs(Transpose(Overlap(block), b.up), Then(Point(b.bias), units), x1);
    PointFirstIs(b.snake, Then(Transpose(Overlap(block), b.up), Then(Point(b.bias), units)), x);
  }

  lemma {:induction false} BlocksAre(blocks: seq<DecoderBlock>, block: nat, x: seq<Frame>)
    requires BlocksOk(blocks)
    ensures Shaped(BlockStages(blocks, block)) && Whole(BlockStages(blocks, block), x) == BlocksOut(blocks, x)
  {
    if blocks == [] {
      assert Whole(BlockStages(blocks, block), x) == x;
    } else {
      BlockIs(blocks[0], block, x);
      BlocksAre(blocks[1..], block + 1, BlockOut(blocks[0], x));
      ThenIs(BlockStage(blocks[0], block), BlockStages(blocks[1..], block + 1), x);
    }
  }

  lemma {:induction false} AttentionIs(ls: seq<Layer>, index: nat, x: seq<Frame>)
    ensures Shaped(AttentionStages(ls, index)) && Whole(AttentionStages(ls, index), x) == WholeStack(ls, x)
    decreases ls
  {
    if ls == [] {
      assert Whole(AttentionStages(ls, index), x) == x;
    } else {
      AttentionIs(ls[1..], index + 1, WholeLayer(ls[0], x));
      ThenIs(Attend(index, ls[0]), AttentionStages(ls[1..], index + 1), x);
    }
  }

  lemma FrontIs(m: Model, x: seq<Frame>)
    ensures Shaped(Front(m)) && Whole(Front(m), x) == FrontOut(m, x)
  {
    var x1 := Each(m.quantiser, x);
    var x2 := ConvOut(m.preConv, x1);
    var x3 := Each(m.inputProj, x2);
    var layers := AttentionStages(m.preTransformer, 0);
    AttentionIs(m.preTransformer, 0, x3);
    EachIs(m.outputProj, WholeStack(m.preTransformer, x3));
    ThenIs(layers, Point(m.outputProj), x3);
    var a := Then(layers, Point(m.outputProj));
    PointFirstIs(m.inputProj, a, x2);
    ConvFirstIs(TailPreConv, m.preConv, Then(Point(m.inputProj), a), x1);
    PointFirstIs(m.quantiser, Then(ConvStage(TailPreConv, m.preConv), Then(Point(m.inputProj), a)), x);
  }

  lemma OutputIs(m: Model, x: seq<Frame>)
    ensures Shaped(Output(m)) && Whole(Output(m), x) == Each(m.tanh, ConvOut(m.finalConv, Each(m.finalSnake, x)))
  {
    var x1 := Each(m.finalSnake, x);
    EachIs(m.tanh, ConvOut(m.finalConv, x1));
    ConvFirstIs(TailFinal, m.finalConv, Point(m.tanh), x1);
    PointFirstIs(m.finalSnake, Then(ConvStage(TailFinal, m.finalConv), Point(m.tanh)), x);
  }

  lemma BodyIs(m: Model, x: seq<Frame>)
    requires Loaded(m)
    ensures Shaped(Body(m))
    ensures Whole(Body(m), x)
         == Each(m.tanh, ConvOut(m.finalConv, Each(m.finalSnake, BlocksOut(m.blocks, ConvOut(m.dec0, x)))))
  {
    var x1 := ConvOut(m.dec0, x);
    BlocksAre(m.blocks, 1, x1);
    OutputIs(m, BlocksOut(m.blocks, x1));
    ThenIs(BlockStages(m.blocks, 1), Output(m), x1);
    ConvFirstIs(TailDec0, m.dec0, Then(BlockStages(m.blocks, 1), Output(m)), x);
  }

  lemma BackIs(m: Model, x: seq<Frame>)
    requires Loaded(m)
    ensures Shaped(Back(m)) && Whole(Back(m), x) == BackOut(m, x)
  {
    var u0, u1 := UpsampleStage(m.upsample[0], 0), UpsampleStage(m.upsample[1], 1);
    var x1 := UpsampleOut(m.upsample[0], x);
    UpsampleAdds(m.upsample[0], 0, x);
    UpsampleAdds(m.upsample[1], 1, x1);
    BodyIs(m, UpsampleOut(m.upsample[1], x1));
    ThenIs(u1, Body(m), x1);
    ThenIs(u0, Then(u1, Body(m)), x);
  }

  /** The decoder graph of a loaded model, as signals: every stage in the builder's order. */
  lemma GraphIs(m: Model, x: seq<Frame>)
    requires Loaded(m)
    ensures Shaped(Graph(m)) && Whole(Graph(m), x) == BackOut(m, FrontOut(m, x))
  {
    FrontIs(m, x);
    BackIs(m, FrontOut(m, x));
    ThenIs(Front(m), Back(m), x);
  }

  /** A loaded model's decoder: streamed in any non-empty chunks it gives the samples of decoding the clip at once. */
  method DecodeModel(m: Model, rowWidth: nat, dtype: string, envCap: Option<int>, keepSlab: bool,
                     chunks: seq<seq<Frame>>, hint: int)
    returns (streamed: seq<Frame>, oneShot: seq<Frame>)
    requires Loaded(m) && forall i :: 0 <= i < |chunks| ==> chunks[i] != []
    ensures Streams(Graph(m), |m.preTransformer|)
    ensures streamed == oneShot == Whole(Graph(m), Flatten(chunks)) == BackOut(m, FrontOut(m, Flatten(chunks)))
  {
    GraphStreams(m);
    var d := new AudioTokenizerDecoder(Graph(m), |m.preTransformer|, rowWidth, dtype, envCap, keepSlab);
    streamed, oneShot := DecodeInChunks(d, chunks, hint);
    GraphIs(m, Flatten(chunks));
  }
}
