/**
 The codec's decoder graph as a tree of causal stages, with two readings of the
 same tree: `Whole` decodes a clip at once (one-shot decode), `Call` decodes one
 chunk from carried state (streaming decode).
 */
module CausalNet {
  import opened Frames
  import opened Attention

  /** Names of the carried buffers, one constructor for each name pattern of the graph builder. */
  datatype Slot =
    | TailPreConv
    | TailUpsample(block: nat)
    | TailDec0
    | TailResidual(block: nat, unit: nat, conv: nat)
    | TailFinal
    | Overlap(block: nat)

  /** A transposed convolution: input frame `i` adds `tap(x[i], j)` to raw output `i * stride + j`. */
  datatype Up = Up(stride: nat, kernel: nat, channels: nat, tap: (Frame, nat) -> Frame)

  datatype Stage =
    | Point(f: Frame -> Frame)
    | Conv(slot: Slot, reach: nat, channels: nat, g: seq<Frame> -> Frame)
    | Transpose(slot: Slot, up: Up)
    | Spread(up: Up)
    | Attend(index: nat, layer: Layer)
    | Skip(body: Stage)
    | Then(first: Stage, next: Stage)

  // ---- one-shot meaning -------------------------------------------------

  /** A causal convolution: output `t` reads frames `t - reach .. t`, the left context first. */
  function Windows(context: seq<Frame>, x: seq<Frame>, g: seq<Frame> -> Frame): seq<Frame> {
    seq(|x|, t requires 0 <= t < |x| => g((context + x)[t..t + |context| + 1]))
  }

  function Hit(up: Up, f: Frame, j: int): Frame {
    if 0 <= j < up.kernel then up.tap(f, j) else Silence(up.channels)
  }

  /** Raw output sample `t`: the sum of everything the input frames add there. */
  function RawAt(up: Up, x: seq<Frame>, t: int): Frame {
    if x == [] then Silence(up.channels)
    else Plus(Hit(up, x[0], t), RawAt(up, x[1..], t - up.stride))
  }

  function Raw(up: Up, x: seq<Frame>): seq<Frame>
    requires up.stride <= up.kernel
  {
    seq(Times(|x|, up.stride) + up.kernel - up.stride, t => RawAt(up, x, t))
  }

  /** The one-shot trim: `kernel - stride` samples off the right, none off the left. */
  function Trimmed(up: Up, x: seq<Frame>): seq<Frame>
    requires up.stride <= up.kernel
  {
    var raw := Raw(up, x);
    raw[..|raw| - (up.kernel - up.stride)]
  }

  /** Decoding a whole clip: every left context silent, every raw output trimmed on the right. */
  function Whole(st: Stage, x: seq<Frame>): seq<Frame>
    requires Shaped(st)
    ensures |Whole(st, x)| == Samples(st, |x|)
    decreases st
  {
    match st
    case Point(f) => seq(|x|, i requires 0 <= i < |x| => f(x[i]))
    case Conv(_, reach, channels, g) => Windows(Quiet(reach, channels), x, g)
    case Transpose(_, up) => Trimmed(up, x)
    case Spread(up) => Raw(up, x)
    case Attend(_, layer) => WholeLayer(layer, x)
    case Skip(body) =>
      SameRateKeeps(body, |x|);
      Mix(x, Whole(body, x))
    case Then(first, next) => Whole(next, Whole(first, x))
  }

  /** How many frames `n` input frames become. */
  function Samples(st: Stage, n: nat): nat {
    match st
    case Transpose(_, up) => Times(n, up.stride)
    case Spread(up) => Times(n, up.stride)
    case Then(first, next) => Samples(next, Samples(first, n))
    case _ => n
  }

  /** The stage keeps the frame rate. */
  predicate SameRate(st: Stage) {
    match st
    case Transpose(_, up) => up.stride == 1
    case Spread(up) => up.stride == 1
    case Then(first, next) => SameRate(first) && SameRate(next)
    case _ => true
  }

  lemma {:induction false} SameRateKeeps(st: Stage, n: nat)
    requires SameRate(st)
    ensures Samples(st, n) == n
  {
    match st
    case Transpose(_, up) => TimesIsProduct(n, up.stride);
    case Spread(up) => TimesIsProduct(n, up.stride);
    case Then(first, next) =>
      SameRateKeeps(first, n);
      SameRateKeeps(next, n);
    case _ =>
  }

  lemma {:induction false} SamplesAdd(st: Stage, a: nat, b: nat, c: nat)
    requires c == a + b
    ensures Samples(st, c) == Samples(st, a) + Samples(st, b)
  {
    match st
    case Transpose(_, up) => TimesAdd(up.stride, a, b, c);
    case Spread(up) => TimesAdd(up.stride, a, b, c);
    case Then(first, next) =>
      SamplesAdd(first, a, b, c);
      SamplesAdd(next, Samples(first, a), Samples(first, b), Samples(first, c));
    case _ =>
  }

  lemma {:induction false} SamplesPositive(st: Stage, n: nat)
    requires Shaped(st) && n >= 1
    ensures Samples(st, n) >= 1
  {
    match st
    case Then(first, next) =>
      SamplesPositive(first, n);
      SamplesPositive(next, Samples(first, n));
    case _ =>
  }

  lemma NothingDecodesToNothing(st: Stage)
    requires Shaped(st)
    ensures Whole(st, []) == []
  {
    SamplesAdd(st, 0, 0, 0);
  }

  /** What the graph builder needs to put the tree together at all. */
  ghost predicate Shaped(st: Stage) {
    match st
    case Transpose(_, up) => 1 <= up.stride <= up.kernel && TapsFit(up)
    case Spread(up) => 1 <= up.stride == up.kernel && TapsFit(up)
    case Skip(body) => Shaped(body) && SameRate(body)
    case Then(first, next) => Shaped(first) && Shaped(next)
    case _ => true
  }

  ghost predicate TapsFit(up: Up) {
    forall f: Frame, j: nat :: |up.tap(f, j)| == up.channels
  }
}
