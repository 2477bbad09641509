/**
 What the stages of a decoder compute, frame by frame and channel by channel:
 each frame of an output from the input frames it reads, without the stage tree.
 */
module Indexed {
  import opened Frames
  import opened Attention
  import opened CausalNet
  import opened Streaming
  import Polyphase

  /** Frame `t` of a clip, silence before and after it. */
  function FrameAt(x: seq<Frame>, t: int, channels: nat): Frame {
    if 0 <= t < |x| then x[t] else Silence(channels)
  }

  /** The frames from `reach` before `t` up to `t` itself. */
  function WindowAt(x: seq<Frame>, t: nat, reach: nat, channels: nat): (w: seq<Frame>)
    ensures |w| == reach + 1
  {
    seq(reach + 1, i requires 0 <= i <= reach => FrameAt(x, t + i - reach, channels))
  }

  function Each(f: Frame -> Frame, x: seq<Frame>): (y: seq<Frame>)
    ensures |y| == |x|
  {
    seq(|x|, t requires 0 <= t < |x| => f(x[t]))
  }

  function Convolved(reach: nat, channels: nat, g: seq<Frame> -> Frame, x: seq<Frame>): (y: seq<Frame>)
    ensures |y| == |x|
  {
    seq(|x|, t requires 0 <= t < |x| => g(WindowAt(x, t, reach, channels)))
  }

  /** A signal plus what a branch makes of it; channels the branch lacks add nothing. */
  function Added(x: seq<Frame>, y: seq<Frame>): (z: seq<Frame>)
    requires |x| == |y|
    ensures |z| == |x|
  {
    seq(|x|, t requires 0 <= t < |x| => seq(|x[t]|, c requires 0 <= c < |x[t]| => x[t][c] + Channel(y[t], c)))
  }

  /** Output `t` of a transposed conv with kernel twice the stride: two input frames, each through its own tap. */
  function OverlapAt(up: Up, x: seq<Frame>, t: nat): Frame
    requires up.stride >= 1
  {
    var i, p := t / up.stride, t % up.stride;
    seq(up.channels, c requires 0 <= c < up.channels =>
      (if i < |x| then Channel(up.tap(x[i], p), c) else 0)
      + if 1 <= i <= |x| then Channel(up.tap(x[i - 1], p + up.stride), c) else 0)
  }

  function Overlapped(up: Up, x: seq<Frame>): (y: seq<Frame>)
    requires up.stride >= 1
    ensures |y| == |x| * up.stride
  {
    Area(|x|, up.stride);
    seq(|x| * up.stride, t requires 0 <= t < |x| * up.stride => OverlapAt(up, x, t))
  }

  /** A transposed conv with kernel equal to its stride: one input frame for each output. */
  function Stretched(up: Up, x: seq<Frame>): (y: seq<Frame>)
    requires up.stride >= 1
    ensures |y| == |x| * up.stride
  {
    Area(|x|, up.stride);
    seq(|x| * up.stride, t requires 0 <= t < |x| * up.stride =>
      if t / up.stride < |x| then up.tap(x[t / up.stride], t % up.stride) else [])
  }

  lemma Area(n: nat, s: nat)
    ensures 0 <= n * s
  {
  }

  // ---- stage by stage -------------------------------------------------------------------

  lemma EachIs(f: Frame -> Frame, x: seq<Frame>)
    ensures Whole(Point(f), x) == Each(f, x)
  {
  }

  lemma WindowFrame(x: seq<Frame>, t: nat, reach: nat, channels: nat, i: nat)
    requires t < |x| && i <= reach
    ensures (Quiet(reach, channels) + x)[t..t + reach + 1][i] == WindowAt(x, t, reach, channels)[i]
  {
    var all := Quiet(reach, channels) + x;
    assert all[t..t + reach + 1][i] == all[t + i];
    assert WindowAt(x, t, reach, channels)[i] == FrameAt(x, t + i - reach, channels);
    if t + i < reach {
      assert all[t + i] == Quiet(reach, channels)[t + i] == Silence(channels);
    } else {
      assert all[t + i] == x[t + i - reach];
    }
  }

  lemma WindowIs(x: seq<Frame>, t: nat, reach: nat, channels: nat)
    requires t < |x|
    ensures (Quiet(reach, channels) + x)[t..t + reach + 1] == WindowAt(x, t, reach, channels)
  {
    forall i: nat | i <= reach
      ensures (Quiet(reach, channels) + x)[t..t + reach + 1][i] == WindowAt(x, t, reach, channels)[i]
    {
      WindowFrame(x, t, reach, channels, i);
    }
  }

  lemma OwnWindow(x: seq<Frame>, t: nat, channels: nat)
    requires t < |x|
    ensures WindowAt(x, t, 0, channels) == [x[t]]
  {
    assert WindowAt(x, t, 0, channels)[0] == FrameAt(x, t, channels);
  }

  /** A convolution reads the current frame and the `reach` frames before it, silence before the clip. */
  lemma ConvolvedIs(slot: Slot, reach: nat, channels: nat, g: seq<Frame> -> Frame, x: seq<Frame>)
    ensures Whole(Conv(slot, reach, channels, g), x) == Convolved(reach, channels, g, x)
  {
    forall t | 0 <= t < |x|
      ensures Whole(Conv(slot, reach, channels, g), x)[t] == Convolved(reach, channels, g, x)[t]
    {
      WindowIs(x, t, reach, channels);
    }
  }

  lemma PlusIs(a: Frame, b: Frame, sum: Frame)
    requires |sum| == |a| && forall c :: 0 <= c < |a| ==> sum[c] == a[c] + Channel(b, c)
    ensures Plus(a, b) == sum
  {
  }

  lemma MixedFrame(x: seq<Frame>, y: seq<Frame>, t: nat)
    requires |x| == |y| && t < |x|
    ensures Mix(x, y)[t] == Added(x, y)[t]
  {
    var sum := Added(x, y)[t];
    assert |sum| == |x[t]|;
    assert forall c :: 0 <= c < |x[t]| ==> sum[c] == x[t][c] + Channel(y[t], c);
    PlusIs(x[t], y[t], sum);
    assert Mix(x, y)[t] == Plus(x[t], y[t]);
  }

  lemma MixIsAdded(x: seq<Frame>, y: seq<Frame>)
    requires |x| == |y|
    ensures Mix(x, y) == Added(x, y)
  {
    forall t: nat | t < |x|
      ensures Mix(x, y)[t] == Added(x, y)[t]
    {
      MixedFrame(x, y, t);
    }
    assert |Mix(x, y)| == |Added(x, y)|;
  }

  /** A residual stage adds its input to what its branch gives, decoded at once or from carried buffers. */
  lemma SkipAdds(body: Stage, b: Buffers, x: seq<Frame>)
    requires Shaped(Skip(body))
    ensures |Whole(body, x)| == |Seeded(body, b, x)| == |x|
    ensures Whole(Skip(body), x) == Added(x, Whole(body, x))
    ensures Seeded(Skip(body), b, x) == Added(x, Seeded(body, b, x))
  {
    SameRateKeeps(body, |x|);
    MixIsAdded(x, Whole(body, x));
    MixIsAdded(x, Seeded(body, b, x));
  }

  /** The same of one streamed chunk. */
  lemma StreamedSkipAdds(body: Stage, layers: nat, c: Carry, mask: seq<seq<bool>>, width: nat, x: seq<Frame>)
    requires Callable(Skip(body), layers, c, mask, width, x)
    ensures |Call(body, layers, c, mask, width, x).y| == |x|
    ensures Call(Skip(body), layers, c, mask, width, x).y == Added(x, Call(body, layers, c, mask, width, x).y)
  {
    SameRateKeeps(body, |x|);
    MixIsAdded(x, Call(body, layers, c, mask, width, x).y);
  }

  ghost predicate Hushed(y: seq<Frame>) {
    forall t :: 0 <= t < |y| ==> y[t] == Silence(|y[t]|)
  }

  lemma HushedAddsNothing(x: seq<Frame>, y: seq<Frame>)
    requires |x| == |y| && Hushed(y)
    ensures Added(x, y) == x
  {
    forall t | 0 <= t < |x|
      ensures Added(x, y)[t] == x[t]
    {
      assert y[t] == Silence(|y[t]|);
    }
  }

  lemma HushedConv(reach: nat, channels: nat, g: seq<Frame> -> Frame, x: seq<Frame>)
    requires forall w: seq<Frame> :: g(w) == Silence(|g(w)|)
    ensures Hushed(Convolved(reach, channels, g, x))
  {
    forall t | 0 <= t < |x|
      ensures Convolved(reach, channels, g, x)[t] == Silence(|Convolved(reach, channels, g, x)[t]|)
    {
      var w := WindowAt(x, t, reach, channels);
      assert g(w) == Silence(|g(w)|);
    }
  }

  lemma PhaseOf(n: nat, s: nat, t: nat)
    requires s >= 1 && t < n * s
    ensures t / s < n && t == Times(t / s, s) + t % s && n * s == Times(n, s)
  {
    TimesIsProduct(t / s, s);
    TimesIsProduct(n, s);
    if t / s >= n {
      Wider(n, t / s, s);
    }
  }

  lemma Wider(a: nat, b: nat, s: nat)
    requires a <= b
    ensures a * s <= b * s
  {
    assert (b - a) * s >= 0;
  }

  lemma OverlapSample(up: Up, x: seq<Frame>, t: nat)
    requires TapsFit(up) && up.stride >= 1 && up.kernel == 2 * up.stride && t < |x| * up.stride
    ensures RawAt(up, x, t) == OverlapAt(up, x, t)
  {
    var i, p := t / up.stride, t % up.stride;
    PhaseOf(|x|, up.stride, t);
    Polyphase.TwoFramesReach(up, x, i, p);
    assert RawAt(up, x, t) == Polyphase.PhaseAt(up, x, i, p);
    PhaseSample(up, x, t, i, p);
  }

  lemma PhaseSample(up: Up, x: seq<Frame>, t: nat, i: nat, p: nat)
    requires TapsFit(up) && up.stride >= 1 && i == t / up.stride && p == t % up.stride && i < |x|
    ensures Polyphase.PhaseAt(up, x, i, p) == OverlapAt(up, x, t)
  {
    var now := up.tap(x[i], p);
    var before := if i == 0 then Silence(up.channels) else up.tap(x[i - 1], p + up.stride);
    PlusIs(now, before, OverlapAt(up, x, t));
  }

  /** Every sample of a transposed conv with kernel twice the stride, by index. */
  lemma OverlappedIs(slot: Slot, up: Up, x: seq<Frame>)
    requires TapsFit(up) && up.stride >= 1 && up.kernel == 2 * up.stride
    ensures Whole(Transpose(slot, up), x) == Overlapped(up, x)
  {
    var n := |x| * up.stride;
    TimesIsProduct(|x|, up.stride);
    TrimmedIs(up, x, n);
    forall t: nat | t < n
      ensures Trimmed(up, x)[t] == Overlapped(up, x)[t]
    {
      OverlapSample(up, x, t);
    }
  }

  lemma {:induction false} OneFrameReaches(up: Up, x: seq<Frame>, i: nat, p: nat)
    requires TapsFit(up) && up.kernel == up.stride && p < up.stride && i < |x|
    ensures RawAt(up, x, Times(i, up.stride) + p) == up.tap(x[i], p)
    decreases i
  {
    var silent := Silence(up.channels);
    if i == 0 {
      Polyphase.NothingYet(up, x[1..], p - up.stride);
      PlusLaws(up.tap(x[0], p), silent, silent);
    } else {
      OneFrameReaches(up, x[1..], i - 1, p);
      PlusLaws(up.tap(x[i], p), silent, silent);
    }
  }

  /** Every sample of a transposed conv with kernel equal to the stride, by index. */
  lemma StretchedIs(up: Up, x: seq<Frame>)
    requires Shaped(Spread(up))
    ensures Whole(Spread(up), x) == Stretched(up, x)
  {
    TimesIsProduct(|x|, up.stride);
    forall t: nat | t < |x| * up.stride
      ensures Raw(up, x)[t] == Stretched(up, x)[t]
    {
      PhaseOf(|x|, up.stride, t);
      OneFrameReaches(up, x, t / up.stride, t % up.stride);
    }
  }

  /** An attention layer mixes each frame with the rows of all frames up to its own, at their own positions. */
  lemma LayerSample(layer: Layer, x: seq<Frame>, p: nat)
    requires p < |x|
    ensures WholeLayer(layer, x)[p] == layer.mix(x[p], p, seq(p + 1, i requires 0 <= i <= p => layer.row(x[i], i)))
  {
    CausalOpen(p, Rows(layer, x, 0));
    assert Rows(layer, x, 0)[..p + 1] == seq(p + 1, i requires 0 <= i <= p => layer.row(x[i], i));
  }

  /** A stack runs its first layers, then the others on what they give. */
  lemma {:induction false} StackSplits(a: seq<Layer>, b: seq<Layer>, x: seq<Frame>)
    ensures WholeStack(a + b, x) == WholeStack(b, WholeStack(a, x))
    decreases a
  {
    if a == [] {
      assert a + b == b;
    } else {
      assert (a + b)[1..] == a[1..] + b;
      StackSplits(a[1..], b, WholeLayer(a[0], x));
    }
  }
}
