/**
 How much left context a span really needs. For weights that are all one, the
 reach of every input frame is exactly the warm-up of the stage, so the bound
 used by the span decode cannot be lowered.
 */
module Receptive {
  import opened Common
  import opened Frames
  import opened CausalNet
  import opened Seanet
  import Streaming

  /** One channel, nothing negative. */
  predicate Mono(f: Frame) {
    |f| == 1 && f[0] >= 0
  }

  predicate Calm(x: seq<Frame>) {
    forall i :: 0 <= i < |x| ==> Mono(x[i])
  }

  function Total(w: seq<Frame>): int
    requires Calm(w)
  {
    if w == [] then 0 else w[0][0] + Total(w[1..])
  }

  /** Every weight is one and every bias zero; activations leave what is not negative alone. */
  ghost predicate Plain(st: Stage) {
    match st
    case Point(f) => forall x: Frame :: Mono(x) ==> f(x) == x
    case Conv(_, _, channels, g) => channels == 1 && OnesConv(g)
    case Transpose(_, up) => up.channels == 1 && OnesUp(up)
    case Skip(body) => Plain(body)
    case Then(first, next) => Plain(first) && Plain(next)
    case _ => false
  }

  ghost predicate OnesConv(g: seq<Frame> -> Frame) {
    forall w: seq<Frame> :: Calm(w) ==> g(w) == [Total(w)]
  }

  ghost predicate OnesUp(up: Up) {
    forall x: Frame, j: nat :: Mono(x) && j < up.kernel ==> up.tap(x, j) == x
  }

  lemma {:induction false} TotalIs(w: seq<Frame>, k: nat)
    requires Calm(w)
    ensures Total(w) >= 0
    ensures k < |w| ==> Total(w) >= w[k][0]
  {
    if w != [] {
      TotalIs(w[1..], if k > 0 then k - 1 else 0);
    }
  }

  lemma {:induction false} TotalSilent(n: nat)
    ensures Calm(Quiet(n, 1)) && Total(Quiet(n, 1)) == 0
  {
    if n > 0 {
      TotalSilent(n - 1);
      assert Quiet(n, 1)[1..] == Quiet(n - 1, 1);
    }
  }

  // ---- transposed convolutions ---------------------------------------------------------

  /** Raw output `t` is silent without input, and loud wherever a loud frame `i` reaches. */
  lemma {:induction false} RawReach(up: Up, x: seq<Frame>, t: int, i: nat)
    requires up.channels == 1 && OnesUp(up) && Calm(x)
    ensures Mono(RawAt(up, x, t))
    ensures i < |x| && x[i][0] > 0 && 0 <= t - Times(i, up.stride) < up.kernel ==> RawAt(up, x, t)[0] > 0
    decreases x
  {
    if x != [] {
      RawReach(up, x[1..], t - up.stride, if i > 0 then i - 1 else 0);
      assert Mono(Hit(up, x[0], t)) by { assert Mono(x[0]); }
    }
  }

  lemma {:induction false} RawSilent(up: Up, n: nat, t: int)
    requires up.channels == 1 && OnesUp(up)
    ensures RawAt(up, Quiet(n, 1), t) == Silence(1)
  {
    if n > 0 {
      RawSilent(up, n - 1, t - up.stride);
      assert Quiet(n, 1)[1..] == Quiet(n - 1, 1);
      assert Mono(Silence(1));
      assert Hit(up, Quiet(n, 1)[0], t) == Silence(1);
      PlusLaws(Silence(1), Silence(1), Silence(1));
    }
  }

  // ---- whole nets ------------------------------------------------------------------------

  lemma {:induction false} StaysCalm(st: Stage, x: seq<Frame>)
    requires Shaped(st) && Plain(st) && Calm(x)
    ensures Calm(Whole(st, x))
  {
    match st
    case Conv(_, reach, _, g) =>
      forall t: nat | t < |x|
        ensures Mono(Whole(st, x)[t])
      {
        WindowReach(reach, g, x, t, t);
      }
    case Transpose(_, up) =>
      Streaming.TrimmedIs(up, x, Times(|x|, up.stride));
      forall t: nat | t < Times(|x|, up.stride)
        ensures Mono(Trimmed(up, x)[t])
      {
        RawReach(up, x, t, 0);
      }
    case Skip(body) =>
      StaysCalm(body, x);
      SameRateKeeps(body, |x|);
    case Then(first, next) =>
      StaysCalm(first, x);
      StaysCalm(next, Whole(first, x));
    case Point(f) =>
  }

  lemma WindowReach(reach: nat, g: seq<Frame> -> Frame, x: seq<Frame>, t: nat, i: nat)
    requires OnesConv(g) && Calm(x) && t < |x| && i <= t <= i + reach
    ensures Mono(Windows(Quiet(reach, 1), x, g)[t]) && Windows(Quiet(reach, 1), x, g)[t][0] >= x[i][0]
  {
    WindowHas(Quiet(reach, 1), x, t, i);
  }

  lemma WindowHas(context: seq<Frame>, x: seq<Frame>, t: nat, i: nat)
    requires Calm(context) && Calm(x) && t < |x| && i <= t <= i + |context|
    ensures Calm((context + x)[t..t + |context| + 1])
    ensures Total((context + x)[t..t + |context| + 1]) >= x[i][0] >= 0
  {
    CalmJoin(context, x);
    CalmCut(context + x, t, t + |context| + 1);
    TotalIs((context + x)[t..t + |context| + 1], i + |context| - t);
    assert (context + x)[i + |context|] == x[i];
  }

  lemma CalmJoin(a: seq<Frame>, b: seq<Frame>)
    requires Calm(a) && Calm(b)
    ensures Calm(a + b)
  {
  }

  lemma CalmCut(a: seq<Frame>, from: nat, to: nat)
    requires Calm(a) && from <= to <= |a|
    ensures Calm(a[from..to])
  {
  }

  /** A stage of plain weights passes silence through as silence. */
  lemma {:induction false} StaysSilent(st: Stage, n: nat)
    requires Shaped(st) && Plain(st)
    ensures Whole(st, Quiet(n, 1)) == Quiet(Samples(st, n), 1)
  {
    assert Mono(Silence(1));
    match st
    case Conv(_, reach, _, g) =>
      forall t: nat | t < n
        ensures Whole(st, Quiet(n, 1))[t] == Silence(1)
      {
        assert (Quiet(reach, 1) + Quiet(n, 1))[t..t + reach + 1] == Quiet(reach + 1, 1);
        TotalSilent(reach + 1);
      }
    case Transpose(_, up) =>
      Streaming.TrimmedIs(up, Quiet(n, 1), Times(n, up.stride));
      forall t: nat | t < Times(n, up.stride)
        ensures Trimmed(up, Quiet(n, 1))[t] == Silence(1)
      {
        RawSilent(up, n, t);
      }
    case Skip(body) =>
      StaysSilent(body, n);
      SameRateKeeps(body, n);
      PlusLaws(Silence(1), Silence(1), Silence(1));
    case Then(first, next) =>
      StaysSilent(first, n);
      StaysSilent(next, Samples(first, n));
    case Point(f) =>
  }

  /** The last frame in `lo..hi` whose samples start at or before sample `t`. */
  lemma {:induction false} LastStart(st: Stage, lo: nat, hi: nat, t: nat) returns (k: nat)
    requires lo < hi && Samples(st, lo) <= t
    ensures lo <= k < hi && Samples(st, k) <= t
    ensures k == hi - 1 || t < Samples(st, k + 1)
    decreases hi
  {
    if Samples(st, hi - 1) <= t || lo == hi - 1 {
      k := hi - 1;
    } else {
      k := LastStart(st, lo, hi - 1, t);
    }
  }

  /**
   A loud frame `i` is heard in every sample from its own first one to the end
   of its own samples plus the warm-up: the receptive field is no smaller.
   */
  lemma {:induction false} Reaches(st: Stage, x: seq<Frame>, i: nat, t: nat)
    requires Shaped(st) && Plain(st) && Calm(x) && i < |x| && x[i][0] > 0
    requires Samples(st, i) <= t < Samples(st, i + 1) + Warm(st) && t < Samples(st, |x|)
    ensures |Whole(st, x)[t]| == 1 && Whole(st, x)[t][0] > 0
    decreases st, 1
  {
    match st
    case Point(f) => assert Mono(x[i]);
    case Conv(_, reach, _, g) => WindowReach(reach, g, x, t, i);
    case Transpose(_, up) =>
      Streaming.TrimmedIs(up, x, Times(|x|, up.stride));
      RawReach(up, x, t, i);
    case Skip(body) => SkipReaches(body, x, i, t);
    case Then(first, next) => ThenReaches(first, next, x, i, t);
  }

  lemma {:induction false} SkipReaches(body: Stage, x: seq<Frame>, i: nat, t: nat)
    requires Shaped(body) && SameRate(body) && Plain(body) && Calm(x) && i < |x| && x[i][0] > 0
    requires i <= t < i + 1 + Warm(body) && t < |x|
    ensures |Whole(Skip(body), x)[t]| == 1 && Whole(Skip(body), x)[t][0] > 0
    decreases Skip(body), 0
  {
    SameRateKeeps(body, i);
    SameRateKeeps(body, i + 1);
    SameRateKeeps(body, |x|);
    Reaches(body, x, i, t);
    assert Mono(x[t]);
  }

  lemma {:induction false} ThenReaches(first: Stage, next: Stage, x: seq<Frame>, i: nat, t: nat)
    requires Shaped(Then(first, next)) && Plain(Then(first, next)) && Calm(x) && i < |x| && x[i][0] > 0
    requires Samples(Then(first, next), i) <= t < Samples(Then(first, next), i + 1) + Warm(Then(first, next))
    requires t < Samples(Then(first, next), |x|)
    ensures |Whole(Then(first, next), x)[t]| == 1 && Whole(Then(first, next), x)[t][0] > 0
    decreases Then(first, next), 0
  {
    var k := SourceFrame(first, next, i, t, |x|);
    StaysCalm(first, x);
    Reaches(first, x, i, k);
    Reaches(next, Whole(first, x), k, t);
  }

  /** The frame between two stages through which frame `i` is heard at sample `t`. */
  lemma SourceFrame(first: Stage, next: Stage, i: nat, t: nat, len: nat) returns (k: nat)
    requires Shaped(first) && i < len
    requires Samples(next, Samples(first, i)) <= t < Samples(next, Samples(first, len))
    requires t < Samples(next, Samples(first, i + 1)) + Samples(next, Warm(first)) + Warm(next)
    ensures Samples(first, i) <= k < Samples(first, i + 1) + Warm(first) && k < Samples(first, len)
    ensures Samples(next, k) <= t < Samples(next, k + 1) + Warm(next)
  {
    var lo, end, all := Samples(first, i), Samples(first, i + 1), Samples(first, len);
    SamplesAdd(first, i, 1, i + 1);
    SamplesPositive(first, 1);
    SamplesAdd(first, i + 1, len - i - 1, len);
    SamplesAdd(next, end, Warm(first), end + Warm(first));
    k := LastStart(next, lo, Min(all, end + Warm(first)), t);
  }

  // ---- the bound is exact ------------------------------------------------------------------

  /** One loud frame, then silence. */
  function Click(before: nat, after: nat): seq<Frame> {
    Quiet(before, 1) + [[1]] + Quiet(after, 1)
  }

  lemma ClickIs(before: nat, after: nat)
    ensures |Click(before, after)| == before + 1 + after
    ensures Calm(Click(before, after)) && Click(before, after)[before] == [1]
    ensures Click(before, after)[before + 1..] == Quiet(after, 1)
  {
  }

  /** Too little context: the span after the first one misses the click it should still hear. */
  lemma TooShort(net: Stage, span: nat, ctx: nat)
    requires Shaped(net) && Plain(net) && Samples(net, ctx) < Warm(net) && ctx < span
    ensures InSpans(net, Click(span - ctx - 1, ctx + 1), span, ctx) != Whole(net, Click(span - ctx - 1, ctx + 1))
  {
    var i, lat := span - ctx - 1, Click(span - ctx - 1, ctx + 1);
    ClickIs(i, ctx + 1);
    SamplesPositive(net, 1);
    ClickHeard(net, lat, i, span, ctx);
    WindowSilent(net, lat, span, ctx);
    SecondSpan(net, lat, span, ctx);
    Differ(InSpans(net, lat, span, ctx), Whole(net, lat), Stretch(net, lat, 0, span, 0), Samples(net, 1));
  }

  lemma Differ(spans: seq<Frame>, whole: seq<Frame>, before: seq<Frame>, n: nat)
    requires n > 0 && spans == before + Quiet(n, 1)
    requires |before| < |whole| && whole[|before|] != Silence(1)
    ensures spans != whole
  {
    assert spans[|before|] == Quiet(n, 1)[0];
  }

  lemma ClickHeard(net: Stage, lat: seq<Frame>, i: nat, span: nat, ctx: nat)
    requires Shaped(net) && Plain(net) && Samples(net, ctx) < Warm(net) && Samples(net, 1) >= 1
    requires span == i + ctx + 1 && |lat| == span + 1 && Calm(lat) && lat[i] == [1]
    ensures Samples(net, span) < |Whole(net, lat)|
    ensures Whole(net, lat)[Samples(net, span)] != Silence(1)
  {
    SamplesAdd(net, i, 1, i + 1);
    SamplesAdd(net, i + 1, ctx, span);
    SamplesAdd(net, span, 1, |lat|);
    Reaches(net, lat, i, Samples(net, span));
  }

  lemma WindowSilent(net: Stage, lat: seq<Frame>, span: nat, ctx: nat)
    requires Shaped(net) && Plain(net) && ctx < span && |lat| == span + 1
    requires lat[span - ctx..] == Quiet(ctx + 1, 1)
    ensures Stretch(net, lat, span, span + 1, ctx) == Quiet(Samples(net, 1), 1)
  {
    assert lat[span - ctx..span + 1] == lat[span - ctx..];
    SilentTail(net, ctx, 1, ctx + 1);
  }

  lemma SilentTail(net: Stage, skip: nat, n: nat, len: nat)
    requires Shaped(net) && Plain(net) && len == skip + n
    ensures Samples(net, skip) <= |Whole(net, Quiet(len, 1))|
    ensures Whole(net, Quiet(len, 1))[Samples(net, skip)..] == Quiet(Samples(net, n), 1)
  {
    StaysSilent(net, len);
    SamplesAdd(net, skip, n, len);
  }

  lemma TwoSpans(decode: SpanDecoder, span: nat, ctx: nat)
    requires ctx < span
    ensures Spans(decode, span + 1, span, ctx, 0) == decode(0, span, 0) + decode(span, span + 1, ctx)
  {
    assert Spans(decode, span + 1, span, ctx, span + 1) == [];
    assert Spans(decode, span + 1, span, ctx, span) == decode(span, span + 1, ctx) + [];
  }

  lemma SecondSpan(net: Stage, lat: seq<Frame>, span: nat, ctx: nat)
    requires Shaped(net) && ctx < span && |lat| == span + 1
    ensures InSpans(net, lat, span, ctx) == Stretch(net, lat, 0, span, 0) + Stretch(net, lat, span, span + 1, ctx)
  {
    TwoSpans(Decoder(net, lat), span, ctx);
  }

  ghost predicate AlwaysWhole(net: Stage, ctx: nat)
    requires Shaped(net)
  {
    forall lat: seq<Frame>, span: nat :: span > 0 ==> InSpans(net, lat, span, ctx) == Whole(net, lat)
  }

  /** For plain weights the warm-up is exactly the context that makes every span decode right. */
  lemma ExactContext(net: Stage, ctx: nat)
    requires Shaped(net) && Finite(net) && Plain(net)
    ensures AlwaysWhole(net, ctx) <==> Warm(net) <= Samples(net, ctx)
  {
    if Warm(net) <= Samples(net, ctx) {
      forall lat: seq<Frame>, span: nat | span > 0
        ensures InSpans(net, lat, span, ctx) == Whole(net, lat)
      {
        InSpansIsWhole(net, lat, span, ctx);
      }
    } else {
      TooShort(net, ctx + 1, ctx);
    }
  }
}
