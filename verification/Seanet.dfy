/**
 The Mimi SEANet decode: the whole conv stack is run over bounded spans of
 latents, each with some real left context, instead of over the whole clip.
 */
module Seanet {
  import opened Common
  import opened Frames
  import opened Attention
  import opened CausalNet
  import Streaming

  /** A stage whose output depends on a bounded stretch of its input. */
  ghost predicate Finite(st: Stage) {
    match st
    case Attend(_, _) => false
    case Skip(body) => Finite(body)
    case Then(first, next) => Finite(first) && Finite(next)
    case _ => true
  }

  /** How many output frames can depend on input that came before: the stage's warm-up. */
  function Warm(st: Stage): nat {
    match st
    case Conv(_, reach, _, _) => reach
    case Transpose(_, up) => if up.kernel >= up.stride then up.kernel - up.stride else 0
    case Skip(body) => Warm(body)
    case Then(first, next) => Samples(next, Warm(first)) + Warm(next)
    case _ => 0
  }

  // ---- causality: later input changes no earlier output ----------------------------------

  lemma {:induction false} PrefixLaw(st: Stage, h: seq<Frame>, x: seq<Frame>)
    requires Shaped(st)
    ensures Samples(st, |h|) <= |Whole(st, h + x)|
    ensures Whole(st, h + x)[..Samples(st, |h|)] == Whole(st, h)
    decreases st
  {
    SamplesAdd(st, |h|, |x|, |h + x|);
    match st
    case Conv(_, reach, channels, g) => Streaming.WindowsExtend(Quiet(reach, channels), h, x, g);
    case Transpose(_, up) => TrimmedPrefix(up, h, x);
    case Spread(up) => Streaming.SpreadExtends(up, h, x);
    case Attend(_, layer) => LayerPrefix(layer, h, x);
    case Skip(body) =>
      PrefixLaw(body, h, x);
      SameRateKeeps(body, |h|);
      SameRateKeeps(body, |h + x|);
      MixPrefix(h, x, Whole(body, h + x));
    case Then(first, next) =>
      PrefixLaw(first, h, x);
      var all, mine := Whole(first, h + x), Whole(first, h);
      PrefixLaw(next, mine, all[|mine|..]);
      assert all == mine + all[|mine|..];
    case Point(_) =>
  }

  lemma MixPrefix(h: seq<Frame>, x: seq<Frame>, y: seq<Frame>)
    requires |y| == |h + x|
    ensures Mix(h + x, y)[..|h|] == Mix(h, y[..|h|])
  {
  }

  lemma LayerPrefix(layer: Layer, h: seq<Frame>, x: seq<Frame>)
    ensures WholeLayer(layer, h + x)[..|h|] == WholeLayer(layer, h)
  {
    CallExtendsWhole(layer, Rows(layer, h, 0) + Rows(layer, x, |h|), h, |h| + |x|, x);
  }

  lemma TrimmedPrefix(up: Up, h: seq<Frame>, x: seq<Frame>)
    requires TapsFit(up) && 1 <= up.stride <= up.kernel
    ensures Times(|h|, up.stride) <= |Trimmed(up, h + x)|
    ensures Trimmed(up, h + x)[..Times(|h|, up.stride)] == Trimmed(up, h)
  {
    var base := Times(|h|, up.stride);
    TimesAdd(up.stride, |h|, |x|, |h + x|);
    Streaming.TrimmedIs(up, h + x, base + Times(|x|, up.stride));
    Streaming.TrimmedIs(up, h, base);
    forall t: nat | t < base
      ensures Trimmed(up, h + x)[t] == Trimmed(up, h)[t]
    {
      Streaming.RawAtSides(up, h, x, base, t);
    }
  }

  // ---- forgetting: input far enough back changes no later output ----------------------------

  /** `late` agrees with the last part of `all` from its frame `w` on. */
  ghost predicate AgreesFrom(all: seq<Frame>, late: seq<Frame>, w: nat) {
    |late| <= |all| && (w <= |late| ==> Suffix(all, |late| - w) == late[w..])
  }

  lemma {:induction false} ForgetsHistory(st: Stage, p: seq<Frame>, x: seq<Frame>)
    requires Shaped(st) && Finite(st)
    ensures AgreesFrom(Whole(st, p + x), Whole(st, x), Warm(st))
    decreases st, 1
  {
    SamplesAdd(st, |p|, |x|, |p + x|);
    match st
    case Conv(_, reach, channels, g) => ConvForgets(reach, channels, g, p, x);
    case Transpose(_, up) => TransposeForgets(up, p, x);
    case Spread(up) =>
      Streaming.SpreadExtends(up, p, x);
      JoinAgrees(Raw(up, p), Raw(up, x));
    case Skip(body) =>
      SameRateKeeps(body, |x|);
      SameRateKeeps(body, |p + x|);
      ForgetsHistory(body, p, x);
      MixForgets(p, x, Whole(body, p + x), Whole(body, x), Warm(body));
    case Then(first, next) => ThenForgets(first, next, p, x);
    case Point(_) =>
  }

  lemma MixForgets(p: seq<Frame>, x: seq<Frame>, all: seq<Frame>, late: seq<Frame>, w: nat)
    requires |all| == |p + x| && |late| == |x| && AgreesFrom(all, late, w)
    ensures AgreesFrom(Mix(p + x, all), Mix(x, late), w)
  {
  }

  lemma JoinAgrees(a: seq<Frame>, b: seq<Frame>)
    ensures AgreesFrom(a + b, b, 0)
  {
  }

  lemma ConvForgets(reach: nat, channels: nat, g: seq<Frame> -> Frame, p: seq<Frame>, x: seq<Frame>)
    ensures AgreesFrom(Windows(Quiet(reach, channels), p + x, g), Windows(Quiet(reach, channels), x, g), reach)
  {
    var quiet := Quiet(reach, channels);
    forall t | reach <= t < |x|
      ensures Windows(quiet, p + x, g)[|p| + t] == Windows(quiet, x, g)[t]
    {
      SkipsContext(quiet + p, x, |p| + t, t, reach);
      SkipsContext(quiet, x, t, t, reach);
      assert quiet + p + x == quiet + (p + x);
    }
  }

  lemma SkipsContext<T>(before: seq<T>, x: seq<T>, at: nat, t: nat, reach: nat)
    requires reach <= t < |x| && at + reach == |before| + t
    ensures (before + x)[at..at + reach + 1] == x[t - reach..t + 1]
  {
  }

  lemma TransposeForgets(up: Up, p: seq<Frame>, x: seq<Frame>)
    requires TapsFit(up) && 1 <= up.stride <= up.kernel
    ensures AgreesFrom(Trimmed(up, p + x), Trimmed(up, x), up.kernel - up.stride)
  {
    var base, n := Times(|p|, up.stride), Times(|x|, up.stride);
    TimesAdd(up.stride, |p|, |x|, |p + x|);
    Streaming.TrimmedIs(up, p + x, base + n);
    Streaming.TrimmedIs(up, x, n);
    forall t | up.kernel - up.stride <= t < n
      ensures Trimmed(up, p + x)[base + t] == Trimmed(up, x)[t]
    {
      Streaming.RawAtSides(up, p, x, base, base + t);
    }
  }

  /** Composition: what the first stage still gets wrong is one more stretch of history for the next. */
  lemma {:induction false} ThenForgets(first: Stage, next: Stage, p: seq<Frame>, x: seq<Frame>)
    requires Shaped(Then(first, next)) && Finite(Then(first, next))
    ensures AgreesFrom(Whole(Then(first, next), p + x), Whole(Then(first, next), x), Warm(Then(first, next)))
    decreases Then(first, next), 0
  {
    ForgetsHistory(first, p, x);
    var ya, xa, w := Whole(first, p + x), Whole(first, x), Warm(first);
    if w <= |xa| {
      ForgetsTwice(next, ya, xa, w);
    } else {
      TooShortToTell(next, ya, xa, w);
    }
  }

  /** Inputs that agree from frame `w` on give outputs that agree once the stage has warmed up past it. */
  lemma {:induction false} ForgetsTwice(next: Stage, ya: seq<Frame>, xa: seq<Frame>, w: nat)
    requires Shaped(next) && Finite(next) && w <= |xa| <= |ya| && Suffix(ya, |xa| - w) == xa[w..]
    ensures AgreesFrom(Whole(next, ya), Whole(next, xa), Samples(next, w) + Warm(next))
    decreases next, 2
  {
    var rest := xa[w..];
    LengthsOrdered(next, |xa|, |ya|);
    ForgetsHistory(next, ya[..|ya| - |rest|], rest);
    ForgetsHistory(next, xa[..w], rest);
    assert ya == ya[..|ya| - |rest|] + rest && xa == xa[..w] + rest;
    SamplesAdd(next, w, |rest|, |xa|);
    BothAgree(Whole(next, ya), Whole(next, xa), Whole(next, rest), Samples(next, w), Warm(next));
  }

  lemma LengthsOrdered(st: Stage, a: nat, b: nat)
    requires a <= b
    ensures Samples(st, a) <= Samples(st, b)
  {
    SamplesAdd(st, a, b - a, b);
  }

  lemma TooShortToTell(next: Stage, ya: seq<Frame>, xa: seq<Frame>, w: nat)
    requires Shaped(next) && |xa| <= |ya| && |xa| < w
    ensures AgreesFrom(Whole(next, ya), Whole(next, xa), Samples(next, w) + Warm(next))
  {
    LengthsOrdered(next, |xa|, |ya|);
    LengthsOrdered(next, |xa|, w);
  }

  /** Two signals that agree with a third from its frame `k` on agree with each other from there. */
  lemma BothAgree(a: seq<Frame>, b: seq<Frame>, c: seq<Frame>, w: nat, k: nat)
    requires AgreesFrom(a, c, k) && AgreesFrom(b, c, k) && |b| == w + |c| && |b| <= |a|
    ensures AgreesFrom(a, b, w + k)
  {
  }

  // ---- the span decode ---------------------------------------------------------------------


  /** One span, decoded with `warm` real frames before it, their samples dropped again. */
  function Stretch(net: Stage, lat: seq<Frame>, s0: nat, s1: nat, warm: nat): seq<Frame>
    requires Shaped(net) && warm <= s0 <= s1 <= |lat|
    ensures |Stretch(net, lat, s0, s1, warm)| == Samples(net, s1 - s0)
  {
    SamplesAdd(net, warm, s1 - s0, |lat[s0 - warm..s1]|);
    Whole(net, lat[s0 - warm..s1])[Samples(net, warm)..]
  }

  /** The decoder's graph B as the span loop calls it: first frame, end, context. */
  type SpanDecoder = (nat, nat, nat) -> seq<Frame>

  function Decoder(net: Stage, lat: seq<Frame>): SpanDecoder
    requires Shaped(net)
  {
    (s0: nat, s1: nat, warm: nat) => if warm <= s0 <= s1 <= |lat| then Stretch(net, lat, s0, s1, warm) else []
  }

  /** Frames `s0..len`, span by span, each with up to `ctx` frames of context. */
  function Spans(decode: SpanDecoder, len: nat, span: nat, ctx: nat, s0: nat): seq<Frame>
    requires span > 0
    decreases len - s0
  {
    if s0 >= len then []
    else
      var s1 := Min(len, s0 + span);
      decode(s0, s1, Min(s0, ctx)) + Spans(decode, len, span, ctx, s1)
  }

  /** The loop over spans, each span's samples copied to their place in the output. */
  method DecodeSpans(decode: SpanDecoder, len: nat, span: nat, ctx: nat, total: nat) returns (pcm: array<Frame>)
    requires span > 0 && total == |Spans(decode, len, span, ctx, 0)|
    ensures pcm[..] == Spans(decode, len, span, ctx, 0)
  {
    pcm := new Frame[total](_ => []);
    ghost var all := Spans(decode, len, span, ctx, 0);
    var s0: nat, base: nat := 0, 0;
    while s0 < len
      invariant 0 <= s0 <= len && 0 <= base <= pcm.Length == |all|
      invariant pcm[..base] + Spans(decode, len, span, ctx, s0) == all
    {
      SpanNext(decode, len, span, ctx, s0, pcm[..base], all);
      var s1 := Min(len, s0 + span);
      var part := decode(s0, s1, Min(s0, ctx));
      CopyInto(pcm, base, part);
      s0, base := s1, base + |part|;
    }
  }

  /** One more span: what is done, this span, and the spans after it. */
  lemma SpanNext(decode: SpanDecoder, len: nat, span: nat, ctx: nat, s0: nat, done: seq<Frame>, all: seq<Frame>)
    requires span > 0 && s0 < len && done + Spans(decode, len, span, ctx, s0) == all
    ensures |done| + |decode(s0, Min(len, s0 + span), Min(s0, ctx))| <= |all|
    ensures done + decode(s0, Min(len, s0 + span), Min(s0, ctx))
                 + Spans(decode, len, span, ctx, Min(len, s0 + span)) == all
  {
  }

  method CopyInto(a: array<Frame>, at: nat, part: seq<Frame>)
    requires at + |part| <= a.Length
    modifies a
    ensures a[..at + |part|] == old(a[..at]) + part
    ensures a[at + |part|..] == old(a[at + |part|..])
  {
    forall i | 0 <= i < |part| {
      a[at + i] := part[i];
    }
  }

  /** One span is exactly its stretch of the whole clip, when the context covers the warm-up. */
  lemma StretchIsWhole(net: Stage, lat: seq<Frame>, s0: nat, s1: nat, warm: nat)
    requires Shaped(net) && Finite(net) && warm <= s0 <= s1 <= |lat|
    requires Warm(net) <= Samples(net, warm) || warm == s0
    ensures Samples(net, s0) <= Samples(net, s1) <= |Whole(net, lat)|
    ensures Stretch(net, lat, s0, s1, warm) == Whole(net, lat)[Samples(net, s0)..Samples(net, s1)]
  {
    var n := s1 - s0;
    SamplesAdd(net, s0, n, s1);
    UpToIsWhole(net, lat, s1);
    StretchIsLast(net, lat, s0, n, s1, warm);
    CutOfFirst(Whole(net, lat), Whole(net, lat[..s1]), Stretch(net, lat, s0, s1, warm),
               Samples(net, s0), Samples(net, s1), Samples(net, n));
  }

  /** One span is the end of the clip up to that span. */
  lemma StretchIsLast(net: Stage, lat: seq<Frame>, s0: nat, n: nat, s1: nat, warm: nat)
    requires Shaped(net) && Finite(net) && warm <= s0 && s1 == s0 + n <= |lat|
    requires Warm(net) <= Samples(net, warm) || warm == s0
    ensures Samples(net, n) <= |Whole(net, lat[..s1])|
    ensures Stretch(net, lat, s0, s1, warm) == Suffix(Whole(net, lat[..s1]), Samples(net, n))
  {
    WarmIsEnough(net, lat[..s0 - warm], lat[s0 - warm..s1], warm, n);
    assert lat[..s1] == lat[..s0 - warm] + lat[s0 - warm..s1];
  }

  lemma WarmIsEnough(net: Stage, p: seq<Frame>, x: seq<Frame>, warm: nat, n: nat)
    requires Shaped(net) && Finite(net) && |x| == warm + n
    requires Warm(net) <= Samples(net, warm) || p == []
    ensures Samples(net, warm) <= |Whole(net, x)| && Samples(net, n) <= |Whole(net, p + x)|
    ensures Whole(net, x)[Samples(net, warm)..] == Suffix(Whole(net, p + x), Samples(net, n))
  {
    SamplesAdd(net, warm, n, |x|);
    if p == [] {
      assert p + x == x;
    } else {
      ForgetsHistory(net, p, x);
      LateCut(Whole(net, p + x), Whole(net, x), Warm(net), Samples(net, warm));
    }
  }

  lemma LateCut(all: seq<Frame>, late: seq<Frame>, w: nat, skip: nat)
    requires AgreesFrom(all, late, w) && w <= skip <= |late|
    ensures late[skip..] == Suffix(all, |late| - skip)
  {
    assert late[skip..] == late[w..][skip - w..];
  }

  lemma CutOfFirst<T>(whole: seq<T>, first: seq<T>, cut: seq<T>, from: nat, to: nat, n: nat)
    requires to <= |whole| && first == whole[..to] && to == from + n && cut == Suffix(first, n)
    ensures from <= to && cut == whole[from..to]
  {
  }

  lemma UpToIsWhole(net: Stage, lat: seq<Frame>, s1: nat)
    requires Shaped(net) && s1 <= |lat|
    ensures Samples(net, s1) <= |Whole(net, lat)| && Whole(net, lat[..s1]) == Whole(net, lat)[..Samples(net, s1)]
  {
    assert lat == lat[..s1] + lat[s1..];
    PrefixLaw(net, lat[..s1], lat[s1..]);
  }

  lemma JoinCuts<T>(whole: seq<T>, a: nat, b: nat, part: seq<T>, rest: seq<T>)
    requires a <= b <= |whole| && part == whole[a..b] && rest == whole[b..]
    ensures part + rest == whole[a..]
  {
  }

  /** With enough context, decoding in spans is decoding the whole clip: any clip, any span length. */
  lemma {:induction false} SpansAreWhole(net: Stage, lat: seq<Frame>, span: nat, ctx: nat, s0: nat)
    requires Shaped(net) && Finite(net) && span > 0 && s0 <= |lat|
    requires Warm(net) <= Samples(net, ctx)
    ensures Samples(net, s0) <= |Whole(net, lat)|
    ensures Spans(Decoder(net, lat), |lat|, span, ctx, s0) == Whole(net, lat)[Samples(net, s0)..]
    decreases |lat| - s0
  {
    if s0 == |lat| {
      assert Whole(net, lat)[Samples(net, s0)..] == [];
    } else {
      var s1, warm := Min(|lat|, s0 + span), Min(s0, ctx);
      SpansAreWhole(net, lat, span, ctx, s1);
      if warm == s0 {
        StretchJoins(net, lat, s0, s1, warm, Spans(Decoder(net, lat), |lat|, span, ctx, s1));
      } else {
        StretchJoins(net, lat, s0, s1, ctx, Spans(Decoder(net, lat), |lat|, span, ctx, s1));
      }
    }
  }

  lemma StretchJoins(net: Stage, lat: seq<Frame>, s0: nat, s1: nat, warm: nat, rest: seq<Frame>)
    requires Shaped(net) && Finite(net) && warm <= s0 <= s1 <= |lat|
    requires Warm(net) <= Samples(net, warm) || warm == s0
    requires Samples(net, s1) <= |Whole(net, lat)| && rest == Whole(net, lat)[Samples(net, s1)..]
    ensures Samples(net, s0) <= |Whole(net, lat)|
    ensures Stretch(net, lat, s0, s1, warm) + rest == Whole(net, lat)[Samples(net, s0)..]
  {
    StretchIsWhole(net, lat, s0, s1, warm);
    JoinCuts(Whole(net, lat), Samples(net, s0), Samples(net, s1), Stretch(net, lat, s0, s1, warm), rest);
  }

  /** The whole clip, span by span. */
  function InSpans(net: Stage, lat: seq<Frame>, span: nat, ctx: nat): seq<Frame>
    requires Shaped(net) && span > 0
  {
    Spans(Decoder(net, lat), |lat|, span, ctx, 0)
  }

  lemma InSpansIsWhole(net: Stage, lat: seq<Frame>, span: nat, ctx: nat)
    requires Shaped(net) && Finite(net) && span > 0 && Warm(net) <= Samples(net, ctx)
    ensures InSpans(net, lat, span, ctx) == Whole(net, lat)
  {
    SamplesAdd(net, 0, 0, 0);
    SpansAreWhole(net, lat, span, ctx, 0);
  }

  lemma {:induction false} SpansLength(net: Stage, lat: seq<Frame>, span: nat, ctx: nat, s0: nat, left: nat)
    requires Shaped(net) && span > 0 && s0 + left == |lat|
    ensures |Spans(Decoder(net, lat), |lat|, span, ctx, s0)| == Samples(net, left)
    decreases left
  {
    if s0 == |lat| {
      NothingDecodesToNothing(net);
    } else {
      var s1 := Min(|lat|, s0 + span);
      SpansLength(net, lat, span, ctx, s1, |lat| - s1);
      SpansStart(Decoder(net, lat), |lat|, span, ctx, s0, s1);
      SpanLength(net, lat, s0, s1, Min(s0, ctx), s1 - s0);
      SamplesAdd(net, s1 - s0, |lat| - s1, left);
    }
  }

  lemma SpansStart(decode: SpanDecoder, len: nat, span: nat, ctx: nat, s0: nat, s1: nat)
    requires span > 0 && s0 < len && s1 == Min(len, s0 + span)
    ensures |Spans(decode, len, span, ctx, s0)| == |decode(s0, s1, Min(s0, ctx))| + |Spans(decode, len, span, ctx, s1)|
  {
  }

  lemma SpanLength(net: Stage, lat: seq<Frame>, s0: nat, s1: nat, warm: nat, n: nat)
    requires Shaped(net) && warm <= s0 && s0 + n == s1 <= |lat|
    ensures |Decoder(net, lat)(s0, s1, warm)| == Samples(net, n)
  {
  }

  /** Decoding latents: every clip comes out as long as the whole decode, and equal to it given enough context. */
  method Decode(net: Stage, lat: seq<Frame>, span: nat, ctx: nat) returns (pcm: array<Frame>)
    requires Shaped(net) && span > 0
    ensures pcm[..] == InSpans(net, lat, span, ctx) && pcm.Length == |Whole(net, lat)|
    ensures Finite(net) && Warm(net) <= Samples(net, ctx) ==> pcm[..] == Whole(net, lat)
  {
    SpansLength(net, lat, span, ctx, 0, |lat|);
    pcm := DecodeSpans(Decoder(net, lat), |lat|, span, ctx, Samples(net, |lat|));
    if Finite(net) && Warm(net) <= Samples(net, ctx) {
      InSpansIsWhole(net, lat, span, ctx);
    }
  }
}
