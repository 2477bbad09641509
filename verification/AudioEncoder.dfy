/**
 Encoding a voice sample: strided causal convs whose tracked length must match
 what the convs really produce, and the residual quantiser over the result.
 */
module AudioEncoder {
  import opened Frames
  import opened Attention
  import opened CausalNet
  import opened Indexed

  // ---- lengths ------------------------------------------------------------------------------

  function CeilDiv(n: nat, s: nat): nat
    requires s >= 1
  {
    (n + s - 1) / s
  }

  /** Right padding that makes the length a multiple of the stride. */
  function ExtraPad(n: nat, s: nat): int
    requires s >= 1
  {
    (n + s - 1) / s * s - n
  }

  /** How many windows of `kernel` frames, `s` apart, fit. */
  function Fit(n: nat, kernel: nat, s: nat): nat
    requires s >= 1
  {
    if n < kernel then 0 else (n - kernel) / s + 1
  }

  lemma CeilBounds(n: nat, s: nat)
    requires s >= 1
    ensures CeilDiv(n, s) * s - s < n <= CeilDiv(n, s) * s
    ensures 0 <= ExtraPad(n, s) < s
  {
    var c := CeilDiv(n, s);
    assert n + s - 1 == c * s + (n + s - 1) % s;
  }

  lemma Spaced(a: int, b: int, s: nat)
    requires a < b
    ensures a * s + s <= b * s
  {
    assert (b - a - 1) * s >= 0;
  }

  lemma CeilIs(n: nat, s: nat, c: nat)
    requires s >= 1 && c * s - s < n <= c * s
    ensures CeilDiv(n, s) == c
  {
    CeilBounds(n, s);
    var d := CeilDiv(n, s);
    if d < c {
      Spaced(d, c, s);
    } else if c < d {
      Spaced(c, d, s);
    }
  }

  /** Rounding up twice is rounding up once by the product. */
  lemma NestedCeil(n: nat, a: nat, b: nat)
    requires a >= 1 && b >= 1
    ensures a * b >= 1 && CeilDiv(CeilDiv(n, a), b) == CeilDiv(n, a * b)
  {
    var m := CeilDiv(n, a);
    var c := CeilDiv(m, b);
    CeilBounds(n, a);
    CeilBounds(m, b);
    ProductPositive(a, b);
    Upper(n, a, b, m, c);
    Lower(n, a, b, m, c);
    CeilIs(n, a * b, c);
  }

  lemma ProductPositive(a: nat, b: nat)
    requires a >= 1 && b >= 1
    ensures a * b >= 1
  {
  }

  lemma Upper(n: nat, a: nat, b: nat, m: nat, c: nat)
    requires n <= m * a && m <= c * b
    ensures n <= c * (a * b)
  {
    assert m * a <= c * b * a;
    assert c * b * a == c * (a * b);
  }

  lemma Lower(n: nat, a: nat, b: nat, m: nat, c: nat)
    requires m * a - a < n && c * b - b < m
    ensures c * (a * b) - a * b < n
  {
    assert c * b - b <= m - 1;
    assert (c * b - b) * a <= (m - 1) * a;
    assert (c * b - b) * a == c * (a * b) - a * b;
    assert (m - 1) * a == m * a - a;
  }

  /** The padded conv yields exactly the length the builder tracks. */
  lemma PaddedLength(n: nat, s: nat)
    requires s >= 1
    ensures ExtraPad(n, s) >= 0 && Fit(s + n + ExtraPad(n, s), 2 * s, s) == CeilDiv(n, s)
  {
    var c := CeilDiv(n, s);
    CeilBounds(n, s);
    assert s + n + ExtraPad(n, s) == c * s + s;
    if c == 0 {
      assert c * s == 0;
    } else {
      assert c * s + s - 2 * s == (c - 1) * s;
      assert (c - 1) * s >= 0;
      Divides(c - 1, s);
    }
  }

  lemma Divides(c: nat, s: nat)
    requires s >= 1
    ensures c * s / s == c
  {
    var q := c * s / s;
    assert c * s == q * s + c * s % s;
    if q < c {
      Spaced(q, c, s);
    } else if c < q {
      Spaced(c, q, s);
    }
  }

  // ---- strided convolutions ----------------------------------------------------------------------

  function Strided(p: seq<Frame>, kernel: nat, s: nat, g: seq<Frame> -> Frame): (y: seq<Frame>)
    requires s >= 1
    ensures |y| == Fit(|p|, kernel, s)
  {
    seq(Fit(|p|, kernel, s), i requires 0 <= i < Fit(|p|, kernel, s) =>
      if i * s + kernel <= |p| then g(p[i * s..i * s + kernel]) else [])
  }

  /** The `2 * s` frames from `first` on, silence outside the clip. */
  function Reading(x: seq<Frame>, first: int, s: nat, channels: nat): (w: seq<Frame>)
    ensures |w| == 2 * s
  {
    seq(2 * s, j requires 0 <= j < 2 * s => FrameAt(x, first + j, channels))
  }

  /** Frame `i` of the output reads the `s` frames before frame `i * s` and the `s` from it on. */
  function Thinned(x: seq<Frame>, s: nat, channels: nat, g: seq<Frame> -> Frame): (y: seq<Frame>)
    requires s >= 1
    ensures |y| == CeilDiv(|x|, s)
  {
    seq(CeilDiv(|x|, s), i requires 0 <= i < CeilDiv(|x|, s) => g(Reading(x, i * s - s, s, channels)))
  }

  /** Frame `t`, the first one for every time before the clip and the last one for every time after it. */
  function HeldAt(x: seq<Frame>, t: int): Frame
    requires x != []
  {
    if t < 0 then x[0] else if t < |x| then x[t] else x[|x| - 1]
  }

  /** Frame `i` of the output reads frames `2 * i - 2 .. 2 * i + 1`, the edges held. */
  function Halved(x: seq<Frame>, g: seq<Frame> -> Frame): (y: seq<Frame>)
    ensures |y| == CeilDiv(|x|, 2)
  {
    seq(CeilDiv(|x|, 2), i requires 0 <= i < CeilDiv(|x|, 2) =>
      if x == [] then []
      else g([HeldAt(x, 2 * i - 2), HeldAt(x, 2 * i - 1), HeldAt(x, 2 * i), HeldAt(x, 2 * i + 1)]))
  }

  lemma PaddedWindow(x: seq<Frame>, p: seq<Frame>, s: nat, right: nat, channels: nat, at: nat)
    requires p == Quiet(s, channels) + x + Quiet(right, channels) && at + 2 * s <= |p|
    ensures p[at..at + 2 * s] == Reading(x, at - s, s, channels)
  {
    var w, r := p[at..at + 2 * s], Reading(x, at - s, s, channels);
    forall j: nat | j < 2 * s
      ensures w[j] == r[j]
    {
      assert w[j] == p[at + j] && r[j] == FrameAt(x, at - s + j, channels);
    }
  }

  lemma StridedFits(n: nat, s: nat, i: nat, length: nat)
    requires s >= 1 && i < CeilDiv(n, s) && length == s + n + ExtraPad(n, s)
    ensures i * s + 2 * s <= length
  {
    var c := CeilDiv(n, s);
    assert length == c * s + s;
    Spaced(i, c, s);
  }

  lemma StridedIsThinned(x: seq<Frame>, s: nat, right: nat, channels: nat, g: seq<Frame> -> Frame)
    requires s >= 1 && right == ExtraPad(|x|, s)
    ensures Strided(Quiet(s, channels) + x + Quiet(right, channels), 2 * s, s, g) == Thinned(x, s, channels, g)
  {
    var p := Quiet(s, channels) + x + Quiet(right, channels);
    PaddedLength(|x|, s);
    assert |p| == s + |x| + right;
    forall i: nat | i < CeilDiv(|x|, s)
      ensures Strided(p, 2 * s, s, g)[i] == Thinned(x, s, channels, g)[i]
    {
      StridedFits(|x|, s, i, |p|);
      PaddedWindow(x, p, s, right, channels, i * s);
    }
  }

  ghost predicate EdgesHeld(x: seq<Frame>, p: seq<Frame>)
    requires x != []
  {
    |p| >= |x| + 2 && forall j :: 0 <= j < |p| ==> p[j] == HeldAt(x, j - 2)
  }

  lemma StridedIsHalved(x: seq<Frame>, p: seq<Frame>, g: seq<Frame> -> Frame)
    requires x != [] && EdgesHeld(x, p) && |p| == 2 + |x| + ExtraPad(|x|, 2)
    ensures Strided(p, 4, 2, g) == Halved(x, g)
  {
    PaddedLength(|x|, 2);
    forall i: nat | i < CeilDiv(|x|, 2)
      ensures Strided(p, 4, 2, g)[i] == Halved(x, g)[i]
    {
      StridedFits(|x|, 2, i, |p|);
      FourFrames(x, p, i);
    }
  }

  lemma FourFrames(x: seq<Frame>, p: seq<Frame>, i: nat)
    requires x != [] && EdgesHeld(x, p) && 2 * i + 4 <= |p|
    ensures p[i * 2..i * 2 + 4] == [HeldAt(x, 2 * i - 2), HeldAt(x, 2 * i - 1), HeldAt(x, 2 * i), HeldAt(x, 2 * i + 1)]
  {
  }

  /** One strided conv, padded by what the tracked length asks for. */
  method Downsample(x: seq<Frame>, seqLen: nat, s: nat, channels: nat, g: seq<Frame> -> Frame)
    returns (y: seq<Frame>, next: nat)
    requires s >= 1 && seqLen == |x|
    ensures next == |y| == CeilDiv(|x|, s)
    ensures y == Thinned(x, s, channels, g)
  {
    PaddedLength(seqLen, s);
    var right: nat := ExtraPad(seqLen, s);
    StridedIsThinned(x, s, right, channels, g);
    y := Strided(Quiet(s, channels) + x + Quiet(right, channels), 2 * s, s, g);
    next := (seqLen + s - 1) / s;
  }

  /** The stride-2 conv at the end repeats the first and the last frame instead of padding with silence. */
  method Halve(x: seq<Frame>, g: seq<Frame> -> Frame) returns (y: seq<Frame>)
    requires x != []
    ensures |y| == CeilDiv(|x|, 2)
    ensures y == Halved(x, g)
  {
    PaddedLength(|x|, 2);
    var right: nat := ExtraPad(|x|, 2);
    var padded := [x[0], x[0]] + x;
    for i := 0 to right
      invariant |padded| == 2 + |x| + i && EdgesHeld(x, padded)
    {
      padded := padded + [x[|x| - 1]];
    }
    StridedIsHalved(x, padded, g);
    y := Strided(padded, 4, 2, g);
  }

  // ---- the encoder graph -------------------------------------------------------------------------

  /** A stage's residual unit, kernels 3 and 1, and the strided conv after it; each kernel holds its bias. */
  datatype Down = Down(
    stride: nat, channels: nat, conv1: seq<Frame> -> Frame, conv2: Frame -> Frame, g: seq<Frame> -> Frame)

  datatype Encoder = Encoder(
    elu: Frame -> Frame, input: seq<Frame> -> Frame, stages: seq<Down>, channels: nat,
    output: seq<Frame> -> Frame, transformer: seq<Layer>, last: seq<Frame> -> Frame)

  const STRIDES: seq<nat> := [4, 5, 6, 8]
  const FRAME := 1920
  const INPUT_REACH := 6
  const OUTPUT_REACH := 2

  predicate EncoderOk(e: Encoder) {
    |e.stages| == 4 && forall i :: 0 <= i < 4 ==> e.stages[i].stride == STRIDES[i]
  }

  /** A stage, by index: the unit's input plus its branch, activated, then thinned by the stride. */
  function DownOut(elu: Frame -> Frame, d: Down, x: seq<Frame>): seq<Frame>
    requires d.stride >= 1
  {
    var branch := Each(d.conv2, Each(elu, Convolved(2, d.channels, d.conv1, Each(elu, x))));
    Thinned(Each(elu, Added(x, branch)), d.stride, d.channels, d.g)
  }

  /** The first `k` stages. */
  function DownsOut(e: Encoder, k: nat, x: seq<Frame>): seq<Frame>
    requires EncoderOk(e) && k <= 4
  {
    if k == 0 then x else DownOut(e.elu, e.stages[k - 1], DownsOut(e, k - 1, x))
  }

  /** The whole encoder, by index. */
  function Encoded(e: Encoder, audio: seq<Frame>): seq<Frame>
    requires EncoderOk(e)
  {
    var cur := DownsOut(e, 4, Convolved(INPUT_REACH, 1, e.input, audio));
    Halved(WholeStack(e.transformer, Convolved(OUTPUT_REACH, e.channels, e.output, Each(e.elu, cur))), e.last)
  }

  /** A conv of stride 1: silence in front, as many frames out as in. */
  method CausalConv(reach: nat, channels: nat, g: seq<Frame> -> Frame, x: seq<Frame>) returns (y: seq<Frame>)
    ensures y == Convolved(reach, channels, g, x)
  {
    ConvolvedIs(TailDec0, reach, channels, g, x);
    y := Windows(Quiet(reach, channels), x, g);
  }

  method ResUnit(elu: Frame -> Frame, d: Down, x: seq<Frame>) returns (y: seq<Frame>)
    ensures |y| == |x|
    ensures y == Added(x, Each(d.conv2, Each(elu, Convolved(2, d.channels, d.conv1, Each(elu, x)))))
  {
    y := Each(elu, x);
    y := CausalConv(2, d.channels, d.conv1, y);
    y := Each(d.conv2, Each(elu, y));
    MixIsAdded(x, y);
    y := Mix(x, y);
  }

  /** Frames out of the stages so far. */
  function LengthAfter(n: nat, k: nat): nat
    requires k <= 4
  {
    if k == 0 then n else CeilDiv(LengthAfter(n, k - 1), STRIDES[k - 1])
  }

  lemma LengthAfterAll(n: nat)
    ensures CeilDiv(LengthAfter(n, 4), 2) == CeilDiv(n, FRAME)
    ensures n >= 1 ==> LengthAfter(n, 4) >= 1
  {
    NestedCeil(n, 4, 5);
    NestedCeil(n, 20, 6);
    NestedCeil(n, 120, 8);
    NestedCeil(n, 960, 2);
    assert LengthAfter(n, 1) == CeilDiv(n, 4);
    assert LengthAfter(n, 2) == CeilDiv(n, 20);
    assert LengthAfter(n, 3) == CeilDiv(n, 120);
    assert LengthAfter(n, 4) == CeilDiv(n, 960);
  }

  /** The whole encoder graph: any number of samples becomes exactly one frame per started 1920 of them. */
  method Encode(e: Encoder, audio: seq<Frame>) returns (frames: seq<Frame>)
    requires EncoderOk(e)
    ensures |frames| == CeilDiv(|audio|, FRAME)
    ensures FRAME * |frames| - FRAME < |audio| <= FRAME * |frames|
    ensures audio != [] ==> frames == Encoded(e, audio)
  {
    if audio == [] {
      return [];
    }
    var cur := CausalConv(INPUT_REACH, 1, e.input, audio);
    ghost var start := cur;
    var seqLen := |audio|;
    for k := 0 to 4
      invariant seqLen == |cur| == LengthAfter(|audio|, k)
      invariant cur == DownsOut(e, k, start)
    {
      var d := e.stages[k];
      cur := ResUnit(e.elu, d, cur);
      cur, seqLen := Downsample(Each(e.elu, cur), seqLen, d.stride, d.channels, d.g);
    }
    LengthAfterAll(|audio|);
    cur := CausalConv(OUTPUT_REACH, e.channels, e.output, Each(e.elu, cur));
    frames := Halve(WholeStack(e.transformer, cur), e.last);
    CeilBounds(|audio|, FRAME);
  }

  // ---- the residual quantiser -----------------------------------------------------------------------

  type Vector = seq<real>

  const FAR: real := 1000000000000000000000000000000.0

  function Square(x: real): real { x * x }

  /** Squared distance over the first `n` coordinates. */
  function Distance(a: Vector, b: Vector, n: nat): real
    requires n <= |a| && n <= |b|
  {
    if n == 0 then 0.0 else Distance(a, b, n - 1) + Square(a[n - 1] - b[n - 1])
  }

  predicate BookOk(book: seq<Vector>, dim: nat) {
    forall i :: 0 <= i < |book| ==> |book[i]| == dim
  }

  /** The first of the nearest entries; entry 0 when every one is beyond `FAR`. */
  ghost predicate IsNearest(v: Vector, book: seq<Vector>, best: nat)
    requires BookOk(book, |v|)
  {
    if best < |book| && Distance(v, book[best], |v|) < FAR then
      && (forall i :: 0 <= i < |book| ==> Distance(v, book[best], |v|) <= Distance(v, book[i], |v|))
      && (forall i :: 0 <= i < best ==> Distance(v, book[best], |v|) < Distance(v, book[i], |v|))
    else
      best == 0 && forall i :: 0 <= i < |book| ==> Distance(v, book[i], |v|) >= FAR
  }

  method Nearest(v: Vector, book: seq<Vector>) returns (best: nat)
    requires BookOk(book, |v|)
    ensures IsNearest(v, book, best) && (book != [] ==> best < |book|)
  {
    best := 0;
    var bestDist := FAR;
    for i := 0 to |book|
      invariant best < i || best == 0
      invariant bestDist < FAR ==> best < i && bestDist == Distance(v, book[best], |v|)
      invariant bestDist <= FAR && (bestDist == FAR ==> best == 0)
      invariant forall j :: 0 <= j < i ==> bestDist <= Distance(v, book[j], |v|)
      invariant bestDist < FAR ==> forall j :: 0 <= j < best ==> bestDist < Distance(v, book[j], |v|)
    {
      var dist := SquaredDistance(v, book[i]);
      if dist < bestDist {
        bestDist, best := dist, i;
      }
    }
  }

  method SquaredDistance(a: Vector, b: Vector) returns (d: real)
    requires |a| == |b|
    ensures d == Distance(a, b, |a|)
  {
    d := 0.0;
    for k := 0 to |a|
      invariant d == Distance(a, b, k)
    {
      var diff := a[k] - b[k];
      d := d + diff * diff;
    }
  }

  function Minus(a: Vector, b: Vector): Vector
    requires |a| == |b|
  {
    seq(|a|, i requires 0 <= i < |a| => a[i] - b[i])
  }

  function Sum(a: Vector, b: Vector): Vector
    requires |a| == |b|
  {
    seq(|a|, i requires 0 <= i < |a| => a[i] + b[i])
  }

  predicate BooksOk(books: seq<seq<Vector>>, dim: nat) {
    forall q :: 0 <= q < |books| ==> BookOk(books[q], dim)
  }

  /** The entry code `q` stands for; a missing codebook stands for nothing. */
  function EntryOf(books: seq<seq<Vector>>, codes: seq<nat>, q: nat, dim: nat): (v: Vector)
    requires BooksOk(books, dim) && q < |codes| && q < |books|
    ensures |v| == dim
  {
    if codes[q] < |books[q]| then books[q][codes[q]] else seq(dim, _ => 0.0)
  }

  /** What is left of `v` before codebook `q`. */
  function Residual(v: Vector, books: seq<seq<Vector>>, codes: seq<nat>, q: nat): (r: Vector)
    requires BooksOk(books, |v|) && q <= |codes| && q <= |books|
    ensures |r| == |v|
  {
    if q == 0 then v else Minus(Residual(v, books, codes, q - 1), EntryOf(books, codes, q - 1, |v|))
  }

  /** What the first `q` codes decode to. */
  function Decoded(books: seq<seq<Vector>>, codes: seq<nat>, q: nat, dim: nat): (d: Vector)
    requires BooksOk(books, dim) && q <= |codes| && q <= |books|
    ensures |d| == dim
  {
    if q == 0 then seq(dim, _ => 0.0) else Sum(Decoded(books, codes, q - 1, dim), EntryOf(books, codes, q - 1, dim))
  }

  /** Nothing is lost between the codes and the residual: together they are the input. */
  lemma {:induction false} ResidualConserves(v: Vector, books: seq<seq<Vector>>, codes: seq<nat>, q: nat)
    requires BooksOk(books, |v|) && q <= |codes| && q <= |books|
    ensures Sum(Decoded(books, codes, q, |v|), Residual(v, books, codes, q)) == v
  {
    if q > 0 {
      ResidualConserves(v, books, codes, q - 1);
      var d, r := Decoded(books, codes, q - 1, |v|), Residual(v, books, codes, q - 1);
      forall i | 0 <= i < |v|
        ensures Sum(Decoded(books, codes, q, |v|), Residual(v, books, codes, q))[i] == v[i]
      {
        assert Sum(d, r)[i] == v[i];
      }
    }
  }

  lemma {:induction false} ResidualLooksBack(v: Vector, books: seq<seq<Vector>>, codes: seq<nat>, more: seq<nat>,
                                             q: nat)
    requires BooksOk(books, |v|) && q <= |codes| && q <= |books|
    ensures Residual(v, books, codes + more, q) == Residual(v, books, codes, q)
  {
    if q > 0 {
      ResidualLooksBack(v, books, codes, more, q - 1);
    }
  }

  /** Every code picks the nearest entry to what the codes before it left over; a missing book gives 0. */
  ghost predicate GreedyAt(v: Vector, books: seq<seq<Vector>>, codes: seq<nat>, q: nat)
    requires BooksOk(books, |v|) && q < |codes| <= |books|
  {
    if books[q] == [] then codes[q] == 0 else IsNearest(Residual(v, books, codes, q), books[q], codes[q])
  }

  /** The acoustic codes of one frame; the residual is updated in place, coordinate by coordinate. */
  method QuantiseAcoustic(v: Vector, books: seq<seq<Vector>>) returns (codes: seq<nat>, resid: array<real>)
    requires BooksOk(books, |v|)
    ensures |codes| == |books| && forall q :: 0 <= q < |books| ==> GreedyAt(v, books, codes, q)
    ensures resid[..] == Residual(v, books, codes, |books|)
  {
    codes := [];
    resid := new real[|v|](i requires 0 <= i < |v| => v[i]);
    assert resid[..] == v;
    for q := 0 to |books|
      invariant |codes| == q && resid.Length == |v| && resid[..] == Residual(v, books, codes, q)
      invariant forall p :: 0 <= p < q ==> GreedyAt(v, books, codes, p)
    {
      var best := 0;
      if books[q] != [] {
        best := Nearest(resid[..], books[q]);
        Subtract(resid, books[q][best]);
      }
      OneMoreCode(v, books, codes, best, q);
      codes := codes + [best];
      if books[q] == [] {
        assert resid[..] == Minus(resid[..], seq(|v|, _ => 0.0));
      }
    }
  }

  lemma OneMoreCode(v: Vector, books: seq<seq<Vector>>, codes: seq<nat>, best: nat, q: nat)
    requires BooksOk(books, |v|) && |codes| == q < |books|
    requires forall p :: 0 <= p < q ==> GreedyAt(v, books, codes, p)
    requires if books[q] == [] then best == 0 else IsNearest(Residual(v, books, codes, q), books[q], best)
    ensures forall p :: 0 <= p <= q ==> GreedyAt(v, books, codes + [best], p)
    ensures Residual(v, books, codes + [best], q) == Residual(v, books, codes, q)
  {
    ResidualLooksBack(v, books, codes, [best], q);
    forall p | 0 <= p <= q
      ensures GreedyAt(v, books, codes + [best], p)
    {
      ResidualLooksBack(v, books, codes, [best], p);
      if p < q {
        assert GreedyAt(v, books, codes, p);
      }
    }
  }

  method Subtract(a: array<real>, b: Vector)
    requires a.Length == |b|
    modifies a
    ensures a[..] == Minus(old(a[..]), b)
  {
    for i := 0 to a.Length
      invariant forall j :: 0 <= j < i ==> a[j] == old(a[j]) - b[j]
      invariant forall j :: i <= j < a.Length ==> a[j] == old(a[j])
    {
      a[i] := a[i] - b[i];
    }
  }

  /** One frame's codes: the semantic one from its own projection, the acoustic ones from theirs. */
  method QuantiseFrame(semantic: Vector, semanticBook: seq<Vector>, acoustic: Vector, books: seq<seq<Vector>>)
    returns (codes: seq<nat>)
    requires BookOk(semanticBook, |semantic|) && BooksOk(books, |acoustic|)
    ensures |codes| == 1 + |books| && IsNearest(semantic, semanticBook, codes[0])
    ensures forall q :: 0 <= q < |books| ==> GreedyAt(acoustic, books, codes[1..], q)
  {
    var first := Nearest(semantic, semanticBook);
    var rest, resid := QuantiseAcoustic(acoustic, books);
    codes := [first] + rest;
    assert codes[1..] == rest;
  }
}
