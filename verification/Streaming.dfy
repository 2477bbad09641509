/**
 The streaming reading of the decoder graph: one call decodes one chunk from
 the buffers the previous calls left behind, and its result extends the
 one-shot decode of everything seen so far.
 */
module Streaming {
  import opened Frames
  import opened Attention
  import opened CausalNet

  /** What a call reads: history length, host buffers by name, one slab per attention layer. */
  datatype Carry = Carry(
    past: nat,
    tails: map<Slot, seq<Frame>>,
    overlaps: map<Slot, seq<Frame>>,
    slabs: seq<seq<Row>>)

  /** The host buffers of a carry, by name. */
  datatype Buffers = Buffers(tails: map<Slot, seq<Frame>>, overlaps: map<Slot, seq<Frame>>)

  const CLEARED: Buffers := Buffers(map[], map[])

  function Left(c: Carry): Buffers {
    Buffers(c.tails, c.overlaps)
  }

  /** What a call produces: its frames and the buffers the next call will read. */
  datatype Outcome = Outcome(
    y: seq<Frame>,
    tails: map<Slot, seq<Frame>>,
    overlaps: map<Slot, seq<Frame>>,
    slabs: seq<seq<Row>>)

  function TailSlots(st: Stage): set<Slot> {
    match st
    case Conv(slot, _, _, _) => {slot}
    case Skip(body) => TailSlots(body)
    case Then(first, next) => TailSlots(first) + TailSlots(next)
    case _ => {}
  }

  function OverlapSlots(st: Stage): set<Slot> {
    match st
    case Transpose(slot, _) => {slot}
    case Skip(body) => OverlapSlots(body)
    case Then(first, next) => OverlapSlots(first) + OverlapSlots(next)
    case _ => {}
  }

  function Layers(st: Stage): set<nat> {
    match st
    case Attend(index, _) => {index}
    case Skip(body) => Layers(body)
    case Then(first, next) => Layers(first) + Layers(next)
    case _ => {}
  }

  /**
   A tree that can stream: buffer names and attention layers are not reused,
   attention runs at the rate of the codes, and a transposed convolution's
   kernel is twice its stride.
   */
  ghost predicate Streams(st: Stage, layers: nat) {
    && Shaped(st)
    && match st
       case Transpose(_, up) => up.kernel == 2 * up.stride
       case Attend(index, _) => index < layers
       case Skip(body) => Streams(body, layers)
       case Then(first, next) =>
         && Streams(first, layers) && Streams(next, layers)
         && TailSlots(first) !! TailSlots(next)
         && OverlapSlots(first) !! OverlapSlots(next)
         && Layers(first) !! Layers(next)
         && (Layers(next) != {} ==> SameRate(first))
       case _ => true
  }

  /** A carried buffer, or the silence a missing or mis-sized one is replaced by. */
  function Carried(buffers: map<Slot, seq<Frame>>, slot: Slot, n: nat, channels: nat): (b: seq<Frame>)
    ensures |b| == n
  {
    if slot in buffers && |buffers[slot]| == n then buffers[slot] else Quiet(n, channels)
  }

  /** The attention inputs of a call fit the slabs it reads. */
  ghost predicate Fits(layers: nat, c: Carry, mask: seq<seq<bool>>, width: nat, n: nat) {
    && |c.slabs| == layers
    && c.past + n <= width
    && (forall l :: 0 <= l < layers ==> width <= |c.slabs[l]|)
    && mask == CallMask(c.past, n, width)
  }

  /** Overlap-add: the held samples go onto the first of the raw output, whose last stay behind. */
  function Emit(up: Up, held: seq<Frame>, x: seq<Frame>): seq<Frame>
    requires 1 <= up.stride <= up.kernel && |held| == up.stride && x != []
  {
    ChunkFits(up, |x|);
    var raw := Raw(up, x);
    var summed := Mix(raw[..up.stride], held) + raw[up.stride..];
    summed[..|raw| - up.stride]
  }

  /** The raw samples a call holds back. */
  function Keep(up: Up, x: seq<Frame>): seq<Frame>
    requires 1 <= up.stride <= up.kernel && x != []
  {
    ChunkFits(up, |x|);
    Suffix(Raw(up, x), up.stride)
  }

  ghost predicate Callable(st: Stage, layers: nat, c: Carry, mask: seq<seq<bool>>, width: nat, x: seq<Frame>) {
    && Streams(st, layers) && x != []
    && (Layers(st) != {} ==> Fits(layers, c, mask, width, |x|))
  }

  /** One chunk through a stage without parts. */
  function Leaf(st: Stage, layers: nat, c: Carry, mask: seq<seq<bool>>, width: nat, x: seq<Frame>): (o: Outcome)
    requires Callable(st, layers, c, mask, width, x) && !st.Skip? && !st.Then?
    ensures |o.y| == Samples(st, |x|)
    ensures o.tails.Keys == TailSlots(st) && o.overlaps.Keys == OverlapSlots(st)
    ensures SlabsKept(c.slabs, o.slabs, Layers(st))
  {
    match st
    case Conv(slot, reach, channels, g) =>
      var tail := Carried(c.tails, slot, reach, channels);
      Outcome(Windows(tail, x, g), map[slot := Suffix(tail + x, reach)], map[], c.slabs)
    case Transpose(slot, up) =>
      var held := Carried(c.overlaps, slot, up.stride, up.channels);
      ChunkFits(up, |x|);
      Outcome(Emit(up, held, x), map[], map[slot := Keep(up, x)], c.slabs)
    case Attend(index, layer) =>
      assert index in Layers(st);
      var slab := c.slabs[index];
      Outcome(CallLayer(layer, slab, c.past, mask, width, x), map[], map[],
              c.slabs[index := Store(slab, c.past, Rows(layer, x, c.past))])
    case Point(_) => Outcome(Whole(st, x), map[], map[], c.slabs)
    case Spread(_) => Outcome(Whole(st, x), map[], map[], c.slabs)
  }

  /** No slab changes size, and only the named layers' slabs change at all. */
  ghost predicate SlabsKept(before: seq<seq<Row>>, after: seq<seq<Row>>, layers: set<nat>) {
    && |after| == |before|
    && forall l :: 0 <= l < |before| ==> |after[l]| == |before[l]| && (l !in layers ==> after[l] == before[l])
  }

  /** One chunk through the tree. */
  function Call(st: Stage, layers: nat, c: Carry, mask: seq<seq<bool>>, width: nat, x: seq<Frame>): (o: Outcome)
    requires Callable(st, layers, c, mask, width, x)
    ensures |o.y| == Samples(st, |x|)
    ensures o.tails.Keys == TailSlots(st) && o.overlaps.Keys == OverlapSlots(st)
    ensures SlabsKept(c.slabs, o.slabs, Layers(st))
    decreases st
  {
    match st
    case Skip(body) =>
      var o := Call(body, layers, c, mask, width, x);
      SameRateKeeps(body, |x|);
      o.(y := Mix(x, o.y))
    case Then(first, next) =>
      var o1 := Call(first, layers, c, mask, width, x);
      ThenCallable(first, next, layers, c, mask, width, x, o1);
      var o2 := Call(next, layers, c.(slabs := o1.slabs), mask, width, o1.y);
      Outcome(o2.y, o1.tails + o2.tails, o1.overlaps + o2.overlaps, o2.slabs)
    case _ => Leaf(st, layers, c, mask, width, x)
  }

  lemma ChunkFits(up: Up, n: nat)
    requires n >= 1
    ensures Times(n, up.stride) >= up.stride
  {
  }

  lemma {:induction false} ThenCallable(first: Stage, next: Stage, layers: nat, c: Carry, mask: seq<seq<bool>>,
                                        width: nat, x: seq<Frame>, o1: Outcome)
    requires Callable(Then(first, next), layers, c, mask, width, x)
    requires |o1.y| == Samples(first, |x|) && SlabsKept(c.slabs, o1.slabs, Layers(first))
    ensures Callable(next, layers, c.(slabs := o1.slabs), mask, width, o1.y)
    ensures Layers(next) != {} ==> |o1.y| == |x|
  {
    SamplesPositive(first, |x|);
    if SameRate(first) {
      SameRateKeeps(first, |x|);
    }
  }

  // ---- what the carried state means --------------------------------------

  /** The signal with held samples added onto its start. */
  function Onto(held: seq<Frame>, y: seq<Frame>): seq<Frame> {
    seq(|y|, t requires 0 <= t < |y| => if t < |held| then Plus(y[t], held[t]) else y[t])
  }

  /** Decoding a clip from history length zero with buffers `b` already carried. */
  function Seeded(st: Stage, b: Buffers, x: seq<Frame>): (y: seq<Frame>)
    requires Shaped(st)
    ensures |y| == Samples(st, |x|)
    decreases st
  {
    match st
    case Conv(slot, reach, channels, g) => Windows(Carried(b.tails, slot, reach, channels), x, g)
    case Transpose(slot, up) => Onto(Carried(b.overlaps, slot, up.stride, up.channels), Trimmed(up, x))
    case Skip(body) =>
      SameRateKeeps(body, |x|);
      Mix(x, Seeded(body, b, x))
    case Then(first, next) => Seeded(next, b, Seeded(first, b, x))
    case _ => Whole(st, x)
  }

  /** The raw samples a transposed convolution still owes after history `h`. */
  function HeldBack(up: Up, h: seq<Frame>): seq<Frame> {
    seq(up.stride, p => RawAt(up, h, Times(|h|, up.stride) + p))
  }

  /** The same when samples were held before the history began. */
  function StillHeld(up: Up, held: seq<Frame>, h: seq<Frame>): seq<Frame> {
    if h == [] then held else HeldBack(up, h)
  }

  /** The carried state is exactly what history `h` leaves behind when it began with buffers `b`. */
  ghost predicate Remembers(st: Stage, layers: nat, c: Carry, b: Buffers, h: seq<Frame>)
    requires Streams(st, layers)
    decreases st
  {
    match st
    case Conv(slot, reach, channels, _) =>
      Carried(c.tails, slot, reach, channels) == Suffix(Carried(b.tails, slot, reach, channels) + h, reach)
    case Transpose(slot, up) =>
      Carried(c.overlaps, slot, up.stride, up.channels)
      == StillHeld(up, Carried(b.overlaps, slot, up.stride, up.channels), h)
    case Attend(index, layer) =>
      |h| == c.past && index < |c.slabs| && Attention.Carries(layer, c.slabs[index], h)
    case Skip(body) => Remembers(body, layers, c, b, h)
    case Then(first, next) =>
      Remembers(first, layers, c, b, h) && Remembers(next, layers, c, b, Seeded(first, b, h))
    case _ => true
  }

  /** The state the next call reads: every produced buffer replaces its predecessor. */
  function Roll(c: Carry, o: Outcome, n: nat): Carry {
    Carry(c.past + n, c.tails + o.tails, c.overlaps + o.overlaps, o.slabs)
  }

  ghost predicate AgreeUpTo(a: seq<Row>, b: seq<Row>, n: nat) {
    n <= |a| ==> n <= |b| && a[..n] == b[..n]
  }

  /** Only the buffers a stage names matter to it, and of a slab only the rows written so far. */
  lemma {:induction false} RemembersFrame(st: Stage, layers: nat, c: Carry, d: Carry, b: Buffers, h: seq<Frame>)
    requires Streams(st, layers) && Remembers(st, layers, c, b, h)
    requires |c.slabs| == |d.slabs| && (Layers(st) != {} ==> c.past == d.past)
    requires forall s :: s in TailSlots(st) ==> (s in c.tails <==> s in d.tails)
    requires forall s :: s in TailSlots(st) && s in c.tails ==> c.tails[s] == d.tails[s]
    requires forall s :: s in OverlapSlots(st) ==> (s in c.overlaps <==> s in d.overlaps)
    requires forall s :: s in OverlapSlots(st) && s in c.overlaps ==> c.overlaps[s] == d.overlaps[s]
    requires forall l :: l in Layers(st) && l < |c.slabs| ==> AgreeUpTo(c.slabs[l], d.slabs[l], c.past)
    ensures Remembers(st, layers, d, b, h)
    decreases st
  {
    match st
    case Conv(slot, _, _, _) => assert slot in TailSlots(st);
    case Transpose(slot, _) => assert slot in OverlapSlots(st);
    case Attend(index, _) => assert index in Layers(st);
    case Skip(body) => RemembersFrame(body, layers, c, d, b, h);
    case Then(first, next) =>
      RemembersFrame(first, layers, c, d, b, h);
      RemembersFrame(next, layers, c, d, b, Seeded(first, b, h));
    case _ =>
  }

  lemma NothingSeededIsNothing(st: Stage, b: Buffers)
    requires Shaped(st)
    ensures Seeded(st, b, []) == []
  {
    SamplesAdd(st, 0, 0, 0);
  }

  /** With history length zero, a decoder is about to begin with whatever buffers it carries. */
  lemma {:induction false} SeedRemembers(st: Stage, layers: nat, c: Carry)
    requires Streams(st, layers) && c.past == 0 && |c.slabs| == layers
    ensures Remembers(st, layers, c, Left(c), [])
    decreases st
  {
    match st
    case Conv(slot, reach, channels, _) =>
      var tail := Carried(c.tails, slot, reach, channels);
      assert Suffix(tail + [], reach) == tail;
    case Skip(body) => SeedRemembers(body, layers, c);
    case Then(first, next) =>
      SeedRemembers(first, layers, c);
      SeedRemembers(next, layers, c);
      NothingSeededIsNothing(first, Left(c));
    case _ =>
  }

  // ---- when stale buffers do no harm ----------------------------------------

  /** Every buffer a stage reads is absent, mis-sized or silent. */
  predicate Silent(st: Stage, b: Buffers) {
    match st
    case Conv(slot, reach, channels, _) =>
      slot in b.tails && |b.tails[slot]| == reach ==> b.tails[slot] == Quiet(reach, channels)
    case Transpose(slot, up) =>
      slot in b.overlaps && |b.overlaps[slot]| == up.stride ==> b.overlaps[slot] == Quiet(up.stride, up.channels)
    case Skip(body) => Silent(body, b)
    case Then(first, next) => Silent(first, b) && Silent(next, b)
    case _ => true
  }

  /** A decoder at history length zero is as good as reset exactly when its buffers are silent. */
  lemma {:induction false} FreshIffSilent(st: Stage, layers: nat, c: Carry)
    requires Streams(st, layers) && c.past == 0 && |c.slabs| == layers
    ensures Remembers(st, layers, c, CLEARED, []) <==> Silent(st, Left(c))
    decreases st
  {
    match st
    case Conv(slot, reach, channels, _) =>
      assert Suffix(Quiet(reach, channels) + [], reach) == Quiet(reach, channels);
    case Skip(body) => FreshIffSilent(body, layers, c);
    case Then(first, next) =>
      FreshIffSilent(first, layers, c);
      FreshIffSilent(next, layers, c);
      NothingSeededIsNothing(first, CLEARED);
    case _ =>
  }

  lemma NothingIsSilent(st: Stage)
    ensures Silent(st, CLEARED)
  {
  }

  lemma OntoSilence(up: Up, x: seq<Frame>)
    requires up.stride <= up.kernel && TapsFit(up)
    ensures Onto(Quiet(up.stride, up.channels), Trimmed(up, x)) == Trimmed(up, x)
  {
    var y := Trimmed(up, x);
    forall t | 0 <= t < |y|
      ensures Onto(Quiet(up.stride, up.channels), y)[t] == y[t]
    {
      RawAtChannels(up, x, t);
      PlusLaws(y[t], y[t], y[t]);
    }
  }

  /** From silent buffers a stream is the one-shot decode. */
  lemma {:induction false} SilentIsWhole(st: Stage, b: Buffers, x: seq<Frame>)
    requires Shaped(st) && Silent(st, b)
    ensures Seeded(st, b, x) == Whole(st, x)
    decreases st
  {
    match st
    case Transpose(_, up) => OntoSilence(up, x);
    case Skip(body) => SilentIsWhole(body, b, x);
    case Then(first, next) =>
      SilentIsWhole(first, b, x);
      SilentIsWhole(next, b, Whole(first, x));
    case _ =>
  }

  lemma OneWindow(context: seq<Frame>, f: Frame, g: seq<Frame> -> Frame)
    ensures Windows(context, [f], g) == [g(context + [f])]
  {
    assert (context + [f])[0..|context| + 1] == context + [f];
  }

  /** A convolution's stale tail is inaudible under every kernel exactly when it is silent. */
  lemma ConvHearsItsTail(slot: Slot, reach: nat, channels: nat, b: Buffers, any: seq<Frame> -> Frame)
    ensures (forall g: seq<Frame> -> Frame, x: seq<Frame> ::
               Seeded(Conv(slot, reach, channels, g), b, x) == Whole(Conv(slot, reach, channels, g), x))
       <==> Silent(Conv(slot, reach, channels, any), b)
  {
    var tail, quiet := Carried(b.tails, slot, reach, channels), Quiet(reach, channels);
    if tail != quiet {
      var g: seq<Frame> -> Frame := window => if window == quiet + [[]] then [] else [1];
      var x: seq<Frame> := [[]];
      HeardInOneWindow(tail, quiet, g, x);
      assert Seeded(Conv(slot, reach, channels, g), b, x) != Whole(Conv(slot, reach, channels, g), x);
    }
  }

  lemma SameBeforeLast<T>(a: seq<T>, b: seq<T>, last: T)
    ensures a + [last] == b + [last] ==> a == b
  {
    assert a == (a + [last])[..|a + [last]| - 1] && b == (b + [last])[..|b + [last]| - 1];
  }

  lemma HeardInOneWindow(tail: seq<Frame>, quiet: seq<Frame>, g: seq<Frame> -> Frame, x: seq<Frame>)
    requires tail != quiet && x == [[]] && g == (window => if window == quiet + [[]] then [] else [1])
    ensures Windows(tail, x, g) != Windows(quiet, x, g)
  {
    OneWindow(tail, [], g);
    OneWindow(quiet, [], g);
    SameBeforeLast(tail, quiet, []);
  }

  /** The same for samples held by a transposed convolution. */
  lemma TransposeHearsItsOverlap(slot: Slot, up: Up, b: Buffers)
    requires 1 <= up.stride <= up.kernel
    requires forall i :: 0 <= i < up.stride ==> |Carried(b.overlaps, slot, up.stride, up.channels)[i]| == up.channels
    ensures (forall tap: (Frame, nat) -> Frame, x: seq<Frame> :: TapsFit(up.(tap := tap)) ==>
               Seeded(Transpose(slot, up.(tap := tap)), b, x) == Whole(Transpose(slot, up.(tap := tap)), x))
       <==> Silent(Transpose(slot, up), b)
  {
    var held, quiet := Carried(b.overlaps, slot, up.stride, up.channels), Quiet(up.stride, up.channels);
    if held == quiet {
      forall tap: (Frame, nat) -> Frame, x: seq<Frame> | TapsFit(up.(tap := tap))
        ensures Seeded(Transpose(slot, up.(tap := tap)), b, x) == Whole(Transpose(slot, up.(tap := tap)), x)
      {
        OntoSilence(up.(tap := tap), x);
      }
    } else {
      var t :| 0 <= t < up.stride && held[t] != quiet[t];
      MuteDiffers(slot, up.(tap := (f: Frame, j: nat) => Silence(up.channels)), b, held, t);
    }
  }

  lemma MuteDiffers(slot: Slot, up: Up, b: Buffers, held: seq<Frame>, t: nat)
    requires 1 <= up.stride <= up.kernel && held == Carried(b.overlaps, slot, up.stride, up.channels) && t < up.stride
    requires |held[t]| == up.channels && held[t] != Silence(up.channels)
    requires up.tap == ((f: Frame, j: nat) => Silence(up.channels))
    ensures TapsFit(up) && Seeded(Transpose(slot, up), b, [[]]) != Whole(Transpose(slot, up), [[]])
  {
    MuteSample(up, held, t);
  }

  lemma MuteSample(up: Up, held: seq<Frame>, t: nat)
    requires 1 <= up.stride <= up.kernel && |held| == up.stride && t < up.stride && |held[t]| == up.channels
    requires up.tap == ((f: Frame, j: nat) => Silence(up.channels))
    ensures |Trimmed(up, [[]])| == up.stride && Trimmed(up, [[]])[t] == Silence(up.channels)
    ensures Onto(held, Trimmed(up, [[]]))[t] == held[t]
  {
    var x: seq<Frame> := [[]];
    assert Times(1, up.stride) == Times(0, up.stride) + up.stride;
    assert x[1..] == [] && RawAt(up, x[1..], t - up.stride) == Silence(up.channels);
    PlusLaws(Silence(up.channels), Silence(up.channels), Silence(up.channels));
    PlusLaws(held[t], Silence(up.channels), Silence(up.channels));
    assert RawAt(up, x, t) == Plus(Hit(up, x[0], t), Silence(up.channels));
  }

  // ---- transposed convolution -------------------------------------------

  lemma {:induction false} RawAtChannels(up: Up, x: seq<Frame>, t: int)
    requires TapsFit(up)
    ensures |RawAt(up, x, t)| == up.channels
  {
    if x != [] {
      RawAtChannels(up, x[1..], t - up.stride);
    }
  }

  /** Samples outside the raw output receive nothing. */
  lemma {:induction false} RawAtOutside(up: Up, x: seq<Frame>, n: nat, t: int)
    requires TapsFit(up) && up.stride <= up.kernel && n == Times(|x|, up.stride)
    requires t < 0 || t >= n + up.kernel - up.stride
    ensures RawAt(up, x, t) == Silence(up.channels)
  {
    if x != [] {
      TimesAdd(up.stride, 1, |x[1..]|, |x|);
      RawAtOutside(up, x[1..], n - up.stride, t - up.stride);
    }
  }

  /** Overlap-add: the raw output of a concatenation is the sum of the two raw outputs. */
  lemma {:induction false} RawAtSplit(up: Up, h: seq<Frame>, x: seq<Frame>, base: nat, t: int)
    requires TapsFit(up) && base == Times(|h|, up.stride)
    ensures RawAt(up, h + x, t) == Plus(RawAt(up, h, t), RawAt(up, x, t - base))
  {
    RawAtChannels(up, x, t - base);
    if h == [] {
      assert h + x == x;
      PlusLaws(RawAt(up, x, t), Silence(up.channels), Silence(up.channels));
    } else {
      TimesAdd(up.stride, 1, |h[1..]|, |h|);
      assert (h + x)[1..] == h[1..] + x;
      RawAtSplit(up, h[1..], x, base - up.stride, t - up.stride);
      RawAtChannels(up, h[1..], t - up.stride);
      PlusLaws(Hit(up, h[0], t), RawAt(up, h[1..], t - up.stride), RawAt(up, x, t - base));
    }
  }

  /** Which side of a concatenation a raw sample comes from: left, both (added), right. */
  lemma RawAtSides(up: Up, h: seq<Frame>, x: seq<Frame>, base: nat, t: int)
    requires TapsFit(up) && up.stride <= up.kernel && base == Times(|h|, up.stride)
    ensures t < base ==> RawAt(up, h + x, t) == RawAt(up, h, t)
    ensures base <= t ==> RawAt(up, h + x, t) == Plus(RawAt(up, x, t - base), RawAt(up, h, t))
    ensures base + up.kernel - up.stride <= t ==> RawAt(up, h + x, t) == RawAt(up, x, t - base)
  {
    RawAtSplit(up, h, x, base, t);
    RawAtChannels(up, h, t);
    RawAtChannels(up, x, t - base);
    PlusLaws(RawAt(up, h, t), RawAt(up, x, t - base), Silence(up.channels));
    PlusLaws(RawAt(up, x, t - base), RawAt(up, h, t), Silence(up.channels));
    if t < base {
      RawAtOutside(up, x, Times(|x|, up.stride), t - base);
    } else if t >= base + up.kernel - up.stride {
      RawAtOutside(up, h, base, t);
    }
  }

  /** What a streaming call emits, sample by sample. */
  lemma EmittedSample(up: Up, held: seq<Frame>, x: seq<Frame>, t: nat)
    requires 1 <= up.stride && up.kernel == 2 * up.stride && |held| == up.stride
    requires x != [] && t < Times(|x|, up.stride)
    ensures var y := Emit(up, held, x);
      && |y| == Times(|x|, up.stride)
      && y[t] == if t < up.stride then Plus(RawAt(up, x, t), held[t]) else RawAt(up, x, t)
  {
    ChunkFits(up, |x|);
    var raw := Raw(up, x);
    assert |raw| == Times(|x|, up.stride) + up.stride && raw[t] == RawAt(up, x, t);
    OverlapAt(raw, held, up.stride, t);
  }

  lemma OverlapAt(raw: seq<Frame>, held: seq<Frame>, s: nat, t: nat)
    requires |held| == s && t + s < |raw|
    ensures (Mix(raw[..s], held) + raw[s..])[..|raw| - s][t] == if t < s then Plus(raw[t], held[t]) else raw[t]
  {
  }

  lemma ExtendedSample(up: Up, h: seq<Frame>, x: seq<Frame>, base: nat, t: nat)
    requires TapsFit(up) && 1 <= up.stride && up.kernel == 2 * up.stride && x != []
    requires base == Times(|h|, up.stride) && t < Times(|x|, up.stride)
    ensures |Emit(up, HeldBack(up, h), x)| == Times(|x|, up.stride)
    ensures Emit(up, HeldBack(up, h), x)[t] == RawAt(up, h + x, base + t)
  {
    RawAtSides(up, h, x, base, base + t);
    EmittedSample(up, HeldBack(up, h), x, t);
    if t < up.stride {
      assert HeldBack(up, h)[t] == RawAt(up, h, base + t);
    }
  }

  /** Overlap-add continues the one-shot output without a seam. */
  lemma {:induction false} EmitExtends(up: Up, h: seq<Frame>, x: seq<Frame>)
    requires TapsFit(up) && 1 <= up.stride && up.kernel == 2 * up.stride && x != []
    ensures Trimmed(up, h + x) == Trimmed(up, h) + Emit(up, HeldBack(up, h), x)
  {
    var base, n := Times(|h|, up.stride), Times(|x|, up.stride);
    var all, old', new' := Trimmed(up, h + x), Trimmed(up, h), Emit(up, HeldBack(up, h), x);
    EmittedLengths(up, h, x, base, n);
    forall p | 0 <= p < base
      ensures all[p] == old'[p]
    {
      EmittedOld(up, h, x, base, n, p);
    }
    forall q | 0 <= q < n
      ensures all[base + q] == new'[q]
    {
      EmittedNew(up, h, x, base, n, q);
    }
    Halves(all, old', new');
  }

  lemma EmittedLengths(up: Up, h: seq<Frame>, x: seq<Frame>, base: nat, n: nat)
    requires TapsFit(up) && 1 <= up.stride && up.kernel == 2 * up.stride && x != []
    requires base == Times(|h|, up.stride) && n == Times(|x|, up.stride)
    ensures |Trimmed(up, h)| == base && |Emit(up, HeldBack(up, h), x)| == n && |Trimmed(up, h + x)| == base + n
  {
    TimesAdd(up.stride, |h|, |x|, |h + x|);
    ChunkFits(up, |x|);
    EmittedSample(up, HeldBack(up, h), x, 0);
  }

  lemma EmittedOld(up: Up, h: seq<Frame>, x: seq<Frame>, base: nat, n: nat, p: nat)
    requires TapsFit(up) && 1 <= up.stride && up.kernel == 2 * up.stride && x != []
    requires base == Times(|h|, up.stride) && n == Times(|x|, up.stride) && p < base
    ensures |Trimmed(up, h)| == base && |Trimmed(up, h + x)| == base + n
    ensures Trimmed(up, h + x)[p] == Trimmed(up, h)[p]
  {
    TimesAdd(up.stride, |h|, |x|, |h + x|);
    TrimmedIs(up, h + x, base + n);
    TrimmedIs(up, h, base);
    RawAtSides(up, h, x, base, p);
  }

  lemma EmittedNew(up: Up, h: seq<Frame>, x: seq<Frame>, base: nat, n: nat, q: nat)
    requires TapsFit(up) && 1 <= up.stride && up.kernel == 2 * up.stride && x != []
    requires base == Times(|h|, up.stride) && n == Times(|x|, up.stride) && q < n
    ensures |Emit(up, HeldBack(up, h), x)| == n && |Trimmed(up, h + x)| == base + n
    ensures Trimmed(up, h + x)[base + q] == Emit(up, HeldBack(up, h), x)[q]
  {
    TimesAdd(up.stride, |h|, |x|, |h + x|);
    TrimmedIs(up, h + x, base + n);
    ExtendedSample(up, h, x, base, q);
  }

  lemma TrimmedIs(up: Up, x: seq<Frame>, n: nat)
    requires up.stride <= up.kernel && n == Times(|x|, up.stride)
    ensures |Trimmed(up, x)| == n && forall t: nat :: t < n ==> Trimmed(up, x)[t] == RawAt(up, x, t)
  {
  }

  lemma OwedSample(up: Up, h: seq<Frame>, x: seq<Frame>, n: nat, p: nat)
    requires TapsFit(up) && 1 <= up.stride && up.kernel == 2 * up.stride && x != []
    requires n == Times(|x|, up.stride) && p < up.stride
    ensures RawAt(up, h + x, Times(|h + x|, up.stride) + p) == RawAt(up, x, n + p)
  {
    var base := Times(|h|, up.stride);
    TimesAdd(up.stride, |h|, |x|, |h + x|);
    RawAtSides(up, h, x, base, base + n + p);
  }

  /** What a call holds back is what the whole history still owes. */
  lemma {:induction false} KeepExtends(up: Up, h: seq<Frame>, x: seq<Frame>)
    requires TapsFit(up) && 1 <= up.stride && up.kernel == 2 * up.stride && x != []
    ensures Keep(up, x) == HeldBack(up, h + x)
  {
    var n := Times(|x|, up.stride);
    KeepIs(up, x, n);
    forall p: nat | p < up.stride
      ensures HeldBack(up, h + x)[p] == Keep(up, x)[p]
    {
      OwedSample(up, h, x, n, p);
    }
  }

  lemma KeepIs(up: Up, x: seq<Frame>, n: nat)
    requires 1 <= up.stride && up.kernel == 2 * up.stride && x != [] && n == Times(|x|, up.stride)
    ensures |Keep(up, x)| == up.stride
    ensures forall p: nat :: p < up.stride ==> Keep(up, x)[p] == RawAt(up, x, n + p)
  {
    ChunkFits(up, |x|);
    var raw := Raw(up, x);
    assert |raw| == n + up.stride;
    forall p: nat | p < up.stride
      ensures Keep(up, x)[p] == RawAt(up, x, n + p)
    {
      assert raw[n + p] == RawAt(up, x, n + p);
    }
  }

  /**
   Holding back `stride` raw samples matches the one-shot right trim of
   `kernel - stride` for exactly one kernel size.
   */
  lemma HoldBackMatchesTrim(up: Up, held: seq<Frame>, x: seq<Frame>)
    requires 1 <= up.stride <= up.kernel && |held| == up.stride && x != []
    ensures |Emit(up, held, x)| == |Trimmed(up, x)| <==> up.kernel == 2 * up.stride
  {
    ChunkFits(up, |x|);
    assert |Raw(up, x)| == Times(|x|, up.stride) + up.kernel - up.stride;
    assert |Emit(up, held, x)| == |Raw(up, x)| - up.stride;
  }

  // ---- the split law -------------------------------------------------------

  lemma SliceOfDrop<T>(s: seq<T>, n: nat, i: nat, j: nat)
    requires i <= j && n + j <= |s|
    ensures s[n..][i..j] == s[n + i..n + j]
  {
  }

  /** A left context taken from the history is as good as the whole history. */
  lemma WindowsExtend(quiet: seq<Frame>, h: seq<Frame>, x: seq<Frame>, g: seq<Frame> -> Frame)
    ensures Windows(quiet, h + x, g) == Windows(quiet, h, g) + Windows(Suffix(quiet + h, |quiet|), x, g)
  {
    var reach := |quiet|;
    var all := quiet + (h + x);
    var tail := Suffix(quiet + h, reach);
    assert tail + x == all[|h|..];
    var whole := Windows(quiet, h + x, g);
    forall t | 0 <= t < |h|
      ensures whole[t] == Windows(quiet, h, g)[t]
    {
      assert (quiet + h)[t..t + reach + 1] == all[t..t + reach + 1];
    }
    forall t | 0 <= t < |x|
      ensures whole[|h| + t] == Windows(tail, x, g)[t]
    {
      SliceOfDrop(all, |h|, t, t + reach + 1);
    }
    assert whole[..|h|] == Windows(quiet, h, g);
    assert whole[|h|..] == Windows(tail, x, g);
  }

  lemma ContextExtends(quiet: seq<Frame>, h: seq<Frame>, x: seq<Frame>)
    ensures Suffix(Suffix(quiet + h, |quiet|) + x, |quiet|) == Suffix(quiet + (h + x), |quiet|)
  {
  }

  lemma OntoJoin(held: seq<Frame>, a: seq<Frame>, b: seq<Frame>)
    requires |held| <= |a|
    ensures Onto(held, a + b) == Onto(held, a) + b
  {
  }

  lemma EmitIsOnto(up: Up, held: seq<Frame>, x: seq<Frame>)
    requires 1 <= up.stride && up.kernel == 2 * up.stride && |held| == up.stride && x != []
    ensures Emit(up, held, x) == Onto(held, Trimmed(up, x))
  {
    ChunkFits(up, |x|);
    forall t: nat | t < Times(|x|, up.stride)
      ensures Emit(up, held, x)[t] == Onto(held, Trimmed(up, x))[t]
    {
      EmittedSample(up, held, x, t);
    }
    EmittedSample(up, held, x, 0);
  }

  /** A transposed convolution continues from what it still holds, its own samples or older ones. */
  lemma TransposeExtends(up: Up, held: seq<Frame>, h: seq<Frame>, x: seq<Frame>)
    requires TapsFit(up) && 1 <= up.stride && up.kernel == 2 * up.stride && |held| == up.stride && x != []
    ensures Onto(held, Trimmed(up, h + x)) == Onto(held, Trimmed(up, h)) + Emit(up, StillHeld(up, held, h), x)
    ensures Keep(up, x) == StillHeld(up, held, h + x)
  {
    KeepExtends(up, h, x);
    if h == [] {
      assert h + x == x && Trimmed(up, h) == [];
      EmitIsOnto(up, held, x);
    } else {
      EmitExtends(up, h, x);
      ChunkFits(up, |h|);
      OntoJoin(held, Trimmed(up, h), Emit(up, HeldBack(up, h), x));
    }
  }

  lemma {:induction false} LeafExtends(st: Stage, layers: nat, c: Carry, mask: seq<seq<bool>>, width: nat,
                                       b: Buffers, h: seq<Frame>, x: seq<Frame>)
    requires Callable(st, layers, c, mask, width, x) && !st.Skip? && !st.Then? && Remembers(st, layers, c, b, h)
    ensures Seeded(st, b, h + x) == Seeded(st, b, h) + Leaf(st, layers, c, mask, width, x).y
    ensures Remembers(st, layers, Roll(c, Leaf(st, layers, c, mask, width, x), |x|), b, h + x)
  {
    match st
    case Spread(up) => SpreadExtends(up, h, x);
    case Conv(slot, reach, channels, g) =>
      WindowsExtend(Carried(b.tails, slot, reach, channels), h, x, g);
      ContextExtends(Carried(b.tails, slot, reach, channels), h, x);
    case Transpose(slot, up) =>
      TransposeExtends(up, Carried(b.overlaps, slot, up.stride, up.channels), h, x);
    case Attend(index, layer) =>
      assert index in Layers(st);
      CallExtendsWhole(layer, c.slabs[index], h, width, x);
    case _ =>
  }

  /**
   The split law: whatever came before, a call's output is what decoding the
   longer clip adds, and the rolled state remembers that clip.
   */
  lemma {:induction false} CallExtends(st: Stage, layers: nat, c: Carry, mask: seq<seq<bool>>, width: nat,
                                       b: Buffers, h: seq<Frame>, x: seq<Frame>)
    requires Callable(st, layers, c, mask, width, x) && Remembers(st, layers, c, b, h)
    ensures Seeded(st, b, h + x) == Seeded(st, b, h) + Call(st, layers, c, mask, width, x).y
    ensures Remembers(st, layers, Roll(c, Call(st, layers, c, mask, width, x), |x|), b, h + x)
    decreases st, 1
  {
    match st
    case Skip(body) =>
      CallExtends(body, layers, c, mask, width, b, h, x);
      SameRateKeeps(body, |h|);
      SameRateKeeps(body, |x|);
      SameRateKeeps(body, |h + x|);
      MixExtends(h, x, Seeded(body, b, h), Call(body, layers, c, mask, width, x).y);
    case Then(first, next) =>
      ThenExtends(first, next, layers, c, mask, width, b, h, x);
    case _ =>
      LeafExtends(st, layers, c, mask, width, b, h, x);
  }

  lemma MixExtends(h: seq<Frame>, x: seq<Frame>, hb: seq<Frame>, xb: seq<Frame>)
    requires |h| == |hb| && |x| == |xb|
    ensures Mix(h + x, hb + xb) == Mix(h, hb) + Mix(x, xb)
  {
  }

  lemma {:induction false} SpreadExtends(up: Up, h: seq<Frame>, x: seq<Frame>)
    requires Shaped(Spread(up))
    ensures Raw(up, h + x) == Raw(up, h) + Raw(up, x)
  {
    var base := Times(|h|, up.stride);
    TimesAdd(up.stride, |h|, |x|, |h + x|);
    forall t: nat | t < |Raw(up, h + x)|
      ensures Raw(up, h + x)[t] == if t < base then RawAt(up, h, t) else RawAt(up, x, t - base)
    {
      RawAtSides(up, h, x, base, t);
    }
    assert Raw(up, h + x)[..base] == Raw(up, h);
    assert Raw(up, h + x)[base..] == Raw(up, x);
  }

  lemma {:induction false} ThenExtends(first: Stage, next: Stage, layers: nat, c: Carry, mask: seq<seq<bool>>,
                                       width: nat, b: Buffers, h: seq<Frame>, x: seq<Frame>)
    requires var st := Then(first, next); Callable(st, layers, c, mask, width, x) && Remembers(st, layers, c, b, h)
    ensures var st := Then(first, next);
      var o := Call(st, layers, c, mask, width, x);
      && Seeded(st, b, h + x) == Seeded(st, b, h) + o.y
      && Remembers(st, layers, Roll(c, o, |x|), b, h + x)
    decreases Then(first, next), 0
  {
    var o1, c', o2 := ThenCall(first, next, layers, c, mask, width, x);
    CallExtends(first, layers, c, mask, width, b, h, x);
    RemembersFrame(next, layers, c, c', b, Seeded(first, b, h));
    CallExtends(next, layers, c', mask, width, b, Seeded(first, b, h), o1.y);
    ThenRolls(first, next, layers, c, c', o1, o2, |x|, |o1.y|, b, h + x);
  }

  /** The two calls a sequential composition is made of. */
  lemma ThenCall(first: Stage, next: Stage, layers: nat, c: Carry, mask: seq<seq<bool>>, width: nat, x: seq<Frame>)
    returns (o1: Outcome, c': Carry, o2: Outcome)
    requires Callable(Then(first, next), layers, c, mask, width, x)
    ensures o1 == Call(first, layers, c, mask, width, x) && c' == c.(slabs := o1.slabs)
    ensures Callable(next, layers, c', mask, width, o1.y) && (Layers(next) != {} ==> |o1.y| == |x|)
    ensures o2 == Call(next, layers, c', mask, width, o1.y)
    ensures Call(Then(first, next), layers, c, mask, width, x)
         == Outcome(o2.y, o1.tails + o2.tails, o1.overlaps + o2.overlaps, o2.slabs)
  {
    o1 := Call(first, layers, c, mask, width, x);
    ThenCallable(first, next, layers, c, mask, width, x, o1);
    c' := c.(slabs := o1.slabs);
    o2 := Call(next, layers, c', mask, width, o1.y);
  }

  /** Rolling both parts' buffers at once leaves each part its own. */
  lemma ThenRolls(first: Stage, next: Stage, layers: nat, c: Carry, c': Carry, o1: Outcome, o2: Outcome,
                  n: nat, n': nat, b: Buffers, h: seq<Frame>)
    requires Streams(Then(first, next), layers) && c' == c.(slabs := o1.slabs)
    requires Remembers(first, layers, Roll(c, o1, n), b, h)
    requires Remembers(next, layers, Roll(c', o2, n'), b, Seeded(first, b, h))
    requires Layers(next) != {} ==> n == n'
    requires o1.tails.Keys == TailSlots(first) && o1.overlaps.Keys == OverlapSlots(first)
    requires o2.tails.Keys == TailSlots(next) && o2.overlaps.Keys == OverlapSlots(next)
    requires SlabsKept(o1.slabs, o2.slabs, Layers(next))
    ensures var o := Outcome(o2.y, o1.tails + o2.tails, o1.overlaps + o2.overlaps, o2.slabs);
      Remembers(Then(first, next), layers, Roll(c, o, n), b, h)
  {
    var o := Outcome(o2.y, o1.tails + o2.tails, o1.overlaps + o2.overlaps, o2.slabs);
    RollJoined(first, layers, c, o1, n, c, o, n, b, h);
    RollJoined(next, layers, c', o2, n', c, o, n, b, Seeded(first, b, h));
  }

  /** A stage's rolled state survives being rolled together with other stages' buffers. */
  lemma RollJoined(st: Stage, layers: nat, c: Carry, o: Outcome, n: nat, c': Carry, o': Outcome, n': nat,
                    b: Buffers, h: seq<Frame>)
    requires Streams(st, layers) && Remembers(st, layers, Roll(c, o, n), b, h)
    requires o.tails.Keys == TailSlots(st) && o.overlaps.Keys == OverlapSlots(st)
    requires forall s :: s in o.tails ==> s in o'.tails && o'.tails[s] == o.tails[s]
    requires forall s :: s in o.overlaps ==> s in o'.overlaps && o'.overlaps[s] == o.overlaps[s]
    requires |o.slabs| == |o'.slabs|
    requires forall l :: l in Layers(st) && l < |o.slabs| ==> o.slabs[l] == o'.slabs[l]
    requires Layers(st) != {} ==> c.past + n == c'.past + n'
    ensures Remembers(st, layers, Roll(c', o', n'), b, h)
  {
    RemembersFrame(st, layers, Roll(c, o, n), Roll(c', o', n'), b, h);
  }
}
