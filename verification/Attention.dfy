/**
 Causal attention over key/value rows, as the vocoder's pre-transformer, the
 backbone and the depth decoder all run it. The projections, the rotary
 encoding, the softmax and the feed-forward half of a layer are parameters:
 `row` is what a layer stores for the frame at a position, `mix` is its output
 for a frame at a position given the rows the mask leaves open, in order.
 */
module Attention {
  import opened Frames

  type Row = seq<int>

  datatype Layer = Layer(row: (Frame, nat) -> Row, mix: (Frame, nat, seq<Row>) -> Frame)

  /** The key/value rows of frames sitting at positions `start`, `start + 1`, ... */
  function Rows(layer: Layer, x: seq<Frame>, start: nat): seq<Row> {
    seq(|x|, i requires 0 <= i < |x| => layer.row(x[i], start + i))
  }

  /** The rows a mask leaves open, in order; `true` is a zero in the mask, `false` minus infinity. */
  function Open(mask: seq<bool>, rows: seq<Row>): seq<Row>
    requires |mask| == |rows|
  {
    if rows == [] then []
    else Open(mask[..|mask| - 1], rows[..|rows| - 1]) + if mask[|mask| - 1] then [rows[|rows| - 1]] else []
  }

  /** The causal mask row of the query at position `p`, over `width` rows. */
  function CausalMask(p: nat, width: nat): (mask: seq<bool>)
    ensures |mask| == width && forall j :: 0 <= j < width ==> (mask[j] <==> j <= p)
  {
    seq(width, j => j <= p)
  }

  /** A causal mask opens exactly rows 0..p, whatever the rows after them hold. */
  lemma {:induction false} CausalOpen(p: nat, rows: seq<Row>)
    ensures Open(CausalMask(p, |rows|), rows) == rows[..if p < |rows| then p + 1 else |rows|]
  {
    if rows != [] {
      var n := |rows| - 1;
      assert CausalMask(p, |rows|)[..n] == CausalMask(p, n);
      CausalOpen(p, rows[..n]);
    }
  }

  /** One layer over a whole signal at once: the recompute-from-scratch meaning. */
  function WholeLayer(layer: Layer, x: seq<Frame>): seq<Frame> {
    seq(|x|, p requires 0 <= p < |x| =>
      layer.mix(x[p], p, Open(CausalMask(p, |x|), Rows(layer, x, 0))))
  }

  /** Rows written at the positions [start, start + |added|), the rest kept. */
  function Store(slab: seq<Row>, start: nat, added: seq<Row>): seq<Row>
    requires start + |added| <= |slab|
  {
    slab[..start] + added + slab[start + |added|..]
  }

  /** The mask a call uploads: one causal row per query, `width` wide. */
  function CallMask(past: nat, n: nat, width: nat): (mask: seq<seq<bool>>)
    ensures |mask| == n && forall q :: 0 <= q < n ==> |mask[q]| == width
  {
    var mask := seq(n, (q: nat) => CausalMask(past + q, width));
    assert forall q: nat :: q < n ==> mask[q] == CausalMask(past + q, width);
    mask
  }

  /** The attention mask a call uploads: row `q` opens the positions up to `past + q`. */
  method FillMask(past: nat, n: nat, width: nat) returns (mask: seq<seq<bool>>)
    ensures mask == CallMask(past, n, width) && |mask| == n
    ensures forall q, j :: 0 <= q < n && 0 <= j < width ==> |mask[q]| == width && (mask[q][j] <==> j <= past + q)
  {
    mask := [];
    for q := 0 to n
      invariant |mask| == q && forall i :: 0 <= i < q ==> mask[i] == CausalMask(past + i, width)
    {
      var line := seq(width, _ => false);
      var end := if past + q + 1 < width then past + q + 1 else width;
      for k := 0 to end
        invariant |line| == width
        invariant forall j :: 0 <= j < width ==> (line[j] <==> j < k)
      {
        line := line[k := true];
      }
      assert line == CausalMask(past + q, width);
      mask := mask + [line];
    }
    CallMaskRows(past, n, width);
  }

  lemma CallMaskRows(past: nat, n: nat, width: nat)
    ensures forall i :: 0 <= i < n ==> CallMask(past, n, width)[i] == CausalMask(past + i, width)
  {
  }

  /** One layer over a call's own frames, reading a `width`-row view of the slab. */
  function CallLayer(layer: Layer, slab: seq<Row>, past: nat, mask: seq<seq<bool>>, width: nat,
                     x: seq<Frame>): seq<Frame>
    requires past + |x| <= |slab| && width <= |slab|
    requires |mask| == |x| && forall q :: 0 <= q < |x| ==> |mask[q]| == width
  {
    var stored := Store(slab, past, Rows(layer, x, past));
    seq(|x|, q requires 0 <= q < |x| => layer.mix(x[q], past + q, Open(mask[q], stored[..width])))
  }

  /** A slab carries a history when its first rows are that history's rows. */
  ghost predicate Carries(layer: Layer, slab: seq<Row>, h: seq<Frame>) {
    |h| <= |slab| && slab[..|h|] == Rows(layer, h, 0)
  }

  /** Outputs for frames seen before do not change. */
  lemma OldOutput(layer: Layer, h: seq<Frame>, x: seq<Frame>, p: nat)
    requires p < |h|
    ensures WholeLayer(layer, h + x)[p] == WholeLayer(layer, h)[p]
  {
    var all, old' := Rows(layer, h + x, 0), Rows(layer, h, 0);
    CausalOpen(p, all);
    CausalOpen(p, old');
    assert all[..p + 1] == old'[..p + 1];
  }

  /** The slab then carries the longer history. */
  lemma StoreCarries(layer: Layer, slab: seq<Row>, h: seq<Frame>, x: seq<Frame>)
    requires Carries(layer, slab, h) && |h| + |x| <= |slab|
    ensures Carries(layer, Store(slab, |h|, Rows(layer, x, |h|)), h + x)
  {
    var stored := Store(slab, |h|, Rows(layer, x, |h|));
    var all := Rows(layer, h + x, 0);
    forall i | 0 <= i < |h + x|
      ensures stored[i] == all[i]
    {
      if i < |h| {
        assert slab[i] == slab[..|h|][i];
      }
    }
    assert stored[..|h + x|] == all;
  }

  /** The output for a new frame, read off the slab, is that of the whole pass. */
  lemma NewOutput(layer: Layer, h: seq<Frame>, x: seq<Frame>, stored: seq<Row>, width: nat, q: nat)
    requires q < |x| && |h| + |x| <= width <= |stored| && Carries(layer, stored, h + x)
    ensures WholeLayer(layer, h + x)[|h| + q]
         == layer.mix(x[q], |h| + q, Open(CausalMask(|h| + q, width), stored[..width]))
  {
    var all, seen := Rows(layer, h + x, 0), |h| + q + 1;
    CausalOpen(|h| + q, all);
    CausalOpen(|h| + q, stored[..width]);
    assert stored[..width][..seen] == stored[..|h + x|][..seen];
  }

  /**
   The incremental call agrees with the whole pass: rows past the history may
   hold anything, the view may be wider than what is written.
   */
  lemma CallExtendsWhole(layer: Layer, slab: seq<Row>, h: seq<Frame>, width: nat, x: seq<Frame>)
    requires Carries(layer, slab, h)
    requires |h| + |x| <= width <= |slab|
    ensures var mask := CallMask(|h|, |x|, width);
      WholeLayer(layer, h + x) == WholeLayer(layer, h) + CallLayer(layer, slab, |h|, mask, width, x)
    ensures Carries(layer, Store(slab, |h|, Rows(layer, x, |h|)), h + x)
  {
    StoreCarries(layer, slab, h, x);
    var stored := Store(slab, |h|, Rows(layer, x, |h|));
    var mask := CallMask(|h|, |x|, width);
    var whole, call := WholeLayer(layer, h + x), CallLayer(layer, slab, |h|, mask, width, x);
    forall p | 0 <= p < |h|
      ensures whole[p] == WholeLayer(layer, h)[p]
    {
      OldOutput(layer, h, x, p);
    }
    forall q | 0 <= q < |x|
      ensures whole[|h| + q] == call[q]
    {
      NewOutput(layer, h, x, stored, width, q);
      CallMaskRows(|h|, |x|, width);
    }
    Halves(whole, WholeLayer(layer, h), call);
  }

  lemma Halves<T>(all: seq<T>, a: seq<T>, b: seq<T>)
    requires |all| == |a| + |b|
    requires forall p :: 0 <= p < |a| ==> all[p] == a[p]
    requires forall q :: 0 <= q < |b| ==> all[|a| + q] == b[q]
    ensures all == a + b
  {
    forall i | 0 <= i < |all|
      ensures all[i] == (a + b)[i]
    {
      if i >= |a| {
        assert all[|a| + (i - |a|)] == b[i - |a|];
      }
    }
  }

  // ---- a stack of layers -----------------------------------------------------

  /** Every layer over a whole signal, from scratch. */
  function WholeStack(layers: seq<Layer>, x: seq<Frame>): (y: seq<Frame>)
    ensures |y| == |x|
  {
    if layers == [] then x else WholeStack(layers[1..], WholeLayer(layers[0], x))
  }

  /** One call through every layer, each writing its own slab before reading it. */
  function CallStack(layers: seq<Layer>, slabs: seq<seq<Row>>, past: nat, mask: seq<seq<bool>>, width: nat,
                     x: seq<Frame>): (r: (seq<Frame>, seq<seq<Row>>))
    requires Roomy(layers, slabs, past, width, |x|)
    requires |mask| == |x| && forall q :: 0 <= q < |x| ==> |mask[q]| == width
    ensures |r.0| == |x| && |r.1| == |slabs|
    ensures forall l :: 0 <= l < |slabs| ==> |r.1[l]| == |slabs[l]|
  {
    if layers == [] then (x, slabs)
    else
      var y := CallLayer(layers[0], slabs[0], past, mask, width, x);
      var slab := Store(slabs[0], past, Rows(layers[0], x, past));
      var r := CallStack(layers[1..], slabs[1..], past, mask, width, y);
      (r.0, [slab] + r.1)
  }

  ghost predicate Roomy(layers: seq<Layer>, slabs: seq<seq<Row>>, past: nat, width: nat, n: nat) {
    && |layers| == |slabs| && past + n <= width
    && forall l :: 0 <= l < |slabs| ==> width <= |slabs[l]|
  }

  ghost predicate StackCarries(layers: seq<Layer>, slabs: seq<seq<Row>>, h: seq<Frame>) {
    && |layers| == |slabs|
    && (layers != [] ==>
          Carries(layers[0], slabs[0], h) && StackCarries(layers[1..], slabs[1..], WholeLayer(layers[0], h)))
  }

  /** Incremental decoding of a stack is the causal pass over everything so far. */
  lemma {:induction false} StackExtends(layers: seq<Layer>, slabs: seq<seq<Row>>, h: seq<Frame>, width: nat,
                                        x: seq<Frame>)
    requires StackCarries(layers, slabs, h) && Roomy(layers, slabs, |h|, width, |x|)
    ensures var r := CallStack(layers, slabs, |h|, CallMask(|h|, |x|, width), width, x);
      WholeStack(layers, h + x) == WholeStack(layers, h) + r.0 && StackCarries(layers, r.1, h + x)
  {
    if layers != [] {
      var mask := CallMask(|h|, |x|, width);
      CallExtendsWhole(layers[0], slabs[0], h, width, x);
      var y := CallLayer(layers[0], slabs[0], |h|, mask, width, x);
      StackExtends(layers[1..], slabs[1..], WholeLayer(layers[0], h), width, y);
    }
  }

  /** Of each slab only the rows of the history matter. */
  lemma {:induction false} StackCarriesPrefix(layers: seq<Layer>, a: seq<seq<Row>>, b: seq<seq<Row>>, h: seq<Frame>)
    requires StackCarries(layers, a, h) && |a| == |b|
    requires forall l :: 0 <= l < |a| && |h| <= |a[l]| ==> |h| <= |b[l]| && a[l][..|h|] == b[l][..|h|]
    ensures StackCarries(layers, b, h)
  {
    if layers != [] {
      StackCarriesPrefix(layers[1..], a[1..], b[1..], WholeLayer(layers[0], h));
    }
  }

  lemma {:induction false} StackCarriesNothing(layers: seq<Layer>, slabs: seq<seq<Row>>)
    requires |layers| == |slabs|
    ensures StackCarries(layers, slabs, [])
  {
    if layers != [] {
      assert WholeLayer(layers[0], []) == [];
      StackCarriesNothing(layers[1..], slabs[1..]);
    }
  }

  /** Rounding a width up to the attention kernel's block of 256 rows. */
  const BLOCK: nat := 256

  function Padded(n: nat): (r: nat)
    ensures n <= r < n + BLOCK && r % BLOCK == 0
  {
    (n + BLOCK - 1) / BLOCK * BLOCK
  }
}
