/**
 The backbone language model: prompt prefill and single-frame decode over a
 key/value slab that grows by doubling, with one cached decode graph.
 */
module Backbone {
  import opened Common
  import opened Frames
  import opened Attention

  datatype Net = Net(
    layers: seq<Layer>,
    norm: Frame -> Frame,
    head: Frame -> Frame,
    table: int -> Frame,
    width: nat,
    codebooks: nat,
    vocab: nat)

  /** A call's input: prompt embeddings, or frames of one code per codebook. */
  datatype Input = Embeds(frames: seq<Frame>) | Codes(codes: seq<seq<int>>)

  /** The embedding of a code frame: codebook `c` looks up row `code + c * vocab`. */
  function CodeEmbedding(net: Net, codes: seq<int>, c: nat): Frame
    requires c <= |codes|
  {
    if c == 0 then Silence(net.width)
    else Plus(CodeEmbedding(net, codes, c - 1), net.table(codes[c - 1] + (c - 1) * net.vocab))
  }

  /** Channel by channel the embedding is the sum of the rows `code + codebook * vocab`, one for each codebook. */
  lemma {:induction false} EmbeddingIsSum(net: Net, codes: seq<int>, c: nat, ch: nat)
    requires c <= |codes| && ch < net.width
    ensures |CodeEmbedding(net, codes, c)| == net.width
    ensures CodeEmbedding(net, codes, c)[ch]
         == SumTo(c, (b: nat) => if b < |codes| then Channel(net.table(codes[b] + b * net.vocab), ch) else 0)
  {
    if c > 0 {
      EmbeddingIsSum(net, codes, c - 1, ch);
    }
  }

  /** No other row matters: tables that agree on the rows read embed a frame alike. */
  lemma {:induction false} EmbeddingReadsItsRows(net: Net, other: int -> Frame, codes: seq<int>, c: nat)
    requires c <= |codes|
    requires forall b: nat :: b < c ==> other(codes[b] + b * net.vocab) == net.table(codes[b] + b * net.vocab)
    ensures CodeEmbedding(net.(table := other), codes, c) == CodeEmbedding(net, codes, c)
  {
    if c > 0 {
      EmbeddingReadsItsRows(net, other, codes, c - 1);
      var b := c - 1;
      assert other(codes[b] + b * net.vocab) == net.table(codes[b] + b * net.vocab);
    }
  }

  /** The table with `d` added to one row. */
  function Bumped(net: Net, row: int, d: Frame): int -> Frame {
    r => if r == row then Plus(net.table(r), d) else net.table(r)
  }

  lemma BumpedChannel(net: Net, row: int, d: Frame, at: int, ch: nat)
    requires ch < |net.table(row)|
    ensures Channel(Bumped(net, row, d)(at), ch)
         == Channel(net.table(at), ch) + if at == row then Channel(d, ch) else 0
  {
  }

  /** Adding to a row adds to the frame once for each codebook that reads it. */
  lemma {:induction false} EmbeddingCountsRows(net: Net, row: int, d: Frame, codes: seq<int>, c: nat, ch: nat)
    requires c <= |codes| && ch < net.width && ch < |net.table(row)|
    ensures |CodeEmbedding(net, codes, c)| == |CodeEmbedding(net.(table := Bumped(net, row, d)), codes, c)| == net.width
    ensures CodeEmbedding(net.(table := Bumped(net, row, d)), codes, c)[ch]
         == CodeEmbedding(net, codes, c)[ch]
            + SumTo(c, (b: nat) => if b < |codes| && codes[b] + b * net.vocab == row then Channel(d, ch) else 0)
  {
    if c > 0 {
      EmbeddingCountsRows(net, row, d, codes, c - 1, ch);
      var at := codes[c - 1] + (c - 1) * net.vocab;
      BumpedChannel(net, row, d, at, ch);
      assert CodeEmbedding(net, codes, c) == Plus(CodeEmbedding(net, codes, c - 1), net.table(at));
    }
  }

  /** The index columns of an upload, one per codebook: each code moved to its codebook's part of the table. */
  method UploadCodes(codes: seq<seq<int>>, codebooks: nat, vocab: nat) returns (cols: seq<seq<int>>)
    requires forall i :: 0 <= i < |codes| ==> |codes[i]| == codebooks
    ensures |cols| == codebooks && forall cb :: 0 <= cb < codebooks ==> |cols[cb]| == |codes|
    ensures forall cb, i :: 0 <= cb < codebooks && 0 <= i < |codes| ==> cols[cb][i] == codes[i][cb] + cb * vocab
  {
    cols := [];
    for cb := 0 to codebooks
      invariant |cols| == cb && forall b :: 0 <= b < cb ==> |cols[b]| == |codes|
      invariant forall b, i :: 0 <= b < cb && 0 <= i < |codes| ==> cols[b][i] == codes[i][b] + b * vocab
    {
      var col := UploadColumn(codes, cb, cb * vocab);
      cols := cols + [col];
    }
  }

  method UploadColumn(codes: seq<seq<int>>, cb: nat, offset: nat) returns (col: seq<int>)
    requires forall i :: 0 <= i < |codes| ==> cb < |codes[i]|
    ensures |col| == |codes| && forall i :: 0 <= i < |codes| ==> col[i] == codes[i][cb] + offset
  {
    col := [];
    for i := 0 to |codes|
      invariant |col| == i && forall j :: 0 <= j < i ==> col[j] == codes[j][cb] + offset
    {
      col := col + [codes[i][cb] + offset];
    }
  }

  /** What the graph makes of the columns: the rows they name, added up. */
  function Gathered(net: Net, cols: seq<seq<int>>, i: nat, c: nat): Frame
    requires c <= |cols| && forall b :: 0 <= b < |cols| ==> i < |cols[b]|
  {
    if c == 0 then Silence(net.width) else Plus(Gathered(net, cols, i, c - 1), net.table(cols[c - 1][i]))
  }

  lemma {:induction false} GatheredIsEmbedding(net: Net, cols: seq<seq<int>>, codes: seq<int>, i: nat, c: nat)
    requires c <= |cols| == |codes| && forall b :: 0 <= b < |cols| ==> i < |cols[b]|
    requires forall b :: 0 <= b < |cols| ==> cols[b][i] == codes[b] + b * net.vocab
    ensures Gathered(net, cols, i, c) == CodeEmbedding(net, codes, c)
  {
    if c > 0 {
      GatheredIsEmbedding(net, cols, codes, i, c - 1);
    }
  }

  function Length(input: Input): nat {
    match input
    case Embeds(frames) => |frames|
    case Codes(codes) => |codes|
  }

  ghost predicate FitsNet(net: Net, input: Input) {
    input.Codes? ==> forall i :: 0 <= i < |input.codes| ==> |input.codes[i]| == net.codebooks
  }

  /** The frames an input feeds to the first layer. */
  function Fed(net: Net, input: Input): (x: seq<Frame>)
    requires FitsNet(net, input)
    ensures |x| == Length(input)
  {
    match input
    case Embeds(frames) => frames
    case Codes(codes) => seq(|codes|, i requires 0 <= i < |codes| => CodeEmbedding(net, codes[i], net.codebooks))
  }

  /** Whatever was fed before, an answer to code frames depends on the rows they name and on no other. */
  lemma AnswerReadsItsRows(net: Net, other: int -> Frame, h: seq<Frame>, codes: seq<seq<int>>)
    requires FitsNet(net, Codes(codes)) && codes != []
    requires forall i, b: nat :: 0 <= i < |codes| && b < net.codebooks ==>
               other(codes[i][b] + b * net.vocab) == net.table(codes[i][b] + b * net.vocab)
    ensures Fed(net.(table := other), Codes(codes)) == Fed(net, Codes(codes))
    ensures LastHidden(net.(table := other), h + Fed(net.(table := other), Codes(codes)))
         == LastHidden(net, h + Fed(net, Codes(codes)))
  {
    forall i | 0 <= i < |codes|
      ensures Fed(net.(table := other), Codes(codes))[i] == Fed(net, Codes(codes))[i]
    {
      EmbeddingReadsItsRows(net, other, codes[i], net.codebooks);
    }
  }

  /** What a causal pass over `x` from scratch ends with. */
  function LastHidden(net: Net, x: seq<Frame>): Frame
    requires x != []
  {
    net.norm(WholeStack(net.layers, x)[|x| - 1])
  }

  lemma LastExtends(net: Net, slabs: seq<seq<Row>>, h: seq<Frame>, width: nat, x: seq<Frame>)
    requires x != [] && StackCarries(net.layers, slabs, h) && Roomy(net.layers, slabs, |h|, width, |x|)
    ensures var r := CallStack(net.layers, slabs, |h|, CallMask(|h|, |x|, width), width, x);
      LastHidden(net, h + x) == net.norm(r.0[|x| - 1]) && StackCarries(net.layers, r.1, h + x)
  {
    StackExtends(net.layers, slabs, h, width, x);
  }

  /** A built graph: its frame count, attention width, and the slab its views point into. */
  datatype Graph = Graph(n: nat, width: nat, alloc: nat, slab: nat)
  class Backbone {
    const net: Net
    const context: nat
    const rowWidth: nat

    var past: nat
    var slabs: seq<seq<Row>>
    var alloc: nat
    /** Which allocation the slab is; a graph built on an earlier one views freed memory. */
    var slabId: nat
    var cached: Option<Graph>
    /** Rows copied per layer by slab growth since the last reset. */
    ghost var copied: nat

    function Limit(): nat { Max(Padded(context), BLOCK) }
    function Initial(): nat { Max(Min(Padded(512), Padded(context)), BLOCK) }

    ghost predicate Valid()
      reads this
    {
      && |slabs| == |net.layers| && (forall l :: 0 <= l < |slabs| ==> |slabs[l]| == alloc)
      && past <= alloc && alloc % BLOCK == 0 && Initial() <= alloc <= Limit()
      && (cached.Some? ==>
             && cached.value.slab == slabId && cached.value.alloc == alloc
             && cached.value.n == 1 && cached.value.width <= alloc)
      && copied <= 2 * alloc && (alloc < Limit() ==> copied <= alloc)
    }

    /** `h` is everything fed since the last reset. */
    ghost predicate Mid(h: seq<Frame>)
      reads this
    {
      Valid() && past == |h| && StackCarries(net.layers, slabs, h)
    }

    constructor (net: Net, context: nat, rowWidth: nat)
      ensures Mid([]) && this.net == net && this.context == context
    {
      this.net, this.context, this.rowWidth := net, context, rowWidth;
      var rows := Max(Min(Padded(512), Padded(context)), BLOCK);
      past, alloc, slabId, cached, copied := 0, rows, 0, None, 0;
      slabs := Blank(|net.layers|, rows, rowWidth);
      new;
      StackCarriesNothing(net.layers, slabs);
    }

    /** Starts over; a slab grown past the initial size is given back. */
    method Reset()
      requires Valid()
      modifies this
      ensures Mid([]) && alloc == Initial() && copied == 0
    {
      past := 0;
      copied := 0;
      if alloc > Initial() {
        AllocKv(Initial(), false);
      }
      StackCarriesNothing(net.layers, slabs);
    }

    /** Replaces the slab, keeping the written rows when asked, and drops the graph that viewed the old one. */
    method AllocKv(wanted: nat, copy: bool)
      requires |slabs| == |net.layers| && (forall l :: 0 <= l < |slabs| ==> |slabs[l]| == alloc)
      requires copy ==> past <= alloc && past <= wanted
      modifies `slabs, `alloc, `slabId, `cached, `copied
      ensures alloc == Max(wanted, BLOCK) && |slabs| == |net.layers|
      ensures forall l :: 0 <= l < |slabs| ==> |slabs[l]| == alloc
      ensures copy ==> forall l :: 0 <= l < |slabs| ==> slabs[l][..past] == old(slabs)[l][..past]
      ensures if alloc == old(alloc) then unchanged(this) else cached == None && slabId == old(slabId) + 1
      ensures copied == old(copied) + if copy && alloc != old(alloc) then past else 0
    {
      var rows := Max(wanted, BLOCK);
      if rows == alloc {
        return;
      }
      var saved: seq<seq<Row>> := [];
      if copy && past > 0 {
        for i := 0 to |net.layers|
          invariant |saved| == i && forall l :: 0 <= l < i ==> saved[l] == slabs[l][..past]
        {
          saved := saved + [slabs[i][..past]];
        }
        copied := copied + past;
      }
      var next := Blank(|net.layers|, rows, rowWidth);
      if copy && past > 0 {
        for i := 0 to |net.layers|
          invariant |next| == |net.layers| && forall l :: 0 <= l < |next| ==> |next[l]| == rows
          invariant forall l :: 0 <= l < i ==> next[l][..past] == saved[l]
        {
          next := next[i := saved[i] + next[i][past..]];
        }
      }
      slabs, alloc, slabId := next, rows, slabId + 1;
      cached := None;
    }

    /** Makes room for `need` rows, by doubling, up to the rounded context. */
    method EnsureKv(need: nat, ghost h: seq<Frame>) returns (ok: bool)
      requires Mid(h) && past <= need
      modifies `slabs, `alloc, `slabId, `cached, `copied
      ensures Mid(h) && alloc >= old(alloc)
      ensures ok <==> Padded(need) <= Limit()
      ensures ok ==> Padded(need) <= alloc
      ensures !ok ==> unchanged(this)
    {
      var target := Padded(need);
      if target <= alloc {
        return true;
      }
      if target > Padded(context) {
        return false;
      }
      ghost var before := slabs;
      PaddedMultiples(need, context, alloc);
      AllocKv(Min(Max(target, alloc * 2), Padded(context)), true);
      StackCarriesPrefix(net.layers, before, slabs, h);
      return true;
    }

    /** The graph a call runs on: the cached one while it still fits, else a fresh one. */
    method GraphFor(n: nat, codes: bool) returns (g: Graph)
      requires Valid() && n >= 1 && Padded(past + n) <= alloc
      modifies `cached
      ensures Valid()
      ensures g == Graph(n, Padded(past + n), alloc, slabId)
    {
      var built := Graph(n, Padded(past + n), alloc, slabId);
      if n == 1 && codes {
        if cached.Some? && (cached.value.width != Padded(past + n) || cached.value.alloc != alloc) {
          cached := None;
        }
        if cached.None? {
          cached := Some(built);
        }
        return cached.value;
      }
      return built;
    }

    /** One call: `h` grows by the input, and the result is that of a causal pass over all of it. */
    method Run(input: Input, ghost h: seq<Frame>) returns (ok: bool, hidden: Frame, logits: Frame)
      requires Mid(h) && FitsNet(net, input) && Length(input) >= 1
      modifies this
      ensures ok <==> Padded(|h| + Length(input)) <= Limit()
      ensures !ok ==> unchanged(this)
      ensures ok ==> Mid(h + Fed(net, input))
      ensures ok ==> hidden == LastHidden(net, h + Fed(net, input)) && logits == net.head(hidden)
    {
      hidden, logits := [], [];
      var n := Length(input);
      ok := EnsureKv(past + n, h);
      if !ok {
        return;
      }
      var g := GraphFor(n, input.Codes?);
      var x := Upload(input);
      hidden := Launch(g, x, h);
      logits := net.head(hidden);
    }

    /** The frames a graph starts from: the embeddings given, or those its uploaded columns name. */
    method Upload(input: Input) returns (x: seq<Frame>)
      requires FitsNet(net, input)
      ensures x == Fed(net, input)
    {
      match input {
        case Embeds(frames) => x := frames;
        case Codes(codes) =>
          var cols := UploadCodes(codes, net.codebooks, net.vocab);
          x := seq(|codes|, i requires 0 <= i < |codes| => Gathered(net, cols, i, net.codebooks));
          forall i | 0 <= i < |codes|
            ensures x[i] == Fed(net, input)[i]
          {
            GatheredIsEmbedding(net, cols, codes[i], i, net.codebooks);
          }
      }
    }

    /** Runs a graph: writes the new rows, attends under the causal mask, keeps the last hidden state. */
    method Launch(g: Graph, x: seq<Frame>, ghost h: seq<Frame>) returns (hidden: Frame)
      requires Mid(h) && x != [] && g.n == |x| && g.width == Padded(past + |x|) <= alloc
      modifies `slabs, `past
      ensures Mid(h + x) && hidden == LastHidden(net, h + x)
    {
      var mask := FillMask(past, g.n, g.width);
      LastExtends(net, slabs, h, g.width, x);
      var r := CallStack(net.layers, slabs, past, mask, g.width, x);
      slabs := r.1;
      hidden := net.norm(r.0[g.n - 1]);
      past := past + g.n;
    }

    /** Prefilling code frames; none at all is a no-op that clears the outputs. */
    method PrefillFrames(codes: seq<seq<int>>, ghost h: seq<Frame>) returns (ok: bool, hidden: Frame, logits: Frame)
      requires Mid(h) && FitsNet(net, Codes(codes))
      modifies this
      ensures codes == [] ==> ok && hidden == [] && logits == [] && unchanged(this)
      ensures codes != [] ==> (ok <==> Padded(|h| + |codes|) <= Limit())
      ensures ok ==> Mid(h + Fed(net, Codes(codes)))
      ensures ok && codes != [] ==> hidden == LastHidden(net, h + Fed(net, Codes(codes))) && logits == net.head(hidden)
      ensures !ok ==> unchanged(this)
    {
      if codes == [] {
        assert h + Fed(net, Codes(codes)) == h;
        return true, [], [];
      }
      ok, hidden, logits := Run(Codes(codes), h);
    }
  }

  /** Everything a sequence of calls feeds, in order. */
  function FedAll(net: Net, inputs: seq<Input>): seq<Frame>
    requires forall i :: 0 <= i < |inputs| ==> FitsNet(net, inputs[i])
  {
    if inputs == [] then [] else FedAll(net, inputs[..|inputs| - 1]) + Fed(net, inputs[|inputs| - 1])
  }

  /** Prompt, reference frames, single decodes in any order: the last answer is that of one causal pass. */
  method Replay(bb: Backbone, inputs: seq<Input>) returns (ok: bool, hidden: Frame, logits: Frame)
    requires bb.Valid() && inputs != []
    requires forall i :: 0 <= i < |inputs| ==> FitsNet(bb.net, inputs[i]) && Length(inputs[i]) >= 1
    modifies bb
    ensures ok ==> FedAll(bb.net, inputs) != [] && hidden == LastHidden(bb.net, FedAll(bb.net, inputs))
    ensures ok ==> logits == bb.net.head(hidden)
  {
    bb.Reset();
    ok, hidden, logits := true, [], [];
    ghost var fed: seq<Frame> := [];
    for i := 0 to |inputs|
      invariant ok && bb.Mid(fed) && fed == FedAll(bb.net, inputs[..i])
      invariant i > 0 ==> fed != [] && hidden == LastHidden(bb.net, fed) && logits == bb.net.head(hidden)
    {
      assert inputs[..i + 1][..i] == inputs[..i];
      ok, hidden, logits := bb.Run(inputs[i], fed);
      if !ok {
        return;
      }
      fed := fed + Fed(bb.net, inputs[i]);
    }
    assert inputs[..|inputs|] == inputs;
  }

  function Blank(layers: nat, rows: nat, width: nat): (b: seq<seq<Row>>)
    ensures |b| == layers && forall l :: 0 <= l < layers ==> |b[l]| == rows
  {
    var slab := seq(rows, _ => Silence(width));
    seq(layers, _ => slab)
  }

  lemma PaddedMultiples(a: nat, b: nat, alloc: nat)
    requires alloc % BLOCK == 0
    ensures Padded(a) % BLOCK == 0 && Padded(b) % BLOCK == 0 && (alloc * 2) % BLOCK == 0
  {
  }
}
