/**
 The depth decoder: from the backbone's hidden state and codebook 0, codebooks
 1 and up one by one, over a fixed-width key/value slab that is never cleared
 and graphs that are built once and reused for every frame.
 */
module Depth {
  import opened Common
  import opened Frames
  import opened Attention
  import Backbone

  datatype Net = Net(
    layers: seq<Layer>,
    table: int -> Frame,
    inProj: Frame -> Frame,
    norm: Frame -> Frame,
    head: (nat, Frame) -> seq<int>,
    codebooks: nat,
    vocab: nat,
    codebookSize: nat)

  /** Sampling: the code chosen for a codebook from its logits, minus infinity being None. */
  type Sampler = (nat, seq<Option<int>>) -> int

  // ---- the recomputed meaning -----------------------------------------------

  /** Inputs by position: the hidden state, then code `p - 1` offset by `(p - 1) * vocab`. */
  function Inputs(net: Net, hidden: Frame, codes: seq<int>): (x: seq<Frame>)
    ensures |x| == |codes| + 1
  {
    if codes == [] then [net.inProj(hidden)]
    else
      var k := |codes| - 1;
      Inputs(net, hidden, codes[..k]) + [net.inProj(net.table(codes[k] + k * net.vocab))]
  }

  lemma {:induction false} InputsSplit(net: Net, hidden: Frame, codes: seq<int>, k: nat)
    requires |codes| == k + 1
    ensures Inputs(net, hidden, codes)[..k + 1] == Inputs(net, hidden, codes[..k])
    ensures Inputs(net, hidden, codes)[k + 1] == net.inProj(net.table(codes[k] + k * net.vocab))
    ensures Inputs(net, hidden, codes)[0] == net.inProj(hidden)
  {
    if k > 0 {
      InputsSplit(net, hidden, codes[..k], k - 1);
    }
  }

  /** With codes 0..k-1 known, a causal pass over all positions ends in head k - 1's logits for codebook k. */
  function Logits(net: Net, hidden: Frame, codes: seq<int>): seq<int>
    requires codes != []
  {
    net.head(|codes| - 1, net.norm(WholeStack(net.layers, Inputs(net, hidden, codes))[|codes|]))
  }

  /** The reserved codec ids are never sampled. */
  function Masked(net: Net, logits: seq<int>): seq<Option<int>> {
    seq(|logits|, i requires 0 <= i < |logits| => if i < net.codebookSize then Some(logits[i]) else None)
  }

  /** A frame recomputed from scratch at every codebook. */
  function Recomputed(net: Net, hidden: Frame, pick: Sampler, codes: seq<int>): seq<int>
    requires codes != []
    decreases net.codebooks - |codes|
  {
    if |codes| >= net.codebooks then codes
    else Recomputed(net, hidden, pick, codes + [pick(|codes|, Masked(net, Logits(net, hidden, codes)))])
  }

  /** Code `k` is what is picked from head `k - 1` over the codes before it, reserved ids left out. */
  ghost predicate PickedAt(net: Net, hidden: Frame, pick: Sampler, codes: seq<int>, k: nat)
    requires 1 <= k < |codes|
  {
    var logits := net.head(k - 1, net.norm(WholeStack(net.layers, Inputs(net, hidden, codes[..k]))[k]));
    exists open: seq<Option<int>> ::
      && |open| == |logits| && codes[k] == pick(k, open)
      && forall i :: 0 <= i < |logits| ==> open[i] == if i < net.codebookSize then Some(logits[i]) else None
  }

  lemma PicksMasked(net: Net, hidden: Frame, pick: Sampler, codes: seq<int>, k: nat)
    requires 1 <= k < |codes| && codes[k] == pick(k, Masked(net, Logits(net, hidden, codes[..k])))
    ensures PickedAt(net, hidden, pick, codes, k)
  {
    var open := Masked(net, Logits(net, hidden, codes[..k]));
    assert |open| == |Logits(net, hidden, codes[..k])|;
  }

  /** A frame has one code per codebook, each picked from what came before it. */
  lemma {:induction false} RecomputedPicks(net: Net, hidden: Frame, pick: Sampler, codes: seq<int>)
    requires codes != [] && forall k :: 1 <= k < |codes| ==> PickedAt(net, hidden, pick, codes, k)
    ensures var all := Recomputed(net, hidden, pick, codes);
      && |all| == Max(|codes|, net.codebooks) && codes <= all
      && forall k :: 1 <= k < |all| ==> PickedAt(net, hidden, pick, all, k)
    decreases net.codebooks - |codes|
  {
    if |codes| < net.codebooks {
      var more := codes + [pick(|codes|, Masked(net, Logits(net, hidden, codes)))];
      forall k | 1 <= k < |more|
        ensures PickedAt(net, hidden, pick, more, k)
      {
        assert more[..k] == if k < |codes| then codes[..k] else codes;
        if k < |codes| {
          assert PickedAt(net, hidden, pick, codes, k);
        } else {
          PicksMasked(net, hidden, pick, more, k);
        }
      }
      RecomputedPicks(net, hidden, pick, more);
    }
  }

  /** A sampler that picks only what is open never picks a reserved id. */
  lemma ReservedNeverPicked(net: Net, hidden: Frame, pick: Sampler, codes: seq<int>, k: nat)
    requires 1 <= k < |codes| && PickedAt(net, hidden, pick, codes, k)
    requires net.codebookSize >= 1 && forall head: nat, x: Frame :: |net.head(head, x)| >= 1
    requires forall cb: nat, open: seq<Option<int>> :: open != [] && open[0].Some? ==>
               0 <= pick(cb, open) < |open| && open[pick(cb, open)].Some?
    ensures 0 <= codes[k] < net.codebookSize
  {
    var x := net.norm(WholeStack(net.layers, Inputs(net, hidden, codes[..k]))[k]);
    var logits := net.head(k - 1, x);
    assert |logits| >= 1;
  }

  // ---- the incremental decoder ------------------------------------------------

  /** Positions from `past` on, run over what the slab carries, end where one pass over all of them ends. */
  lemma StepExtends(net: Net, slabs: seq<seq<Row>>, all: seq<Frame>, past: nat, slots: nat, x: seq<Frame>)
    requires x != [] && past + |x| == |all| && all == all[..past] + x
    requires StackCarries(net.layers, slabs, all[..past]) && Roomy(net.layers, slabs, past, slots, |x|)
    ensures var r := CallStack(net.layers, slabs, past, CallMask(past, |x|, slots), slots, x);
      StackCarries(net.layers, r.1, all) && WholeStack(net.layers, all)[|all| - 1] == r.0[|x| - 1]
  {
    StackExtends(net.layers, slabs, all[..past], slots, x);
  }

  /** A pre-allocated graph: its frame count, the history length and the head it was built for. */
  datatype Graph = Graph(n: nat, past: nat, head: nat)

  /** The frames a graph feeds its first layer: a prefill graph replaces position 0 by the hidden state. */
  function FedBy(net: Net, g: Graph, hidden: Frame, ids: seq<int>): seq<Frame> {
    seq(|ids|, i requires 0 <= i < |ids| =>
      if g.past == 0 && i == 0 then net.inProj(hidden) else net.inProj(net.table(ids[i])))
  }

  /** What a step feeds is what the inputs hold from `past` on. */
  lemma FedIsRest(net: Net, g: Graph, hidden: Frame, ids: seq<int>, codes: seq<int>, frameHidden: Frame)
    requires |ids| == g.n && codes != [] && |codes| + 1 == g.past + g.n && g.head == |codes| - 1
    requires if g.past == 0 then g.n == 2 && hidden == frameHidden else g.n == 1
    requires ids[g.n - 1] == codes[g.head] + g.head * net.vocab
    ensures Inputs(net, frameHidden, codes) == Inputs(net, frameHidden, codes)[..g.past] + FedBy(net, g, hidden, ids)
  {
    InputsSplit(net, frameHidden, codes, g.head);
  }

  class DepthDecoder {
    const net: Net
    const slots: nat

    var slabs: seq<seq<Row>>
    var prefill: Option<Graph>
    var steps: seq<Option<Graph>>

    /** Nothing is said about the rows: they may be left over from any earlier frame. */
    ghost predicate Valid()
      reads this
    {
      && net.codebooks >= 1 && slots == net.codebooks + 1
      && |slabs| == |net.layers| && (forall l :: 0 <= l < |slabs| ==> |slabs[l]| == slots)
      && (prefill.Some? ==> prefill.value == Graph(2, 0, 0))
      && (steps == [] || |steps| == net.codebooks - 1)
      && forall head :: 0 <= head < |steps| && steps[head].Some? ==> steps[head].value == Graph(1, head + 1, head)
    }

    constructor (net: Net, slabs: seq<seq<Row>>)
      requires net.codebooks >= 1 && |slabs| == |net.layers|
      requires forall l :: 0 <= l < |slabs| ==> |slabs[l]| == net.codebooks + 1
      ensures Valid() && this.net == net
    {
      this.net, this.slots, this.slabs := net, net.codebooks + 1, slabs;
      prefill, steps := None, [];
    }

    /** The slot a step runs on, built on first use. */
    method SlotFor(n: nat, past: nat, head: nat) returns (g: Graph)
      requires Valid()
      requires if past == 0 then n == 2 && head == 0 else n == 1 && past == head + 1 && head < net.codebooks - 1
      modifies `prefill, `steps
      ensures Valid() && g == Graph(n, past, head)
    {
      if steps == [] {
        steps := seq(net.codebooks - 1, _ => None);
      }
      if past == 0 {
        if prefill.None? {
          prefill := Some(Graph(n, past, head));
        }
        return prefill.value;
      }
      if steps[head].None? {
        steps := steps[head := Some(Graph(n, past, head))];
      }
      return steps[head].value;
    }

    /** One launch: positions `past ..`, attending over the whole fixed-width slab under the causal mask. */
    method Step(n: nat, past: nat, head: nat, hidden: Frame, ids: seq<int>, ghost codes: seq<int>,
                ghost frameHidden: Frame)
      returns (logits: seq<int>)
      requires Valid() && |ids| == n
      requires if past == 0 then n == 2 && head == 0 else n == 1 && past == head + 1 && head < net.codebooks - 1
      requires past + n <= slots && (past == 0 ==> hidden == frameHidden)
      requires codes != [] && |codes| + 1 == past + n && head == |codes| - 1
      requires StackCarries(net.layers, slabs, Inputs(net, frameHidden, codes)[..past])
      requires ids[n - 1] == codes[|codes| - 1] + head * net.vocab
      modifies this
      ensures Valid()
      ensures StackCarries(net.layers, slabs, Inputs(net, frameHidden, codes))
      ensures logits == Logits(net, frameHidden, codes)
    {
      var g := SlotFor(n, past, head);
      var mask := FillMask(past, n, slots);
      var x := FedBy(net, g, hidden, ids);
      FedIsRest(net, g, hidden, ids, codes, frameHidden);
      StepExtends(net, slabs, Inputs(net, frameHidden, codes), past, slots, x);
      var r := CallStack(net.layers, slabs, past, mask, slots, x);
      slabs := r.1;
      logits := net.head(g.head, net.norm(r.0[g.n - 1]));
    }

    /** A full frame: every codebook as recomputing from scratch would sample it. */
    method RunFrame(hidden: Frame, c0: int, pick: Sampler) returns (codes: seq<int>)
      requires Valid()
      modifies this
      ensures Valid()
      ensures codes == Recomputed(net, hidden, pick, [c0])
      ensures |codes| == net.codebooks && codes[0] == c0
      ensures forall k :: 1 <= k < |codes| ==> PickedAt(net, hidden, pick, codes, k)
    {
      RecomputedPicks(net, hidden, pick, [c0]);
      codes := [c0];
      StackCarriesNothing(net.layers, slabs);
      assert Inputs(net, hidden, codes)[..0] == [];
      var logits := Step(2, 0, 0, hidden, [0, c0], codes, hidden);
      var cb := 1;
      while cb < net.codebooks
        invariant 1 <= cb <= net.codebooks && |codes| == cb && Valid()
        invariant Recomputed(net, hidden, pick, codes) == Recomputed(net, hidden, pick, [c0])
        invariant cb < net.codebooks ==> logits == Logits(net, hidden, codes)
        invariant cb < net.codebooks ==> StackCarries(net.layers, slabs, Inputs(net, hidden, codes))
      {
        ghost var before := codes;
        codes := codes + [pick(cb, Masked(net, logits))];
        if cb == net.codebooks - 1 {
          break;
        }
        assert codes[..cb] == before;
        assert Inputs(net, hidden, codes)[..cb + 1] == Inputs(net, hidden, before);
        logits := Step(1, cb + 1, cb, [], [codes[cb] + cb * net.vocab], codes, hidden);
        cb := cb + 1;
      }
    }
  }
}
