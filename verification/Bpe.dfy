/**
 Byte-pair merging of one chunk. The naive reading merges the lowest-ranked,
 leftmost adjacent pair until none is left; the tokenizer does it with a heap of
 candidates over an in-place doubly linked list, skipping stale candidates when
 they surface.
 */
module Bpe {
  import opened Common

  type Byte = b: int | 0 <= b < 256
  type Text = seq<Byte>

  const SPACE: Byte := 32

  /** Ranks by "left right", ids by text. */
  datatype Tables = Tables(vocab: map<Text, int>, merges: map<Text, int>, unk: int)

  function Key(a: Text, b: Text): Text {
    a + [SPACE] + b
  }

  predicate Mergeable(t: Tables, s: seq<Text>, i: int) {
    0 <= i < |s| - 1 && Key(s[i], s[i + 1]) in t.merges
  }

  function RankAt(t: Tables, s: seq<Text>, i: int): int
    requires Mergeable(t, s, i)
  {
    t.merges[Key(s[i], s[i + 1])]
  }

  // ---- the naive meaning --------------------------------------------------------

  /** Pair `i` is merged no later than pair `j`: lower rank, or the same rank and not further right. */
  predicate NotAfter(t: Tables, s: seq<Text>, i: int, j: int)
    requires Mergeable(t, s, i) && Mergeable(t, s, j)
  {
    RankAt(t, s, i) < RankAt(t, s, j) || (RankAt(t, s, i) == RankAt(t, s, j) && i <= j)
  }

  /** Of the mergeable pairs below `n`, pair `i` has the lowest rank, and is the leftmost that does. */
  ghost predicate BestBelow(t: Tables, s: seq<Text>, n: int, i: int) {
    Mergeable(t, s, i) && i < n && forall j :: Mergeable(t, s, j) && j < n ==> NotAfter(t, s, i, j)
  }

  ghost predicate Best(t: Tables, s: seq<Text>, i: int) {
    BestBelow(t, s, |s|, i)
  }

  lemma {:induction false} BestExists(t: Tables, s: seq<Text>, n: nat, some: int) returns (i: int)
    requires Mergeable(t, s, some) && some < n
    ensures BestBelow(t, s, n, i)
  {
    var m := n - 1;
    if other :| Mergeable(t, s, other) && other < m {
      i := BestExists(t, s, m, other);
      if Mergeable(t, s, m) && !NotAfter(t, s, i, m) {
        i := m;
      }
    } else {
      i := m;
    }
  }

  function MergeAt(s: seq<Text>, i: nat): seq<Text>
    requires i + 1 < |s|
  {
    s[..i] + [s[i] + s[i + 1]] + s[i + 2..]
  }

  /** Merging until no adjacent pair is left to merge. */
  ghost function Merged(t: Tables, s: seq<Text>): seq<Text>
    decreases |s|
  {
    if exists i :: Mergeable(t, s, i) then
      assert exists i :: Best(t, s, i) by {
        var some :| Mergeable(t, s, some);
        var best := BestExists(t, s, |s|, some);
        assert Best(t, s, best);
      }
      var i :| Best(t, s, i);
      Merged(t, MergeAt(s, i))
    else s
  }

  lemma MergedStep(t: Tables, s: seq<Text>, i: int)
    requires Best(t, s, i)
    ensures Merged(t, s) == Merged(t, MergeAt(s, i))
  {
    assert forall j :: Best(t, s, j) ==> i == j;
  }

  lemma {:induction false} MergedIsFinal(t: Tables, s: seq<Text>)
    ensures !exists i :: Mergeable(t, Merged(t, s), i)
    decreases |s|
  {
    if exists i :: Mergeable(t, s, i) {
      var some :| Mergeable(t, s, some);
      var i := BestExists(t, s, |s|, some);
      MergedStep(t, s, i);
      MergedIsFinal(t, MergeAt(s, i));
    }
  }

  /** A merge of pair `i`: no adjacent pair's rule has a lower rank, and no pair further left has the same. */
  ghost predicate MergesAt(t: Tables, a: seq<Text>, i: nat, b: seq<Text>) {
    && i + 1 < |a| && a[i] + [SPACE] + a[i + 1] in t.merges
    && (forall j :: 0 <= j < |a| - 1 && a[j] + [SPACE] + a[j + 1] in t.merges ==>
          && t.merges[a[i] + [SPACE] + a[i + 1]] <= t.merges[a[j] + [SPACE] + a[j + 1]]
          && (j < i ==> t.merges[a[i] + [SPACE] + a[i + 1]] < t.merges[a[j] + [SPACE] + a[j + 1]]))
    && b == a[..i] + [a[i] + a[i + 1]] + a[i + 2..]
  }

  /** Naive merging takes the lowest-ranked pair, the leftmost of those with that rank. */
  lemma LowestRankFirst(t: Tables, a: seq<Text>, i: nat, b: seq<Text>)
    requires MergesAt(t, a, i, b)
    ensures Merged(t, a) == Merged(t, b)
  {
    assert Mergeable(t, a, i);
    forall j | Mergeable(t, a, j) && j < |a|
      ensures NotAfter(t, a, i, j)
    {
      assert a[j] + [SPACE] + a[j + 1] in t.merges;
    }
    MergedStep(t, a, i);
  }

  /** Without a rule for any adjacent pair nothing changes. */
  lemma NoRuleNoMerge(t: Tables, s: seq<Text>)
    requires forall j :: 0 <= j < |s| - 1 ==> s[j] + [SPACE] + s[j + 1] !in t.merges
    ensures Merged(t, s) == s
  {
    assert forall j :: 0 <= j < |s| - 1 ==> Key(s[j], s[j + 1]) == s[j] + [SPACE] + s[j + 1];
  }

  lemma BestMerges(t: Tables, s: seq<Text>, i: nat)
    requires Best(t, s, i)
    ensures i + 1 < |s| && MergesAt(t, s, i, MergeAt(s, i))
  {
    forall j | 0 <= j < |s| - 1 && s[j] + [SPACE] + s[j + 1] in t.merges
      ensures t.merges[s[i] + [SPACE] + s[i + 1]] <= t.merges[s[j] + [SPACE] + s[j + 1]]
      ensures j < i ==> t.merges[s[i] + [SPACE] + s[i + 1]] < t.merges[s[j] + [SPACE] + s[j + 1]]
    {
      assert Mergeable(t, s, j) && NotAfter(t, s, i, j);
    }
  }

  ghost predicate MergesSomewhere(t: Tables, a: seq<Text>, b: seq<Text>) {
    exists i: nat :: MergesAt(t, a, i, b)
  }

  /** The naive result as a run: one such merge after another until no adjacent pair has a rule. */
  lemma {:induction false} MergedIsRun(t: Tables, s: seq<Text>) returns (run: seq<seq<Text>>)
    ensures run != [] && run[0] == s && run[|run| - 1] == Merged(t, s)
    ensures forall k :: 0 <= k < |run| - 1 ==> MergesSomewhere(t, run[k], run[k + 1])
    ensures var end := run[|run| - 1];
      forall j :: 0 <= j < |end| - 1 ==> end[j] + [SPACE] + end[j + 1] !in t.merges
    decreases |s|
  {
    if some :| Mergeable(t, s, some) {
      var i := BestExists(t, s, |s|, some);
      BestMerges(t, s, i);
      MergedStep(t, s, i);
      var rest := MergedIsRun(t, MergeAt(s, i));
      run := [s] + rest;
      assert run[|run| - 1] == rest[|rest| - 1];
      forall k | 0 <= k < |run| - 1
        ensures MergesSomewhere(t, run[k], run[k + 1])
      {
        if k > 0 {
          assert run[k] == rest[k - 1] && run[k + 1] == rest[k];
        }
      }
    } else {
      run := [s];
      forall j | 0 <= j < |s| - 1
        ensures s[j] + [SPACE] + s[j + 1] !in t.merges
      {
        assert !Mergeable(t, s, j);
      }
    }
  }

  function Join(s: seq<Text>): Text {
    if s == [] then [] else Join(s[..|s| - 1]) + s[|s| - 1]
  }

  lemma {:induction false} JoinConcat(a: seq<Text>, b: seq<Text>)
    ensures Join(a + b) == Join(a) + Join(b)
  {
    if b == [] {
      assert a + b == a;
    } else {
      var n := |b| - 1;
      assert (a + b)[..|a + b| - 1] == a + b[..n];
      JoinConcat(a, b[..n]);
    }
  }

  /** The id of a symbol; one outside the vocabulary is unknown. */
  function IdOf(t: Tables, text: Text): int {
    if text in t.vocab then t.vocab[text] else t.unk
  }

  function Ids(t: Tables, s: seq<Text>): seq<int> {
    seq(|s|, i requires 0 <= i < |s| => IdOf(t, s[i]))
  }

  // ---- the linked list ------------------------------------------------------------

  datatype Sym = Sym(prev: int, next: int, text: Text)
  datatype Cand = Cand(left: int, right: int, rank: int, len: nat)

  /** `a` leaves the heap strictly before `b`: lower rank, then further left. */
  predicate Before(a: Cand, b: Cand) {
    a.rank < b.rank || (a.rank == b.rank && a.left < b.left)
  }

  /** The text of the original symbols i, i+1, ..., j-1. */
  function Span(orig: seq<Text>, i: int, j: int): Text
    requires 0 <= i <= j <= |orig|
  {
    Join(orig[i..j])
  }

  /** Where the k-th live symbol ends. */
  function End(live: seq<nat>, n: nat, k: int): int
    requires 0 <= k < |live|
  {
    if k + 1 < |live| then live[k + 1] else n
  }

  /** The live cells, in order, starting with the first; every symbol has a text. */
  ghost predicate Ordered(orig: seq<Text>, live: seq<nat>) {
    && live != [] && live[0] == 0
    && (forall i, j :: 0 <= i < j < |live| ==> live[i] < live[j])
    && (forall k :: 0 <= k < |live| ==> live[k] < |orig|)
    && (forall i :: 0 <= i < |orig| ==> orig[i] != [])
  }

  /**
   The list as an array: the live cells, in order, hold consecutive stretches of
   the original symbols and link to their neighbours; every other cell is empty.
   */
  ghost predicate Linked(syms: seq<Sym>, orig: seq<Text>, live: seq<nat>) {
    && |syms| == |orig| && Ordered(orig, live)
    && (forall k {:trigger CellOf(orig, live, k)} :: 0 <= k < |live| ==> syms[live[k]] == CellOf(orig, live, k))
    && (forall i :: 0 <= i < |syms| && i !in live ==> syms[i].text == [])
  }

  ghost function CellOf(orig: seq<Text>, live: seq<nat>, k: int): Sym
    requires Ordered(orig, live) && 0 <= k < |live|
  {
    Sym(if k > 0 then live[k - 1] else -1, if k + 1 < |live| then live[k + 1] else -1,
        Span(orig, live[k], End(live, |orig|, k)))
  }

  /** The symbols the list currently stands for. */
  ghost function Texts(orig: seq<Text>, live: seq<nat>): seq<Text>
    requires Ordered(orig, live)
  {
    seq(|live|, k requires 0 <= k < |live| => Span(orig, live[k], End(live, |orig|, k)))
  }

  // ---- candidates -------------------------------------------------------------------

  /** A candidate records a pair that was once adjacent, its second part ending before `e`. */
  ghost predicate Recorded(t: Tables, orig: seq<Text>, c: Cand, e: int) {
    && 0 <= c.left < c.right < e <= |orig|
    && var key := Key(Span(orig, c.left, c.right), Span(orig, c.right, e));
       key in t.merges && c.rank == t.merges[key] && c.len == |Span(orig, c.left, c.right)| + |Span(orig, c.right, e)|
  }

  ghost function PairCand(t: Tables, orig: seq<Text>, live: seq<nat>, k: int): Cand
    requires Ordered(orig, live) && Mergeable(t, Texts(orig, live), k)
  {
    var s := Texts(orig, live);
    Cand(live[k], live[k + 1], RankAt(t, s, k), |s[k]| + |s[k + 1]|)
  }

  ghost predicate AllRecorded(t: Tables, orig: seq<Text>, work: multiset<Cand>) {
    forall c :: c in work ==> exists e :: Recorded(t, orig, c, e)
  }

  /** The heap: every entry was recorded for some pair, and every live mergeable pair has its entry. */
  ghost predicate Covers(t: Tables, orig: seq<Text>, live: seq<nat>, work: multiset<Cand>)
    requires Ordered(orig, live)
  {
    && AllRecorded(t, orig, work)
    && (forall k :: Mergeable(t, Texts(orig, live), k) ==> PairCand(t, orig, live, k) in work)
  }

  /** The test a popped candidate must pass: neither side consumed, still adjacent, same total length. */
  predicate Fresh(syms: seq<Sym>, c: Cand)
    requires 0 <= c.left < |syms| && 0 <= c.right < |syms|
  {
    && syms[c.left].text != [] && syms[c.right].text != []
    && syms[c.left].next == c.right
    && |syms[c.left].text| + |syms[c.right].text| == c.len
  }

  lemma {:induction false} SpanJoin(orig: seq<Text>, i: int, j: int, k: int)
    requires 0 <= i <= j <= k <= |orig|
    ensures Span(orig, i, j) + Span(orig, j, k) == Span(orig, i, k)
  {
    assert orig[i..j] + orig[j..k] == orig[i..k];
    JoinConcat(orig[i..j], orig[j..k]);
  }

  lemma {:induction false} SpanGrows(orig: seq<Text>, i: int, j: int, k: int)
    requires 0 <= i <= j < k <= |orig| && forall m :: 0 <= m < |orig| ==> orig[m] != []
    ensures |Span(orig, i, j)| < |Span(orig, i, k)|
    decreases k
  {
    assert orig[i..k][..k - 1 - i] == orig[i..k - 1];
    if j < k - 1 {
      SpanGrows(orig, i, j, k - 1);
    }
  }

  lemma LiveIndex(syms: seq<Sym>, orig: seq<Text>, live: seq<nat>, i: int) returns (k: int)
    requires Linked(syms, orig, live) && 0 <= i < |syms| && syms[i].text != []
    ensures 0 <= k < |live| && live[k] == i
  {
    assert i in live;
    k :| 0 <= k < |live| && live[k] == i;
  }

  /** A candidate that passes is the live pair's own: same neighbours, same texts, same rank. */
  lemma FreshIsLive(t: Tables, syms: seq<Sym>, orig: seq<Text>, live: seq<nat>, c: Cand) returns (k: int)
    requires Linked(syms, orig, live) && exists e :: Recorded(t, orig, c, e)
    requires 0 <= c.left < |syms| && 0 <= c.right < |syms| && Fresh(syms, c)
    ensures Mergeable(t, Texts(orig, live), k) && c == PairCand(t, orig, live, k)
  {
    var e :| Recorded(t, orig, c, e);
    k := LiveIndex(syms, orig, live, c.left);
    assert syms[live[k]] == CellOf(orig, live, k);
    assert live[k + 1] == c.right;
    assert syms[live[k + 1]] == CellOf(orig, live, k + 1);
    var end := End(live, |orig|, k + 1);
    if e < end {
      SpanGrows(orig, c.right, e, end);
    } else if end < e {
      SpanGrows(orig, c.right, end, e);
    }
  }

  /** A live pair's own candidate passes. */
  lemma LiveIsFresh(t: Tables, syms: seq<Sym>, orig: seq<Text>, live: seq<nat>, k: int)
    requires Linked(syms, orig, live) && Mergeable(t, Texts(orig, live), k)
    ensures Fresh(syms, PairCand(t, orig, live, k))
  {
    assert syms[live[k]] == CellOf(orig, live, k);
    assert syms[live[k + 1]] == CellOf(orig, live, k + 1);
    SpanGrows(orig, live[k], live[k], live[k + 1]);
    SpanGrows(orig, live[k + 1], live[k + 1], End(live, |orig|, k + 1));
  }

  /** The first live candidate to leave the heap is the naive reading's next merge. */
  lemma PoppedIsBest(t: Tables, orig: seq<Text>, live: seq<nat>, work: multiset<Cand>, k: int)
    requires Ordered(orig, live) && Covers(t, orig, live, work)
    requires Mergeable(t, Texts(orig, live), k)
    requires forall d :: d in work ==> !Before(d, PairCand(t, orig, live, k))
    ensures Best(t, Texts(orig, live), k)
    ensures k + 1 < |Texts(orig, live)| && MergesAt(t, Texts(orig, live), k, MergeAt(Texts(orig, live), k))
  {
    var s := Texts(orig, live);
    forall j | Mergeable(t, s, j)
      ensures NotAfter(t, s, k, j)
    {
      assert PairCand(t, orig, live, j) in work;
      if j < k {
        assert live[j] < live[k];
      }
    }
    BestMerges(t, s, k);
  }

  // ---- one merge on the list -------------------------------------------------------

  /** The cells after the right side is folded into the left one and unlinked. */
  function MergeCells(syms: seq<Sym>, l: int, r: int): seq<Sym>
    requires 0 <= l < |syms| && 0 <= r < |syms| && syms[r].next < |syms|
  {
    var left, right := syms[l], syms[r];
    var folded := syms[l := Sym(left.prev, right.next, left.text + right.text)][r := right.(text := [])];
    if right.next >= 0 then folded[right.next := folded[right.next].(prev := l)] else folded
  }

  /** `after` is `live` without its k-th element. */
  ghost predicate Without(live: seq<nat>, after: seq<nat>, k: int) {
    && |after| == |live| - 1
    && (forall j :: 0 <= j < k && j < |after| ==> after[j] == live[j])
    && (forall j :: 0 <= k <= j < |after| ==> after[j] == live[j + 1])
  }

  function DropAt(live: seq<nat>, k: int): (after: seq<nat>)
    requires 0 <= k < |live|
    ensures Without(live, after, k)
  {
    live[..k] + live[k + 1..]
  }

  lemma WithoutOrdered(orig: seq<Text>, live: seq<nat>, after: seq<nat>, k: int)
    requires Ordered(orig, live) && 0 <= k && k + 1 < |live| && Without(live, after, k + 1)
    ensures Ordered(orig, after)
  {
  }

  /** Where the stretches of the remaining cells start and end. */
  lemma CutAfterMerge(live: seq<nat>, after: seq<nat>, n: nat, k: int, j: int)
    requires 0 <= k && k + 1 < |live| && Without(live, after, k + 1) && 0 <= j < |after|
    ensures after[j] == live[if j <= k then j else j + 1]
    ensures End(after, n, j) == End(live, n, if j < k then j else j + 1)
  {
  }

  lemma TextAfterMerge(orig: seq<Text>, live: seq<nat>, after: seq<nat>, k: int, j: int)
    requires Ordered(orig, live) && 0 <= k && k + 1 < |live|
    requires Ordered(orig, after) && Without(live, after, k + 1) && 0 <= j < |after|
    ensures j < k ==> Texts(orig, after)[j] == Texts(orig, live)[j]
    ensures j == k ==> Texts(orig, after)[j] == Texts(orig, live)[k] + Texts(orig, live)[k + 1]
    ensures j > k ==> Texts(orig, after)[j] == Texts(orig, live)[j + 1]
  {
    var n := |orig|;
    CutAfterMerge(live, after, n, k, j);
    var i := if j <= k then j else j + 1;
    TextAt(orig, after, j);
    TextAt(orig, live, i);
    if j == k {
      TextAt(orig, live, k + 1);
      SpanJoin(orig, live[k], live[k + 1], End(live, n, k + 1));
    }
  }

  lemma TextAt(orig: seq<Text>, live: seq<nat>, k: int)
    requires Ordered(orig, live) && 0 <= k < |live|
    ensures Texts(orig, live)[k] == Span(orig, live[k], End(live, |orig|, k))
  {
  }

  /** On the symbols, dropping the right cell of a pair is the naive merge of that pair. */
  lemma TextsMerge(orig: seq<Text>, live: seq<nat>, after: seq<nat>, k: int)
    requires Ordered(orig, live) && 0 <= k && k + 1 < |live| && Without(live, after, k + 1)
    ensures Ordered(orig, after)
    ensures Texts(orig, after) == MergeAt(Texts(orig, live), k)
  {
    WithoutOrdered(orig, live, after, k);
    var s, merged := Texts(orig, live), Texts(orig, after);
    TextAfterMerge(orig, live, after, k, k);
    forall j {:trigger merged[j]} | 0 <= j < k
      ensures merged[j] == s[j]
    {
      TextAfterMerge(orig, live, after, k, j);
    }
    forall j {:trigger merged[j]} | k < j < |merged|
      ensures merged[j] == s[j + 1]
    {
      TextAfterMerge(orig, live, after, k, j);
    }
    MergeAtIs(s, k, merged);
  }

  lemma MergeAtIs(s: seq<Text>, k: nat, merged: seq<Text>)
    requires k + 1 < |s| && |merged| == |s| - 1
    requires merged[k] == s[k] + s[k + 1]
    requires forall j {:trigger merged[j]} :: 0 <= j < k ==> merged[j] == s[j]
    requires forall j {:trigger merged[j]} :: k < j < |merged| ==> merged[j] == s[j + 1]
    ensures merged == MergeAt(s, k)
  {
    var naive := MergeAt(s, k);
    forall j | 0 <= j < |merged|
      ensures merged[j] == naive[j]
    {
      if j > k {
        assert naive[j] == s[k + 2..][j - (k + 1)] == s[j + 1];
      } else if j == k {
        assert naive[j] == s[k] + s[k + 1];
      } else {
        assert naive[j] == s[..k][j] == s[j];
      }
    }
  }

  /** The cells a merge writes, and that it writes no others. */
  lemma CellsWritten(syms: seq<Sym>, orig: seq<Text>, live: seq<nat>, k: int)
    requires Linked(syms, orig, live) && 0 <= k && k + 1 < |live|
    ensures syms[live[k + 1]].next == (if k + 2 < |live| then live[k + 2] else -1) < |syms|
    ensures var cells := MergeCells(syms, live[k], live[k + 1]);
      && |cells| == |syms| && cells[live[k + 1]].text == []
      && cells[live[k]] == Sym(if k > 0 then live[k - 1] else -1, syms[live[k + 1]].next,
                               Span(orig, live[k], live[k + 1]) + Span(orig, live[k + 1], End(live, |orig|, k + 1)))
      && (k + 2 < |live| ==> cells[live[k + 2]] == syms[live[k + 2]].(prev := live[k]))
      && forall i :: 0 <= i < |syms| && i != live[k] && i != live[k + 1] && !(k + 2 < |live| && i == live[k + 2])
                ==> cells[i] == syms[i]
  {
    assert syms[live[k]] == CellOf(orig, live, k);
    assert syms[live[k + 1]] == CellOf(orig, live, k + 1);
  }

  lemma CellAfterMerge(syms: seq<Sym>, orig: seq<Text>, live: seq<nat>, after: seq<nat>, k: int, j: int)
    requires Linked(syms, orig, live) && 0 <= k && k + 1 < |live| && 0 <= j < |after|
    requires Ordered(orig, after) && Without(live, after, k + 1)
    requires syms[live[k + 1]].next < |syms|
    ensures MergeCells(syms, live[k], live[k + 1])[after[j]] == CellOf(orig, after, j)
  {
    if j == k {
      MergedCell(syms, orig, live, after, k);
    } else {
      var i := if j < k then j else j + 1;
      FarCell(syms, orig, live, k, j, i);
      FarLinks(orig, live, after, k, j, i);
    }
  }

  lemma MergedCell(syms: seq<Sym>, orig: seq<Text>, live: seq<nat>, after: seq<nat>, k: int)
    requires Linked(syms, orig, live) && 0 <= k && k + 1 < |live|
    requires Ordered(orig, after) && Without(live, after, k + 1)
    requires syms[live[k + 1]].next < |syms|
    ensures MergeCells(syms, live[k], live[k + 1])[after[k]] == CellOf(orig, after, k)
  {
    CellsWritten(syms, orig, live, k);
    CutAfterMerge(live, after, |orig|, k, k);
    SpanJoin(orig, live[k], live[k + 1], End(live, |orig|, k + 1));
  }

  lemma FarLinks(orig: seq<Text>, live: seq<nat>, after: seq<nat>, k: int, j: int, i: int)
    requires Ordered(orig, live) && 0 <= k && k + 1 < |live|
    requires Ordered(orig, after) && Without(live, after, k + 1)
    requires 0 <= j < |after| && j != k && i == (if j < k then j else j + 1)
    ensures after[j] == live[i]
    ensures CellOf(orig, after, j)
         == CellOf(orig, live, i).(prev := if j == k + 1 then live[k] else CellOf(orig, live, i).prev)
  {
    CutAfterMerge(live, after, |orig|, k, j);
  }

  /** Cells away from the merge keep their contents, but for the back link of the next one. */
  lemma FarCell(syms: seq<Sym>, orig: seq<Text>, live: seq<nat>, k: int, j: int, i: int)
    requires Linked(syms, orig, live) && 0 <= k && k + 1 < |live|
    requires 0 <= j < |live| - 1 && j != k && i == (if j < k then j else j + 1)
    requires syms[live[k + 1]].next < |syms|
    ensures MergeCells(syms, live[k], live[k + 1])[live[i]]
         == CellOf(orig, live, i).(prev := if j == k + 1 then live[k] else CellOf(orig, live, i).prev)
  {
    CellsWritten(syms, orig, live, k);
    assert syms[live[i]] == CellOf(orig, live, i);
  }

  lemma DeadAfterMerge(syms: seq<Sym>, orig: seq<Text>, live: seq<nat>, after: seq<nat>, k: int, i: int)
    requires Linked(syms, orig, live) && 0 <= k && k + 1 < |live|
    requires Without(live, after, k + 1) && 0 <= i < |syms| && i !in after
    requires syms[live[k + 1]].next < |syms|
    ensures MergeCells(syms, live[k], live[k + 1])[i].text == []
  {
    CellsWritten(syms, orig, live, k);
    if i != live[k + 1] {
      forall j | 0 <= j < |live|
        ensures live[j] != i
      {
        if j != k + 1 {
          assert after[if j < k + 1 then j else j - 1] == live[j];
        }
      }
      assert i !in live;
    }
  }

  lemma CellsAfterMerge(syms: seq<Sym>, orig: seq<Text>, live: seq<nat>, after: seq<nat>, k: int, cells: seq<Sym>)
    requires Linked(syms, orig, live) && 0 <= k && k + 1 < |live|
    requires Ordered(orig, after) && Without(live, after, k + 1)
    requires syms[live[k + 1]].next < |syms| && cells == MergeCells(syms, live[k], live[k + 1])
    ensures forall j {:trigger CellOf(orig, after, j)} :: 0 <= j < |after| ==> cells[after[j]] == CellOf(orig, after, j)
  {
    forall j {:trigger CellOf(orig, after, j)} | 0 <= j < |after|
      ensures cells[after[j]] == CellOf(orig, after, j)
    {
      CellAfterMerge(syms, orig, live, after, k, j);
    }
  }

  lemma RestAfterMerge(syms: seq<Sym>, orig: seq<Text>, live: seq<nat>, after: seq<nat>, k: int, cells: seq<Sym>)
    requires Linked(syms, orig, live) && 0 <= k && k + 1 < |live| && Without(live, after, k + 1)
    requires syms[live[k + 1]].next < |syms| && cells == MergeCells(syms, live[k], live[k + 1])
    ensures forall i :: 0 <= i < |cells| && i !in after ==> cells[i].text == []
  {
    forall i | 0 <= i < |cells| && i !in after
      ensures cells[i].text == []
    {
      DeadAfterMerge(syms, orig, live, after, k, i);
    }
  }

  lemma MergeLinked(syms: seq<Sym>, orig: seq<Text>, live: seq<nat>, after: seq<nat>, k: int)
    requires Linked(syms, orig, live) && 0 <= k && k + 1 < |live| && Without(live, after, k + 1)
    ensures syms[live[k + 1]].next < |syms|
    ensures Linked(MergeCells(syms, live[k], live[k + 1]), orig, after)
  {
    CellsWritten(syms, orig, live, k);
    WithoutOrdered(orig, live, after, k);
    var cells := MergeCells(syms, live[k], live[k + 1]);
    CellsAfterMerge(syms, orig, live, after, k, cells);
    RestAfterMerge(syms, orig, live, after, k, cells);
  }

  /** The candidate of two cells, when both exist and their texts merge. */
  function TryPair(t: Tables, syms: seq<Sym>, l: int, r: int): multiset<Cand>
    requires l < |syms| && r < |syms|
  {
    if l < 0 || r < 0 then multiset{}
    else
      var key := Key(syms[l].text, syms[r].text);
      if key !in t.merges then multiset{}
      else multiset{Cand(l, r, t.merges[key], |syms[l].text| + |syms[r].text|)}
  }

  lemma PairRecorded(t: Tables, orig: seq<Text>, live: seq<nat>, k: int)
    requires Ordered(orig, live) && Mergeable(t, Texts(orig, live), k)
    ensures Recorded(t, orig, PairCand(t, orig, live, k), End(live, |orig|, k + 1))
  {
  }

  /** Trying the cells of a live pair yields exactly the pair's own candidate. */
  lemma TryLive(t: Tables, syms: seq<Sym>, orig: seq<Text>, live: seq<nat>, k: int)
    requires Linked(syms, orig, live) && 0 <= k < |live| - 1
    ensures TryPair(t, syms, live[k], live[k + 1])
         == if Mergeable(t, Texts(orig, live), k) then multiset{PairCand(t, orig, live, k)} else multiset{}
  {
    assert syms[live[k]] == CellOf(orig, live, k);
    assert syms[live[k + 1]] == CellOf(orig, live, k + 1);
  }

  /** A stale candidate leaving the heap uncovers nothing. */
  lemma StaleLeaves(t: Tables, syms: seq<Sym>, orig: seq<Text>, live: seq<nat>, work: multiset<Cand>, c: Cand)
    requires Linked(syms, orig, live) && Covers(t, orig, live, work) && c in work
    requires 0 <= c.left < |syms| && 0 <= c.right < |syms| && !Fresh(syms, c)
    ensures Covers(t, orig, live, work - multiset{c})
  {
    forall k | Mergeable(t, Texts(orig, live), k)
      ensures PairCand(t, orig, live, k) in work - multiset{c}
    {
      LiveIsFresh(t, syms, orig, live, k);
    }
  }

  /** After a merge the two new neighbours' candidates restore the cover. */
  lemma MergeCovers(t: Tables, orig: seq<Text>, live: seq<nat>, after: seq<nat>, k: int,
                    work: multiset<Cand>, more: multiset<Cand>)
    requires Ordered(orig, live) && Mergeable(t, Texts(orig, live), k) && Covers(t, orig, live, work)
    requires Ordered(orig, after) && Without(live, after, k + 1)
    requires AllRecorded(t, orig, more)
    requires forall j :: k - 1 <= j <= k && Mergeable(t, Texts(orig, after), j) ==> PairCand(t, orig, after, j) in more
    ensures Covers(t, orig, after, work - multiset{PairCand(t, orig, live, k)} + more)
  {
    forall j | Mergeable(t, Texts(orig, after), j)
      ensures PairCand(t, orig, after, j) in work - multiset{PairCand(t, orig, live, k)} + more
    {
      PairCovered(t, orig, live, after, k, work, more, j);
    }
  }

  lemma PairCovered(t: Tables, orig: seq<Text>, live: seq<nat>, after: seq<nat>, k: int,
                    work: multiset<Cand>, more: multiset<Cand>, j: int)
    requires Ordered(orig, live) && Mergeable(t, Texts(orig, live), k) && Covers(t, orig, live, work)
    requires Ordered(orig, after) && Without(live, after, k + 1)
    requires Mergeable(t, Texts(orig, after), j)
    requires k - 1 <= j <= k ==> PairCand(t, orig, after, j) in more
    ensures PairCand(t, orig, after, j) in work - multiset{PairCand(t, orig, live, k)} + more
  {
    if j < k - 1 || j > k {
      var i := if j < k then j else j + 1;
      FarPairKept(t, orig, live, after, k, j, i);
      assert PairCand(t, orig, live, i) in work;
      assert PairCand(t, orig, live, k).left == live[k];
    }
  }

  /** Where a part away from the merge sits before it. */
  function WasAt(k: int, j: int): int {
    if j <= k then j else j + 1
  }

  lemma FarPart(orig: seq<Text>, live: seq<nat>, after: seq<nat>, k: int, j: int)
    requires Ordered(orig, live) && Ordered(orig, after) && Without(live, after, k + 1) && 0 <= k < |live| - 1
    requires 0 <= j < |after| && j != k
    ensures WasAt(k, j) < |live| && after[j] == live[WasAt(k, j)]
    ensures Texts(orig, after)[j] == Texts(orig, live)[WasAt(k, j)]
  {
    TextAfterMerge(orig, live, after, k, j);
    CutAfterMerge(live, after, |orig|, k, j);
  }

  lemma SameCand(t: Tables, orig: seq<Text>, live: seq<nat>, after: seq<nat>, j: int, i: int)
    requires Ordered(orig, live) && Ordered(orig, after)
    requires Mergeable(t, Texts(orig, after), j) && 0 <= i < |live| - 1
    requires after[j] == live[i] && after[j + 1] == live[i + 1]
    requires Texts(orig, after)[j] == Texts(orig, live)[i] && Texts(orig, after)[j + 1] == Texts(orig, live)[i + 1]
    ensures Mergeable(t, Texts(orig, live), i)
    ensures PairCand(t, orig, after, j) == PairCand(t, orig, live, i)
  {
  }

  /** Pairs away from a merge keep their candidates, which are not the merged pair's. */
  lemma FarPairKept(t: Tables, orig: seq<Text>, live: seq<nat>, after: seq<nat>, k: int, j: int, i: int)
    requires Ordered(orig, live) && Ordered(orig, after) && Without(live, after, k + 1) && 0 <= k < |live| - 1
    requires Mergeable(t, Texts(orig, after), j) && (j < k - 1 || j > k) && i == (if j < k then j else j + 1)
    ensures Mergeable(t, Texts(orig, live), i)
    ensures PairCand(t, orig, after, j) == PairCand(t, orig, live, i)
    ensures PairCand(t, orig, live, i).left != live[k]
  {
    FarPart(orig, live, after, k, j);
    FarPart(orig, live, after, k, j + 1);
    SameCand(t, orig, live, after, j, i);
    assert live[i] != live[k];
  }

  // ---- the tokenizer's loop ----------------------------------------------------------

  /** Length of a UTF-8 sequence by its lead byte; an invalid lead byte stands alone. */
  function Utf8Len(c: Byte): (n: nat)
    ensures 1 <= n <= 4
  {
    if c < 0x80 then 1
    else if c / 32 == 0x06 then 2
    else if c / 16 == 0x0e then 3
    else if c / 8 == 0x1e then 4
    else 1
  }

  const HEX: Text := [48, 49, 50, 51, 52, 53, 54, 55, 56, 57, 65, 66, 67, 68, 69, 70]

  /** The byte-fallback symbol "<0xAB>". */
  function ByteToken(b: Byte): Text {
    [60, 48, 120, HEX[b / 16], HEX[b % 16], 62]
  }

  /** Digit `d` of a byte token, capitals after nine. */
  function Digit(d: nat): Byte
    requires d < 16
  {
    if d <= 9 then 48 + d else 55 + d
  }

  lemma ByteTokenSpelled(b: Byte)
    ensures ByteToken(b) == [60, 48, 120, Digit(b / 16), Digit(b % 16), 62]
  {
    assert forall d :: 0 <= d < 16 ==> HEX[d] == Digit(d);
  }

  function ByteTokens(s: Text): seq<Text> {
    seq(|s|, i requires 0 <= i < |s| => ByteToken(s[i]))
  }

  /** How many bytes the next character takes, cut short at the end of the chunk. */
  function CharLen(chunk: Text): (l: nat)
    requires chunk != []
    ensures 1 <= l <= |chunk|
  {
    var l := Utf8Len(chunk[0]);
    if l <= |chunk| then l else |chunk|
  }

  /** The initial symbols: characters the vocabulary has, byte tokens for the others. */
  function Symbols(t: Tables, chunk: Text): seq<Text> {
    if chunk == [] then []
    else
      var l := CharLen(chunk);
      CharSymbols(t, chunk[..l]) + Symbols(t, chunk[l..])
  }

  function CharSymbols(t: Tables, ch: Text): seq<Text> {
    if ch in t.vocab then [ch] else ByteTokens(ch)
  }

  /** How many bytes a character takes that begins with byte `c`. */
  predicate Leads(c: Byte, width: nat) {
    match width
    case 1 => c <= 0xbf || 0xf8 <= c
    case 2 => 0xc0 <= c <= 0xdf
    case 3 => 0xe0 <= c <= 0xef
    case 4 => 0xf0 <= c <= 0xf7
    case _ => false
  }

  /** Each byte as "<0xAB>". */
  function Spelled(s: Text): seq<Text> {
    seq(|s|, i requires 0 <= i < |s| => [60, 48, 120, Digit(s[i] / 16), Digit(s[i] % 16), 62])
  }

  /** A character the vocabulary has is one symbol, any other one symbol for each of its bytes. */
  lemma SymbolsAre(t: Tables, ch: Text, rest: Text, width: nat)
    requires ch != [] && Leads(ch[0], width) && (|ch| == width || (|ch| < width && rest == []))
    ensures Symbols(t, ch + rest) == (if ch in t.vocab then [ch] else Spelled(ch)) + Symbols(t, rest)
  {
    assert Utf8Len(ch[0]) == width;
    assert (ch + rest)[..|ch|] == ch && (ch + rest)[|ch|..] == rest;
    forall i | 0 <= i < |ch|
      ensures ByteTokens(ch)[i] == Spelled(ch)[i]
    {
      ByteTokenSpelled(ch[i]);
    }
  }

  lemma {:induction false} SymbolsNonEmpty(t: Tables, chunk: Text)
    ensures chunk != [] ==> Symbols(t, chunk) != []
    ensures forall i :: 0 <= i < |Symbols(t, chunk)| ==> Symbols(t, chunk)[i] != []
  {
    if chunk != [] {
      SymbolsNonEmpty(t, chunk[CharLen(chunk)..]);
    }
  }

  /** Splits a chunk into symbols. */
  method SplitSymbols(t: Tables, chunk: Text) returns (texts: seq<Text>)
    ensures texts == Symbols(t, chunk)
  {
    texts := [];
    var rest := chunk;
    while rest != []
      invariant texts + Symbols(t, rest) == Symbols(t, chunk)
      decreases |rest|
    {
      var l := CharLen(rest);
      Regroup(texts, CharSymbols(t, rest[..l]), Symbols(t, rest[l..]));
      texts := texts + CharSymbols(t, rest[..l]);
      rest := rest[l..];
    }
  }

  /** Lays the symbols out as a linked list of neighbours. */
  method Link(texts: seq<Text>) returns (syms: array<Sym>, ghost live: seq<nat>)
    requires texts != [] && forall i :: 0 <= i < |texts| ==> texts[i] != []
    ensures fresh(syms) && Linked(syms[..], texts, live)
    ensures |live| == |texts| && (forall i :: 0 <= i < |live| ==> live[i] == i) && Texts(texts, live) == texts
  {
    var n := |texts|;
    syms := new Sym[n](i requires 0 <= i < n => FreshSym(texts, i));
    live := seq(n, i => i);
    FreshTexts(texts, live);
    FreshCells(syms[..], texts, live);
  }

  function FreshSym(texts: seq<Text>, i: nat): Sym
    requires i < |texts|
  {
    Sym(i - 1, if i + 1 < |texts| then i + 1 else -1, texts[i])
  }

  predicate Identity(live: seq<nat>, n: nat) {
    |live| == n && forall i :: 0 <= i < n ==> live[i] == i
  }

  lemma FreshTexts(texts: seq<Text>, live: seq<nat>)
    requires texts != [] && (forall i :: 0 <= i < |texts| ==> texts[i] != []) && Identity(live, |texts|)
    ensures Ordered(texts, live) && Texts(texts, live) == texts
  {
    forall k | 0 <= k < |texts|
      ensures Texts(texts, live)[k] == texts[k]
    {
      SpanOne(texts, k);
    }
  }

  lemma FreshCells(cells: seq<Sym>, texts: seq<Text>, live: seq<nat>)
    requires Ordered(texts, live) && Identity(live, |texts|) && |cells| == |texts|
    requires forall i :: 0 <= i < |cells| ==> cells[i] == FreshSym(texts, i)
    ensures Linked(cells, texts, live)
  {
    forall k {:trigger CellOf(texts, live, k)} | 0 <= k < |texts|
      ensures cells[live[k]] == CellOf(texts, live, k)
    {
      SpanOne(texts, k);
    }
    forall i | 0 <= i < |cells|
      ensures i in live
    {
      assert live[i] == i;
    }
  }

  lemma SpanOne(orig: seq<Text>, k: int)
    requires 0 <= k < |orig|
    ensures Span(orig, k, k + 1) == orig[k]
  {
    assert orig[k..k + 1] == [orig[k]];
    assert orig[k..k + 1][..0] == [];
    assert Join(orig[k..k + 1]) == [] + orig[k];
  }

  /** A non-empty heap has a top. */
  lemma {:induction false} Top(work: multiset<Cand>) returns (c: Cand)
    requires work != multiset{}
    ensures c in work && forall d :: d in work ==> !Before(d, c)
    decreases |work|
  {
    var some :| some in work;
    var rest := work - multiset{some};
    assert forall d :: d in work ==> d == some || d in rest;
    if rest == multiset{} {
      c := some;
    } else {
      var r := Top(rest);
      c := if Before(some, r) then some else r;
    }
  }

  /** The candidates of the initial neighbours. */
  method InitialHeap(t: Tables, syms: array<Sym>, ghost orig: seq<Text>, ghost all: seq<nat>)
    returns (work: multiset<Cand>)
    requires Linked(syms[..], orig, all) && |all| == |orig| && forall i :: 0 <= i < |all| ==> all[i] == i
    ensures Covers(t, orig, all, work)
  {
    work := multiset{};
    var i := 0;
    while i + 1 < syms.Length
      invariant 0 <= i < syms.Length
      invariant AllRecorded(t, orig, work)
      invariant forall k :: Mergeable(t, Texts(orig, all), k) && k < i ==> PairCand(t, orig, all, k) in work
    {
      TryLive(t, syms[..], orig, all, i);
      if Mergeable(t, Texts(orig, all), i) {
        PairRecorded(t, orig, all, i);
      }
      work := work + TryPair(t, syms[..], i, i + 1);
      i := i + 1;
    }
  }

  /** Folds the right cell of a pair into the left one, in place. */
  method MergePair(syms: array<Sym>, l: int, r: int)
    requires 0 <= l < syms.Length && 0 <= r < syms.Length && syms[r].next < syms.Length
    modifies syms
    ensures syms[..] == MergeCells(old(syms[..]), l, r)
  {
    var left, right := syms[l], syms[r];
    syms[l] := Sym(left.prev, right.next, left.text + right.text);
    syms[r] := right.(text := []);
    if right.next >= 0 {
      syms[right.next] := syms[right.next].(prev := l);
    }
  }

  lemma TryPrevious(t: Tables, syms: seq<Sym>, orig: seq<Text>, live: seq<nat>, k: int)
    requires Linked(syms, orig, live) && 0 <= k < |live|
    ensures syms[live[k]].prev < |syms|
    ensures var more := TryPair(t, syms, syms[live[k]].prev, live[k]);
      AllRecorded(t, orig, more) && (Mergeable(t, Texts(orig, live), k - 1) ==> PairCand(t, orig, live, k - 1) in more)
  {
    assert syms[live[k]] == CellOf(orig, live, k);
    if k > 0 {
      TryLive(t, syms, orig, live, k - 1);
      if Mergeable(t, Texts(orig, live), k - 1) {
        PairRecorded(t, orig, live, k - 1);
      }
    }
  }

  lemma TryNext(t: Tables, syms: seq<Sym>, orig: seq<Text>, live: seq<nat>, k: int)
    requires Linked(syms, orig, live) && 0 <= k < |live|
    ensures syms[live[k]].next < |syms|
    ensures var more := TryPair(t, syms, live[k], syms[live[k]].next);
      AllRecorded(t, orig, more) && (Mergeable(t, Texts(orig, live), k) ==> PairCand(t, orig, live, k) in more)
  {
    assert syms[live[k]] == CellOf(orig, live, k);
    if k + 1 < |live| {
      TryLive(t, syms, orig, live, k);
      if Mergeable(t, Texts(orig, live), k) {
        PairRecorded(t, orig, live, k);
      }
    }
  }

  /** A fresh top candidate is the naive reading's next merge. */
  lemma FreshIsNext(t: Tables, syms: seq<Sym>, orig: seq<Text>, live: seq<nat>, work: multiset<Cand>, c: Cand)
    returns (k: int, after: seq<nat>)
    requires Linked(syms, orig, live) && Covers(t, orig, live, work)
    requires c in work && forall d :: d in work ==> !Before(d, c)
    requires 0 <= c.left < |syms| && 0 <= c.right < |syms| && Fresh(syms, c)
    ensures Mergeable(t, Texts(orig, live), k) && c == PairCand(t, orig, live, k)
    ensures Ordered(orig, after) && Without(live, after, k + 1)
    ensures Merged(t, Texts(orig, after)) == Merged(t, Texts(orig, live))
  {
    k := FreshIsLive(t, syms, orig, live, c);
    PoppedIsBest(t, orig, live, work, k);
    MergedStep(t, Texts(orig, live), k);
    after := DropAt(live, k + 1);
    TextsMerge(orig, live, after, k);
  }

  /** The candidates tried after a merge restore the heap's cover. */
  lemma TriedCovers(t: Tables, syms: seq<Sym>, orig: seq<Text>, live: seq<nat>, after: seq<nat>, k: int,
                    work: multiset<Cand>)
    requires Linked(syms, orig, after) && Ordered(orig, live) && Without(live, after, k + 1)
    requires Mergeable(t, Texts(orig, live), k) && Covers(t, orig, live, work)
    ensures k < |after| && after[k] == live[k]
    ensures syms[live[k]].prev < |syms| && syms[live[k]].next < |syms|
    ensures var more := TryPair(t, syms, syms[live[k]].prev, live[k]) + TryPair(t, syms, live[k], syms[live[k]].next);
      Covers(t, orig, after, work - multiset{PairCand(t, orig, live, k)} + more)
  {
    CutAfterMerge(live, after, |orig|, k, k);
    TryPrevious(t, syms, orig, after, k);
    TryNext(t, syms, orig, after, k);
    var more := TryPair(t, syms, syms[live[k]].prev, live[k]) + TryPair(t, syms, live[k], syms[live[k]].next);
    MergeCovers(t, orig, live, after, k, work, more);
  }

  /** One fresh candidate: the list takes the naive merge, and the heap covers its new pairs. */
  method TakeFresh(t: Tables, syms: array<Sym>, work: multiset<Cand>, c: Cand, ghost orig: seq<Text>,
                   ghost live: seq<nat>)
    returns (work': multiset<Cand>, ghost after: seq<nat>)
    requires Linked(syms[..], orig, live) && Covers(t, orig, live, work)
    requires c in work && forall d :: d in work ==> !Before(d, c)
    requires 0 <= c.left < syms.Length && 0 <= c.right < syms.Length && Fresh(syms[..], c)
    modifies syms
    ensures Linked(syms[..], orig, after) && Covers(t, orig, after, work') && |after| < |live|
    ensures Merged(t, Texts(orig, after)) == Merged(t, Texts(orig, live))
  {
    ghost var k;
    k, after := FreshIsNext(t, syms[..], orig, live, work, c);
    MergeLinked(syms[..], orig, live, after, k);
    MergePair(syms, c.left, c.right);
    TriedCovers(t, syms[..], orig, live, after, k, work);
    var more := TryPair(t, syms[..], syms[c.left].prev, c.left) + TryPair(t, syms[..], c.left, syms[c.left].next);
    work' := work - multiset{c} + more;
  }

  /** Merges until the heap is empty; the list then stands for the naive result. */
  method MergeAll(t: Tables, syms: array<Sym>, ghost orig: seq<Text>, ghost all: seq<nat>)
    returns (ghost live: seq<nat>)
    requires Linked(syms[..], orig, all) && |all| == |orig| && forall i :: 0 <= i < |all| ==> all[i] == i
    modifies syms
    ensures Linked(syms[..], orig, live)
    ensures Texts(orig, live) == Merged(t, Texts(orig, all))
  {
    live := all;
    var work := InitialHeap(t, syms, orig, all);
    while work != multiset{}
      invariant Linked(syms[..], orig, live) && Covers(t, orig, live, work)
      invariant Merged(t, Texts(orig, live)) == Merged(t, Texts(orig, all))
      decreases |live|, |work|
    {
      ghost var top := Top(work);
      var c :| c in work && forall d :: d in work ==> !Before(d, c);
      ghost var e :| Recorded(t, orig, c, e);
      if syms[c.left].text == [] || syms[c.right].text == []
         || syms[c.left].next != c.right
         || |syms[c.left].text| + |syms[c.right].text| != c.len {
        StaleLeaves(t, syms[..], orig, live, work, c);
        work := work - multiset{c};
        continue;
      }
      work, live := TakeFresh(t, syms, work, c, orig, live);
    }
  }

  /** Follows the links and looks every remaining symbol up. */
  method Emit(t: Tables, syms: array<Sym>, ghost orig: seq<Text>, ghost live: seq<nat>) returns (out: seq<int>)
    requires Linked(syms[..], orig, live)
    ensures out == Ids(t, Texts(orig, live))
  {
    out := [];
    var i := 0;
    ghost var k := 0;
    while 0 <= i < syms.Length
      invariant 0 <= k <= |live| && i == (if k < |live| then live[k] else -1)
      invariant out == Ids(t, Texts(orig, live))[..k]
      decreases |live| - k
    {
      assert syms[..][live[k]] == CellOf(orig, live, k);
      TextAt(orig, live, k);
      SpanGrows(orig, live[k], live[k], End(live, |orig|, k));
      if syms[i].text != [] {
        out := out + [IdOf(t, syms[i].text)];
      }
      i := syms[i].next;
      k := k + 1;
    }
  }

  /** Byte-pair encoding of one chunk: the heap and the linked list give the naive merge's ids. */
  method BpeChunk(t: Tables, chunk: Text) returns (out: seq<int>)
    ensures out == Ids(t, Merged(t, Symbols(t, chunk)))
    ensures |out| == |Merged(t, Symbols(t, chunk))|
    ensures forall k :: 0 <= k < |out| ==>
              var text := Merged(t, Symbols(t, chunk))[k];
              out[k] == if text in t.vocab then t.vocab[text] else t.unk
  {
    if chunk == [] {
      return [];
    }
    var texts := SplitSymbols(t, chunk);
    SymbolsNonEmpty(t, chunk);
    var syms, all := Link(texts);
    ghost var live := MergeAll(t, syms, texts, all);
    out := Emit(t, syms, texts, live);
  }
}
