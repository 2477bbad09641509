/**
 Signals as the codec code sees them: a signal is a sequence of frames in time
 order, a frame holds one exact number per channel. What a trained kernel
 computes from the frames it reads stays a parameter of the model; only which
 frames it reads, and what is added to what, is fixed here.
 */
module Frames {

  type Frame = seq<int>

  function Silence(channels: nat): Frame {
    seq(channels, _ => 0)
  }

  /** `n` frames of silence: what a fresh left context or overlap holds. */
  function Quiet(n: nat, channels: nat): seq<Frame> {
    seq(n, _ => Silence(channels))
  }

  /** One channel of a frame; a channel it lacks is silent. */
  function Channel(x: Frame, c: nat): int {
    if c < |x| then x[c] else 0
  }

  /** Channel-wise sum. Both sides have the same channels wherever it is used. */
  function Plus(a: Frame, b: Frame): Frame {
    seq(|a|, c requires 0 <= c < |a| => a[c] + if c < |b| then b[c] else 0)
  }

  lemma PlusLaws(a: Frame, b: Frame, c: Frame)
    requires |a| == |b| == |c|
    ensures |Plus(a, b)| == |a|
    ensures Plus(a, b) == Plus(b, a)
    ensures Plus(Plus(a, b), c) == Plus(a, Plus(b, c))
    ensures Plus(a, Silence(|a|)) == a
  {
  }

  /** Frame-by-frame sum of two signals of the same length (a residual add). */
  function Mix(x: seq<Frame>, y: seq<Frame>): seq<Frame>
    requires |x| == |y|
  {
    seq(|x|, i requires 0 <= i < |x| => Plus(x[i], y[i]))
  }

  /** `n` steps of `step` samples each. */
  function Times(n: nat, step: nat): nat {
    if n == 0 then 0 else Times(n - 1, step) + step
  }

  lemma {:induction false} TimesIsProduct(n: nat, step: nat)
    ensures Times(n, step) == n * step
  {
    if n > 0 {
      TimesIsProduct(n - 1, step);
    }
  }

  lemma {:induction false} TimesAdd(step: nat, a: nat, b: nat, c: nat)
    requires c == a + b
    ensures Times(c, step) == Times(a, step) + Times(b, step)
    decreases b
  {
    if b > 0 {
      TimesAdd(step, a, b - 1, c - 1);
    }
  }

  function Suffix<T>(s: seq<T>, n: nat): seq<T>
    requires n <= |s|
  {
    s[|s| - n..]
  }

  function Flatten<T>(parts: seq<seq<T>>): seq<T> {
    if parts == [] then [] else parts[0] + Flatten(parts[1..])
  }

  lemma {:induction false} FlattenAppend<T>(parts: seq<seq<T>>, last: seq<T>)
    ensures Flatten(parts + [last]) == Flatten(parts) + last
  {
    if parts == [] {
      assert parts + [last] == [last];
      assert Flatten([last][1..]) == [];
    } else {
      assert (parts + [last])[1..] == parts[1..] + [last];
      FlattenAppend(parts[1..], last);
    }
  }
}
