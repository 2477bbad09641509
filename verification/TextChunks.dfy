/**
 Two scanners over the same text that must agree on its words: the engine's
 sentence packing for long synthesis, and the server's whitespace split, whose
 word indices the read-along events count in.
 */
module TextChunks {
  import opened Common
  import opened Frames
  import opened Bpe

  const TAB: Byte := 0x09
  const NEWLINE: Byte := 0x0a
  const RETURN: Byte := 0x0d
  const DEFAULT_WORDS := 120

  // ---- the server's word split ----------------------------------------------------------------

  /** Everything up to the ASCII space separates words. */
  predicate Blank(b: Byte) {
    b <= SPACE
  }

  /** Length of the run of word bytes at the front. */
  function Run(s: Text): (n: nat)
    ensures n <= |s| && (forall i :: 0 <= i < n ==> !Blank(s[i])) && (n < |s| ==> Blank(s[n]))
  {
    if s == [] || Blank(s[0]) then 0 else 1 + Run(s[1..])
  }

  function Words(s: Text): seq<Text> {
    if s == [] then []
    else if Blank(s[0]) then Words(s[1..])
    else [s[..Run(s)]] + Words(s[Run(s)..])
  }

  function NonBlank(s: Text): Text {
    if s == [] then [] else (if Blank(s[0]) then [] else [s[0]]) + NonBlank(s[1..])
  }

  lemma {:induction false} NonBlankSplit(s: Text, n: nat)
    requires n <= |s| && forall i :: 0 <= i < n ==> !Blank(s[i])
    ensures NonBlank(s) == s[..n] + NonBlank(s[n..])
  {
    if n > 0 {
      NonBlankSplit(s[1..], n - 1);
      assert s[..n] == [s[0]] + s[1..][..n - 1] && s[1..][n - 1..] == s[n..];
    }
  }

  /** Every word is a non-empty run of word bytes. */
  lemma {:induction false} WordsAreRuns(s: Text)
    ensures forall w :: w in Words(s) ==> w != [] && forall i :: 0 <= i < |w| ==> !Blank(w[i]) && w[i] > 0x20
    decreases |s|
  {
    if s != [] {
      WordsAreRuns(if Blank(s[0]) then s[1..] else s[Run(s)..]);
    }
  }

  /** Together the words hold every word byte, in order. */
  lemma {:induction false} WordsHoldAll(s: Text)
    ensures Flatten(Words(s)) == NonBlank(s)
    decreases |s|
  {
    if s != [] {
      if Blank(s[0]) {
        WordsHoldAll(s[1..]);
      } else {
        WordsHoldAll(s[Run(s)..]);
        NonBlankSplit(s, Run(s));
        FlattenCons(s[..Run(s)], Words(s[Run(s)..]));
      }
    }
  }

  lemma FlattenCons(first: Text, rest: seq<Text>)
    ensures Flatten([first] + rest) == first + Flatten(rest)
  {
    assert ([first] + rest)[1..] == rest;
  }

  /** Cutting a text where a separator follows cuts no word. */
  lemma {:induction false} WordsSplit(a: Text, b: Text)
    requires b == [] || Blank(b[0])
    ensures Words(a + b) == Words(a) + Words(b)
    decreases |a|
  {
    if a == [] {
      assert a + b == b;
    } else if Blank(a[0]) {
      assert (a + b)[1..] == a[1..] + b;
      WordsSplit(a[1..], b);
    } else {
      RunSplit(a, b);
      var n := Run(a);
      FrontOfBoth(a, b, n);
      WordsSplit(a[n..], b);
    }
  }

  lemma FrontOfBoth(a: Text, b: Text, n: nat)
    requires n <= |a|
    ensures (a + b)[..n] == a[..n] && (a + b)[n..] == a[n..] + b
  {
  }

  lemma {:induction false} RunSplit(a: Text, b: Text)
    requires b == [] || Blank(b[0])
    ensures Run(a + b) == Run(a)
  {
    if a == [] {
      assert a + b == b;
    } else if !Blank(a[0]) {
      assert (a + b)[1..] == a[1..] + b;
      RunSplit(a[1..], b);
    }
  }

  lemma {:induction false} BlankPrefix(a: Text, b: Text)
    requires forall i :: 0 <= i < |a| ==> Blank(a[i])
    ensures Words(a + b) == Words(b)
  {
    if a == [] {
      assert a + b == b;
    } else {
      assert (a + b)[1..] == a[1..] + b;
      BlankPrefix(a[1..], b);
    }
  }

  method WhitespaceSplitForAlign(s: Text) returns (out: seq<Text>)
    ensures out == Words(s)
  {
    out := [];
    var i := 0;
    while i < |s|
      invariant 0 <= i <= |s| && out + Words(s[i..]) == Words(s)
    {
      i := SkipBlank(s, i);
      var start := i;
      i := SkipWord(s, i);
      if i > start {
        WordTaken(s, start, i);
        out := out + [s[start..i]];
      }
    }
  }

  lemma WordTaken(s: Text, start: nat, i: nat)
    requires start < i <= |s| && i == start + Run(s[start..])
    ensures Words(s[start..]) == [s[start..i]] + Words(s[i..])
  {
    assert s[start..][..i - start] == s[start..i] && s[start..][i - start..] == s[i..];
  }

  method SkipBlank(s: Text, from: nat) returns (i: nat)
    requires from <= |s|
    ensures from <= i <= |s| && Words(s[i..]) == Words(s[from..])
    ensures i < |s| ==> !Blank(s[i])
  {
    i := from;
    while i < |s| && Blank(s[i])
      invariant from <= i <= |s| && Words(s[i..]) == Words(s[from..])
    {
      assert s[i..][1..] == s[i + 1..];
      i := i + 1;
    }
  }

  method SkipWord(s: Text, from: nat) returns (i: nat)
    requires from <= |s|
    ensures i == from + Run(s[from..]) <= |s|
  {
    i := from;
    while i < |s| && !Blank(s[i])
      invariant from <= i <= |s| && i + Run(s[i..]) == from + Run(s[from..])
    {
      assert s[i..][1..] == s[i + 1..];
      i := i + 1;
    }
  }

  // ---- the engine's sentences ------------------------------------------------------------------

  predicate Ender(b: Byte) {
    b == '.' as int || b == '!' as int || b == '?' as int || b == NEWLINE
  }

  predicate Closer(b: Byte) {
    b == '"' as int || b == '\'' as int || b == ')' as int
  }

  predicate Margin(b: Byte) {
    b == SPACE || b == TAB || b == RETURN || b == NEWLINE
  }

  /** Past any closing quotes and brackets. */
  function PastClosers(s: Text, j: nat): (k: nat)
    requires j <= |s|
    ensures j <= k <= |s|
    decreases |s| - j
  {
    if j < |s| && Closer(s[j]) then PastClosers(s, j + 1) else j
  }

  /** A sentence ends at `i`, its text just before `PastClosers(s, i + 1)`. */
  predicate Stops(s: Text, i: nat)
    requires i < |s|
  {
    Ender(s[i]) &&
    var j := PastClosers(s, i + 1);
    j >= |s| || s[j] == SPACE || s[j] == NEWLINE
  }

  lemma {:induction false} ClosersBetween(s: Text, i: nat, j: nat)
    requires i <= j <= |s|
    ensures forall k :: i <= k < PastClosers(s, i) ==> Closer(s[k])
    ensures PastClosers(s, i) < |s| ==> !Closer(s[PastClosers(s, i)])
    ensures (forall k :: i <= k < j ==> Closer(s[k])) && (j == |s| || !Closer(s[j])) ==> PastClosers(s, i) == j
    decreases |s| - i
  {
    if i < |s| && Closer(s[i]) {
      ClosersBetween(s, i + 1, if j > i then j else i + 1);
    }
  }

  /** Between `i` and `j` only double quotes, single quotes and closing brackets; then a space, newline or the end. */
  predicate ClosedAt(s: Text, i: nat, j: nat) {
    && i < j <= |s|
    && (forall k :: i < k < j ==> s[k] in {0x22, 0x27, 0x29})
    && (j == |s| || s[j] in {0x20, 0x0a})
  }

  /**
   A sentence ends at `i` exactly when there is a full stop, exclamation mark,
   question mark or newline, and after any closing quotes and brackets comes a
   space, a newline or the end of the text.
   */
  lemma StopsIs(s: Text, i: nat)
    requires i < |s|
    ensures Stops(s, i) <==> s[i] in {0x2e, 0x21, 0x3f, 0x0a} && exists j :: ClosedAt(s, i, j)
  {
    var p := PastClosers(s, i + 1);
    ClosersBetween(s, i + 1, p);
    assert Stops(s, i) ==> ClosedAt(s, i, p);
    if j :| ClosedAt(s, i, j) {
      ClosersBetween(s, i + 1, j);
    }
  }

  predicate AllMargin(s: Text, n: nat) {
    n <= |s| && forall k :: 0 <= k < n ==> s[k] in {0x20, 0x09, 0x0d, 0x0a}
  }

  /** Trimming drops spaces, tabs and line ends, and stops at the first other byte. */
  lemma {:induction false} TrimStarts(s: Text) returns (n: nat)
    ensures AllMargin(s, n) && TrimFront(s) == s[n..]
    ensures n < |s| ==> s[n] !in {0x20, 0x09, 0x0d, 0x0a}
  {
    n := 0;
    if s != [] && Margin(s[0]) {
      var m := TrimStarts(s[1..]);
      n := m + 1;
      assert s[1..][m..] == s[n..];
      forall k | 0 <= k < n
        ensures s[k] in {0x20, 0x09, 0x0d, 0x0a}
      {
        assert k > 0 ==> s[k] == s[1..][k - 1];
      }
    }
  }

  function TrimFront(s: Text): (t: Text)
    ensures |t| <= |s|
  {
    if s != [] && Margin(s[0]) then TrimFront(s[1..]) else s
  }

  function Piece(s: Text): seq<Text> {
    if TrimFront(s) == [] then [] else [TrimFront(s)]
  }

  /** The sentences from `start` on, with every end before `i` already taken. */
  function SentencesFrom(s: Text, start: nat, i: nat): seq<Text>
    requires start <= |s|
    decreases |s| - i
  {
    if i >= |s| then (if start < |s| then Piece(s[start..]) else [])
    else if start <= i && Stops(s, i) then
      Piece(s[start..PastClosers(s, i + 1)]) + SentencesFrom(s, PastClosers(s, i + 1), i + 1)
    else SentencesFrom(s, start, i + 1)
  }

  function Sentences(s: Text): seq<Text> {
    var found := SentencesFrom(s, 0, 0);
    if found == [] && s != [] then [s] else found
  }

  lemma {:induction false} TrimKeepsWords(s: Text)
    ensures Words(TrimFront(s)) == Words(s)
  {
    if s != [] && Margin(s[0]) {
      TrimKeepsWords(s[1..]);
    }
  }

  function AllWords(texts: seq<Text>): seq<Text> {
    if texts == [] then [] else Words(texts[0]) + AllWords(texts[1..])
  }

  lemma {:induction false} AllWordsAppend(a: seq<Text>, b: seq<Text>)
    ensures AllWords(a + b) == AllWords(a) + AllWords(b)
  {
    if a == [] {
      assert a + b == b;
    } else {
      assert (a + b)[1..] == a[1..] + b;
      AllWordsAppend(a[1..], b);
    }
  }

  lemma OneText(t: Text)
    ensures AllWords([t]) == Words(t) && Counts([t]) == Count(t)
  {
    var none: seq<Text> := [];
    assert [t][1..] == none && [t][..0] == none;
  }

  lemma PieceKeepsWords(s: Text)
    ensures AllWords(Piece(s)) == Words(s)
  {
    TrimKeepsWords(s);
    if TrimFront(s) != [] {
      assert Piece(s)[1..] == [];
    }
  }

  lemma CutKeepsWords(s: Text, start: nat, j: nat)
    requires start <= j <= |s| && (j < |s| ==> Blank(s[j]))
    ensures Words(s[start..]) == Words(s[start..j]) + Words(s[j..])
  {
    assert s[start..] == s[start..j] + s[j..];
    WordsSplit(s[start..j], s[j..]);
  }

  lemma TakenKeepsWords(s: Text, start: nat, j: nat, rest: seq<Text>)
    requires start <= j <= |s| && (j < |s| ==> Blank(s[j])) && AllWords(rest) == Words(s[j..])
    ensures AllWords(Piece(s[start..j]) + rest) == Words(s[start..])
  {
    PieceKeepsWords(s[start..j]);
    AllWordsAppend(Piece(s[start..j]), rest);
    CutKeepsWords(s, start, j);
  }

  /** Nothing between the last end taken and the scan position is passed over. */
  lemma {:induction false} SentencesKeepWords(s: Text, start: nat, i: nat)
    requires start <= |s|
    ensures AllWords(SentencesFrom(s, start, i)) == Words(s[start..])
    decreases |s| - i
  {
    if i >= |s| {
      PieceKeepsWords(s[start..]);
    } else if start <= i && Stops(s, i) {
      SentencesKeepWords(s, PastClosers(s, i + 1), i + 1);
      TakenKeepsWords(s, start, PastClosers(s, i + 1), SentencesFrom(s, PastClosers(s, i + 1), i + 1));
    } else {
      SentencesKeepWords(s, start, i + 1);
    }
  }

  method SplitSentences(s: Text) returns (sents: seq<Text>)
    ensures sents == Sentences(s)
  {
    sents := [];
    var start := 0;
    for i := 0 to |s|
      invariant 0 <= start <= |s| && forall k :: i <= k < start ==> Closer(s[k])
      invariant sents + SentencesFrom(s, start, i) == SentencesFrom(s, 0, 0)
    {
      if Ender(s[i]) {
        var j := SkipClosers(s, i + 1);
        if j >= |s| || s[j] == SPACE || s[j] == NEWLINE {
          assert Stops(s, i) && start <= i;
          sents := sents + Piece(s[start..j]);
          start := j;
        }
      }
    }
    if start < |s| {
      sents := sents + Piece(s[start..]);
    }
    if sents == [] && s != [] {
      sents := [s];
    }
  }

  method SkipClosers(s: Text, from: nat) returns (j: nat)
    requires from <= |s|
    ensures j == PastClosers(s, from) && forall k :: from <= k < j ==> Closer(s[k])
  {
    j := from;
    while j < |s| && Closer(s[j])
      invariant from <= j <= |s| && PastClosers(s, j) == PastClosers(s, from)
      invariant forall k :: from <= k < j ==> Closer(s[k])
    {
      j := j + 1;
    }
  }

  // ---- packing sentences into chunks -------------------------------------------------------------

  /** The engine's own word count: runs between spaces, tabs and line ends. */
  function CountFrom(s: Text, inWord: bool): nat {
    if s == [] then 0
    else if Margin(s[0]) then CountFrom(s[1..], false)
    else (if inWord then 0 else 1) + CountFrom(s[1..], true)
  }

  function Count(s: Text): nat {
    CountFrom(s, false)
  }

  method WordsIn(s: Text) returns (n: nat)
    ensures n == Count(s)
  {
    n := 0;
    var inWord := false;
    for i := 0 to |s|
      invariant n + CountFrom(s[i..], inWord) == Count(s)
    {
      assert s[i..][1..] == s[i + 1..];
      if !Margin(s[i]) && !inWord {
        n, inWord := n + 1, true;
      } else if Margin(s[i]) {
        inWord := false;
      }
    }
  }

  function Counts(group: seq<Text>): nat {
    if group == [] then 0 else Counts(group[..|group| - 1]) + Count(group[|group| - 1])
  }

  /** Sentences with one space between them. */
  function Join(group: seq<Text>): Text {
    if group == [] then []
    else if |group| == 1 then group[0]
    else Join(group[..|group| - 1]) + [SPACE] + group[|group| - 1]
  }

  /** Sentences packed in order: a group closes when the next sentence would go over the budget. */
  function PackFrom(sents: seq<Text>, budget: int, cur: seq<Text>, w: nat): seq<seq<Text>>
    decreases sents
  {
    if sents == [] then (if cur == [] then [] else [cur])
    else
      var n := Count(sents[0]);
      if w > 0 && w + n > budget then [cur] + PackFrom(sents[1..], budget, [sents[0]], n)
      else PackFrom(sents[1..], budget, cur + [sents[0]], w + n)
  }

  function Budget(chunkWords: int): int {
    if chunkWords <= 0 then DEFAULT_WORDS else chunkWords
  }

  function Groups(s: Text, chunkWords: int): seq<seq<Text>> {
    PackFrom(Sentences(s), Budget(chunkWords), [], 0)
  }

  function JoinAll(groups: seq<seq<Text>>): seq<Text> {
    seq(|groups|, k requires 0 <= k < |groups| => Join(groups[k]))
  }

  function Chunks(s: Text, chunkWords: int): seq<Text> {
    JoinAll(Groups(s, chunkWords))
  }

  predicate NoneEmpty(sents: seq<Text>) {
    forall k :: 0 <= k < |sents| ==> sents[k] != []
  }

  lemma {:induction false} SentencesNotEmpty(s: Text, start: nat, i: nat)
    requires start <= |s|
    ensures NoneEmpty(SentencesFrom(s, start, i))
    decreases |s| - i
  {
    if i < |s| {
      if start <= i && Stops(s, i) {
        SentencesNotEmpty(s, PastClosers(s, i + 1), i + 1);
      } else {
        SentencesNotEmpty(s, start, i + 1);
      }
    }
  }

  method ChunkText(s: Text, chunkWords: int) returns (out: seq<Text>)
    ensures out == Chunks(s, chunkWords)
  {
    var sents := SplitSentences(s);
    SentencesNotEmpty(s, 0, 0);
    out := PackSentences(sents, if chunkWords <= 0 then DEFAULT_WORDS else chunkWords);
  }

  /** The chunk being filled holds these sentences. */
  ghost predicate Holds(cur: Text, w: nat, group: seq<Text>) {
    cur == Join(group) && (group == [] <==> cur == []) && (group == [] ==> w == 0)
  }

  method PackSentences(sents: seq<Text>, budget: int) returns (out: seq<Text>)
    requires NoneEmpty(sents)
    ensures out == JoinAll(PackFrom(sents, budget, [], 0))
  {
    out := [];
    var cur: Text, curW: nat, closed: seq<Text> := [], 0, [];
    ghost var group: seq<Text> := [];
    ghost var all := Ahead(sents, 0, budget, [], 0);
    for k := 0 to |sents|
      invariant Holds(cur, curW, group)
      invariant out + Ahead(sents, k, budget, group, curW) == all
    {
      if curW > 0 && curW + Count(sents[k]) > budget {
        PackCloses(sents, k, budget, group, curW);
      } else {
        PackGrows(sents, k, budget, group, curW);
      }
      closed, cur, curW, group := AddSentence(cur, curW, sents[k], budget, group);
      out := out + closed;
    }
    PackEnd(sents, budget, group, curW);
    if cur != [] {
      out := out + [cur];
    }
  }

  /** The chunks still to come from sentence `k` on, with these sentences already in the chunk being filled. */
  function Ahead(sents: seq<Text>, k: nat, budget: int, group: seq<Text>, w: nat): seq<Text>
    requires k <= |sents|
  {
    JoinAll(PackFrom(sents[k..], budget, group, w))
  }

  lemma PackEnd(sents: seq<Text>, budget: int, group: seq<Text>, w: nat)
    ensures Ahead(sents, 0, budget, [], 0) == JoinAll(PackFrom(sents, budget, [], 0))
    ensures Ahead(sents, |sents|, budget, group, w) == if group == [] then [] else [Join(group)]
  {
    assert sents[0..] == sents;
  }

  /** One sentence: the chunk it does not fit any more closes first. */
  method AddSentence(cur: Text, curW: nat, sent: Text, budget: int, ghost group: seq<Text>)
    returns (closed: seq<Text>, next: Text, nextW: nat, ghost nextGroup: seq<Text>)
    requires Holds(cur, curW, group) && sent != []
    ensures Holds(next, nextW, nextGroup)
    ensures var n := Count(sent);
      if curW > 0 && curW + n > budget then closed == [Join(group)] && nextGroup == [sent] && nextW == n
      else closed == [] && nextGroup == group + [sent] && nextW == curW + n
  {
    var w := WordsIn(sent);
    closed, next, nextW, nextGroup := [], cur, curW, group;
    if curW > 0 && curW + w > budget {
      closed, next, nextW, nextGroup := [cur], [], 0, [];
    }
    JoinOneMore(nextGroup, sent);
    if next != [] {
      next := next + [SPACE];
    }
    next, nextW, nextGroup := next + sent, nextW + w, nextGroup + [sent];
  }

  lemma JoinOneMore(group: seq<Text>, t: Text)
    ensures Join(group + [t]) == if group == [] then t else Join(group) + [SPACE] + t
  {
    assert (group + [t])[..|group|] == group;
  }

  lemma PackCloses(sents: seq<Text>, k: nat, budget: int, group: seq<Text>, w: nat)
    requires k < |sents| && w > 0 && w + Count(sents[k]) > budget
    ensures Ahead(sents, k, budget, group, w)
         == [Join(group)] + Ahead(sents, k + 1, budget, [sents[k]], Count(sents[k]))
  {
    assert sents[k..][1..] == sents[k + 1..];
    JoinAllCons(group, PackFrom(sents[k + 1..], budget, [sents[k]], Count(sents[k])));
  }

  lemma PackGrows(sents: seq<Text>, k: nat, budget: int, group: seq<Text>, w: nat)
    requires k < |sents| && !(w > 0 && w + Count(sents[k]) > budget)
    ensures Ahead(sents, k, budget, group, w) == Ahead(sents, k + 1, budget, group + [sents[k]], w + Count(sents[k]))
  {
    assert sents[k..][1..] == sents[k + 1..];
  }

  lemma JoinAllCons(group: seq<Text>, rest: seq<seq<Text>>)
    ensures JoinAll([group] + rest) == [Join(group)] + JoinAll(rest)
  {
  }

  /** The two scanners agree: the chunks' words are the text's words. */
  lemma ChunksKeepWords(s: Text, chunkWords: int)
    ensures AllWords(Chunks(s, chunkWords)) == Words(s)
  {
    SentencesKeepWords(s, 0, 0);
    assert s[0..] == s;
    SentencesWords(s);
    PackKeepsWords(Sentences(s), Budget(chunkWords), [], 0);
  }

  lemma SentencesWords(s: Text)
    requires AllWords(SentencesFrom(s, 0, 0)) == Words(s)
    ensures AllWords(Sentences(s)) == Words(s)
  {
    OneText(s);
  }

  lemma AllWordsCons(t: Text, rest: seq<Text>)
    ensures AllWords([t] + rest) == Words(t) + AllWords(rest)
  {
    assert ([t] + rest)[1..] == rest;
  }

  lemma {:induction false} PackKeepsWords(sents: seq<Text>, budget: int, cur: seq<Text>, w: nat)
    ensures AllWords(JoinAll(PackFrom(sents, budget, cur, w))) == AllWords(cur) + AllWords(sents)
    decreases sents
  {
    if sents == [] {
      LastKeepsWords(cur);
    } else {
      var n, rest := Count(sents[0]), sents[1..];
      OneText(sents[0]);
      if w > 0 && w + n > budget {
        PackKeepsWords(rest, budget, [sents[0]], n);
        var tail := PackFrom(rest, budget, [sents[0]], n);
        JoinAllCons(cur, tail);
        AllWordsCons(Join(cur), JoinAll(tail));
        JoinKeepsWords(cur);
      } else {
        PackKeepsWords(rest, budget, cur + [sents[0]], w + n);
        AllWordsAppend(cur, [sents[0]]);
        Regroup(AllWords(cur), Words(sents[0]), AllWords(rest));
      }
    }
  }

  lemma LastKeepsWords(cur: seq<Text>)
    ensures AllWords(JoinAll(if cur == [] then [] else [cur])) == AllWords(cur)
  {
    if cur != [] {
      OneText(Join(cur));
      JoinKeepsWords(cur);
      assert JoinAll([cur]) == [Join(cur)];
    }
  }

  lemma {:induction false} JoinKeepsWords(group: seq<Text>)
    ensures Words(Join(group)) == AllWords(group)
  {
    if |group| == 1 {
      assert group[1..] == [];
    } else if group != [] {
      var init, last := group[..|group| - 1], group[|group| - 1];
      JoinKeepsWords(init);
      OneText(last);
      assert group == init + [last];
      AllWordsAppend(init, [last]);
      assert Join(init) + [SPACE] + last == Join(init) + ([SPACE] + last);
      WordsSplit(Join(init), [SPACE] + last);
      BlankPrefix([SPACE], last);
    }
  }

  // ---- the budget -----------------------------------------------------------------------------------

  /** No sentence is cut, dropped or moved. */
  lemma {:induction false} PackKeepsSentences(sents: seq<Text>, budget: int, cur: seq<Text>, w: nat)
    ensures Flatten(PackFrom(sents, budget, cur, w)) == cur + sents
    decreases sents
  {
    if sents == [] {
      if cur != [] {
        assert [cur][1..] == [] && Flatten<Text>([]) == [];
      }
    } else {
      var n := Count(sents[0]);
      if w > 0 && w + n > budget {
        PackKeepsSentences(sents[1..], budget, [sents[0]], n);
        var tail := PackFrom(sents[1..], budget, [sents[0]], n);
        assert ([cur] + tail)[1..] == tail;
      } else {
        PackKeepsSentences(sents[1..], budget, cur + [sents[0]], w + n);
      }
    }
  }

  predicate Fits(group: seq<Text>, budget: int) {
    |group| == 1 || Counts(group) <= budget
  }

  /** Every group is within the budget or a single sentence, and closes only when the next sentence would not fit. */
  lemma {:induction false} PackFits(sents: seq<Text>, budget: int, cur: seq<Text>, w: nat)
    requires w == Counts(cur) && (cur == [] || Fits(cur, budget)) && (w == 0 ==> cur == [])
    requires |sents| <= 1 || forall k :: 0 <= k < |sents| ==> Count(sents[k]) >= 1
    ensures forall g :: g in PackFrom(sents, budget, cur, w) ==> g != [] && Fits(g, budget)
    decreases sents
  {
    if sents != [] {
      var n := Count(sents[0]);
      OneText(sents[0]);
      if |sents| == 1 {
        assert sents[1..] == [];
      }
      if w > 0 && w + n > budget {
        if |sents| > 1 {
          PackFits(sents[1..], budget, [sents[0]], n);
        }
      } else {
        assert (cur + [sents[0]])[..|cur|] == cur;
        if |sents| > 1 {
          PackFits(sents[1..], budget, cur + [sents[0]], w + n);
        }
      }
    }
  }

  /** Packing is greedy: what closes a group is a sentence that would have gone over the budget. */
  lemma {:induction false} PackIsGreedy(sents: seq<Text>, budget: int, cur: seq<Text>, w: nat, k: nat)
    requires w == Counts(cur) && (forall i :: 0 <= i < |sents| ==> Count(sents[i]) >= 1)
    requires k + 1 < |PackFrom(sents, budget, cur, w)|
    ensures var groups := PackFrom(sents, budget, cur, w);
      groups[k + 1] != [] && Counts(groups[k]) + Count(groups[k + 1][0]) > budget
    decreases sents
  {
    var n, rest := Count(sents[0]), sents[1..];
    OneText(sents[0]);
    if w > 0 && w + n > budget {
      if k == 0 {
        FirstGroup(rest, budget, [sents[0]], n);
      } else {
        PackIsGreedy(rest, budget, [sents[0]], n, k - 1);
      }
    } else {
      assert (cur + [sents[0]])[..|cur|] == cur;
      PackIsGreedy(rest, budget, cur + [sents[0]], w + n, k);
    }
  }

  lemma {:induction false} FirstGroup(sents: seq<Text>, budget: int, cur: seq<Text>, w: nat)
    requires cur != []
    ensures PackFrom(sents, budget, cur, w) != []
    ensures PackFrom(sents, budget, cur, w)[0] != [] && PackFrom(sents, budget, cur, w)[0][0] == cur[0]
    decreases sents
  {
    if sents != [] && !(w > 0 && w + Count(sents[0]) > budget) {
      FirstGroup(sents[1..], budget, cur + [sents[0]], w + Count(sents[0]));
    }
  }

  lemma {:induction false} CountSplit(a: Text, b: Text, inWord: bool)
    requires b == [] || Margin(b[0])
    ensures CountFrom(a + b, inWord) == CountFrom(a, inWord) + CountFrom(b, false)
  {
    if a == [] {
      assert a + b == b;
    } else {
      assert (a + b)[1..] == a[1..] + b;
      CountSplit(a[1..], b, !Margin(a[0]));
    }
  }

  lemma {:induction false} CountJoin(group: seq<Text>)
    ensures Count(Join(group)) == Counts(group)
  {
    if |group| == 1 {
      assert group[..0] == [] && Counts([]) == 0;
    } else if group != [] {
      var init, last := group[..|group| - 1], group[|group| - 1];
      CountJoin(init);
      assert Join(init) + [SPACE] + last == Join(init) + ([SPACE] + last);
      CountSplit(Join(init), [SPACE] + last, false);
      assert ([SPACE] + last)[1..] == last;
    }
  }

  /** Every sentence the scanner finds starts with a word. */
  lemma {:induction false} SentencesHaveWords(s: Text, start: nat, i: nat)
    requires start <= |s|
    ensures forall k :: 0 <= k < |SentencesFrom(s, start, i)| ==> Count(SentencesFrom(s, start, i)[k]) >= 1
    decreases |s| - i
  {
    if i >= |s| {
      PieceHasWord(s[start..]);
    } else if start <= i && Stops(s, i) {
      PieceHasWord(s[start..PastClosers(s, i + 1)]);
      SentencesHaveWords(s, PastClosers(s, i + 1), i + 1);
    } else {
      SentencesHaveWords(s, start, i + 1);
    }
  }

  lemma {:induction false} PieceHasWord(s: Text)
    ensures forall k :: 0 <= k < |Piece(s)| ==> Count(Piece(s)[k]) >= 1
  {
    if s != [] {
      if Margin(s[0]) {
        PieceHasWord(s[1..]);
        assert Piece(s) == Piece(s[1..]);
      } else {
        assert TrimFront(s) == s && Count(s) == 1 + CountFrom(s[1..], true);
      }
    }
  }

  /** Every chunk is within the budget or is one sentence, whole. */
  lemma ChunksWithinBudget(s: Text, chunkWords: int, k: nat)
    requires k < |Chunks(s, chunkWords)|
    ensures Count(Chunks(s, chunkWords)[k]) <= Budget(chunkWords) || Chunks(s, chunkWords)[k] in Sentences(s)
    ensures Budget(chunkWords) == if chunkWords <= 0 then 120 else chunkWords
  {
    var groups, b := Groups(s, chunkWords), Budget(chunkWords);
    SentencesHaveWords(s, 0, 0);
    PackFits(Sentences(s), b, [], 0);
    PackKeepsSentences(Sentences(s), b, [], 0);
    assert groups[k] in groups;
    CountJoin(groups[k]);
    if |groups[k]| == 1 {
      InFlatten(groups, k, groups[k][0]);
    }
  }

  lemma {:induction false} InFlatten(groups: seq<seq<Text>>, k: nat, t: Text)
    requires k < |groups| && t in groups[k]
    ensures t in Flatten(groups)
  {
    if k > 0 {
      InFlatten(groups[1..], k - 1, t);
    }
  }

  /** A chunk ends only where the sentence the next one begins with would have gone over the budget. */
  lemma ChunksAreFull(s: Text, chunkWords: int, k: nat)
    requires k + 1 < |Chunks(s, chunkWords)|
    ensures var next := Groups(s, chunkWords)[k + 1];
      && next != [] && next[0] in Sentences(s) && Chunks(s, chunkWords)[k + 1] == Join(next)
      && Count(Chunks(s, chunkWords)[k]) + Count(next[0]) > Budget(chunkWords)
  {
    var groups, b := Groups(s, chunkWords), Budget(chunkWords);
    SentencesHaveWords(s, 0, 0);
    if SentencesFrom(s, 0, 0) == [] {
      FewGroups(s, b);
    }
    PackIsGreedy(Sentences(s), b, [], 0, k);
    PackKeepsSentences(Sentences(s), b, [], 0);
    InFlatten(groups, k + 1, groups[k + 1][0]);
    CountJoin(groups[k]);
  }

  lemma FewGroups(s: Text, budget: int)
    requires SentencesFrom(s, 0, 0) == []
    ensures |PackFrom(Sentences(s), budget, [], 0)| <= 1
  {
    if s != [] {
      var none: seq<Text> := [];
      assert [s][1..] == none && none + [s] == [s];
      assert |PackFrom(none, budget, [s], Count(s))| == 1;
    }
  }

  // ---- word offsets ------------------------------------------------------------------------------------

  /** Where chunk `k`'s words start in the text's word list. */
  function Offset(chunks: seq<Text>, k: nat): nat
    requires k <= |chunks|
  {
    |AllWords(chunks[..k])|
  }

  /** The offsets tile the word list: chunk `k` holds exactly the words between its offset and the next. */
  lemma OffsetsTile(s: Text, chunkWords: int, k: nat)
    requires k < |Chunks(s, chunkWords)|
    ensures var chunks := Chunks(s, chunkWords);
      && Offset(chunks, 0) == 0 && Offset(chunks, |chunks|) == |Words(s)|
      && Offset(chunks, k) + |Words(chunks[k])| == Offset(chunks, k + 1) <= |Words(s)|
      && Words(s)[Offset(chunks, k)..Offset(chunks, k + 1)] == Words(chunks[k])
  {
    var chunks := Chunks(s, chunkWords);
    ChunksKeepWords(s, chunkWords);
    assert chunks[..|chunks|] == chunks;
    assert chunks == chunks[..k] + ([chunks[k]] + chunks[k + 1..]) && chunks[..k + 1] == chunks[..k] + [chunks[k]];
    AllWordsAppend(chunks[..k], [chunks[k]] + chunks[k + 1..]);
    AllWordsAppend([chunks[k]], chunks[k + 1..]);
    AllWordsAppend(chunks[..k], [chunks[k]]);
    OneText(chunks[k]);
  }
}
