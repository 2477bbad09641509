/**
 The tokenizer: added tokens split off the raw text, each remaining run
 normalised and byte-pair encoded; decoding undoes all of it.
 */
module Tokenizer {
  import opened Common
  import opened Bpe
  import opened Utf8

  datatype Model = Model(
    tokens: seq<Text>,
    isAdded: seq<bool>,
    tables: Tables,
    added: map<Text, int>,
    addedMaxLen: nat,
    bos: int)

  // ---- loading --------------------------------------------------------------------------

  /** `index` maps every listed text to the first place it is listed, and nothing else. */
  ghost predicate FirstIndex(list: seq<Text>, index: map<Text, int>) {
    && (forall i :: 0 <= i < |list| ==> list[i] in index)
    && (forall s :: s in index ==> 0 <= index[s] < |list| && list[index[s]] == s && s !in list[..index[s]])
  }

  /** Numbers the entries of a list; a text listed twice keeps its first number. */
  method IndexList(list: seq<Text>) returns (index: map<Text, int>)
    ensures FirstIndex(list, index)
  {
    index := map[];
    for i := 0 to |list|
      invariant forall j :: 0 <= j < i ==> list[j] in index
      invariant forall s :: s in index ==> 0 <= index[s] < i && list[index[s]] == s && s !in list[..index[s]]
    {
      if list[i] !in index {
        assert list[i] !in list[..i];
        index := index[list[i] := i];
      }
    }
  }

  lemma FirstPlace(list: seq<Text>, index: map<Text, int>, p: nat)
    requires FirstIndex(list, index) && p < |list|
    ensures list[p] in index && index[list[p]] <= p
  {
    var s := list[p];
    forall q | 0 <= q < index[s]
      ensures list[q] != s
    {
      assert list[..index[s]][q] == list[q];
    }
  }

  /** Of the rules in the file the one listed first is merged first, at its leftmost place. */
  lemma FirstListedMerges(mergeList: seq<Text>, t: Tables, a: seq<Text>, p: nat, i: nat)
    requires FirstIndex(mergeList, t.merges)
    requires p < |mergeList| && i + 1 < |a| && mergeList[p] == a[i] + [SPACE] + a[i + 1]
    requires forall q, j :: 0 <= q < p && 0 <= j < |a| - 1 ==> mergeList[q] != a[j] + [SPACE] + a[j + 1]
    requires forall j :: 0 <= j < i ==> mergeList[p] != a[j] + [SPACE] + a[j + 1]
    ensures Merged(t, a) == Merged(t, a[..i] + [a[i] + a[i + 1]] + a[i + 2..])
  {
    var rule := mergeList[p];
    FirstPlace(mergeList, t.merges, p);
    forall j | 0 <= j < |a| - 1 && a[j] + [SPACE] + a[j + 1] in t.merges
      ensures t.merges[rule] <= t.merges[a[j] + [SPACE] + a[j + 1]]
      ensures j < i ==> t.merges[rule] < t.merges[a[j] + [SPACE] + a[j + 1]]
    {
      var other := a[j] + [SPACE] + a[j + 1];
      assert mergeList[t.merges[other]] == other;
    }
    LowestRankFirst(t, a, i, a[..i] + [a[i] + a[i + 1]] + a[i + 2..]);
  }

  const CONTROL := 3

  /** The first `n` tokens of control type, with their ids. */
  function Controls(tokens: seq<Text>, types: seq<int>, n: nat): seq<(Text, int)>
    requires n <= |tokens| && n <= |types|
  {
    if n == 0 then []
    else Controls(tokens, types, n - 1) + if types[n - 1] == CONTROL then [(tokens[n - 1], n - 1)] else []
  }

  /** The added tokens: the file's own list, or its control tokens when it has none. */
  function AddedList(listed: Option<seq<(Text, int)>>, tokens: seq<Text>, types: seq<int>): seq<(Text, int)> {
    match listed
    case Some(list) => list
    case None => Controls(tokens, types, Min(|tokens|, |types|))
  }

  /** The list gives `s` the id `id`, and names `s` nowhere before. */
  ghost predicate FirstListed(list: seq<(Text, int)>, s: Text, id: int) {
    exists i :: 0 <= i < |list| && list[i] == (s, id) && forall j :: 0 <= j < i ==> list[j].0 != s
  }

  /** Every listed token has the id of its first listing, and no other token has one. */
  ghost predicate FirstIds(list: seq<(Text, int)>, added: map<Text, int>) {
    && (forall i :: 0 <= i < |list| ==> list[i].0 in added)
    && (forall s :: s in added ==> FirstListed(list, s, added[s]))
  }

  lemma FirstIdsOneMore(list: seq<(Text, int)>, added: map<Text, int>, s: Text, id: int)
    requires FirstIds(list, added)
    ensures FirstIds(list + [(s, id)], if s in added then added else added[s := id])
  {
    var longer := list + [(s, id)];
    forall t | t in added
      ensures FirstListed(longer, t, added[t])
    {
      var i :| 0 <= i < |list| && list[i] == (t, added[t]) && forall j :: 0 <= j < i ==> list[j].0 != t;
      assert longer[i] == list[i];
    }
    if s !in added {
      assert longer[|list|] == (s, id) && forall j :: 0 <= j < |list| ==> longer[j].0 != s;
    }
  }

  ghost predicate HasId(list: seq<(Text, int)>, id: int) {
    exists i :: 0 <= i < |list| && list[i].1 == id
  }

  lemma HasIdOneMore(list: seq<(Text, int)>, s: Text, id: int, k: int)
    ensures HasId(list + [(s, id)], k) <==> HasId(list, k) || k == id
  {
    var longer := list + [(s, id)];
    if i :| 0 <= i < |list| && list[i].1 == k {
      assert longer[i] == list[i];
    }
    assert longer[|list|].1 == id;
  }

  /** A token is among them exactly when its type is control (3). */
  lemma {:induction false} ControlsAre(tokens: seq<Text>, types: seq<int>, n: nat, k: nat)
    requires n <= |tokens| && n <= |types|
    ensures HasId(Controls(tokens, types, n), k) <==> k < n && types[k] == 3
  {
    if n > 0 {
      ControlsAre(tokens, types, n - 1, k);
      var before := Controls(tokens, types, n - 1);
      HasIdOneMore(before, tokens[n - 1], n - 1, k);
      assert before + [] == before;
    }
  }

  /** Builds the tokenizer from the file's arrays: ids by text, ranks by merge, the added tokens. */
  method Load(tokens: seq<Text>, mergeList: seq<Text>, listed: Option<seq<(Text, int)>>, types: seq<int>,
              bos: int, unk: int)
    returns (m: Model)
    ensures m.tokens == tokens && |m.isAdded| == |tokens| && m.bos == bos && m.tables.unk == unk
    ensures FirstIndex(tokens, m.tables.vocab) && FirstIndex(mergeList, m.tables.merges)
    ensures FirstIds(AddedList(listed, tokens, types), m.added)
    ensures forall s :: s in m.added ==> |s| <= m.addedMaxLen
    ensures forall k :: 0 <= k < |tokens| ==>
              (m.isAdded[k] <==> HasId(AddedList(listed, tokens, types), k))
    ensures listed.None? ==>
              forall k :: 0 <= k < |tokens| ==> (m.isAdded[k] <==> k < |types| && types[k] == 3)
  {
    var vocab := IndexList(tokens);
    var merges := IndexList(mergeList);
    var list := AddedList(listed, tokens, types);
    var added: map<Text, int>, longest: nat := map[], 0;
    var isAdded := seq(|tokens|, _ => false);
    for i := 0 to |list|
      invariant |isAdded| == |tokens|
      invariant FirstIds(list[..i], added) && forall s :: s in added ==> |s| <= longest
      invariant forall k :: 0 <= k < |tokens| ==> (isAdded[k] <==> HasId(list[..i], k))
    {
      var (s, id) := list[i];
      FirstIdsOneMore(list[..i], added, s, id);
      assert list[..i + 1] == list[..i] + [(s, id)];
      forall k | 0 <= k < |tokens|
        ensures HasId(list[..i + 1], k) <==> HasId(list[..i], k) || k == id
      {
        HasIdOneMore(list[..i], s, id, k);
      }
      if s !in added {
        added := added[s := id];
      }
      if |s| > longest {
        longest := |s|;
      }
      if 0 <= id < |isAdded| {
        isAdded := isAdded[id := true];
      }
    }
    assert list[..|list|] == list;
    forall k: nat | listed.None? && k < |tokens|
      ensures HasId(list, k) <==> k < |types| && types[k] == 3
    {
      ControlsAre(tokens, types, Min(|tokens|, |types|), k);
    }
    m := Model(tokens, isAdded, Tables(vocab, merges, unk), added, longest, bos);
  }

  // ---- encoding -------------------------------------------------------------------------

  /** The longest added token starting `s`, up to `l` bytes; its length, or 0. */
  function LongestHit(m: Model, s: Text, l: nat): (r: nat)
    requires l <= |s|
    ensures r <= l
    ensures r > 0 ==> s[..r] in m.added
    ensures forall k :: r < k <= l ==> s[..k] !in m.added
  {
    if l == 0 then 0 else if s[..l] in m.added then l else LongestHit(m, s, l - 1)
  }

  /** The added token matched at the start of `s`; a negative id does not count as a match. */
  function HitAt(m: Model, s: Text): (r: nat)
    ensures r <= |s| && r <= m.addedMaxLen
  {
    var l := LongestHit(m, s, if m.addedMaxLen <= |s| then m.addedMaxLen else |s|);
    if l > 0 && m.added[s[..l]] >= 0 then l else 0
  }

  /** Where the longest added token has a negative id, no token is taken. */
  lemma NegativeIdIsNoHit(m: Model, s: Text, k: nat)
    requires 1 <= k <= |s| && k <= m.addedMaxLen && s[..k] in m.added && m.added[s[..k]] < 0
    requires forall j :: k < j <= |s| ==> s[..j] !in m.added
    ensures HitAt(m, s) == 0
  {
    var l := LongestHit(m, s, if m.addedMaxLen <= |s| then m.addedMaxLen else |s|);
    assert l == k;
  }

  datatype Piece = Literal(text: Text) | Run(text: Text)

  function Flush(pending: Text): seq<Piece> {
    if pending == [] then [] else [Run(pending)]
  }

  /** Splitting at added tokens, leftmost first, longest at each place. */
  function Pieces(m: Model, pending: Text, s: Text): (ps: seq<Piece>)
    ensures Known(m, ps)
    decreases |s|
  {
    if s == [] then Flush(pending)
    else
      var l := HitAt(m, s);
      if l > 0 then Flush(pending) + [Literal(s[..l])] + Pieces(m, [], s[l..])
      else Pieces(m, pending + [s[0]], s[1..])
  }

  predicate Known(m: Model, ps: seq<Piece>) {
    forall i :: 0 <= i < |ps| && ps[i].Literal? ==> ps[i].text in m.added
  }

  ghost function PieceIds(m: Model, p: Piece): seq<int>
    requires p.Literal? ==> p.text in m.added
  {
    match p
    case Literal(text) => [m.added[text]]
    case Run(text) => RunIds(m, text)
  }

  ghost function RunIds(m: Model, run: Text): seq<int> {
    Ids(m.tables, Merged(m.tables, Symbols(m.tables, Normalised(run))))
  }

  ghost function AllIds(m: Model, ps: seq<Piece>): seq<int>
    requires Known(m, ps)
  {
    if ps == [] then [] else PieceIds(m, ps[0]) + AllIds(m, ps[1..])
  }

  lemma AllIdsCons(m: Model, p: Piece, ps: seq<Piece>)
    requires Known(m, ps) && (p.Literal? ==> p.text in m.added)
    ensures Known(m, [p] + ps) && AllIds(m, [p] + ps) == PieceIds(m, p) + AllIds(m, ps)
  {
    assert ([p] + ps)[1..] == ps;
  }

  lemma KnownAppend(m: Model, a: seq<Piece>, b: seq<Piece>)
    requires Known(m, a) && Known(m, b)
    ensures Known(m, a + b)
  {
  }

  lemma AllIdsGrow(m: Model, p: Piece, rest: seq<Piece>, b: seq<Piece>, both: seq<Piece>)
    requires Known(m, rest) && Known(m, b) && Known(m, both) && (p.Literal? ==> p.text in m.added)
    requires AllIds(m, both) == AllIds(m, rest) + AllIds(m, b)
    ensures Known(m, [p] + rest) && Known(m, [p] + both)
    ensures AllIds(m, [p] + both) == AllIds(m, [p] + rest) + AllIds(m, b)
  {
    AllIdsCons(m, p, rest);
    AllIdsCons(m, p, both);
    Regroup(PieceIds(m, p), AllIds(m, rest), AllIds(m, b));
  }

  lemma {:induction false} AllIdsAppend(m: Model, a: seq<Piece>, b: seq<Piece>)
    requires Known(m, a) && Known(m, b)
    ensures Known(m, a + b) && AllIds(m, a + b) == AllIds(m, a) + AllIds(m, b)
  {
    KnownAppend(m, a, b);
    if a == [] {
      assert a + b == b;
    } else {
      var rest := a[1..];
      AllIdsAppend(m, rest, b);
      AllIdsGrow(m, a[0], rest, b, rest + b);
      assert [a[0]] + rest == a;
      Regroup([a[0]], rest, b);
    }
  }

  /** What encoding a text yields, with the begin token in front when asked for. */
  ghost function Encoded(m: Model, text: Text, addSpecial: bool): seq<int> {
    (if addSpecial then [m.bos] else []) + AllIds(m, Pieces(m, [], text))
  }

  /** The begin token goes in front of everything else, once. */
  lemma BeginsWithBos(m: Model, text: Text)
    ensures Encoded(m, text, true) == [m.bos] + Encoded(m, text, false)
    ensures Encoded(m, text, true)[0] == m.bos && Encoded(m, text, true)[1..] == Encoded(m, text, false)
  {
    assert [] + AllIds(m, Pieces(m, [], text)) == AllIds(m, Pieces(m, [], text));
  }

  ghost function FlushIds(m: Model, pending: Text): seq<int> {
    AllIds(m, Flush(pending))
  }

  /** The ids still to come, as the encoder's loop sees them: a step of the split. */
  lemma EncodeStep(m: Model, pending: Text, s: Text)
    ensures s == [] ==> AllIds(m, Pieces(m, pending, s)) == FlushIds(m, pending)
    ensures s != [] && HitAt(m, s) > 0 ==> var l := HitAt(m, s);
      AllIds(m, Pieces(m, pending, s)) == FlushIds(m, pending) + [m.added[s[..l]]] + AllIds(m, Pieces(m, [], s[l..]))
    ensures s != [] && HitAt(m, s) == 0 ==>
      AllIds(m, Pieces(m, pending, s)) == AllIds(m, Pieces(m, pending + [s[0]], s[1..]))
  {
    if s != [] && HitAt(m, s) > 0 {
      var l := HitAt(m, s);
      var literal := [Literal(s[..l])];
      AllIdsAppend(m, Flush(pending), literal);
      AllIdsAppend(m, Flush(pending) + literal, Pieces(m, [], s[l..]));
      assert literal[1..] == [];
      assert AllIds(m, literal) == [m.added[s[..l]]];
    }
  }

  /** Spaces to U+2581, byte by byte. */
  method Normalise(s: Text) returns (norm: Text)
    ensures norm == Normalised(s)
  {
    norm := [];
    var rest := s;
    while rest != []
      invariant norm + Normalised(rest) == Normalised(s)
      decreases |rest|
    {
      var shown := if rest[0] == SPACE then META else [rest[0]];
      Regroup(norm, shown, Normalised(rest[1..]));
      norm, rest := norm + shown, rest[1..];
    }
  }

  lemma FlushIsRun(m: Model, pending: Text)
    ensures FlushIds(m, pending) == if pending == [] then [] else RunIds(m, pending)
  {
    if pending != [] {
      assert Flush(pending)[1..] == [];
      assert AllIds(m, Flush(pending)) == PieceIds(m, Run(pending)) + [];
    }
  }

  /** Encodes a pending run, unless there is none. */
  method FlushRun(m: Model, pending: Text, out: seq<int>) returns (out': seq<int>)
    ensures out' == out + FlushIds(m, pending)
  {
    FlushIsRun(m, pending);
    if pending == [] {
      return out;
    }
    var norm := Normalise(pending);
    var ids := BpeChunk(m.tables, norm);
    out' := out + ids;
  }

  method Encode(m: Model, text: Text, addSpecial: bool) returns (out: seq<int>)
    ensures out == Encoded(m, text, addSpecial)
  {
    out := if addSpecial then [m.bos] else [];
    var pending: Text, rest := [], text;
    while rest != []
      invariant out + AllIds(m, Pieces(m, pending, rest)) == Encoded(m, text, addSpecial)
      decreases |rest|
    {
      EncodeStep(m, pending, rest);
      var l := HitAt(m, rest);
      if l > 0 {
        Regroup(out, FlushIds(m, pending), [m.added[rest[..l]]]);
        Regroup(out, FlushIds(m, pending) + [m.added[rest[..l]]], AllIds(m, Pieces(m, [], rest[l..])));
        out := FlushRun(m, pending, out);
        out := out + [m.added[rest[..l]]];
        pending, rest := [], rest[l..];
      } else {
        pending, rest := pending + [rest[0]], rest[1..];
      }
    }
    EncodeStep(m, pending, rest);
    out := FlushRun(m, pending, out);
  }

  // ---- decoding -------------------------------------------------------------------------

  function HexValue(c: Byte): int {
    if 48 <= c <= 57 then c - 48
    else if 65 <= c <= 70 then c - 55
    else if 97 <= c <= 102 then c - 87
    else -1
  }

  /** The byte a "<0xAB>" token stands for. */
  function ByteValue(t: Text): Option<Byte> {
    if |t| == 6 && t[0] == 60 && t[1] == 48 && t[2] == 120 && t[5] == 62 && HexValue(t[3]) >= 0 && HexValue(t[4]) >= 0
    then Some(HexValue(t[3]) * 16 + HexValue(t[4])) else None
  }

  function TokenShown(t: Text): Text {
    match ByteValue(t)
    case Some(b) => [b]
    case None => Replaced(t)
  }

  function IdShown(m: Model, id: int, skipSpecial: bool): Text {
    if id < 0 || id >= |m.tokens| then []
    else if skipSpecial && id < |m.isAdded| && m.isAdded[id] then []
    else TokenShown(m.tokens[id])
  }

  function Decoded(m: Model, ids: seq<int>, skipSpecial: bool): Text {
    if ids == [] then [] else IdShown(m, ids[0], skipSpecial) + Decoded(m, ids[1..], skipSpecial)
  }

  lemma {:induction false} DecodedAppend(m: Model, a: seq<int>, b: seq<int>, skip: bool)
    ensures Decoded(m, a + b, skip) == Decoded(m, a, skip) + Decoded(m, b, skip)
  {
    if a == [] {
      assert a + b == b;
    } else {
      assert (a + b)[1..] == a[1..] + b;
      DecodedAppend(m, a[1..], b, skip);
      Regroup(IdShown(m, a[0], skip), Decoded(m, a[1..], skip), Decoded(m, b, skip));
    }
  }

  /** The ids that are not added tokens. */
  function Plain(m: Model, ids: seq<int>): seq<int> {
    if ids == [] then []
    else (if 0 <= ids[0] < |m.isAdded| && m.isAdded[ids[0]] then [] else [ids[0]]) + Plain(m, ids[1..])
  }

  /** Skipping special tokens is decoding without the added ones; an id outside the vocabulary shows nothing. */
  lemma {:induction false} SkippingIsDropping(m: Model, ids: seq<int>)
    requires |m.isAdded| == |m.tokens|
    ensures Decoded(m, ids, true) == Decoded(m, Plain(m, ids), false)
  {
    if ids != [] {
      SkippingIsDropping(m, ids[1..]);
      if 0 <= ids[0] < |m.isAdded| && m.isAdded[ids[0]] {
        assert Plain(m, ids) == Plain(m, ids[1..]);
      } else {
        assert Plain(m, ids)[1..] == Plain(m, ids[1..]);
      }
    }
  }

  lemma OutsideShowsNothing(m: Model, id: int, rest: seq<int>, skip: bool)
    requires id < 0 || id >= |m.tokens|
    ensures Decoded(m, [id] + rest, skip) == Decoded(m, rest, skip)
  {
    assert ([id] + rest)[1..] == rest;
  }

  predicate HexDigit(c: Byte) {
    48 <= c <= 57 || 65 <= c <= 70 || 97 <= c <= 102
  }

  /** Exactly the texts "<0xHL>", digits in either case, stand for a byte; any other token shows as its text. */
  lemma ByteTextsAre(m: Model, id: int, t: Text)
    requires 0 <= id < |m.tokens| && m.tokens[id] == t
    ensures ByteValue(t).Some? <==>
      exists hi: Byte, lo: Byte :: HexDigit(hi) && HexDigit(lo) && t == [60, 48, 120, hi, lo, 62]
    ensures ByteValue(t).None? ==> Decoded(m, [id], false) == Replaced(t)
  {
    if ByteValue(t).Some? {
      assert t == [60, 48, 120, t[3], t[4], 62];
    }
    var none: seq<int> := [];
    assert [id][1..] == none;
    assert ByteValue(t).None? ==> Replaced(t) + Decoded(m, none, false) == Replaced(t);
  }

  /** A byte token stands for its byte in capital and in small digits. */
  lemma EitherCase(b: Byte)
    ensures ByteValue([60, 48, 120, Digit(b / 16), Digit(b % 16), 62]) == Some(b)
    ensures ByteValue([60, 48, 120, SmallDigit(b / 16), SmallDigit(b % 16), 62]) == Some(b)
  {
  }

  function SmallDigit(d: nat): Byte
    requires d < 16
  {
    if d <= 9 then 48 + d else 87 + d
  }

  /** Copies a token's text out, U+2581 as a space. */
  method ReplaceMeta(t: Text, out: Text) returns (out': Text)
    ensures out' == out + Replaced(t)
  {
    out' := out;
    var rest := t;
    while rest != []
      invariant out' + Replaced(rest) == out + Replaced(t)
      decreases |rest|
    {
      if MetaAt(rest) {
        Regroup(out', [SPACE], Replaced(rest[3..]));
        out', rest := out' + [SPACE], rest[3..];
      } else {
        Regroup(out', [rest[0]], Replaced(rest[1..]));
        out', rest := out' + [rest[0]], rest[1..];
      }
    }
  }

  method ShowToken(t: Text, out: Text) returns (out': Text)
    ensures out' == out + TokenShown(t)
  {
    match ByteValue(t) {
      case Some(b) => out' := out + [b];
      case None => out' := ReplaceMeta(t, out);
    }
  }

  method Decode(m: Model, ids: seq<int>, skipSpecial: bool) returns (out: Text)
    requires |m.isAdded| == |m.tokens|
    ensures out == Decoded(m, ids, skipSpecial)
  {
    out := [];
    var rest := ids;
    while rest != []
      invariant out + Decoded(m, rest, skipSpecial) == Decoded(m, ids, skipSpecial)
      decreases |rest|
    {
      Regroup(out, IdShown(m, rest[0], skipSpecial), Decoded(m, rest[1..], skipSpecial));
      out := ShowId(m, rest[0], skipSpecial, out);
      rest := rest[1..];
    }
  }

  /** Ids outside the vocabulary, and added tokens when skipping them, show nothing. */
  method ShowId(m: Model, id: int, skipSpecial: bool, out: Text) returns (out': Text)
    requires |m.isAdded| == |m.tokens|
    ensures out' == out + IdShown(m, id, skipSpecial)
  {
    if id < 0 || id >= |m.tokens| {
      return out;
    }
    if skipSpecial && m.isAdded[id] {
      return out;
    }
    out' := ShowToken(m.tokens[id], out);
  }

  // ---- the round trip -----------------------------------------------------------------

  /**
   A vocabulary fit for byte-fallback: ids and texts agree, every byte token and
   U+2581 are present, merging stays inside the vocabulary and neither takes nor
   makes anything shaped like a byte token, and added tokens are whole text.
   */
  ghost predicate Sound(m: Model) {
    && |m.isAdded| == |m.tokens|
    && (forall s :: s in m.tables.vocab ==> 0 <= m.tables.vocab[s] < |m.tokens| && m.tokens[m.tables.vocab[s]] == s)
    && (forall b: Byte :: ByteToken(b) in m.tables.vocab)
    && META in m.tables.vocab
    && (forall x, y :: Key(x, y) in m.tables.merges ==> MergeSound(m, x, y))
    && (forall s :: s in m.added ==> AddedSound(m, s))
  }

  ghost predicate MergeSound(m: Model, x: Text, y: Text) {
    x + y in m.tables.vocab && ByteValue(x).None? && ByteValue(y).None? && ByteValue(x + y).None?
  }

  ghost predicate AddedSound(m: Model, s: Text)
    requires s in m.added
  {
    && s != [] && |s| <= m.addedMaxLen && WellFormed(s) && ByteValue(s).None?
    && 0 <= m.added[s] < |m.tokens| && m.tokens[m.added[s]] == s
  }

  /** A symbol the decoder gets back: in the vocabulary, and either a byte token or whole characters. */
  ghost predicate Good(m: Model, x: Text) {
    x in m.tables.vocab && (ByteValue(x).Some? || WellFormed(x))
  }

  ghost predicate AllGood(m: Model, s: seq<Text>) {
    forall i :: 0 <= i < |s| ==> Good(m, s[i])
  }

  function AllShown(s: seq<Text>): Text {
    if s == [] then [] else TokenShown(s[0]) + AllShown(s[1..])
  }

  lemma {:induction false} AllShownAppend(a: seq<Text>, b: seq<Text>)
    ensures AllShown(a + b) == AllShown(a) + AllShown(b)
  {
    if a == [] {
      assert a + b == b;
    } else {
      assert (a + b)[1..] == a[1..] + b;
      AllShownAppend(a[1..], b);
      Regroup(TokenShown(a[0]), AllShown(a[1..]), AllShown(b));
    }
  }

  /** The ids of good symbols decode to what the symbols show. */
  lemma {:induction false} IdsShow(m: Model, s: seq<Text>)
    requires Sound(m) && AllGood(m, s)
    ensures Decoded(m, Ids(m.tables, s), false) == AllShown(s)
  {
    if s != [] {
      var ids := Ids(m.tables, s);
      assert Good(m, s[0]);
      assert ids[1..] == Ids(m.tables, s[1..]);
      IdsShow(m, s[1..]);
    }
  }

  /** A merge of good symbols is good and shows the same. */
  lemma PairShows(m: Model, x: Text, y: Text)
    requires Sound(m) && Good(m, x) && Good(m, y) && Key(x, y) in m.tables.merges
    ensures Good(m, x + y) && AllShown([x + y]) == AllShown([x, y])
  {
    assert MergeSound(m, x, y);
    WellFormedAppend(x, y);
    ReplacedAppend(x, y);
    assert [x + y][1..] == [] && [x, y][1..] == [y] && [y][1..] == [];
  }

  lemma SpliceShows(front: seq<Text>, a: seq<Text>, b: seq<Text>, back: seq<Text>)
    requires AllShown(a) == AllShown(b)
    ensures AllShown(front + a + back) == AllShown(front + b + back)
  {
    AllShownAppend(front, a);
    AllShownAppend(front + a, back);
    AllShownAppend(front, b);
    AllShownAppend(front + b, back);
  }

  lemma SpliceGood(m: Model, s: seq<Text>, i: nat)
    requires AllGood(m, s) && i + 1 < |s| && Good(m, s[i] + s[i + 1])
    ensures AllGood(m, MergeAt(s, i))
  {
    var merged := MergeAt(s, i);
    forall j | 0 <= j < |merged|
      ensures Good(m, merged[j])
    {
      if j < i {
        assert merged[j] == s[j];
      } else if j > i {
        assert merged[j] == s[j + 1];
      }
    }
  }

  lemma SplitPair<T>(s: seq<T>, i: nat)
    requires i + 1 < |s|
    ensures s == s[..i] + [s[i], s[i + 1]] + s[i + 2..]
  {
  }

  lemma MergeShows(m: Model, s: seq<Text>, i: int)
    requires Sound(m) && AllGood(m, s) && Mergeable(m.tables, s, i)
    ensures AllGood(m, MergeAt(s, i)) && AllShown(MergeAt(s, i)) == AllShown(s)
  {
    assert Good(m, s[i]) && Good(m, s[i + 1]);
    PairShows(m, s[i], s[i + 1]);
    SpliceGood(m, s, i);
    SpliceShows(s[..i], [s[i] + s[i + 1]], [s[i], s[i + 1]], s[i + 2..]);
    SplitPair(s, i);
  }

  lemma {:induction false} MergedShows(m: Model, s: seq<Text>)
    requires Sound(m) && AllGood(m, s)
    ensures AllGood(m, Merged(m.tables, s)) && AllShown(Merged(m.tables, s)) == AllShown(s)
    decreases |s|
  {
    if i :| Mergeable(m.tables, s, i) {
      var best := BestExists(m.tables, s, |s|, i);
      MergedStep(m.tables, s, best);
      MergeShows(m, s, best);
      MergedShows(m, MergeAt(s, best));
    }
  }

  lemma ByteTokenValue(b: Byte)
    ensures ByteValue(ByteToken(b)) == Some(b)
  {
    assert forall d :: 0 <= d < 16 ==> HexValue(HEX[d]) == d;
  }

  lemma {:induction false} ByteTokensShow(m: Model, c: Text)
    requires Sound(m)
    ensures AllGood(m, ByteTokens(c)) && AllShown(ByteTokens(c)) == c
  {
    if c != [] {
      ByteTokenValue(c[0]);
      ByteTokensShow(m, c[1..]);
      assert ByteTokens(c)[1..] == ByteTokens(c[1..]);
      assert ByteTokens(c) == [ByteToken(c[0])] + ByteTokens(c[1..]);
      assert c == [c[0]] + c[1..];
    }
  }

  /** The symbols of one character show that character. */
  lemma CharShows(m: Model, c: Text)
    requires Sound(m) && IsChar(c)
    ensures AllGood(m, CharSymbols(m.tables, c)) && AllShown(CharSymbols(m.tables, c)) == Shown(c)
  {
    if c in m.tables.vocab {
      CharFirst(c, []);
      assert c + [] == c;
      ReplacedChar(c, []);
      assert [c][1..] == [];
      assert AllShown([c]) == TokenShown(c) + [];
    } else {
      ByteTokensShow(m, c);
    }
  }

  /** The initial symbols of well-formed text show what decoding the text would. */
  lemma {:induction false} SymbolsShow(m: Model, chunk: Text)
    requires Sound(m) && WellFormed(chunk)
    ensures AllGood(m, Symbols(m.tables, chunk)) && AllShown(Symbols(m.tables, chunk)) == Replaced(chunk)
  {
    if chunk != [] {
      var l := CharLen(chunk);
      var c, rest := chunk[..l], chunk[l..];
      assert chunk == c + rest;
      CharShows(m, c);
      SymbolsShow(m, rest);
      ReplacedChar(c, rest);
      AllShownAppend(CharSymbols(m.tables, c), Symbols(m.tables, rest));
    }
  }

  /** One run between added tokens. */
  lemma RunRoundTrip(m: Model, run: Text)
    requires Sound(m) && WellFormed(run)
    ensures Decoded(m, RunIds(m, run), false) == Replaced(run)
  {
    NormalisedShows(run);
    var symbols := Symbols(m.tables, Normalised(run));
    SymbolsShow(m, Normalised(run));
    MergedShows(m, symbols);
    IdsShow(m, Merged(m.tables, symbols));
  }

  lemma FlushRoundTrip(m: Model, pending: Text)
    requires Sound(m) && WellFormed(pending)
    ensures Decoded(m, FlushIds(m, pending), false) == Replaced(pending)
  {
    FlushIsRun(m, pending);
    RunRoundTrip(m, pending);
  }

  /** An added token decodes to what decoding its text would. */
  lemma LiteralRoundTrip(m: Model, s: Text)
    requires Sound(m) && s in m.added
    ensures Decoded(m, [m.added[s]], false) == Replaced(s)
  {
    assert AddedSound(m, s);
    assert [m.added[s]][1..] == [];
    assert Decoded(m, [m.added[s]], false) == TokenShown(s) + [];
  }

  /** The encoder's state: a pending run and the rest of the text, together well formed. */
  lemma {:induction false} PiecesRoundTrip(m: Model, pending: Text, s: Text)
    requires Sound(m) && WellFormed(pending + s)
    ensures Decoded(m, AllIds(m, Pieces(m, pending, s)), false) == Replaced(pending + s)
    decreases |s|
  {
    if s == [] {
      EncodeStep(m, pending, s);
      assert pending + s == pending;
      FlushRoundTrip(m, pending);
    } else if HitAt(m, s) == 0 {
      EncodeStep(m, pending, s);
      FirstMoved(pending, s);
      PiecesRoundTrip(m, pending + [s[0]], s[1..]);
    } else {
      var l := HitAt(m, s);
      HitRoundTrip(m, pending, s, l);
      assert [] + s[l..] == s[l..];
      PiecesRoundTrip(m, [], s[l..]);
      HitContinues(m, pending, s, l, AllIds(m, Pieces(m, [], s[l..])));
    }
  }

  lemma FirstMoved(pending: Text, s: Text)
    requires s != []
    ensures pending + [s[0]] + s[1..] == pending + s
  {
  }

  lemma HitContinues(m: Model, pending: Text, s: Text, l: nat, ids: seq<int>)
    requires Sound(m) && WellFormed(pending + s) && s != [] && l == HitAt(m, s) && l > 0 && s[..l] in m.added
    requires ids == AllIds(m, Pieces(m, [], s[l..])) && Decoded(m, ids, false) == Replaced(s[l..])
    ensures Decoded(m, AllIds(m, Pieces(m, pending, s)), false) == Replaced(pending + s)
  {
    EncodeStep(m, pending, s);
    HitRoundTrip(m, pending, s, l);
    DecodedAppend(m, FlushIds(m, pending) + [m.added[s[..l]]], ids, false);
  }

  /** A match starts a character, so the run before it and the text after it are well formed. */
  lemma HitRoundTrip(m: Model, pending: Text, s: Text, l: nat)
    requires Sound(m) && WellFormed(pending + s) && s != [] && l == HitAt(m, s) && l > 0
    ensures s[..l] in m.added && WellFormed(s[l..])
    ensures Decoded(m, FlushIds(m, pending) + [m.added[s[..l]]], false) + Replaced(s[l..]) == Replaced(pending + s)
  {
    var literal, rest := s[..l], s[l..];
    assert AddedSound(m, literal);
    assert s == literal + rest && s[0] == literal[0];
    LeadsAndTails(literal[..Utf8Len(literal[0])]);
    BoundarySplit(pending, s);
    WellFormedSuffix(literal, rest);
    FlushRoundTrip(m, pending);
    LiteralRoundTrip(m, literal);
    DecodedAppend(m, FlushIds(m, pending), [m.added[literal]], false);
    ReplacedAppend(literal, rest);
    ReplacedAppend(pending, s);
    Regroup(Replaced(pending), Replaced(literal), Replaced(rest));
  }

  /** The three bytes of U+2581 stand at `i`. */
  predicate MetaBytes(text: Text, i: nat) {
    i + 3 <= |text| && text[i] == 0xe2 && text[i + 1] == 0x96 && text[i + 2] == 0x81
  }

  lemma MetaBytesIs(text: Text, i: nat)
    requires i <= |text|
    ensures MetaAt(text[i..]) <==> MetaBytes(text, i)
  {
    var s := text[i..];
    if |s| >= 3 {
      assert s[..3] == [text[i], text[i + 1], text[i + 2]];
      assert s[..3] == META ==> s[..3][0] == META[0] && s[..3][1] == META[1] && s[..3][2] == META[2];
    }
  }

  lemma MetaSpelled(text: Text)
    ensures (forall i :: 0 <= i <= |text| ==> !MetaAt(text[i..])) <==> (forall i: nat :: !MetaBytes(text, i))
  {
    if forall i :: 0 <= i <= |text| ==> !MetaAt(text[i..]) {
      forall i: nat
        ensures !MetaBytes(text, i)
      {
        if i <= |text| {
          MetaBytesIs(text, i);
        }
      }
    } else {
      var i :| 0 <= i <= |text| && MetaAt(text[i..]);
      MetaBytesIs(text, i);
    }
  }

  /**
   Decoding what was encoded shows the text with every U+2581 as a space; it is
   the text itself exactly when the text holds no U+2581.
   */
  lemma RoundTrip(m: Model, text: Text)
    requires Sound(m) && WellFormed(text)
    ensures Decoded(m, Encoded(m, text, false), false) == Replaced(text)
    ensures Decoded(m, Encoded(m, text, false), false) == text <==> forall i :: 0 <= i <= |text| ==> !MetaAt(text[i..])
    ensures Decoded(m, Encoded(m, text, false), false) == text <==> forall i: nat :: !MetaBytes(text, i)
  {
    assert [] + text == text;
    PiecesRoundTrip(m, [], text);
    assert Encoded(m, text, false) == AllIds(m, Pieces(m, [], text));
    ReplacedIdentity(text);
    MetaSpelled(text);
  }

  // ---- the split on added tokens ----------------------------------------------------------

  function AllTexts(ps: seq<Piece>): Text {
    if ps == [] then [] else ps[0].text + AllTexts(ps[1..])
  }

  /** Some added token starts `s`. */
  ghost predicate Starts(m: Model, s: Text) {
    exists k :: 1 <= k <= |s| && s[..k] in m.added
  }

  lemma AddedLength(m: Model, s: Text, k: nat)
    requires k <= |s| && forall a :: a in m.added ==> 1 <= |a| <= m.addedMaxLen
    ensures s[..k] in m.added ==> 1 <= k <= m.addedMaxLen
  {
    if s[..k] in m.added {
      assert |s[..k]| == k;
    }
  }

  /** With usable ids, a match is made exactly where an added token starts, and is the longest there. */
  lemma HitIsLongest(m: Model, s: Text)
    requires forall a :: a in m.added ==> 1 <= |a| <= m.addedMaxLen && m.added[a] >= 0
    ensures HitAt(m, s) > 0 <==> Starts(m, s)
    ensures HitAt(m, s) > 0 ==> s[..HitAt(m, s)] in m.added
    ensures forall k :: HitAt(m, s) < k <= |s| ==> s[..k] !in m.added
  {
    var limit := if m.addedMaxLen <= |s| then m.addedMaxLen else |s|;
    var l := LongestHit(m, s, limit);
    forall k | l < k <= |s|
      ensures s[..k] !in m.added
    {
      AddedLength(m, s, k);
    }
  }

  ghost predicate NoStartIn(m: Model, run: Text, after: Text) {
    run != [] && forall i :: 0 <= i < |run| ==> !Starts(m, run[i..] + after)
  }

  /** Inside a run no added token starts, not even one reaching into the pieces after it. */
  ghost predicate NoStartInRuns(m: Model, ps: seq<Piece>) {
    ps == [] || ((ps[0].Run? ==> NoStartIn(m, ps[0].text, AllTexts(ps[1..]))) && NoStartInRuns(m, ps[1..]))
  }

  /** The split loses nothing, and leaves no place in a run where an added token starts. */
  lemma {:induction false} SplitIsLeftmost(m: Model, pending: Text, s: Text)
    requires forall a :: a in m.added ==> 1 <= |a| <= m.addedMaxLen && m.added[a] >= 0
    requires forall i :: 0 <= i < |pending| ==> !Starts(m, pending[i..] + s)
    ensures AllTexts(Pieces(m, pending, s)) == pending + s
    ensures NoStartInRuns(m, Pieces(m, pending, s))
    decreases |s|
  {
    if s == [] {
      FlushFirst(m, pending, [], s);
      assert Flush(pending) + [] == Flush(pending);
    } else {
      HitIsLongest(m, s);
      var l := HitAt(m, s);
      if l > 0 {
        SplitIsLeftmost(m, [], s[l..]);
        assert [] + s[l..] == s[l..];
        LiteralFirst(m, s, l, Pieces(m, [], s[l..]));
        FlushFirst(m, pending, [Literal(s[..l])] + Pieces(m, [], s[l..]), s);
        Regroup(Flush(pending), [Literal(s[..l])], Pieces(m, [], s[l..]));
      } else {
        ShiftKeeps(m, pending, s);
        SplitIsLeftmost(m, pending + [s[0]], s[1..]);
      }
    }
  }

  lemma LiteralFirst(m: Model, s: Text, l: nat, rest: seq<Piece>)
    requires l <= |s| && AllTexts(rest) == s[l..] && NoStartInRuns(m, rest)
    ensures AllTexts([Literal(s[..l])] + rest) == s && NoStartInRuns(m, [Literal(s[..l])] + rest)
  {
    assert ([Literal(s[..l])] + rest)[1..] == rest;
    assert s == s[..l] + s[l..];
  }

  lemma FlushFirst(m: Model, pending: Text, tail: seq<Piece>, s: Text)
    requires AllTexts(tail) == s && NoStartInRuns(m, tail)
    requires forall i :: 0 <= i < |pending| ==> !Starts(m, pending[i..] + s)
    ensures AllTexts(Flush(pending) + tail) == pending + s
    ensures NoStartInRuns(m, Flush(pending) + tail)
  {
    if pending == [] {
      assert Flush(pending) + tail == tail;
    } else {
      assert (Flush(pending) + tail)[1..] == tail;
    }
  }

  lemma ShiftKeeps(m: Model, pending: Text, s: Text)
    requires s != [] && !Starts(m, s)
    requires forall i :: 0 <= i < |pending| ==> !Starts(m, pending[i..] + s)
    ensures pending + [s[0]] + s[1..] == pending + s
    ensures forall i :: 0 <= i < |pending + [s[0]]| ==> !Starts(m, (pending + [s[0]])[i..] + s[1..])
  {
    var longer := pending + [s[0]];
    forall i | 0 <= i < |longer|
      ensures !Starts(m, longer[i..] + s[1..])
    {
      if i < |pending| {
        assert longer[i..] + s[1..] == pending[i..] + s;
      } else {
        assert longer[i..] + s[1..] == s;
      }
    }
  }

  // ---- any bytes at all -----------------------------------------------------------------

  /** Vocabulary entries are byte tokens or whole characters. */
  ghost predicate TextVocab(m: Model) {
    forall s :: s in m.tables.vocab ==> ByteValue(s).Some? || WellFormed(s)
  }

  /** Walking by lead bytes, every U+2581 as a space. */
  function Walked(s: Text): Text {
    if s == [] then [] else Shown(s[..CharLen(s)]) + Walked(s[CharLen(s)..])
  }

  /** Walking by lead bytes, no lead byte reaches over a space and no character is U+2581. */
  predicate Clean(t: Text) {
    t == [] ||
    var c := t[..CharLen(t)];
    (c == [SPACE] || SPACE !in c) && c != META && Clean(t[CharLen(t)..])
  }

  lemma AnyCharShows(m: Model, c: Text)
    requires Sound(m) && TextVocab(m) && c != [] && |c| <= Utf8Len(c[0])
    ensures AllGood(m, CharSymbols(m.tables, c)) && AllShown(CharSymbols(m.tables, c)) == Shown(c)
  {
    if c in m.tables.vocab {
      assert ByteValue(c).None? && WellFormed(c);
      assert c[..Utf8Len(c[0])] == c;
      CharShows(m, c);
    } else {
      ByteTokensShow(m, c);
    }
  }

  lemma {:induction false} AnySymbolsShow(m: Model, chunk: Text)
    requires Sound(m) && TextVocab(m)
    ensures AllGood(m, Symbols(m.tables, chunk)) && AllShown(Symbols(m.tables, chunk)) == Walked(chunk)
  {
    if chunk != [] {
      var l := CharLen(chunk);
      AnyCharShows(m, chunk[..l]);
      AnySymbolsShow(m, chunk[l..]);
      AllShownAppend(CharSymbols(m.tables, chunk[..l]), Symbols(m.tables, chunk[l..]));
    }
  }

  /** Whatever is merged, a run of any bytes decodes to the walk over its normalised form. */
  lemma AnyRunShows(m: Model, run: Text)
    requires Sound(m) && TextVocab(m)
    ensures Decoded(m, RunIds(m, run), false) == Walked(Normalised(run))
  {
    var symbols := Symbols(m.tables, Normalised(run));
    AnySymbolsShow(m, Normalised(run));
    MergedShows(m, symbols);
    IdsShow(m, Merged(m.tables, symbols));
  }

  /** The texts differ at some place both have. */
  ghost predicate Diverge(a: Text, b: Text) {
    exists j :: 0 <= j < |a| && j < |b| && a[j] != b[j]
  }

  lemma DivergeAt(a: Text, b: Text, j: nat)
    requires j < |a| && j < |b| && a[j] != b[j]
    ensures Diverge(a, b) && a != b
  {
  }

  lemma DivergeInside(front: Text, a: Text, b: Text, u: Text, v: Text)
    requires Diverge(a, b)
    ensures Diverge(front + a + u, front + b + v)
  {
    var j :| 0 <= j < |a| && j < |b| && a[j] != b[j];
    DivergeAt(front + a + u, front + b + v, |front| + j);
  }

  /** A walk's first step over a character and the rest. */
  lemma WalkStep(c: Text, rest: Text)
    requires c != [] && |c| <= Utf8Len(c[0]) && (rest != [] ==> |c| == Utf8Len(c[0]))
    ensures CharLen(c + rest) == |c| && Walked(c + rest) == Shown(c) + Walked(rest)
  {
    assert (c + rest)[..|c|] == c && (c + rest)[|c|..] == rest;
  }

  lemma SpaceWalks(rest: Text)
    ensures Walked(Normalised([SPACE] + rest)) == [SPACE] + Walked(Normalised(rest))
  {
    assert ([SPACE] + rest)[1..] == rest;
    WalkStep(META, Normalised(rest));
  }

  lemma PlainWalks(c: Text, rest: Text)
    requires c != [] && |c| <= Utf8Len(c[0]) && (rest != [] ==> |c| == Utf8Len(c[0])) && SPACE !in c
    ensures Walked(Normalised(c + rest)) == Shown(c) + Walked(Normalised(rest))
  {
    NormalisedAppend(c, rest);
    NormalisedKeeps(c);
    WalkStep(c, Normalised(rest));
  }

  /** A lead byte reaching over a space swallows the first byte of that space's U+2581, which then shows. */
  lemma SwallowedSpace(front: Text, rest: Text)
    requires front != [] && SPACE !in front && |front| < Utf8Len(front[0])
    ensures Diverge(Walked(Normalised(front + [SPACE] + rest)), front + [SPACE] + rest)
  {
    SwallowedNorm(front, rest);
    var norm := front + META + Normalised(rest);
    SwallowedByte(front, META + Normalised(rest));
    Regroup(front, META, Normalised(rest));
    DivergeAt(Walked(norm), front + [SPACE] + rest, |front|);
  }

  lemma SwallowedNorm(front: Text, rest: Text)
    requires SPACE !in front
    ensures Normalised(front + [SPACE] + rest) == front + META + Normalised(rest)
  {
    NormalisedAppend(front + [SPACE], rest);
    NormalisedAppend(front, [SPACE]);
    NormalisedKeeps(front);
    assert [SPACE][1..] == [];
  }

  /** The walk's first character takes in the byte after `front`, and shows it. */
  lemma SwallowedByte(front: Text, after: Text)
    requires front != [] && |front| < Utf8Len(front[0]) && |after| >= 3 && after[..3] == META
    ensures |front| < |Walked(front + after)| && Walked(front + after)[|front|] == META[0]
  {
    var norm, j := front + after, |front|;
    var c := norm[..CharLen(norm)];
    assert after[0] == after[..3][0] && CharLen(norm) > j && c[j] == META[0];
    assert c != META;
  }

  lemma FirstSpace(c: Text) returns (j: nat)
    requires SPACE in c
    ensures j < |c| && c[j] == SPACE && SPACE !in c[..j]
  {
    if c[0] == SPACE {
      j := 0;
    } else {
      assert c == [c[0]] + c[1..];
      var i := FirstSpace(c[1..]);
      j := i + 1;
      assert c[..j] == [c[0]] + c[1..][..i];
    }
  }

  lemma SpaceInside(t: Text, c: Text, rest: Text)
    requires t == c + rest && c != [] && c != [SPACE] && |c| <= Utf8Len(c[0]) && SPACE in c
    ensures Diverge(Walked(Normalised(t)), t)
  {
    var j := FirstSpace(c);
    CutAtSpace(c, rest, j);
    SwallowedSpace(c[..j], c[j + 1..] + rest);
  }

  lemma CutAtSpace(c: Text, rest: Text, j: nat)
    requires j < |c| && c[j] == SPACE
    ensures c + rest == c[..j] + [SPACE] + (c[j + 1..] + rest)
  {
  }

  /** A run comes back exactly when it is clean; otherwise it comes back different somewhere, not just shorter. */
  lemma {:induction false} RunComesBackIff(t: Text)
    ensures Clean(t) ==> Walked(Normalised(t)) == t
    ensures !Clean(t) ==> Diverge(Walked(Normalised(t)), t)
  {
    if t != [] {
      var l := CharLen(t);
      var c, rest := t[..l], t[l..];
      assert t == c + rest;
      RunComesBackIff(rest);
      if c == [SPACE] {
        SpaceWalks(rest);
        DivergesLater(c, rest);
      } else if SPACE in c {
        SpaceInside(t, c, rest);
      } else {
        PlainWalks(c, rest);
        if c == META {
          DivergeAt(Walked(Normalised(t)), t, 0);
        } else {
          DivergesLater(c, rest);
        }
      }
    }
  }

  lemma DivergesLater(c: Text, rest: Text)
    ensures Diverge(Walked(Normalised(rest)), rest) ==> Diverge(c + Walked(Normalised(rest)), c + rest)
  {
    if Diverge(Walked(Normalised(rest)), rest) {
      DivergeInside(c, Walked(Normalised(rest)), rest, [], []);
      assert c + Walked(Normalised(rest)) + [] == c + Walked(Normalised(rest)) && c + rest + [] == c + rest;
    }
  }

  lemma {:induction false} WalkedIsReplaced(s: Text)
    requires WellFormed(s)
    ensures Walked(s) == Replaced(s)
  {
    if s != [] {
      var l := CharLen(s);
      assert s == s[..l] + s[l..];
      ReplacedChar(s[..l], s[l..]);
      WalkedIsReplaced(s[l..]);
    }
  }

  ghost predicate AllClean(ps: seq<Piece>) {
    forall i :: 0 <= i < |ps| ==> Clean(ps[i].text)
  }

  /** One piece, added token or run, comes back exactly when it is clean. */
  lemma PieceComesBackIff(m: Model, p: Piece)
    requires Sound(m) && TextVocab(m) && (p.Literal? ==> p.text in m.added)
    ensures Clean(p.text) ==> Decoded(m, PieceIds(m, p), false) == p.text
    ensures !Clean(p.text) ==> Diverge(Decoded(m, PieceIds(m, p), false), p.text)
  {
    RunComesBackIff(p.text);
    match p
    case Run(text) => AnyRunShows(m, text);
    case Literal(text) =>
      LiteralRoundTrip(m, text);
      NormalisedShows(text);
      WalkedIsReplaced(Normalised(text));
  }

  lemma {:induction false} PiecesComeBackIff(m: Model, ps: seq<Piece>)
    requires Sound(m) && TextVocab(m) && Known(m, ps)
    ensures AllClean(ps) ==> Decoded(m, AllIds(m, ps), false) == AllTexts(ps)
    ensures !AllClean(ps) ==> Diverge(Decoded(m, AllIds(m, ps), false), AllTexts(ps))
  {
    if ps != [] {
      var p, rest := ps[0], ps[1..];
      PieceComesBackIff(m, p);
      PiecesComeBackIff(m, rest);
      DecodedAppend(m, PieceIds(m, p), AllIds(m, rest), false);
      FirstClean(ps);
      JoinIff(Clean(p.text), Decoded(m, PieceIds(m, p), false), p.text,
              AllClean(rest), Decoded(m, AllIds(m, rest), false), AllTexts(rest));
    }
  }

  /** Two halves come back together exactly when each does. */
  lemma JoinIff(first: bool, a: Text, p: Text, second: bool, b: Text, q: Text)
    requires if first then a == p else Diverge(a, p)
    requires if second then b == q else Diverge(b, q)
    ensures if first && second then a + b == p + q else Diverge(a + b, p + q)
  {
    if !first {
      DivergeInside([], a, p, b, q);
      assert [] + a + b == a + b && [] + p + q == p + q;
    } else if !second {
      DivergeInside(a, b, q, [], []);
      assert a + b + [] == a + b && a + q + [] == a + q;
    }
  }

  lemma FirstClean(ps: seq<Piece>)
    requires ps != []
    ensures AllClean(ps) <==> Clean(ps[0].text) && AllClean(ps[1..])
  {
    assert forall i :: 1 <= i < |ps| ==> ps[i] == ps[1..][i - 1];
  }

  lemma SoundAdded(m: Model)
    requires Sound(m)
    ensures forall a :: a in m.added ==> 1 <= |a| <= m.addedMaxLen && m.added[a] >= 0
  {
    forall a | a in m.added
      ensures 1 <= |a| <= m.addedMaxLen && m.added[a] >= 0
    {
      assert AddedSound(m, a);
    }
  }

  /**
   Text of any bytes comes back exactly when the walk by lead bytes over each
   piece of its split, added token or run, reaches over no space and meets no
   U+2581.
   */
  lemma ComesBackIff(m: Model, text: Text)
    requires Sound(m) && TextVocab(m)
    ensures Decoded(m, Encoded(m, text, false), false) == text <==> AllClean(Pieces(m, [], text))
  {
    SoundAdded(m);
    SplitIsLeftmost(m, [], text);
    assert [] + text == text;
    PiecesComeBackIff(m, Pieces(m, [], text));
    assert Encoded(m, text, false) == AllIds(m, Pieces(m, [], text));
  }

  /** Where no added token starts, the whole text is one run. */
  lemma {:induction false} NoHits(m: Model, pending: Text, s: Text)
    requires forall i :: 0 <= i < |s| ==> HitAt(m, s[i..]) == 0
    ensures Pieces(m, pending, s) == Flush(pending + s)
    decreases |s|
  {
    if s == [] {
      assert pending + s == pending;
    } else {
      assert s[0..] == s;
      assert forall i :: 0 <= i < |s[1..]| ==> s[1..][i..] == s[i + 1..];
      FirstMoved(pending, s);
      NoHits(m, pending + [s[0]], s[1..]);
    }
  }

  /** Without added tokens in it, a text comes back exactly when it is clean. */
  lemma RunTextComesBackIff(m: Model, text: Text)
    requires Sound(m) && TextVocab(m) && forall i :: 0 <= i < |text| ==> !Starts(m, text[i..])
    ensures Decoded(m, Encoded(m, text, false), false) == text <==> Clean(text)
  {
    SoundAdded(m);
    forall i | 0 <= i < |text|
      ensures HitAt(m, text[i..]) == 0
    {
      HitIsLongest(m, text[i..]);
    }
    NoHits(m, [], text);
    assert [] + text == text;
    ComesBackIff(m, text);
  }

  /** An instance: a lead byte that swallows the space after it does not come back, unless a space is an added token. */
  lemma IllFormedBreaks(m: Model)
    requires Sound(m) && TextVocab(m) && [SPACE] !in m.added
    ensures Decoded(m, Encoded(m, [0xe2, SPACE], false), false) != [0xe2, SPACE]
  {
    var text: Text := [0xe2, SPACE];
    forall i | 0 <= i < |text|
      ensures !Starts(m, text[i..])
    {
      NothingStarts(m, text, i);
    }
    assert CharLen(text) == 2 && text[..2] == text && text[1] == SPACE;
    assert !Clean(text);
    RunTextComesBackIff(m, text);
  }

  lemma NothingStarts(m: Model, text: Text, i: nat)
    requires Sound(m) && [SPACE] !in m.added && text == [0xe2, SPACE] && i < 2
    ensures !Starts(m, text[i..])
  {
    var s := text[i..];
    forall k | 1 <= k <= |s|
      ensures s[..k] !in m.added
    {
      if i == 0 {
        assert s[..k][0] == 0xe2 && Utf8Len(0xe2) == 3 && !WellFormed(s[..k]);
        assert s[..k] in m.added ==> AddedSound(m, s[..k]);
      } else {
        assert s[..k] == [SPACE];
      }
    }
  }
}
