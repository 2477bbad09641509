/**
 Well-formed UTF-8 (section 4 of RFC 3629) and the tokenizer's two byte-level
 rewrites: spaces to U+2581 before merging, U+2581 back to a space when decoding.
 */
module Utf8 {
  import opened Common
  import opened Bpe

  /** U+2581, LOWER ONE EIGHTH BLOCK. */
  const META: Text := [0xe2, 0x96, 0x81]

  predicate Tail(b: Byte) {
    0x80 <= b <= 0xbf
  }

  /** One encoded character. */
  predicate IsChar(c: Text) {
    && c != [] && |c| == Utf8Len(c[0])
    && (forall i :: 1 <= i < |c| ==> Tail(c[i]))
    && match |c|
       case 1 => c[0] <= 0x7f
       case 2 => c[0] >= 0xc2
       case 3 => (c[0] == 0xe0 ==> c[1] >= 0xa0) && (c[0] == 0xed ==> c[1] <= 0x9f)
       case _ => c[0] <= 0xf4 && (c[0] == 0xf0 ==> c[1] >= 0x90) && (c[0] == 0xf4 ==> c[1] <= 0x8f)
  }

  /** The table of section 4 of RFC 3629: which byte sequences are one character. */
  lemma IsCharIsTable(c: Text)
    ensures IsChar(c) <==>
      || (|c| == 1 && c[0] <= 0x7f)
      || (|c| == 2 && 0xc2 <= c[0] <= 0xdf && Tail(c[1]))
      || (|c| == 3 && Tail(c[2])
          && ((c[0] == 0xe0 && 0xa0 <= c[1] <= 0xbf) || (0xe1 <= c[0] <= 0xec && Tail(c[1]))
              || (c[0] == 0xed && 0x80 <= c[1] <= 0x9f) || (0xee <= c[0] <= 0xef && Tail(c[1]))))
      || (|c| == 4 && Tail(c[2]) && Tail(c[3])
          && ((c[0] == 0xf0 && 0x90 <= c[1] <= 0xbf) || (0xf1 <= c[0] <= 0xf3 && Tail(c[1]))
              || (c[0] == 0xf4 && 0x80 <= c[1] <= 0x8f)))
  {
  }

  predicate WellFormed(s: Text) {
    s == [] || (Utf8Len(s[0]) <= |s| && IsChar(s[..Utf8Len(s[0])]) && WellFormed(s[Utf8Len(s[0])..]))
  }

  lemma LeadsAndTails(c: Text)
    requires IsChar(c)
    ensures !Tail(c[0]) && (c[0] == META[0] ==> |c| == 3)
  {
  }

  lemma {:induction false} WellFormedAppend(a: Text, b: Text)
    requires WellFormed(a) && WellFormed(b)
    ensures WellFormed(a + b)
  {
    if a == [] {
      assert a + b == b;
    } else {
      var l := Utf8Len(a[0]);
      assert (a + b)[..l] == a[..l] && (a + b)[l..] == a[l..] + b;
      WellFormedAppend(a[l..], b);
    }
  }

  /** A text cut inside its first character continues with a tail byte. */
  lemma CutInsideFirst(p: Text, r: Text)
    requires WellFormed(p + r) && p != [] && |p| < Utf8Len(p[0])
    ensures r != [] && Tail(r[0])
  {
    var s := p + r;
    assert s[0] == p[0] && IsChar(s[..Utf8Len(s[0])]);
    assert r[0] == s[..Utf8Len(s[0])][|p|];
  }

  /** Self-synchronisation: a byte that is not a tail byte starts a character. */
  lemma {:induction false} BoundarySplit(p: Text, r: Text)
    requires WellFormed(p + r) && (r != [] ==> !Tail(r[0]))
    ensures WellFormed(p) && WellFormed(r)
  {
    var s := p + r;
    if p == [] {
      assert s == r;
    } else {
      var l := Utf8Len(s[0]);
      if l <= |p| {
        assert s[..l] == p[..l] && s[l..] == p[l..] + r;
        BoundarySplit(p[l..], r);
      } else {
        CutInsideFirst(p, r);
      }
    }
  }

  lemma {:induction false} WellFormedSuffix(a: Text, b: Text)
    requires WellFormed(a) && WellFormed(a + b)
    ensures WellFormed(b)
  {
    if a == [] {
      assert a + b == b;
    } else {
      var l := Utf8Len(a[0]);
      assert (a + b)[l..] == a[l..] + b;
      WellFormedSuffix(a[l..], b);
    }
  }

  // ---- the decoder's replacement ------------------------------------------------------

  predicate MetaAt(s: Text) {
    |s| >= 3 && s[..3] == META
  }

  /** Left to right, every U+2581 becomes a space. */
  function Replaced(s: Text): Text {
    if s == [] then []
    else if MetaAt(s) then [SPACE] + Replaced(s[3..])
    else [s[0]] + Replaced(s[1..])
  }

  /** A character as the decoder shows it. */
  function Shown(c: Text): Text {
    if c == META then [SPACE] else c
  }

  lemma MetaStarts(s: Text)
    ensures MetaAt(s) ==> s[0] == META[0]
  {
    if MetaAt(s) {
      assert s[..3][0] == META[0];
    }
  }

  lemma MetaIsFirst(c: Text, rest: Text)
    requires IsChar(c)
    ensures MetaAt(c + rest) ==> c == META
  {
    MetaStarts(c + rest);
    LeadsAndTails(c);
    if MetaAt(c + rest) {
      assert (c + rest)[..3] == c;
    }
  }

  lemma {:induction false} TailsUntouched(t: Text, rest: Text)
    requires forall i :: 0 <= i < |t| ==> Tail(t[i])
    ensures Replaced(t + rest) == t + Replaced(rest)
  {
    if t == [] {
      assert t + rest == rest;
    } else {
      var s := t + rest;
      assert s[0] == t[0];
      MetaStarts(s);
      assert s[1..] == t[1..] + rest;
      TailsUntouched(t[1..], rest);
    }
  }

  lemma MetaShown(rest: Text)
    ensures Replaced(META + rest) == [SPACE] + Replaced(rest)
  {
    assert (META + rest)[..3] == META && (META + rest)[3..] == rest;
  }

  lemma OtherShown(c: Text, rest: Text)
    requires IsChar(c) && c != META
    ensures Replaced(c + rest) == c + Replaced(rest)
  {
    var s, tails := c + rest, c[1..];
    MetaIsFirst(c, rest);
    assert s[1..] == tails + rest && s[0] == c[0];
    TailsUntouched(tails, rest);
    assert c == [c[0]] + tails;
    Regroup([c[0]], tails, Replaced(rest));
  }

  /** The replacement never looks across a character boundary. */
  lemma ReplacedChar(c: Text, rest: Text)
    requires IsChar(c)
    ensures Replaced(c + rest) == Shown(c) + Replaced(rest)
  {
    if c == META {
      MetaShown(rest);
    } else {
      OtherShown(c, rest);
    }
  }

  lemma {:induction false} ReplacedAppend(a: Text, b: Text)
    requires WellFormed(a)
    ensures Replaced(a + b) == Replaced(a) + Replaced(b)
  {
    if a == [] {
      assert a + b == b;
    } else {
      var l := Utf8Len(a[0]);
      var c := a[..l];
      var rest := a[l..];
      assert a == c + rest;
      Regroup(c, rest, b);
      ReplacedChar(c, rest);
      ReplacedChar(c, rest + b);
      ReplacedAppend(rest, b);
      Regroup(Shown(c), Replaced(rest), Replaced(b));
    }
  }

  /** On well-formed text the replacement is the identity exactly when there is no U+2581. */
  lemma {:induction false} ReplacedIdentity(s: Text)
    ensures Replaced(s) == s <==> forall i :: 0 <= i <= |s| ==> !MetaAt(s[i..])
    ensures |Replaced(s)| <= |s|
  {
    if s != [] {
      assert s[0..] == s;
      if MetaAt(s) {
        ReplacedIdentity(s[3..]);
        assert |Replaced(s)| < |s|;
      } else {
        ReplacedIdentity(s[1..]);
        assert forall i :: 0 < i <= |s| ==> s[i..] == s[1..][i - 1..];
        assert forall i :: 0 <= i <= |s[1..]| ==> s[1..][i..] == s[i + 1..];
        assert s == [s[0]] + s[1..];
      }
    }
  }

  // ---- the normaliser -------------------------------------------------------------------

  /** Every space byte becomes U+2581. */
  function Normalised(s: Text): Text {
    if s == [] then []
    else (if s[0] == SPACE then META else [s[0]]) + Normalised(s[1..])
  }

  lemma {:induction false} NormalisedAppend(a: Text, b: Text)
    ensures Normalised(a + b) == Normalised(a) + Normalised(b)
  {
    if a == [] {
      assert a + b == b;
    } else {
      assert (a + b)[1..] == a[1..] + b;
      NormalisedAppend(a[1..], b);
    }
  }

  lemma {:induction false} NormalisedKeeps(s: Text)
    requires forall i :: 0 <= i < |s| ==> s[i] != SPACE
    ensures Normalised(s) == s
  {
    if s != [] {
      NormalisedKeeps(s[1..]);
    }
  }

  lemma NormalisedChar(c: Text)
    requires IsChar(c)
    ensures Normalised(c) == if c == [SPACE] then META else c
  {
    if c == [SPACE] {
      assert c[1..] == [];
    } else {
      LeadsAndTails(c);
      NormalisedKeeps(c);
    }
  }

  /** Normalising keeps text well formed, and decoding shows what decoding the text itself would. */
  lemma {:induction false} NormalisedShows(s: Text)
    requires WellFormed(s)
    ensures WellFormed(Normalised(s)) && Replaced(Normalised(s)) == Replaced(s)
  {
    if s != [] {
      var l := Utf8Len(s[0]);
      var c, rest := s[..l], s[l..];
      assert s == c + rest;
      NormalisedShows(rest);
      NormalisedAppend(c, rest);
      NormalisedChar(c);
      ReplacedChar(c, rest);
      var c' := Normalised(c);
      assert IsChar(c') && Shown(c') == Shown(c);
      ReplacedChar(c', Normalised(rest));
      assert WellFormed(c' + Normalised(rest)) by {
        CharFirst(c', Normalised(rest));
      }
    }
  }

  lemma CharFirst(c: Text, rest: Text)
    requires IsChar(c) && WellFormed(rest)
    ensures WellFormed(c + rest) && Utf8Len((c + rest)[0]) == |c|
  {
    var s := c + rest;
    assert s[..|c|] == c && s[|c|..] == rest;
  }
}
