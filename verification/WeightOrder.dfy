/**
 The order in which weights are created, which is their order in the buffer:
 members of a fusable group must end up side by side.
 */
module WeightOrder {

  const GROUPS: seq<seq<string>> := [
    [".attn_q.weight", ".attn_k.weight", ".attn_v.weight"],
    [".ffn_gate.weight", ".ffn_up.weight"]]

  predicate EndsWith(name: string, suffix: string) {
    |name| > |suffix| && name[|name| - |suffix|..] == suffix
  }

  function Stem(name: string, suffix: string): string
    requires EndsWith(name, suffix)
  {
    name[..|name| - |suffix|]
  }

  /** A name belongs to group `g` as member `m` of some non-empty stem. */
  predicate IsMember(name: string, g: nat, m: nat) {
    g < |GROUPS| && m < |GROUPS[g]| && EndsWith(name, GROUPS[g][m])
  }

  function Members(stem: string, g: nat): seq<string>
    requires g < |GROUPS|
  {
    seq(|GROUPS[g]|, m requires 0 <= m < |GROUPS[g]| => stem + GROUPS[g][m])
  }

  /** The two characters before `.weight`, which tell the suffixes apart. */
  function Mark(g: nat, m: nat): (char, char) {
    if g == 0 then (if m == 0 then 'q' else if m == 1 then 'k' else 'v', '_')
    else if m == 0 then ('e', 't') else ('p', 'u')
  }

  lemma MarkOf(name: string, g: nat, m: nat)
    requires IsMember(name, g, m)
    ensures |name| >= 9 && name[|name| - 8] == Mark(g, m).0 && name[|name| - 9] == Mark(g, m).1
  {
    var suffix := GROUPS[g][m];
    assert suffix[|suffix| - 8] == Mark(g, m).0 && suffix[|suffix| - 9] == Mark(g, m).1;
    assert name[|name| - |suffix|..][|suffix| - 8] == name[|name| - 8];
    assert name[|name| - |suffix|..][|suffix| - 9] == name[|name| - 9];
  }

  /** A name is a member in one way only. */
  lemma OneMembership(name: string, g: nat, m: nat, h: nat, n: nat)
    requires IsMember(name, g, m) && IsMember(name, h, n)
    ensures g == h && m == n
  {
    MarkOf(name, g, m);
    MarkOf(name, h, n);
  }

  lemma MembersAre(stem: string, g: nat, m: nat)
    requires stem != "" && g < |GROUPS| && m < |GROUPS[g]|
    ensures IsMember(Members(stem, g)[m], g, m) && Stem(Members(stem, g)[m], GROUPS[g][m]) == stem
  {
  }

  lemma MemberOfStem(name: string, g: nat, m: nat)
    requires IsMember(name, g, m)
    ensures Stem(name, GROUPS[g][m]) != "" && Members(Stem(name, GROUPS[g][m]), g)[m] == name
  {
  }

  // ---- pushing names ----------------------------------------------------------------------------

  /** A name goes in once, and only if the file has it. */
  function Push(order: seq<string>, name: string, meta: set<string>): seq<string> {
    if name !in order && name in meta then order + [name] else order
  }

  function PushAll(order: seq<string>, names: seq<string>, meta: set<string>): seq<string>
    decreases names
  {
    if names == [] then order else PushAll(Push(order, names[0], meta), names[1..], meta)
  }

  predicate Distinct(names: seq<string>) {
    forall i, j :: 0 <= i < j < |names| ==> names[i] != names[j]
  }

  lemma {:induction false} PushAllKeeps(order: seq<string>, names: seq<string>, meta: set<string>)
    ensures order <= PushAll(order, names, meta)
    ensures Distinct(order) ==> Distinct(PushAll(order, names, meta))
    ensures forall x :: x in PushAll(order, names, meta) <==> x in order || (x in names && x in meta)
    decreases names
  {
    if names != [] {
      PushAllKeeps(Push(order, names[0], meta), names[1..], meta);
      assert forall x :: x in names <==> x == names[0] || x in names[1..];
    }
  }

  /** Names all new and all in the file go in as they stand. */
  lemma {:induction false} PushAllFresh(order: seq<string>, names: seq<string>, meta: set<string>)
    requires Distinct(names) && forall x :: x in names ==> x in meta && x !in order
    ensures PushAll(order, names, meta) == order + names
    decreases names
  {
    if names != [] {
      assert order + [names[0]] + names[1..] == order + names;
      PushAllFresh(order + [names[0]], names[1..], meta);
    }
  }

  predicate At(order: seq<string>, names: seq<string>, i: nat) {
    i + |names| <= |order| && order[i..i + |names|] == names
  }

  ghost predicate Adjacent(order: seq<string>, names: seq<string>) {
    exists i: nat :: At(order, names, i)
  }

  lemma AdjacentStays(order: seq<string>, names: seq<string>, longer: seq<string>)
    requires Adjacent(order, names) && order <= longer
    ensures Adjacent(longer, names)
  {
    var i: nat :| At(order, names, i);
    assert longer[i..i + |names|] == order[i..i + |names|];
    assert At(longer, names, i);
  }

  predicate AllIn(names: seq<string>, meta: set<string>) {
    forall m :: 0 <= m < |names| ==> names[m] in meta
  }

  /** A complete group is either untouched or in, side by side. */
  ghost predicate GroupOk(order: seq<string>, stem: string, g: nat, meta: set<string>)
    requires g < |GROUPS|
  {
    AllIn(Members(stem, g), meta) ==>
      (forall m :: 0 <= m < |GROUPS[g]| ==> Members(stem, g)[m] !in order) || Adjacent(order, Members(stem, g))
  }

  ghost predicate GroupsOk(order: seq<string>, meta: set<string>) {
    forall stem: string, g: nat :: stem != "" && g < |GROUPS| ==> GroupOk(order, stem, g, meta)
  }

  lemma MembersDistinct(stem: string, g: nat)
    requires stem != "" && g < |GROUPS|
    ensures Distinct(Members(stem, g))
  {
    forall i, j | 0 <= i < j < |Members(stem, g)|
      ensures Members(stem, g)[i] != Members(stem, g)[j]
    {
      MembersAre(stem, g, i);
      MembersAre(stem, g, j);
      if Members(stem, g)[i] == Members(stem, g)[j] {
        OneMembership(Members(stem, g)[i], g, i, g, j);
      }
    }
  }

  lemma SharedMember(stem: string, g: nat, m: nat, other: string, h: nat, n: nat)
    requires stem != "" && other != "" && g < |GROUPS| && h < |GROUPS| && m < |GROUPS[g]| && n < |GROUPS[h]|
    requires Members(stem, g)[m] == Members(other, h)[n]
    ensures stem == other && g == h && m == n
  {
    MembersAre(stem, g, m);
    MembersAre(other, h, n);
    OneMembership(Members(stem, g)[m], g, m, h, n);
  }

  /** Pushing one whole group disturbs no other and leaves itself side by side. */
  lemma PushGroupOk(order: seq<string>, stem: string, g: nat, meta: set<string>, other: string, h: nat)
    requires stem != "" && other != "" && g < |GROUPS| && h < |GROUPS| && GroupOk(order, other, h, meta)
    ensures GroupOk(PushAll(order, Members(stem, g), meta), other, h, meta)
  {
    var mine, theirs := Members(stem, g), Members(other, h);
    var next := PushAll(order, mine, meta);
    PushAllKeeps(order, mine, meta);
    if AllIn(theirs, meta) {
      if Adjacent(order, theirs) {
        AdjacentStays(order, theirs, next);
      } else if stem == other && g == h {
        MembersDistinct(stem, g);
        PushAllFresh(order, mine, meta);
        assert At(next, mine, |order|);
      } else {
        forall n | 0 <= n < |theirs|
          ensures theirs[n] !in next
        {
          if theirs[n] in mine {
            var m :| 0 <= m < |mine| && mine[m] == theirs[n];
            SharedMember(stem, g, m, other, h, n);
          }
        }
      }
    }
  }

  lemma PushLoneOk(order: seq<string>, name: string, meta: set<string>, other: string, h: nat)
    requires other != "" && h < |GROUPS| && GroupOk(order, other, h, meta)
    requires forall g, m :: !IsMember(name, g, m)
    ensures GroupOk(Push(order, name, meta), other, h, meta)
  {
    var theirs := Members(other, h);
    if AllIn(theirs, meta) {
      if Adjacent(order, theirs) {
        AdjacentStays(order, theirs, Push(order, name, meta));
      } else {
        forall n | 0 <= n < |theirs|
          ensures theirs[n] !in Push(order, name, meta)
        {
          MembersAre(other, h, n);
        }
      }
    }
  }

  // ---- the load loop --------------------------------------------------------------------------------

  datatype Membership = Lone | Member(g: nat, m: nat)

  method FindGroup(name: string) returns (r: Membership)
    ensures r.Lone? ==> forall g, m :: !IsMember(name, g, m)
    ensures r.Member? ==> IsMember(name, r.g, r.m)
  {
    for g := 0 to |GROUPS|
      invariant forall h, m :: 0 <= h < g ==> !IsMember(name, h, m)
    {
      for j := 0 to |GROUPS[g]|
        invariant forall m :: 0 <= m < j ==> !IsMember(name, g, m)
      {
        if EndsWith(name, GROUPS[g][j]) {
          return Member(g, j);
        }
      }
    }
    return Lone;
  }

  /** A complete group with a member in the order is side by side. */
  lemma GroupIsAdjacent(order: seq<string>, meta: set<string>, stem: string, g: nat, m: nat)
    requires GroupsOk(order, meta) && stem != "" && g < |GROUPS| && m < |GROUPS[g]|
    requires AllIn(Members(stem, g), meta) && Members(stem, g)[m] in order
    ensures Adjacent(order, Members(stem, g))
  {
    assert GroupOk(order, stem, g, meta);
  }

  /** The file has every member of the group, and some member is listed. */
  ghost predicate Complete(names: seq<string>, meta: set<string>, stem: string, g: nat) {
    && stem != "" && g < |GROUPS| && AllIn(Members(stem, g), meta)
    && exists m :: 0 <= m < |GROUPS[g]| && Members(stem, g)[m] in names
  }

  /**
   The creation order: each name once, every name of the file that is there, and
   every complete group side by side whatever the file's own order.
   */
  method Order(names: seq<string>, meta: set<string>) returns (order: seq<string>)
    ensures Distinct(order) && (forall x :: x in order ==> x in meta)
    ensures forall x :: x in names && x in meta ==> x in order
    ensures forall stem: string, g: nat :: Complete(names, meta, stem, g) ==> Adjacent(order, Members(stem, g))
  {
    order := [];
    for i := 0 to |names|
      invariant Distinct(order) && (forall x :: x in order ==> x in meta)
      invariant forall k :: 0 <= k < i && names[k] in meta ==> names[k] in order
      invariant GroupsOk(order, meta)
    {
      if names[i] in meta {
        var found := FindGroup(names[i]);
        order := PushName(order, names[i], found, meta);
      }
    }
    forall stem: string, g: nat | Complete(names, meta, stem, g)
      ensures Adjacent(order, Members(stem, g))
    {
      var m :| 0 <= m < |GROUPS[g]| && Members(stem, g)[m] in names;
      GroupIsAdjacent(order, meta, stem, g, m);
    }
  }

  method PushName(order: seq<string>, name: string, found: Membership, meta: set<string>) returns (next: seq<string>)
    requires Distinct(order) && GroupsOk(order, meta) && name in meta
    requires if found.Lone? then forall g, m :: !IsMember(name, g, m) else IsMember(name, found.g, found.m)
    ensures order <= next && Distinct(next) && GroupsOk(next, meta) && name in next
    ensures forall x :: x in next ==> x in order || x in meta
  {
    if found.Lone? {
      next := Push(order, name, meta);
      forall stem: string, g: nat | stem != "" && g < |GROUPS|
        ensures GroupOk(next, stem, g, meta)
      {
        PushLoneOk(order, name, meta, stem, g);
      }
    } else {
      var stem := Stem(name, GROUPS[found.g][found.m]);
      next := PushAll(order, Members(stem, found.g), meta);
      PushAllKeeps(order, Members(stem, found.g), meta);
      MemberOfStem(name, found.g, found.m);
      forall other: string, h: nat | other != "" && h < |GROUPS|
        ensures GroupOk(next, other, h, meta)
      {
        PushGroupOk(order, stem, found.g, meta, other, h);
      }
    }
  }
}
