/**
 * The relationship matrix: directed NPC affinity scores stored under string keys `${a}_${b}`,
 * faction-to-faction scores stored the same way, and each NPC's faction membership.
 * Loading from and saving to the JSON file are not part of this model; the matrix starts as
 * the default one the service writes when no file exists.
 */
module Relationships {
  import opened Text
  import opened Seqs

  /** The display names the service keeps for its four factions; no operation of the matrix consults them. */
  const FactionNames: map<string, string> := map[
    "COURT_LOYALISTS" := "Court Loyalists",
    "MARKET_MERCHANTS" := "Market Merchants",
    "UNDERWORLD" := "Underworld",
    "NEUTRAL" := "Neutral"
  ]

  /** The faction memberships of the default matrix. */
  const DefaultFactions: map<string, string> := map[
    "guard" := "COURT_LOYALISTS",
    "guard2" := "COURT_LOYALISTS",
    "merchant" := "MARKET_MERCHANTS",
    "thief" := "UNDERWORLD",
    "bartender" := "MARKET_MERCHANTS",
    "helios" := "UNDERWORLD",
    "moody_old_man" := "NEUTRAL"
  ]

  /** The key `${a}_${b}` of the edge from `a` to `b`: a plain concatenation, not a pair. */
  function EdgeKey(a: string, b: string): (k: string)
    ensures |k| == |a| + 1 + |b| && k[|a|] == '_'
    ensures StartsWith(k, a + "_")
  {
    a + "_" + b
  }

  /** `m[k] || 0`: the stored score, or 0 for an absent key. */
  function ScoreOr0(m: map<string, real>, k: string): (r: real)
    ensures k !in m ==> r == 0.0
    ensures k in m ==> r == m[k]
  {
    if k in m then m[k] else 0.0
  }

  /** The edge scores after `updateRelation(a, b, delta)`: forward key first, then the reverse key. */
  function Bumped(m: map<string, real>, a: string, b: string, delta: real): map<string, real> {
    var forward := m[EdgeKey(a, b) := ScoreOr0(m, EdgeKey(a, b)) + delta];
    forward[EdgeKey(b, a) := ScoreOr0(forward, EdgeKey(b, a)) + delta * 0.5]
  }

  /** When the two keys differ, the forward score grows by `delta` and the reverse one by half of it. */
  lemma BumpedDistinctKeys(m: map<string, real>, a: string, b: string, delta: real)
    requires EdgeKey(a, b) != EdgeKey(b, a)
    ensures ScoreOr0(Bumped(m, a, b, delta), EdgeKey(a, b)) == ScoreOr0(m, EdgeKey(a, b)) + delta
    ensures ScoreOr0(Bumped(m, a, b, delta), EdgeKey(b, a)) == ScoreOr0(m, EdgeKey(b, a)) + delta / 2.0
  {
  }

  /** When the two keys coincide (always for `a == b`), that one entry grows by `1.5 * delta`. */
  lemma BumpedSameKey(m: map<string, real>, a: string, b: string, delta: real)
    requires EdgeKey(a, b) == EdgeKey(b, a)
    ensures ScoreOr0(Bumped(m, a, b, delta), EdgeKey(a, b)) == ScoreOr0(m, EdgeKey(a, b)) + 1.5 * delta
    ensures Bumped(m, a, b, delta).Keys == m.Keys + {EdgeKey(a, b)}
  {
  }

  /** Every other key keeps its presence and its score. */
  lemma BumpedFrame(m: map<string, real>, a: string, b: string, delta: real, k: string)
    requires k != EdgeKey(a, b) && k != EdgeKey(b, a)
    ensures k in Bumped(m, a, b, delta) <==> k in m
    ensures ScoreOr0(Bumped(m, a, b, delta), k) == ScoreOr0(m, k)
  {
  }

  /** Distinct ids can share both keys: `x` and `x_x` both give `x_x_x`. */
  lemma DistinctIdsCanShareKey()
    ensures EdgeKey("x", "x_x") == EdgeKey("x_x", "x") == "x_x_x"
  {
  }

  /** The text after the first `_` (empty when there is none). */
  function AfterUnderscore(s: string): (r: string)
    ensures |r| <= |s|
  {
    if s == [] then [] else if s[0] == '_' then s[1..] else AfterUnderscore(s[1..])
  }

  /** The text before the first `_` (all of `s` when there is none). */
  function UpToUnderscore(s: string): (r: string)
    ensures r <= s && '_' !in r
  {
    if s == [] || s[0] == '_' then [] else [s[0]] + UpToUnderscore(s[1..])
  }

  /** `key.split('_')[1]` for a key that contains `_`. */
  function SecondSegment(key: string): string {
    UpToUnderscore(AfterUnderscore(key))
  }

  /** For ids without `_`, the second segment of `${a}_${b}` is `b`. */
  lemma SecondSegmentOfPlainKey(a: string, b: string)
    requires '_' !in a && '_' !in b
    ensures SecondSegment(EdgeKey(a, b)) == b
  {
    AfterPlainPrefix(a, b);
    UpToWholeWord(b);
  }

  lemma {:induction false} AfterPlainPrefix(a: string, b: string)
    requires '_' !in a
    ensures AfterUnderscore(a + "_" + b) == b
  {
    if a != [] {
      assert (a + "_" + b)[1..] == a[1..] + "_" + b;
      AfterPlainPrefix(a[1..], b);
    } else {
      assert a + "_" + b == "_" + b;
    }
  }

  lemma {:induction false} UpToWholeWord(b: string)
    requires '_' !in b
    ensures UpToUnderscore(b) == b
  {
    if b != [] {
      UpToWholeWord(b[1..]);
      assert b == [b[0]] + b[1..];
    }
  }

  /** An id with `_` in it names its targets by its own second segment: `moody_old_man`'s edge to `guard` is listed under `old`. */
  lemma UnderscoreIdMisnamesTarget()
    ensures SecondSegment(EdgeKey("moody_old_man", "guard")) == "old"
  {
    assert EdgeKey("moody_old_man", "guard") == "moody" + "_" + "old_man_guard";
    AfterPlainPrefix("moody", "old_man_guard");
    assert "old_man_guard" == "old" + "_" + "man_guard";
    UpToFirstUnderscore("old", "man_guard");
  }

  lemma {:induction false} UpToFirstUnderscore(a: string, b: string)
    requires '_' !in a
    ensures UpToUnderscore(a + "_" + b) == a
  {
    if a != [] {
      assert (a + "_" + b)[1..] == a[1..] + "_" + b;
      UpToFirstUnderscore(a[1..], b);
      assert a == [a[0]] + a[1..];
    } else {
      assert a + "_" + b == "_" + b;
    }
  }

  /** `key.startsWith(id + '_')`: the key belongs to `id`'s outgoing edges. */
  predicate OwnedBy(key: string, id: string) {
    StartsWith(key, id + "_")
  }

  /**
   * The dictionary `getNPCRelationships(id)` builds by visiting `keys` in order: each key owned
   * by `id` writes its score under its second segment, so a later key overwrites an earlier one.
   */
  function RelationsOf(keys: seq<string>, m: map<string, real>, id: string): map<string, real>
    requires forall k | k in keys :: k in m
  {
    if keys == [] then map[]
    else
      var before := RelationsOf(keys[..|keys| - 1], m, id);
      var k := keys[|keys| - 1];
      if OwnedBy(k, id) then before[SecondSegment(k) := m[k]] else before
  }

  /** The targets listed are exactly the second segments of the keys owned by `id`. */
  lemma {:induction false} RelationsOfTargets(keys: seq<string>, m: map<string, real>, id: string, t: string)
    requires forall k | k in keys :: k in m
    ensures t in RelationsOf(keys, m, id) <==> exists j | 0 <= j < |keys| :: OwnedBy(keys[j], id) && SecondSegment(keys[j]) == t
  {
    if keys != [] {
      var init := keys[..|keys| - 1];
      RelationsOfTargets(init, m, id, t);
      assert forall j | 0 <= j < |init| :: init[j] == keys[j];
    }
  }

  /** A listed target carries the score of the LAST key owned by `id` that names it. */
  lemma {:induction false} RelationsOfLastWins(keys: seq<string>, m: map<string, real>, id: string, t: string)
    requires forall k | k in keys :: k in m
    requires t in RelationsOf(keys, m, id)
    ensures exists j | 0 <= j < |keys| ::
      && OwnedBy(keys[j], id) && SecondSegment(keys[j]) == t
      && RelationsOf(keys, m, id)[t] == m[keys[j]]
      && forall j' | j < j' < |keys| :: !(OwnedBy(keys[j'], id) && SecondSegment(keys[j']) == t)
  {
    var n := |keys| - 1;
    var k := keys[n];
    if OwnedBy(k, id) && SecondSegment(k) == t {
      assert RelationsOf(keys, m, id)[t] == m[keys[n]];
    } else {
      var init := keys[..n];
      assert forall j | 0 <= j < |init| :: init[j] == keys[j];
      RelationsOfLastWins(init, m, id, t);
      var j :| 0 <= j < |init| && OwnedBy(init[j], id) && SecondSegment(init[j]) == t
        && RelationsOf(init, m, id)[t] == m[init[j]]
        && forall j' | j < j' < |init| :: !(OwnedBy(init[j'], id) && SecondSegment(init[j']) == t);
      assert RelationsOf(keys, m, id)[t] == m[keys[j]];
    }
  }

  class RelationshipMatrix {
    var factionRelations: map<string, real>
    var npcRelations: map<string, real>
    var npcFactions: map<string, string>
    /** The keys of `npcRelations` in JavaScript property order (insertion order). */
    var keyOrder: seq<string>

    ghost predicate Valid()
      reads this
    {
      NoDup(keyOrder) && forall k :: k in keyOrder <==> k in npcRelations
    }

    /** `initializeDefaultRelationships`: no scores yet, and the seven fixed memberships. */
    constructor ()
      ensures Valid()
      ensures factionRelations == map[] && npcRelations == map[] && npcFactions == DefaultFactions
      ensures keyOrder == []
    {
      factionRelations := map[];
      npcRelations := map[];
      npcFactions := DefaultFactions;
      keyOrder := [];
    }

    /** `getFactionRelation`: the stored faction-pair score, 0 when absent. */
    function GetFactionRelation(faction1: string, faction2: string): (r: real)
      reads this
      ensures EdgeKey(faction1, faction2) !in factionRelations ==> r == 0.0
      ensures EdgeKey(faction1, faction2) in factionRelations ==> r == factionRelations[EdgeKey(faction1, faction2)]
    {
      ScoreOr0(factionRelations, EdgeKey(faction1, faction2))
    }

    /** `getNPCRelation`: the stored edge score, 0 when absent. */
    function GetNPCRelation(npc1: string, npc2: string): (r: real)
      reads this
      ensures EdgeKey(npc1, npc2) !in npcRelations ==> r == 0.0
      ensures EdgeKey(npc1, npc2) in npcRelations ==> r == npcRelations[EdgeKey(npc1, npc2)]
    {
      ScoreOr0(npcRelations, EdgeKey(npc1, npc2))
    }

    /** `updateRelation`: bumps the forward and the reverse key and returns the new forward score. */
    method UpdateRelation(npc1: string, npc2: string, delta: real) returns (score: real)
      requires Valid()
      modifies this
      ensures Valid()
      ensures npcRelations == Bumped(old(npcRelations), npc1, npc2, delta)
      ensures score == ScoreOr0(npcRelations, EdgeKey(npc1, npc2))
      ensures keyOrder == AddIfAbsent(AddIfAbsent(old(keyOrder), EdgeKey(npc1, npc2)), EdgeKey(npc2, npc1))
      ensures factionRelations == old(factionRelations) && npcFactions == old(npcFactions)
    {
      var key := EdgeKey(npc1, npc2);
      var reverseKey := EdgeKey(npc2, npc1);
      var m := npcRelations;
      m := m[key := ScoreOr0(m, key) + delta];
      m := m[reverseKey := ScoreOr0(m, reverseKey) + delta * 0.5];
      AddIfAbsentKeepsNoDup(keyOrder, key);
      AddIfAbsentKeepsNoDup(AddIfAbsent(keyOrder, key), reverseKey);
      npcRelations, keyOrder := m, AddIfAbsent(AddIfAbsent(keyOrder, key), reverseKey);
      score := m[key];
    }

    /** `getNPCFaction`: the stored faction, or `NEUTRAL` when it is absent or empty. */
    function GetNPCFaction(npc: string): (r: string)
      reads this
      ensures r != ""
      ensures npc !in npcFactions || npcFactions[npc] == "" ==> r == "NEUTRAL"
      ensures npc in npcFactions && npcFactions[npc] != "" ==> r == npcFactions[npc]
    {
      if npc in npcFactions && npcFactions[npc] != "" then npcFactions[npc] else "NEUTRAL"
    }

    /** `getNPCRelationships`: one pass over the keys in order, filling a dictionary. */
    method GetNPCRelationships(npc: string) returns (relations: map<string, real>)
      requires Valid()
      ensures relations == RelationsOf(keyOrder, npcRelations, npc)
    {
      relations := map[];
      for i := 0 to |keyOrder|
        invariant relations == RelationsOf(keyOrder[..i], npcRelations, npc)
      {
        var key := keyOrder[i];
        assert keyOrder[..i + 1][..i] == keyOrder[..i];
        if OwnedBy(key, npc) {
          relations := relations[SecondSegment(key) := npcRelations[key]];
        }
      }
      assert keyOrder[..|keyOrder|] == keyOrder;
    }
  }

  /** For two different ids without `_`, `updateRelation(a, b, +10)` raises a->b by 10 and b->a by 5. */
  method UpdateByTen(m: RelationshipMatrix, a: string, b: string)
    requires m.Valid() && a != b && '_' !in a && '_' !in b
    modifies m
    ensures m.GetNPCRelation(a, b) == old(m.GetNPCRelation(a, b)) + 10.0
    ensures m.GetNPCRelation(b, a) == old(m.GetNPCRelation(b, a)) + 5.0
  {
    SecondSegmentOfPlainKey(a, b);
    SecondSegmentOfPlainKey(b, a);
    var _ := m.UpdateRelation(a, b, 10.0);
    BumpedDistinctKeys(old(m.npcRelations), a, b, 10.0);
  }
}
