/**
 * The guild rescan shared by `update_guild_cache` and `ready`: from a
 * listing of a guild's channels, pair every party category (a category
 * whose name starts with "+# ") with its voice and text children.
 *
 * The first pass records, per category id referenced by a text or voice
 * channel, the last voice child and the last text child seen (the voice
 * slot starts at channel id 0 and the text slot empty). The second pass
 * takes, for each party category in listing order, that record out of the
 * map and yields the cache entry `voice -> (category, text)`. What is left
 * in the map belongs to categories that are not parties; `ready` puts the
 * voice ids of those records into the ignore cache.
 */
module GuildScan {
  import opened Types

  const PartyPrefix: string := "+# "

  datatype ChannelKind = CategoryKind | TextKind | VoiceKind | OtherKind

  /** One channel of the remote listing: id, kind, name and parent category. */
  datatype ChannelInfo = ChannelInfo(id: ChannelId, kind: ChannelKind, name: string, parent: Option<ChannelId>)

  /** A cache entry produced by the scan: voice id -> (category, text). */
  datatype Pairing = Pairing(voice: ChannelId, entry: CategoryEntry)

  predicate IsParty(ch: ChannelInfo) {
    ch.kind == CategoryKind && StartsWith(ch.name, PartyPrefix)
  }

  /** `ch` is a text or voice channel whose parent is `cat`. */
  predicate IsChildOf(ch: ChannelInfo, cat: ChannelId) {
    (ch.kind == TextKind || ch.kind == VoiceKind) && ch.parent == Some(cat)
  }

  /** Channel ids are the keys of the listing, so no two channels share one. */
  predicate DistinctIds(chs: seq<ChannelInfo>) {
    forall i, j :: 0 <= i < j < |chs| ==> chs[i].id != chs[j].id
  }

  predicate HasChild(chs: seq<ChannelInfo>, cat: ChannelId) {
    exists i :: 0 <= i < |chs| && IsChildOf(chs[i], cat)
  }

  /** The id of the last voice child of `cat` in the listing, or 0 when it has none. */
  function VoiceOf(chs: seq<ChannelInfo>, cat: ChannelId): ChannelId {
    if chs == [] then 0
    else if IsChildOf(chs[|chs| - 1], cat) && chs[|chs| - 1].kind == VoiceKind then chs[|chs| - 1].id
    else VoiceOf(chs[..|chs| - 1], cat)
  }

  /** The id of the last text child of `cat` in the listing, if any. */
  function TextOf(chs: seq<ChannelInfo>, cat: ChannelId): Option<ChannelId> {
    if chs == [] then None
    else if IsChildOf(chs[|chs| - 1], cat) && chs[|chs| - 1].kind == TextKind then Some(chs[|chs| - 1].id)
    else TextOf(chs[..|chs| - 1], cat)
  }

  /** The ids of the party categories, in listing order (the source's `category_list`). */
  function PartyIds(chs: seq<ChannelInfo>): seq<ChannelId> {
    if chs == [] then []
    else PartyIds(chs[..|chs| - 1]) + (if IsParty(chs[|chs| - 1]) then [chs[|chs| - 1].id] else [])
  }

  /** The category ids referenced by text or voice channels, in order of first reference. */
  function Referenced(chs: seq<ChannelInfo>): seq<ChannelId> {
    if chs == [] then []
    else
      var last := chs[|chs| - 1];
      var before := Referenced(chs[..|chs| - 1]);
      if (last.kind == TextKind || last.kind == VoiceKind) && last.parent.Some? && last.parent.value !in before
      then before + [last.parent.value]
      else before
  }

  /** The cache entries the scan puts, for the given party category ids, against the whole listing. */
  function PairFor(ids: seq<ChannelId>, all: seq<ChannelInfo>): seq<Pairing> {
    if ids == [] then []
    else
      PairFor(ids[..|ids| - 1], all)
      + (var cat := ids[|ids| - 1];
         if HasChild(all, cat) then [Pairing(VoiceOf(all, cat), CategoryEntry(cat, TextOf(all, cat)))] else [])
  }

  /** What the scan puts into the category cache, in order. */
  function Pairings(chs: seq<ChannelInfo>): seq<Pairing> {
    PairFor(PartyIds(chs), chs)
  }

  /** The voice ids of the referenced categories that are not parties: what `ready` ignores. */
  function Leftovers(refs: seq<ChannelId>, parties: seq<ChannelId>, all: seq<ChannelInfo>): seq<ChannelId> {
    if refs == [] then []
    else Leftovers(refs[..|refs| - 1], parties, all)
         + (if refs[|refs| - 1] in parties then [] else [VoiceOf(all, refs[|refs| - 1])])
  }

  // ---------------------------------------------------------------------
  // Facts about the pieces of the specification.

  lemma {:induction false} ReferencedIsChildren(chs: seq<ChannelInfo>, cat: ChannelId)
    ensures cat in Referenced(chs) <==> HasChild(chs, cat)
  {
    if chs != [] {
      var init := chs[..|chs| - 1];
      ReferencedIsChildren(init, cat);
      if HasChild(init, cat) {
        var i :| 0 <= i < |init| && IsChildOf(init[i], cat);
        assert IsChildOf(chs[i], cat);
      }
      if HasChild(chs, cat) && !IsChildOf(chs[|chs| - 1], cat) {
        var i :| 0 <= i < |chs| && IsChildOf(chs[i], cat);
        assert IsChildOf(init[i], cat);
      }
    }
  }

  lemma {:induction false} ReferencedDistinct(chs: seq<ChannelInfo>)
    ensures forall i, j :: 0 <= i < j < |Referenced(chs)| ==> Referenced(chs)[i] != Referenced(chs)[j]
  {
    if chs != [] {
      ReferencedDistinct(chs[..|chs| - 1]);
    }
  }

  lemma {:induction false} PartyIdsAreParties(chs: seq<ChannelInfo>, cat: ChannelId)
    ensures cat in PartyIds(chs) <==> exists i :: 0 <= i < |chs| && IsParty(chs[i]) && chs[i].id == cat
  {
    if chs != [] {
      var init := chs[..|chs| - 1];
      PartyIdsAreParties(init, cat);
      if exists i :: 0 <= i < |init| && IsParty(init[i]) && init[i].id == cat {
        var i :| 0 <= i < |init| && IsParty(init[i]) && init[i].id == cat;
        assert chs[i] == init[i];
      }
      if exists i :: 0 <= i < |chs| && IsParty(chs[i]) && chs[i].id == cat {
        var i :| 0 <= i < |chs| && IsParty(chs[i]) && chs[i].id == cat;
        if i < |init| { assert init[i] == chs[i]; }
      }
    }
  }

  lemma {:induction false} PartyIdsDistinct(chs: seq<ChannelInfo>)
    requires DistinctIds(chs)
    ensures forall i, j :: 0 <= i < j < |PartyIds(chs)| ==> PartyIds(chs)[i] != PartyIds(chs)[j]
  {
    if chs != [] {
      var init := chs[..|chs| - 1];
      var last := chs[|chs| - 1];
      assert DistinctIds(init);
      PartyIdsDistinct(init);
      PartyIdsAreParties(init, last.id);
      forall i | 0 <= i < |init| ensures init[i].id != last.id {
        assert init[i] == chs[i];
      }
    }
  }

  lemma {:induction false} PairForMembers(ids: seq<ChannelId>, all: seq<ChannelInfo>, p: Pairing)
    ensures p in PairFor(ids, all) <==>
      p.entry.category in ids && HasChild(all, p.entry.category)
      && p.voice == VoiceOf(all, p.entry.category) && p.entry.text == TextOf(all, p.entry.category)
  {
    if ids != [] {
      PairForMembers(ids[..|ids| - 1], all, p);
      assert ids == ids[..|ids| - 1] + [ids[|ids| - 1]];
    }
  }

  // ---------------------------------------------------------------------
  // The properties of the scan.

  /**
   * The scan puts exactly one entry per party category that has a text or
   * voice child: its voice child's id maps to (category, text child).
   * Party categories without children, and categories without the prefix,
   * are never put.
   */
  lemma ScanPutsExactlyParties(chs: seq<ChannelInfo>, p: Pairing)
    ensures p in Pairings(chs) <==>
      (exists i :: 0 <= i < |chs| && IsParty(chs[i]) && chs[i].id == p.entry.category)
      && HasChild(chs, p.entry.category)
      && p.voice == VoiceOf(chs, p.entry.category) && p.entry.text == TextOf(chs, p.entry.category)
  {
    PairForMembers(PartyIds(chs), chs, p);
    PartyIdsAreParties(chs, p.entry.category);
  }

  /** The voice slot is filled by a voice child and the text slot by a text child of the same category. */
  lemma {:induction false} SlotsHoldChildren(chs: seq<ChannelInfo>, cat: ChannelId)
    ensures TextOf(chs, cat).Some? ==>
      exists i :: 0 <= i < |chs| && chs[i].id == TextOf(chs, cat).value && chs[i].kind == TextKind && chs[i].parent == Some(cat)
    ensures VoiceOf(chs, cat) != 0 ==>
      exists i :: 0 <= i < |chs| && chs[i].id == VoiceOf(chs, cat) && chs[i].kind == VoiceKind && chs[i].parent == Some(cat)
    ensures (forall i :: 0 <= i < |chs| && IsChildOf(chs[i], cat) ==> chs[i].kind == TextKind) ==> VoiceOf(chs, cat) == 0
  {
    if chs != [] {
      var init := chs[..|chs| - 1];
      SlotsHoldChildren(init, cat);
      if TextOf(chs, cat).Some? && TextOf(chs, cat) == TextOf(init, cat) {
        var i :| 0 <= i < |init| && init[i].id == TextOf(init, cat).value && init[i].kind == TextKind && init[i].parent == Some(cat);
        assert chs[i] == init[i];
      }
      if VoiceOf(chs, cat) != 0 && VoiceOf(chs, cat) == VoiceOf(init, cat) && !(IsChildOf(chs[|chs| - 1], cat) && chs[|chs| - 1].kind == VoiceKind) {
        var i :| 0 <= i < |init| && init[i].id == VoiceOf(init, cat) && init[i].kind == VoiceKind && init[i].parent == Some(cat);
        assert chs[i] == init[i];
      }
    }
  }

  /**
   * A party category whose only child is a text channel is cached under
   * voice id 0 (the source's `ChannelId(0)` placeholder).
   */
  lemma TextOnlyPartyKeyedZero(chs: seq<ChannelInfo>, cat: ChannelId)
    requires cat in PartyIds(chs) && HasChild(chs, cat)
    requires forall i :: 0 <= i < |chs| && IsChildOf(chs[i], cat) ==> chs[i].kind == TextKind
    ensures Pairing(0, CategoryEntry(cat, TextOf(chs, cat))) in Pairings(chs)
    ensures TextOf(chs, cat).Some?
  {
    SlotsHoldChildren(chs, cat);
    PairForMembers(PartyIds(chs), chs, Pairing(0, CategoryEntry(cat, TextOf(chs, cat))));
    LastChildIsText(chs, cat);
  }

  lemma {:induction false} NoChildEmptySlots(chs: seq<ChannelInfo>, cat: ChannelId)
    requires !HasChild(chs, cat)
    ensures VoiceOf(chs, cat) == 0 && TextOf(chs, cat) == None
  {
    if chs != [] {
      var init := chs[..|chs| - 1];
      assert !IsChildOf(chs[|chs| - 1], cat);
      assert !HasChild(init, cat) by {
        forall i | 0 <= i < |init| ensures !IsChildOf(init[i], cat) {
          assert init[i] == chs[i];
        }
      }
      NoChildEmptySlots(init, cat);
    }
  }

  lemma {:induction false} LastChildIsText(chs: seq<ChannelInfo>, cat: ChannelId)
    requires HasChild(chs, cat)
    requires forall i :: 0 <= i < |chs| && IsChildOf(chs[i], cat) ==> chs[i].kind == TextKind
    ensures TextOf(chs, cat).Some?
  {
    var init := chs[..|chs| - 1];
    if !IsChildOf(chs[|chs| - 1], cat) {
      var i :| 0 <= i < |chs| && IsChildOf(chs[i], cat);
      assert IsChildOf(init[i], cat);
      LastChildIsText(init, cat);
    }
  }

  // ---------------------------------------------------------------------
  // The scan itself, as the source's two loops.

  /** What the first loop builds: a record per referenced category, in the map's order. */
  ghost predicate Recorded(chs: seq<ChannelInfo>, categoryMap: map<ChannelId, (ChannelId, Option<ChannelId>)>, mapOrder: seq<ChannelId>) {
    && mapOrder == Referenced(chs)
    && (forall cat :: cat in categoryMap <==> cat in mapOrder)
    && (forall cat :: cat in categoryMap ==> categoryMap[cat] == (VoiceOf(chs, cat), TextOf(chs, cat)))
  }

  /**
   * The scan of `update_guild_cache` (and its copy in `ready`): `puts` is
   * what the caller puts into the category cache, in order, and `leftovers`
   * the voice ids of the records left in the map afterwards.
   */
  method Scan(chs: seq<ChannelInfo>) returns (puts: seq<Pairing>, leftovers: seq<ChannelId>)
    requires DistinctIds(chs)
    ensures puts == Pairings(chs)
    ensures leftovers == Leftovers(Referenced(chs), PartyIds(chs), chs)
  {
    var categoryMap, categoryList, mapOrder := RecordCategories(chs);
    PartyIdsDistinct(chs);
    ReferencedDistinct(chs);
    categoryMap, puts := TakeParties(chs, categoryMap, categoryList);
    leftovers := [];
    var k := 0;
    while k < |mapOrder|
      invariant 0 <= k <= |mapOrder|
      invariant leftovers == Leftovers(mapOrder[..k], categoryList, chs)
    {
      assert mapOrder[..k + 1][..k] == mapOrder[..k];
      var cat := mapOrder[k];
      if cat in categoryMap {
        leftovers := leftovers + [categoryMap[cat].0];
      }
      k := k + 1;
    }
    assert mapOrder[..k] == mapOrder;
  }

  /**
   * The first loop: `category_list` collects the party categories, and
   * `category_map` a (voice, text) record per category that some text or
   * voice channel names as its parent; `mapOrder` is the map's key order.
   */
  method RecordCategories(chs: seq<ChannelInfo>)
    returns (categoryMap: map<ChannelId, (ChannelId, Option<ChannelId>)>, categoryList: seq<ChannelId>, mapOrder: seq<ChannelId>)
    ensures categoryList == PartyIds(chs)
    ensures Recorded(chs, categoryMap, mapOrder)
  {
    categoryMap, categoryList, mapOrder := map[], [], [];
    var i := 0;
    while i < |chs|
      invariant 0 <= i <= |chs|
      invariant categoryList == PartyIds(chs[..i])
      invariant Recorded(chs[..i], categoryMap, mapOrder)
    {
      var ch := chs[i];
      assert chs[..i + 1][..i] == chs[..i];
      match ch.kind {
        case CategoryKind =>
          if StartsWith(ch.name, PartyPrefix) {
            categoryList := categoryList + [ch.id];
          }
          RecordOther(chs[..i + 1], categoryMap, mapOrder);
        case TextKind | VoiceKind =>
          if ch.parent.Some? {
            var cat := ch.parent.value;
            var entry := if cat in categoryMap then categoryMap[cat] else (0, None);
            if ch.kind == TextKind {
              entry := (entry.0, Some(ch.id));
            } else {
              entry := (ch.id, entry.1);
            }
            RecordChild(chs[..i + 1], categoryMap, mapOrder, entry);
            if cat !in categoryMap {
              mapOrder := mapOrder + [cat];
            }
            categoryMap := categoryMap[cat := entry];
          } else {
            RecordOther(chs[..i + 1], categoryMap, mapOrder);
          }
        case OtherKind =>
          RecordOther(chs[..i + 1], categoryMap, mapOrder);
      }
      i := i + 1;
    }
    assert chs[..i] == chs;
  }

  /**
   * The second loop: each party category's record is removed from the map
   * and becomes a cache entry.
   */
  method TakeParties(chs: seq<ChannelInfo>, categoryMap: map<ChannelId, (ChannelId, Option<ChannelId>)>, categoryList: seq<ChannelId>)
    returns (rest: map<ChannelId, (ChannelId, Option<ChannelId>)>, puts: seq<Pairing>)
    requires Recorded(chs, categoryMap, Referenced(chs))
    requires forall i, j :: 0 <= i < j < |categoryList| ==> categoryList[i] != categoryList[j]
    ensures puts == PairFor(categoryList, chs)
    ensures forall cat :: cat in rest <==> cat in categoryMap && cat !in categoryList
    ensures forall cat :: cat in rest ==> rest[cat] == categoryMap[cat]
  {
    rest, puts := categoryMap, [];
    var j := 0;
    while j < |categoryList|
      invariant 0 <= j <= |categoryList|
      invariant puts == PairFor(categoryList[..j], chs)
      invariant forall cat :: cat in rest <==> cat in categoryMap && cat !in categoryList[..j]
      invariant forall cat :: cat in rest ==> rest[cat] == categoryMap[cat]
    {
      var cat := categoryList[j];
      assert categoryList[..j + 1][..j] == categoryList[..j];
      assert cat !in categoryList[..j];
      ReferencedIsChildren(chs, cat);
      if cat in rest {
        var (voice, text) := rest[cat];
        rest := rest - {cat};
        puts := puts + [Pairing(voice, CategoryEntry(cat, text))];
      }
      j := j + 1;
    }
    assert categoryList[..j] == categoryList;
  }

  /** A channel that is not a child of any category leaves the records as they were. */
  lemma RecordOther(chs: seq<ChannelInfo>, categoryMap: map<ChannelId, (ChannelId, Option<ChannelId>)>, mapOrder: seq<ChannelId>)
    requires chs != []
    requires !((chs[|chs| - 1].kind == TextKind || chs[|chs| - 1].kind == VoiceKind) && chs[|chs| - 1].parent.Some?)
    requires Recorded(chs[..|chs| - 1], categoryMap, mapOrder)
    ensures Recorded(chs, categoryMap, mapOrder)
  {
  }

  /** A text or voice child updates its parent's record, creating it on first reference. */
  lemma RecordChild(chs: seq<ChannelInfo>, categoryMap: map<ChannelId, (ChannelId, Option<ChannelId>)>, mapOrder: seq<ChannelId>,
                    entry: (ChannelId, Option<ChannelId>))
    requires chs != []
    requires (chs[|chs| - 1].kind == TextKind || chs[|chs| - 1].kind == VoiceKind) && chs[|chs| - 1].parent.Some?
    requires Recorded(chs[..|chs| - 1], categoryMap, mapOrder)
    requires var cat := chs[|chs| - 1].parent.value;
             var prev := if cat in categoryMap then categoryMap[cat] else (0, None);
             entry == if chs[|chs| - 1].kind == TextKind then (prev.0, Some(chs[|chs| - 1].id)) else (chs[|chs| - 1].id, prev.1)
    ensures var cat := chs[|chs| - 1].parent.value;
            Recorded(chs, categoryMap[cat := entry], if cat in categoryMap then mapOrder else mapOrder + [cat])
  {
    var init := chs[..|chs| - 1];
    var cat := chs[|chs| - 1].parent.value;
    if cat !in categoryMap {
      ReferencedIsChildren(init, cat);
      NoChildEmptySlots(init, cat);
    }
  }
}
