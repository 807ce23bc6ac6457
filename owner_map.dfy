/**
 * The owner cache: a bidirectional map between a party's voice channel and
 * its (creator, guild) pair, as the `bimap` crate's `BiBTreeMap` provides it.
 *
 * It is kept as two one-directional maps that are inverse to each other, so
 * that each voice channel has at most one owner and each (creator, guild)
 * pair owns at most one voice channel.
 */
module OwnerMap {
  import opened Types

  datatype BiMap = BiMap(byChannel: map<ChannelId, Owner>, byOwner: map<Owner, ChannelId>)
  {
    /** The two directions describe the same set of pairs. */
    ghost predicate Inverse() {
      && (forall c :: c in byChannel ==> byChannel[c] in byOwner && byOwner[byChannel[c]] == c)
      && (forall o :: o in byOwner ==> byOwner[o] in byChannel && byChannel[byOwner[o]] == o)
    }

    /** The pairs held, seen from the channel side. */
    ghost predicate Holds(c: ChannelId, o: Owner) {
      c in byChannel && byChannel[c] == o
    }

    /** `BiBTreeMap::get_by_left`. */
    function GetByLeft(c: ChannelId): (r: Option<Owner>)
      ensures r.Some? <==> c in byChannel
      ensures r.Some? ==> Holds(c, r.value)
    {
      if c in byChannel then Some(byChannel[c]) else None
    }

    /** `BiBTreeMap::contains_right`: in an inverse pair of maps, true exactly when some channel is owned by `o`. */
    function ContainsRight(o: Owner): (b: bool)
      requires Inverse()
      ensures b <==> exists c :: Holds(c, o)
    {
      if o in byOwner then
        assert Holds(byOwner[o], o);
        true
      else
        false
    }

    /**
     * `BiBTreeMap::insert`: any pair that shares the channel or the owner is
     * dropped, then the pair (c, o) is added.
     */
    function Insert(c: ChannelId, o: Owner): (m: BiMap)
      requires Inverse()
      ensures m.Inverse()
      ensures m.Holds(c, o) && m.ContainsRight(o)
      ensures forall c', o' :: m.Holds(c', o') <==> (c' == c && o' == o) || (Holds(c', o') && c' != c && o' != o)
    {
      var left := (byChannel - {c}) - (if o in byOwner then {byOwner[o]} else {});
      var right := (byOwner - {o}) - (if c in byChannel then {byChannel[c]} else {});
      BiMap(left[c := o], right[o := c])
    }

    /** `BiBTreeMap::remove_by_left`: drop the pair whose channel is `c`, if any. */
    function RemoveByLeft(c: ChannelId): (m: BiMap)
      requires Inverse()
      ensures m.Inverse()
      ensures c !in m.byChannel
      ensures c in byChannel ==> !m.ContainsRight(byChannel[c])
      ensures forall c', o' :: m.Holds(c', o') <==> Holds(c', o') && c' != c
    {
      if c in byChannel then BiMap(byChannel - {c}, byOwner - {byChannel[c]}) else this
    }
  }

  /** The empty owner cache (`Default::default`). */
  function Empty(): (m: BiMap)
    ensures m.Inverse() && m.byChannel == map[] && m.byOwner == map[]
  {
    BiMap(map[], map[])
  }

  /**
   * Owners are unique: in an inverse pair of maps no two channels have the
   * same owner, so `contains_right` identifies a single party.
   */
  lemma OwnersUnique(m: BiMap, c1: ChannelId, c2: ChannelId, o: Owner)
    requires m.Inverse() && m.Holds(c1, o) && m.Holds(c2, o)
    ensures c1 == c2
  {
    assert m.byOwner[o] == c1;
  }
}
