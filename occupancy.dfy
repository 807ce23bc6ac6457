/**
 * The occupancy tracker: `voice_channels` (user -> channel) and
 * `voice_counts` (channel -> number of users), as `voice_state_update`
 * and `ready` update them.
 *
 * A voice-state event is a departure from the user's last known channel
 * followed, when the event names a channel, by an arrival there. Counts are
 * `u8` in the source; here they are unbounded (see the README).
 */
module Occupancy {
  import opened Types

  type Members = map<UserId, ChannelId>
  type Counts = map<ChannelId, nat>

  /** The users mapped to channel `c`. */
  ghost function Occupants(members: Members, c: ChannelId): set<UserId> {
    set u | u in members && members[u] == c
  }

  /**
   * The tracker's consistency: every count is the number of users mapped to
   * its channel, and every channel some user is mapped to has a count.
   */
  ghost predicate Consistent(members: Members, counts: Counts) {
    && (forall c :: c in counts ==> counts[c] == |Occupants(members, c)|)
    && (forall u :: u in members ==> members[u] in counts)
  }

  /** No count entry is zero: an entry is created at 1 and removed when it reaches 0. */
  predicate Positive(counts: Counts) {
    forall c :: c in counts ==> counts[c] >= 1
  }

  /** `count_map.get(c).copied().unwrap_or(0)`. */
  function CountOf(counts: Counts, c: ChannelId): nat {
    if c in counts then counts[c] else 0
  }

  datatype Departure = Departure(members: Members, counts: Counts, emptied: Option<ChannelId>)

  /**
   * The leave half of `voice_state_update`: drop the user's mapping and
   * decrement the count of the channel it named, removing the count entry
   * at zero. `emptied` is that channel when its count reached zero.
   * A mapping whose channel has no count is an inconsistency that the
   * source only logs; the mapping is still dropped.
   */
  function Depart(members: Members, counts: Counts, u: UserId): (d: Departure)
    requires Positive(counts)
    ensures Positive(d.counts)
    ensures d.members == members - {u}
    ensures u !in members ==> d.counts == counts && d.emptied == None
    ensures d.emptied.Some? ==> u in members && d.emptied.value == members[u] && d.emptied.value !in d.counts
    ensures d.emptied.Some? <==> u in members && members[u] in counts && counts[members[u]] == 1
    ensures u in members && members[u] !in counts ==> d.counts == counts
    ensures u in members && members[u] in counts && counts[members[u]] == 1 ==> d.counts == counts - {members[u]}
    ensures u in members && members[u] in counts && counts[members[u]] > 1 ==>
              d.counts == counts[members[u] := counts[members[u]] - 1]
    ensures d.counts.Keys <= counts.Keys
  {
    if u !in members then Departure(members, counts, None)
    else
      var c := members[u];
      if c !in counts then Departure(members - {u}, counts, None)
      else if counts[c] == 1 then Departure(members - {u}, counts - {c}, Some(c))
      else Departure(members - {u}, counts[c := counts[c] - 1], None)
  }

  /**
   * The join half: map the user to `c` and increment `c`'s count, creating
   * it at 1 (`*count_map.entry(c).or_insert(0) += 1`).
   */
  function Arrive(members: Members, counts: Counts, u: UserId, c: ChannelId): (r: (Members, Counts))
    ensures Positive(counts) ==> Positive(r.1)
    ensures r.0 == members[u := c]
    ensures r.1.Keys == counts.Keys + {c}
    ensures r.1[c] == CountOf(counts, c) + 1
    ensures forall c' :: c' in counts && c' != c ==> r.1[c'] == counts[c']
  {
    (members[u := c], counts[c := CountOf(counts, c) + 1])
  }

  lemma OccupantsRemove(members: Members, u: UserId, c: ChannelId)
    requires u in members
    ensures Occupants(members - {u}, c) == Occupants(members, c) - {u}
  {
  }

  lemma OccupantsAdd(members: Members, u: UserId, c: ChannelId, c': ChannelId)
    requires u !in members
    ensures Occupants(members[u := c], c') == if c' == c then Occupants(members, c') + {u} else Occupants(members, c')
  {
  }

  /**
   * A departure from a consistent tracker leaves it consistent, and reports
   * the channel as emptied exactly when the user was its last occupant.
   */
  lemma {:induction false} DepartPreservesConsistency(members: Members, counts: Counts, u: UserId)
    requires Consistent(members, counts) && Positive(counts)
    ensures Consistent(Depart(members, counts, u).members, Depart(members, counts, u).counts)
    ensures Depart(members, counts, u).emptied.Some? <==> u in members && Occupants(members, members[u]) == {u}
  {
    if u in members {
      var c := members[u];
      assert u in Occupants(members, c);
      DepartCountsExact(members, counts, u);
      DepartKeepsMapped(members, counts, u);
      LastOccupant(members, u);
    }
  }

  /** The occupant set of the user's channel is {u} exactly when it holds one user. */
  lemma LastOccupant(members: Members, u: UserId)
    requires u in members
    ensures Occupants(members, members[u]) == {u} <==> |Occupants(members, members[u])| == 1
  {
    var s := Occupants(members, members[u]);
    assert u in s;
    if |s| == 1 && s != {u} {
      var w :| w in s && w != u;
      SubsetCard({u, w}, s);
    }
  }

  lemma DepartCountsExact(members: Members, counts: Counts, u: UserId)
    requires Consistent(members, counts) && Positive(counts) && u in members
    ensures forall c' :: c' in Depart(members, counts, u).counts ==>
              Depart(members, counts, u).counts[c'] == |Occupants(members - {u}, c')|
  {
    var c := members[u];
    forall c' | c' in Depart(members, counts, u).counts
      ensures Depart(members, counts, u).counts[c'] == |Occupants(members - {u}, c')|
    {
      OccupantsRemove(members, u, c');
      if c' != c {
        assert u !in Occupants(members, c');
      } else {
        assert u in Occupants(members, c);
      }
    }
  }

  lemma DepartKeepsMapped(members: Members, counts: Counts, u: UserId)
    requires Consistent(members, counts) && Positive(counts) && u in members
    ensures forall v :: v in members - {u} ==> (members - {u})[v] in Depart(members, counts, u).counts
  {
    var c := members[u];
    forall v | v in members - {u} ensures (members - {u})[v] in Depart(members, counts, u).counts {
      if members[v] == c {
        assert {u, v} <= Occupants(members, c);
        SubsetCard({u, v}, Occupants(members, c));
      }
    }
  }

  lemma SubsetCard(a: set<UserId>, b: set<UserId>)
    requires a <= b
    ensures |a| <= |b|
  {
    assert b == a + (b - a);
  }

  /** An arrival of an untracked user at any channel keeps a consistent tracker consistent. */
  lemma {:induction false} ArrivePreservesConsistency(members: Members, counts: Counts, u: UserId, c: ChannelId)
    requires Consistent(members, counts) && u !in members
    ensures Consistent(Arrive(members, counts, u, c).0, Arrive(members, counts, u, c).1)
  {
    var (m', k') := Arrive(members, counts, u, c);
    forall c' | c' in k'
      ensures k'[c'] == |Occupants(m', c')|
    {
      OccupantsAdd(members, u, c, c');
      if c' == c {
        assert u !in Occupants(members, c);
        if c !in counts {
          assert Occupants(members, c) == {};
        }
      }
    }
    assert forall u' :: u' in m' ==> m'[u'] in k';
  }

  /**
   * `ready` seeds the tracker by arriving each user of the guild's voice
   * states in turn, without a departure first. A user who is already
   * tracked breaks exact counts whatever the channel: at their own channel
   * they are counted a second time, and at another one the old channel's
   * count still includes them.
   */
  lemma ArriveTrackedUserOvercounts(members: Members, counts: Counts, u: UserId, c: ChannelId)
    requires Consistent(members, counts) && u in members
    ensures !Consistent(Arrive(members, counts, u, c).0, Arrive(members, counts, u, c).1)
  {
    var b := members[u];
    var (m', k') := Arrive(members, counts, u, c);
    assert u in Occupants(members, b);
    if c == b {
      assert m' == members;
      assert k'[b] == counts[b] + 1;
    } else {
      assert Occupants(m', b) == Occupants(members, b) - {u};
      assert k'[b] == counts[b] == |Occupants(members, b)|;
    }
  }
}
