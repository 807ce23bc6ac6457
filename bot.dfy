/**
 * The bot's cache state and its event handlers: party creation from the
 * "/party" command, voice-state bookkeeping, the cleanup sweep, the role
 * handlers and the start-up rebuild in `ready`.
 *
 * Every call to the chat service is a parameter or is left out: the
 * channel listing of a rescan, the ids of created channels and whether the
 * author could be moved arrive as arguments, and each channel delete the
 * bot requests is appended to the ghost log `deleted`.
 */
module Discoordinator {
  import opened Types
  import Lru
  import OwnerMap
  import Occupancy
  import GuildScan
  import Roles
  import RateLimit
  import PartyName
  import Command
  import Cleanup

  const CategoryCapacity: nat := 32
  const IgnoreCapacity: nat := 128
  const RateLimitCapacity: nat := 128
  const CommandWord: string := "/party"

  type CategoryCache = Lru.Cache<ChannelId, CategoryEntry>
  type IgnoreCache = Lru.Cache<ChannelId, ()>

  /** The scan's entries put into the category cache in order. */
  function PutAll(c: CategoryCache, ps: seq<GuildScan.Pairing>): (r: CategoryCache)
    requires c.Valid()
    ensures r.Valid() && r.cap == c.cap
    decreases |ps|
  {
    if ps == [] then c
    else PutAll(c, ps[..|ps| - 1]).Put(ps[|ps| - 1].voice, ps[|ps| - 1].entry)
  }

  /**
   * A rescan only ever maps a voice id to an entry the scan produced; every
   * other entry keeps its cached value (or was evicted).
   */
  lemma {:induction false} PutAllEntriesFromScan(c: CategoryCache, ps: seq<GuildScan.Pairing>)
    requires c.Valid()
    ensures forall k :: k in PutAll(c, ps).entries ==>
              (k in c.entries && PutAll(c, ps).entries[k] == c.entries[k])
              || (exists p :: p in ps && p.voice == k && PutAll(c, ps).entries[k] == p.entry)
    decreases |ps|
  {
    if ps != [] {
      var init := ps[..|ps| - 1];
      var last := ps[|ps| - 1];
      PutAllEntriesFromScan(c, init);
      var prev := PutAll(c, init);
      forall k | k in PutAll(c, ps).entries
        ensures (k in c.entries && PutAll(c, ps).entries[k] == c.entries[k])
                || (exists p :: p in ps && p.voice == k && PutAll(c, ps).entries[k] == p.entry)
      {
        if k == last.voice {
          assert last in ps;
        } else {
          assert k in prev.entries && PutAll(c, ps).entries[k] == prev.entries[k];
          if !(k in c.entries && prev.entries[k] == c.entries[k]) {
            var p :| p in init && p.voice == k && prev.entries[k] == p.entry;
            assert p in ps;
          }
        }
      }
    }
  }

  /** The voice ids the pairings are keyed by, in order. */
  function Voices(ps: seq<GuildScan.Pairing>): (vs: seq<ChannelId>)
    ensures |vs| == |ps| && forall i :: 0 <= i < |ps| ==> vs[i] == ps[i].voice
  {
    if ps == [] then []
    else
      var init := ps[..|ps| - 1];
      assert forall i :: 0 <= i < |init| ==> init[i] == ps[i];
      Voices(init) + [ps[|ps| - 1].voice]
  }

  /**
   * A rescan that fits in the cache loses nothing: when the pairings have
   * distinct voice ids and there are at most `cap` of them, they are the
   * most recent keys afterwards and each maps to its own entry.
   */
  lemma {:induction false} PutAllKeepsPairings(c: CategoryCache, ps: seq<GuildScan.Pairing>) returns (front: seq<ChannelId>)
    requires c.Valid() && |ps| <= c.cap && Lru.Distinct(Voices(ps))
    ensures PutAll(c, ps).order == front + Voices(ps)
    ensures forall i :: 0 <= i < |ps| ==>
              ps[i].voice in PutAll(c, ps).entries && PutAll(c, ps).entries[ps[i].voice] == ps[i].entry
    decreases |ps|
  {
    if ps == [] {
      front := c.order;
    } else {
      var n := |ps| - 1;
      VoicesOfPrefix(ps);
      var init := ps[..n];
      var f := PutAllKeepsPairings(c, init);
      var prev := PutAll(c, init);
      var d := prev.Put(ps[n].voice, ps[n].entry);
      assert PutAll(c, ps) == d;
      front := Lru.PutKeepsRecent(prev, ps[n].voice, ps[n].entry, f, Voices(init));
      PairingsStayRecent(ps, init, prev.entries, d.entries);
    }
  }

  /** The voice ids of all but the last pairing are distinct and miss the last one's. */
  lemma VoicesOfPrefix(ps: seq<GuildScan.Pairing>)
    requires ps != [] && Lru.Distinct(Voices(ps))
    ensures Lru.Distinct(Voices(ps[..|ps| - 1])) && ps[|ps| - 1].voice !in Voices(ps[..|ps| - 1])
  {
    var n := |ps| - 1;
    var vs := Voices(ps[..n]);
    forall i, j | 0 <= i < j < n ensures vs[i] != vs[j] {
      assert vs[i] == Voices(ps)[i] && vs[j] == Voices(ps)[j];
    }
    forall j | 0 <= j < n ensures vs[j] != ps[n].voice {
      assert vs[j] == Voices(ps)[j];
    }
  }

  /**
   * One step of `PutAllKeepsPairings`, on the entries: when the put of the
   * last pairing keeps the earlier pairings' values, every pairing is stored.
   */
  lemma PairingsStayRecent(ps: seq<GuildScan.Pairing>, init: seq<GuildScan.Pairing>,
                           was: map<ChannelId, CategoryEntry>, now: map<ChannelId, CategoryEntry>)
    requires ps != [] && init == ps[..|ps| - 1]
    requires forall i :: 0 <= i < |init| ==> init[i].voice in was && was[init[i].voice] == init[i].entry
    requires forall j :: 0 <= j < |Voices(init)| ==> Voices(init)[j] in now && now[Voices(init)[j]] == was[Voices(init)[j]]
    requires ps[|ps| - 1].voice in now && now[ps[|ps| - 1].voice] == ps[|ps| - 1].entry
    ensures forall i :: 0 <= i < |ps| ==> ps[i].voice in now && now[ps[i].voice] == ps[i].entry
  {
    forall i | 0 <= i < |init|
      ensures ps[i].voice in now && now[ps[i].voice] == ps[i].entry
    {
      assert Voices(init)[i] == init[i].voice;
      assert init[i] == ps[i];
    }
  }

  /**
   * An emptied voice channel that the category cache has lost, and that the
   * guild's listing pairs with a party, is found after the rescan with the
   * listing's category and text channel, so `Retire` pops it and deletes
   * those channels.
   */
  lemma RescanFindsListedParty(cache: CategoryCache, chs: seq<GuildScan.ChannelInfo>, p: GuildScan.Pairing)
    requires cache.Valid() && p in GuildScan.Pairings(chs)
    requires |GuildScan.Pairings(chs)| <= cache.cap && Lru.Distinct(Voices(GuildScan.Pairings(chs)))
    ensures p.voice !in cache.entries ==>
              p.voice in Rescanned(cache, Some(chs)).entries && Rescanned(cache, Some(chs)).entries[p.voice] == p.entry
    ensures p.voice !in cache.entries ==> Rescanned(cache, Some(chs)).Pop(p.voice).0 == Some(p.entry)
  {
    var _ := PutAllKeepsPairings(cache, GuildScan.Pairings(chs));
  }

  /** The outcome of `update_guild_cache` on the category cache: nothing when the listing failed. */
  function Rescanned(c: CategoryCache, listing: Option<seq<GuildScan.ChannelInfo>>): (r: CategoryCache)
    requires c.Valid()
    ensures r.Valid() && r.cap == c.cap
  {
    match listing
    case None => c
    case Some(chs) => PutAll(c, GuildScan.Pairings(chs))
  }

  /** The voice ids put into the ignore cache in order. */
  function IgnoreAll(c: IgnoreCache, ids: seq<ChannelId>): (r: IgnoreCache)
    requires c.Valid()
    ensures r.Valid() && r.cap == c.cap
    decreases |ids|
  {
    if ids == [] then c else IgnoreAll(c, ids[..|ids| - 1]).Put(ids[|ids| - 1], ())
  }

  /** The arrivals of `ready`'s voice-state loop, in order. */
  function ArriveAll(members: Occupancy.Members, counts: Occupancy.Counts, states: seq<(UserId, ChannelId)>): (r: (Occupancy.Members, Occupancy.Counts))
    ensures Occupancy.Positive(counts) ==> Occupancy.Positive(r.1)
    ensures r.0.Keys == members.Keys + UserSet(states)
    decreases |states|
  {
    if states == [] then (members, counts)
    else
      var prev := ArriveAll(members, counts, states[..|states| - 1]);
      var s := states[|states| - 1];
      UserSetSplit(states[..|states| - 1], [s]);
      assert states[..|states| - 1] + [s] == states;
      Occupancy.Arrive(prev.0, prev.1, s.0, s.1)
  }

  /** The users named in a run of voice states. */
  function UserSet(states: seq<(UserId, ChannelId)>): set<UserId> {
    set i | 0 <= i < |states| :: states[i].0
  }

  lemma UserSetSplit(a: seq<(UserId, ChannelId)>, b: seq<(UserId, ChannelId)>)
    ensures UserSet(a + b) == UserSet(a) + UserSet(b)
  {
    forall u | u in UserSet(a + b) ensures u in UserSet(a) + UserSet(b) {
      var i :| 0 <= i < |a + b| && (a + b)[i].0 == u;
      if i >= |a| {
        assert b[i - |a|].0 == u;
      }
    }
    forall u | u in UserSet(a) + UserSet(b) ensures u in UserSet(a + b) {
      if u in UserSet(a) {
        var i :| 0 <= i < |a| && a[i].0 == u;
        assert (a + b)[i].0 == u;
      } else {
        var i :| 0 <= i < |b| && b[i].0 == u;
        assert (a + b)[|a| + i].0 == u;
      }
    }
  }

  /** The users of a run of voice states are distinct and none is tracked yet. */
  predicate FreshUsers(states: seq<(UserId, ChannelId)>, members: Occupancy.Members) {
    && (forall i, j :: 0 <= i < j < |states| ==> states[i].0 != states[j].0)
    && (forall i :: 0 <= i < |states| ==> states[i].0 !in members)
  }

  /** Seeding the tracker with users it does not track yet keeps the counts exact. */
  lemma {:induction false} ArriveAllKeepsConsistency(members: Occupancy.Members, counts: Occupancy.Counts, states: seq<(UserId, ChannelId)>)
    requires Occupancy.Consistent(members, counts) && FreshUsers(states, members)
    ensures Occupancy.Consistent(ArriveAll(members, counts, states).0, ArriveAll(members, counts, states).1)
    decreases |states|
  {
    if states != [] {
      var init := states[..|states| - 1];
      var s := states[|states| - 1];
      assert forall i :: 0 <= i < |init| ==> init[i] == states[i];
      assert FreshUsers(init, members);
      ArriveAllKeepsConsistency(members, counts, init);
      var prev := ArriveAll(members, counts, init);
      assert s.0 !in prev.0;
      Occupancy.ArrivePreservesConsistency(prev.0, prev.1, s.0, s.1);
    }
  }

  /** The remote results of creating a party, in the order the handler asks for them. */
  datatype Remote = Remote(category: Option<ChannelId>, voice: Option<ChannelId>, text: Option<ChannelId>, moved: bool)

  /** What the party command answers, or that it stays silent. */
  datatype Outcome =
    | Ignored                                           // not a command, or within the short cooldown
    | OwnsParty                                         // "You already have a party! Disband it first."
    | TooSoon(wait: nat)                                // "You're making parties too fast! ..."
    | NotPermitted                                      // "You do not have permission to use this command"
    | ParseFailed                                       // "Failed to parse command!"
    | CategoryFailed                                    // "Failed to create category."
    | VoiceFailed                                       // "Failed to create VC." (the category is deleted again)
    | Created(name: string, voice: ChannelId, queued: bool)

  /** A message the handler acts on: from a user, in a guild, starting with "/party". */
  predicate IsPartyCommand(authorIsBot: bool, guild: Option<GuildId>, content: string) {
    !authorIsBot && guild.Some? && StartsWith(content, CommandWord)
  }

  /** The arguments after the command word. */
  function CommandArgs(content: string): Command.Parsed
    requires |content| >= |CommandWord|
  {
    Command.ParseFrom(Command.Lex(content[|CommandWord|..]), Command.NoArgs)
  }

  /** A reply that ends the command before any channel is created. */
  predicate Refusal(o: Outcome) {
    !(o in {CategoryFailed, VoiceFailed} || o.Created?)
  }

  /**
   * The checks a party command goes through, in turn: the rate limiter's
   * decision `step`, the whitelist role (`mayUse`) and the arguments.
   * The first that fails gives the reply; None means all passed.
   */
  function Checks(step: RateLimit.Decision, mayUse: bool, parsed: Command.Parsed): (stop: Option<Outcome>)
    ensures stop == Some(Ignored) <==> step == RateLimit.Silent
    ensures stop == Some(OwnsParty) <==> step == RateLimit.AlreadyOwner
    ensures step.TooSoon? ==> stop == Some(TooSoon(step.wait))
    ensures stop == Some(NotPermitted) <==> step == RateLimit.Allowed && !mayUse
    ensures stop == Some(ParseFailed) <==> step == RateLimit.Allowed && mayUse && parsed.Err?
    ensures stop.None? <==> step == RateLimit.Allowed && mayUse && parsed.Ok?
    ensures stop.Some? ==> Refusal(stop.value)
  {
    match step
    case Silent => Some(Ignored)
    case AlreadyOwner => Some(OwnsParty)
    case TooSoon(w) => Some(TooSoon(w))
    case Allowed =>
      if !mayUse then Some(NotPermitted)
      else if parsed.Err? then Some(ParseFailed)
      else None
  }

  /** One guild of the `ready` payload; offline guilds carry no data. */
  datatype GuildStatus =
    | OnlineGuild(id: GuildId, owner: UserId, roles: seq<Roles.Role>, channels: seq<GuildScan.ChannelInfo>,
                  voiceStates: seq<(UserId, ChannelId)>)
    | OfflineGuild(id: GuildId)

  /** The part of the bot's state that `ready` rebuilds. */
  datatype Seed = Seed(caps: Roles.Capabilities, whitelist: map<GuildId, RoleId>, guildOwners: map<GuildId, UserId>,
                       categories: CategoryCache, ignored: IgnoreCache,
                       members: Occupancy.Members, counts: Occupancy.Counts)

  /** The effect of one guild of the `ready` payload. */
  function SeedGuild(s: Seed, g: GuildStatus): (r: Seed)
    requires s.categories.Valid() && s.ignored.Valid()
    ensures r.categories.Valid() && r.categories.cap == s.categories.cap
    ensures r.ignored.Valid() && r.ignored.cap == s.ignored.cap
    ensures Occupancy.Positive(s.counts) ==> Occupancy.Positive(r.counts)
  {
    match g
    case OfflineGuild(_) => s
    case OnlineGuild(id, owner, roles, chs, states) =>
      var arrived := ArriveAll(s.members, s.counts, states);
      Seed(Roles.UpdateRoles(s.caps, roles), Roles.WhitelistRoles(s.whitelist, id, roles), s.guildOwners[id := owner],
           PutAll(s.categories, GuildScan.Pairings(chs)),
           IgnoreAll(s.ignored, GuildScan.Leftovers(GuildScan.Referenced(chs), GuildScan.PartyIds(chs), chs)),
           arrived.0, arrived.1)
  }

  /** The effect of the whole `ready` payload, guild by guild. */
  function SeedAll(s: Seed, guilds: seq<GuildStatus>): (r: Seed)
    requires s.categories.Valid() && s.ignored.Valid()
    ensures r.categories.Valid() && r.categories.cap == s.categories.cap
    ensures r.ignored.Valid() && r.ignored.cap == s.ignored.cap
    ensures Occupancy.Positive(s.counts) ==> Occupancy.Positive(r.counts)
    decreases |guilds|
  {
    if guilds == [] then s else SeedGuild(SeedAll(s, guilds[..|guilds| - 1]), guilds[|guilds| - 1])
  }

  /** The voice states of all online guilds, in payload order. */
  function AllVoiceStates(guilds: seq<GuildStatus>): seq<(UserId, ChannelId)>
    decreases |guilds|
  {
    if guilds == [] then []
    else AllVoiceStates(guilds[..|guilds| - 1])
         + (if guilds[|guilds| - 1].OnlineGuild? then guilds[|guilds| - 1].voiceStates else [])
  }

  /** The users tracked after `ready`: those tracked before and those of every online guild's voice states. */
  lemma {:induction false} SeedMembers(s: Seed, guilds: seq<GuildStatus>)
    requires s.categories.Valid() && s.ignored.Valid()
    ensures SeedAll(s, guilds).members.Keys == s.members.Keys + UserSet(AllVoiceStates(guilds))
    decreases |guilds|
  {
    if guilds != [] {
      var init := guilds[..|guilds| - 1];
      var g := guilds[|guilds| - 1];
      SeedMembers(s, init);
      UserSetSplit(AllVoiceStates(init), if g.OnlineGuild? then g.voiceStates else []);
    }
  }

  /** Distinct users split into two runs: the runs are distinct and share no user. */
  lemma FreshSplit(a: seq<(UserId, ChannelId)>, b: seq<(UserId, ChannelId)>, members: Occupancy.Members)
    requires FreshUsers(a + b, members)
    ensures FreshUsers(a, members)
    ensures FreshUsers(b, members + map u | u in UserSet(a) :: 0)
  {
    var all := a + b;
    assert forall i :: 0 <= i < |a| ==> all[i] == a[i];
    assert forall i :: 0 <= i < |b| ==> all[|a| + i] == b[i];
    forall i | 0 <= i < |b| ensures b[i].0 !in UserSet(a) {
      forall j | 0 <= j < |a| ensures a[j].0 != b[i].0 {
        assert all[j].0 != all[|a| + i].0;
      }
    }
  }

  /**
   * At start-up, with every user in voice listed once and not yet tracked,
   * the rebuilt tracker is consistent: each count is its channel's number
   * of users.
   */
  lemma {:induction false} SeedKeepsConsistency(s: Seed, guilds: seq<GuildStatus>)
    requires s.categories.Valid() && s.ignored.Valid()
    requires Occupancy.Consistent(s.members, s.counts) && FreshUsers(AllVoiceStates(guilds), s.members)
    ensures Occupancy.Consistent(SeedAll(s, guilds).members, SeedAll(s, guilds).counts)
    decreases |guilds|
  {
    if guilds != [] {
      var init := guilds[..|guilds| - 1];
      var g := guilds[|guilds| - 1];
      var before := AllVoiceStates(init);
      var added := if g.OnlineGuild? then g.voiceStates else [];
      FreshSplit(before, added, s.members);
      SeedKeepsConsistency(s, init);
      SeedMembers(s, init);
      var prev := SeedAll(s, init);
      if g.OnlineGuild? {
        assert FreshUsers(added, prev.members) by {
          assert forall u :: u in prev.members ==> u in s.members + map u | u in UserSet(before) :: 0;
        }
        ArriveAllKeepsConsistency(prev.members, prev.counts, added);
      }
    }
  }

  class Bot {
    /** The ring of parties whose creator could not be moved in. */
    const cleanupQueue: Cleanup.CleanupQueue
    var voiceCounts: Occupancy.Counts
    var voiceChannels: Occupancy.Members
    /** Voice id -> (category, text): the channels of a party, keyed by its voice channel. */
    var categoryCache: CategoryCache
    /** Voice channels known not to belong to a party. */
    var ignoreCache: IgnoreCache
    /** Voice id <-> (owner, guild). */
    var ownerCache: OwnerMap.BiMap
    var moveRoleCache: set<RoleId>
    var createChanRoleCache: set<RoleId>
    var guildOwnerCache: map<GuildId, UserId>
    var whitelistRoleCache: map<GuildId, RoleId>
    /** User -> instant of their last recorded party command. */
    var ratelimitCache: Lru.Cache<UserId, nat>
    /** The channel deletes requested so far, in order. */
    ghost var deleted: seq<ChannelId>

    ghost predicate Valid()
      reads this, cleanupQueue, cleanupQueue.data
    {
      && cleanupQueue.Valid()
      && categoryCache.Valid() && categoryCache.cap == CategoryCapacity
      && ignoreCache.Valid() && ignoreCache.cap == IgnoreCapacity
      && ratelimitCache.Valid() && ratelimitCache.cap == RateLimitCapacity
      && ownerCache.Inverse()
      && Occupancy.Positive(voiceCounts)
    }

    /** The occupancy counts are exact. */
    ghost predicate Tracked()
      reads this
    {
      Occupancy.Consistent(voiceChannels, voiceCounts)
    }

    /** The part of the state `ready` rebuilds. */
    function Seeded(): Seed
      reads this
    {
      Seed(Roles.Capabilities(moveRoleCache, createChanRoleCache), whitelistRoleCache, guildOwnerCache,
           categoryCache, ignoreCache, voiceChannels, voiceCounts)
    }

    constructor ()
      ensures Valid() && Tracked()
      ensures fresh(cleanupQueue) && fresh(cleanupQueue.data) && cleanupQueue.Contents == []
      ensures voiceCounts == map[] && voiceChannels == map[]
      ensures categoryCache.entries == map[] && ignoreCache.entries == map[] && ratelimitCache.entries == map[]
      ensures ownerCache.byChannel == map[] && ownerCache.byOwner == map[]
      ensures moveRoleCache == {} && createChanRoleCache == {} && guildOwnerCache == map[] && whitelistRoleCache == map[]
      ensures deleted == []
    {
      cleanupQueue := new Cleanup.CleanupQueue();
      voiceCounts := map[];
      voiceChannels := map[];
      categoryCache := Lru.Empty(CategoryCapacity);
      ignoreCache := Lru.Empty(IgnoreCapacity);
      ownerCache := OwnerMap.Empty();
      moveRoleCache := {};
      createChanRoleCache := {};
      guildOwnerCache := map[];
      whitelistRoleCache := map[];
      ratelimitCache := Lru.Empty(RateLimitCapacity);
      deleted := [];
    }

    /**
     * `update_guild_cache`: scan the guild's channel listing (None when
     * the request failed) and put every party's entry into the category
     * cache.
     */
    method UpdateGuildCache(listing: Option<seq<GuildScan.ChannelInfo>>)
      requires Valid()
      requires listing.Some? ==> GuildScan.DistinctIds(listing.value)
      modifies this`categoryCache
      ensures Valid()
      ensures categoryCache == Rescanned(old(categoryCache), listing)
    {
      if listing.Some? {
        var puts, _ := GuildScan.Scan(listing.value);
        PutPairings(puts);
      }
    }

    /** The `put` loop after a scan. */
    method PutPairings(puts: seq<GuildScan.Pairing>)
      requires Valid()
      modifies this`categoryCache
      ensures Valid()
      ensures categoryCache == PutAll(old(categoryCache), puts)
    {
      var i := 0;
      while i < |puts|
        invariant 0 <= i <= |puts|
        invariant Valid()
        invariant categoryCache == PutAll(old(categoryCache), puts[..i])
      {
        assert puts[..i + 1][..i] == puts[..i];
        categoryCache := categoryCache.Put(puts[i].voice, puts[i].entry);
        i := i + 1;
      }
      assert puts[..i] == puts;
    }

    /**
     * The leave half of `voice_state_update`. When the user's old channel
     * empties, its entry is looked up in the category cache (after a
     * rescan on a miss): found, it is popped, its voice, text and category
     * channels are deleted and its owner entry removed; not found, the
     * channel is put into the ignore cache.
     */
    method Leave(user: UserId, listing: Option<seq<GuildScan.ChannelInfo>>)
      requires Valid()
      requires listing.Some? ==> GuildScan.DistinctIds(listing.value)
      modifies this`voiceChannels, this`voiceCounts, this`categoryCache, this`ignoreCache, this`ownerCache, this`deleted
      ensures Valid()
      ensures var d := Occupancy.Depart(old(voiceChannels), old(voiceCounts), user);
              voiceChannels == d.members && voiceCounts == d.counts
      ensures old(Tracked()) ==> Tracked()
      ensures Occupancy.Depart(old(voiceChannels), old(voiceCounts), user).emptied.None? ==>
                categoryCache == old(categoryCache) && ignoreCache == old(ignoreCache)
                && ownerCache == old(ownerCache) && deleted == old(deleted)
      ensures var d := Occupancy.Depart(old(voiceChannels), old(voiceCounts), user);
              d.emptied.Some? ==>
                var c := d.emptied.value;
                var looked := if c in old(categoryCache).entries then old(categoryCache) else Rescanned(old(categoryCache), listing);
                if c in looked.entries then
                  categoryCache == looked.Pop(c).1 && ignoreCache == old(ignoreCache)
                  && ownerCache == old(ownerCache).RemoveByLeft(c)
                  && deleted == old(deleted) + [c] + OptionIds(looked.entries[c].text) + [looked.entries[c].category]
                else
                  categoryCache == looked && ignoreCache == old(ignoreCache).Put(c, ())
                  && ownerCache == old(ownerCache) && deleted == old(deleted)
    {
      if old(Tracked()) {
        Occupancy.DepartPreservesConsistency(voiceChannels, voiceCounts, user);
      }
      var d := Occupancy.Depart(voiceChannels, voiceCounts, user);
      voiceChannels, voiceCounts := d.members, d.counts;
      if d.emptied.Some? {
        Retire(d.emptied.value, listing);
      }
    }

    /**
     * The clean-up of a voice channel that has just emptied: its entry is
     * looked up in the category cache, after a rescan on a miss. Found, it
     * is popped, its voice, text and category channels are deleted and its
     * owner entry removed; not found, the channel is ignored from now on.
     */
    method Retire(c: ChannelId, listing: Option<seq<GuildScan.ChannelInfo>>)
      requires Valid()
      requires listing.Some? ==> GuildScan.DistinctIds(listing.value)
      modifies this`categoryCache, this`ignoreCache, this`ownerCache, this`deleted
      ensures Valid()
      ensures var looked := if c in old(categoryCache).entries then old(categoryCache) else Rescanned(old(categoryCache), listing);
              if c in looked.entries then
                categoryCache == looked.Pop(c).1 && ignoreCache == old(ignoreCache)
                && ownerCache == old(ownerCache).RemoveByLeft(c)
                && deleted == old(deleted) + [c] + OptionIds(looked.entries[c].text) + [looked.entries[c].category]
              else
                categoryCache == looked && ignoreCache == old(ignoreCache).Put(c, ())
                && ownerCache == old(ownerCache) && deleted == old(deleted)
    {
      if categoryCache.Peek(c).None? {
        UpdateGuildCache(listing);
      }
      var popped := categoryCache.Pop(c);
      categoryCache := popped.1;
      if popped.0.Some? {
        var entry := popped.0.value;
        deleted := deleted + [c] + OptionIds(entry.text) + [entry.category];
        ownerCache := ownerCache.RemoveByLeft(c);
      } else {
        ignoreCache := ignoreCache.Put(c, ());
      }
    }

    /**
     * The join half of `voice_state_update` for a user the tracker no
     * longer maps. Looking the channel up in the ignore cache promotes it;
     * an ignored channel ends the handler with the user untracked.
     * Otherwise the user is mapped and counted, and unless they own the
     * channel in this guild the category cache entry is read (promoting
     * it) to grant them the category's permissions.
     */
    method Join(guild: GuildId, user: UserId, chan: ChannelId)
      requires Valid() && user !in voiceChannels
      modifies this`voiceChannels, this`voiceCounts, this`categoryCache, this`ignoreCache
      ensures Valid()
      ensures ignoreCache == old(ignoreCache).Get(chan).1
      ensures chan in old(ignoreCache).entries ==>
                voiceChannels == old(voiceChannels) && voiceCounts == old(voiceCounts) && categoryCache == old(categoryCache)
      ensures chan !in old(ignoreCache).entries ==>
                (voiceChannels, voiceCounts) == Occupancy.Arrive(old(voiceChannels), old(voiceCounts), user, chan)
      ensures chan !in old(ignoreCache).entries && ownerCache.GetByLeft(chan) == Some(Owner(user, guild)) ==>
                categoryCache == old(categoryCache)
      ensures chan !in old(ignoreCache).entries && ownerCache.GetByLeft(chan) != Some(Owner(user, guild)) ==>
                categoryCache == old(categoryCache).Get(chan).1
      ensures old(Tracked()) ==> Tracked()
    {
      var looked := ignoreCache.Get(chan);
      ignoreCache := looked.1;
      if looked.0.Some? {
        return;
      }
      if old(Tracked()) {
        Occupancy.ArrivePreservesConsistency(voiceChannels, voiceCounts, user, chan);
      }
      var arrived := Occupancy.Arrive(voiceChannels, voiceCounts, user, chan);
      voiceChannels, voiceCounts := arrived.0, arrived.1;
      if ownerCache.GetByLeft(chan) == Some(Owner(user, guild)) {
        return;
      }
      var entry := categoryCache.Get(chan);
      categoryCache := entry.1;
    }

    /**
     * `voice_state_update`: an event without a guild is dropped; otherwise
     * the user leaves the channel the tracker maps them to, then joins the
     * event's channel, if any.
     */
    method VoiceStateUpdate(guild: Option<GuildId>, user: UserId, channel: Option<ChannelId>,
                            listing: Option<seq<GuildScan.ChannelInfo>>)
      requires Valid()
      requires listing.Some? ==> GuildScan.DistinctIds(listing.value)
      modifies this`voiceChannels, this`voiceCounts, this`categoryCache, this`ignoreCache, this`ownerCache, this`deleted
      ensures Valid()
      ensures guild.None? ==>
                voiceChannels == old(voiceChannels) && voiceCounts == old(voiceCounts) && categoryCache == old(categoryCache)
                && ignoreCache == old(ignoreCache) && ownerCache == old(ownerCache) && deleted == old(deleted)
      ensures old(Tracked()) ==> Tracked()
      ensures guild.Some? && channel.None? ==> voiceChannels == old(voiceChannels) - {user}
      ensures guild.Some? && channel.Some? ==>
                voiceChannels == old(voiceChannels) - {user} || voiceChannels == (old(voiceChannels) - {user})[user := channel.value]
      ensures guild.Some? && channel.Some? && user !in old(voiceChannels) && channel.value in old(ignoreCache).entries ==>
                voiceChannels == old(voiceChannels) && voiceCounts == old(voiceCounts)
      ensures guild.Some? && channel.Some? && user !in old(voiceChannels) && channel.value !in old(ignoreCache).entries ==>
                (voiceChannels, voiceCounts) == Occupancy.Arrive(old(voiceChannels), old(voiceCounts), user, channel.value)
    {
      if guild.None? {
        return;
      }
      Leave(user, listing);
      if channel.Some? {
        Join(guild.value, user, channel.value);
      }
    }

    /** The rate-limit step of the party command against the current state. */
    function RateStep(author: UserId, guild: GuildId, now: nat): (RateLimit.Decision, Lru.Cache<UserId, nat>)
      reads this
      requires ratelimitCache.Valid() && ownerCache.Inverse()
    {
      RateLimit.Attempt(ratelimitCache, author, now, ownerCache.ContainsRight(Owner(author, guild)))
    }

    /** The reply of the party command's checks against the current state; None when they all pass. */
    function Gate(authorIsBot: bool, guild: Option<GuildId>, author: UserId, content: string, memberRoles: seq<RoleId>,
                  now: nat): (stop: Option<Outcome>)
      reads this
      requires ratelimitCache.Valid() && ownerCache.Inverse()
      ensures !IsPartyCommand(authorIsBot, guild, content) ==> stop == Some(Ignored)
      ensures stop == Some(NotPermitted) <==>
                IsPartyCommand(authorIsBot, guild, content) && RateStep(author, guild.value, now).0 == RateLimit.Allowed
                && !Roles.MayUseCommand(whitelistRoleCache, createChanRoleCache, guildOwnerCache, guild.value, author, memberRoles)
      ensures stop == Some(ParseFailed) <==>
                IsPartyCommand(authorIsBot, guild, content) && RateStep(author, guild.value, now).0 == RateLimit.Allowed
                && Roles.MayUseCommand(whitelistRoleCache, createChanRoleCache, guildOwnerCache, guild.value, author, memberRoles)
                && CommandArgs(content).Err?
      ensures stop.None? <==>
                IsPartyCommand(authorIsBot, guild, content) && RateStep(author, guild.value, now).0 == RateLimit.Allowed
                && Roles.MayUseCommand(whitelistRoleCache, createChanRoleCache, guildOwnerCache, guild.value, author, memberRoles)
                && CommandArgs(content).Ok?
      ensures stop.Some? ==> Refusal(stop.value)
    {
      if !IsPartyCommand(authorIsBot, guild, content) then Some(Ignored)
      else Checks(RateStep(author, guild.value, now).0,
                  Roles.MayUseCommand(whitelistRoleCache, createChanRoleCache, guildOwnerCache, guild.value, author, memberRoles),
                  CommandArgs(content))
    }

    /**
     * The cleanup push of `message`. On a full queue the front entry is
     * about to be overwritten; as written, its count is read under its
     * category id, and when that is zero its voice channel, text channel
     * and voice channel again are deleted, the count entry of the category
     * id is removed and its owner entry dropped.
     */
    method PushCleanup(e: CleanupEntry)
      requires Valid()
      modifies this`voiceCounts, this`ownerCache, this`deleted, cleanupQueue, cleanupQueue.data
      ensures Valid()
      ensures voiceCounts == old(voiceCounts)
      ensures |old(cleanupQueue.Contents)| < Cleanup.Slots ==>
                cleanupQueue.Contents == old(cleanupQueue.Contents) + [e]
                && ownerCache == old(ownerCache) && deleted == old(deleted)
      ensures |old(cleanupQueue.Contents)| == Cleanup.Slots ==>
                var front := old(cleanupQueue.Contents)[0];
                cleanupQueue.Contents == old(cleanupQueue.Contents)[1..] + [e]
                && deleted == old(deleted) + Cleanup.EvictionDeletes(voiceCounts, front)
                && ownerCache == if Occupancy.CountOf(voiceCounts, front.category) == 0
                                 then old(ownerCache).RemoveByLeft(front.voice) else old(ownerCache)
    {
      var full := cleanupQueue.IsFull();
      if full {
        var front := cleanupQueue.Front();
        var f := front.value;
        if Occupancy.CountOf(voiceCounts, f.category) == 0 {
          deleted := deleted + [f.voice] + OptionIds(f.text) + [f.voice];
          assert voiceCounts - {f.category} == voiceCounts;
          voiceCounts := voiceCounts - {f.category};
          ownerCache := ownerCache.RemoveByLeft(f.voice);
        }
      }
      cleanupQueue.PushBack(e);
    }

    /**
     * The effects of creating a party with the remote results `remote` for
     * `author` in `guild`, whose reply is `outcome`: a failed category
     * changes nothing; a failed voice channel deletes the category again;
     * otherwise the author owns the voice channel, the party is cached, and
     * unless the author was moved in it is pushed onto the cleanup queue.
     */
    twostate predicate Established(author: UserId, guild: GuildId, remote: Remote, outcome: Outcome)
      reads this`ownerCache, this`categoryCache, this`deleted, this`voiceCounts, cleanupQueue`Contents
      requires old(ownerCache.Inverse()) && old(categoryCache.Valid())
    {
      && (outcome == CategoryFailed ==>
            remote.category.None?
            && ownerCache == old(ownerCache) && categoryCache == old(categoryCache)
            && deleted == old(deleted) && cleanupQueue.Contents == old(cleanupQueue.Contents))
      && (outcome == VoiceFailed ==>
            remote.category.Some? && remote.voice.None?
            && deleted == old(deleted) + [remote.category.value]
            && ownerCache == old(ownerCache) && categoryCache == old(categoryCache)
            && cleanupQueue.Contents == old(cleanupQueue.Contents))
      && (outcome.Created? ==>
            remote.category.Some? && remote.voice.Some? && outcome.voice == remote.voice.value
            && outcome.queued == !remote.moved
            && categoryCache == old(categoryCache).Put(outcome.voice, CategoryEntry(remote.category.value, remote.text)))
      && (outcome.Created? && remote.moved ==>
            ownerCache == old(ownerCache).Insert(outcome.voice, Owner(author, guild))
            && deleted == old(deleted) && cleanupQueue.Contents == old(cleanupQueue.Contents))
      && (outcome.Created? && !remote.moved ==>
            var owners := old(ownerCache).Insert(outcome.voice, Owner(author, guild));
            var e := CleanupEntry(remote.category.value, outcome.voice, remote.text);
            if |old(cleanupQueue.Contents)| < Cleanup.Slots then
              cleanupQueue.Contents == old(cleanupQueue.Contents) + [e]
              && ownerCache == owners && deleted == old(deleted)
            else
              var front := old(cleanupQueue.Contents)[0];
              cleanupQueue.Contents == old(cleanupQueue.Contents)[1..] + [e]
              && deleted == old(deleted) + Cleanup.EvictionDeletes(voiceCounts, front)
              && ownerCache == if Occupancy.CountOf(voiceCounts, front.category) == 0
                               then owners.RemoveByLeft(front.voice) else owners)
    }

    /** The channel-creating part of the party command, once every check has passed. */
    method CreateParty(author: UserId, guild: GuildId, name: string, remote: Remote) returns (outcome: Outcome)
      requires Valid()
      modifies this`ownerCache, this`categoryCache, this`voiceCounts, this`deleted, cleanupQueue, cleanupQueue.data
      ensures Valid()
      ensures voiceCounts == old(voiceCounts)
      ensures outcome in {CategoryFailed, VoiceFailed} || (outcome.Created? && outcome.name == name)
      ensures Established(author, guild, remote, outcome)
    {
      if remote.category.None? {
        return CategoryFailed;
      }
      var cat := remote.category.value;
      if remote.voice.None? {
        deleted := deleted + [cat];
        return VoiceFailed;
      }
      var vc := remote.voice.value;
      ownerCache := ownerCache.Insert(vc, Owner(author, guild));
      categoryCache := categoryCache.Put(vc, CategoryEntry(cat, remote.text));
      if !remote.moved {
        PushCleanup(CleanupEntry(cat, vc, remote.text));
      }
      return Created(name, vc, !remote.moved);
    }

    /**
     * The checks of the party command, in turn: a bot author, no guild or
     * another command is ignored; then the rate limiter, the whitelist
     * role and the arguments. `stop` is the reply when a check fails;
     * otherwise it is None and `args` holds the parsed arguments.
     */
    method Screen(authorIsBot: bool, guild: Option<GuildId>, author: UserId, content: string, memberRoles: seq<RoleId>,
                  now: nat) returns (stop: Option<Outcome>, args: Command.Args)
      requires Valid()
      modifies this`ratelimitCache
      ensures Valid()
      ensures ratelimitCache == if IsPartyCommand(authorIsBot, guild, content)
                                then old(RateStep(author, guild.value, now)).1 else old(ratelimitCache)
      ensures stop == old(Gate(authorIsBot, guild, author, content, memberRoles, now))
      ensures stop.None? ==> args == CommandArgs(content).value
    {
      args := Command.NoArgs;
      if authorIsBot || guild.None? {
        return Some(Ignored), args;
      }
      var g := guild.value;
      if !StartsWith(content, CommandWord) {
        return Some(Ignored), args;
      }
      var step := RateLimit.Attempt(ratelimitCache, author, now, ownerCache.ContainsRight(Owner(author, g)));
      ratelimitCache := step.1;
      match step.0 {
        case Silent => return Some(Ignored), args;
        case AlreadyOwner => return Some(OwnsParty), args;
        case TooSoon(w) => return Some(TooSoon(w)), args;
        case Allowed =>
      }
      if !Roles.MayUseCommand(whitelistRoleCache, createChanRoleCache, guildOwnerCache, g, author, memberRoles) {
        return Some(NotPermitted), args;
      }
      var parsed := Command.Parse(content[|CommandWord|..]);
      if parsed.Err? {
        return Some(ParseFailed), args;
      }
      return None, parsed.value;
    }

    /**
     * The party command (`message`): the checks of `Screen`, then the
     * category, voice and text channels are created (their ids, or
     * failure, are `remote`), the author becomes the voice channel's
     * owner, the party is cached, and when the author could not be moved
     * in the party is queued for cleanup.
     */
    method Message(authorIsBot: bool, guild: Option<GuildId>, author: UserId, content: string, memberRoles: seq<RoleId>,
                   messageId: string, now: nat, parsesAsUser: string -> bool, remote: Remote) returns (outcome: Outcome)
      requires Valid()
      modifies this`ratelimitCache, this`ownerCache, this`categoryCache, this`voiceCounts, this`deleted,
               cleanupQueue, cleanupQueue.data
      ensures Valid()
      ensures voiceCounts == old(voiceCounts)
      ensures old(Tracked()) ==> Tracked()
      ensures ratelimitCache == if IsPartyCommand(authorIsBot, guild, content)
                                then old(RateStep(author, guild.value, now)).1 else old(ratelimitCache)
      // a failed check is the reply and changes nothing else
      ensures var stop := old(Gate(authorIsBot, guild, author, content, memberRoles, now));
              stop.Some? ==>
                outcome == stop.value
                && ownerCache == old(ownerCache) && categoryCache == old(categoryCache)
                && deleted == old(deleted) && cleanupQueue.Contents == old(cleanupQueue.Contents)
      // otherwise the party is attempted under the chosen name
      ensures old(Gate(authorIsBot, guild, author, content, memberRoles, now)).None? ==>
                !Refusal(outcome) && Established(author, guild.value, remote, outcome)
                && (outcome.Created? ==>
                      outcome.name == PartyName.SelectName(CommandArgs(content).value.kwargs, CommandArgs(content).value.args,
                                                           parsesAsUser, messageId))
    {
      var stop, args := Screen(authorIsBot, guild, author, content, memberRoles, now);
      if stop.Some? {
        return stop.value;
      }
      // only the rate limiter has changed so far
      assert ownerCache == old(ownerCache) && categoryCache == old(categoryCache) && deleted == old(deleted)
             && cleanupQueue.Contents == old(cleanupQueue.Contents) && voiceCounts == old(voiceCounts);
      var name := PartyName.SelectName(args.kwargs, args.args, parsesAsUser, messageId);
      outcome := CreateParty(author, guild.value, name, remote);
      assert voiceChannels == old(voiceChannels) && voiceCounts == old(voiceCounts);
    }

    /**
     * One tick of the sweep thread. A front entry seen on the previous
     * tick too is popped: its owner entry is always dropped, and when its
     * voice channel has no count its text, voice and category channels
     * are deleted. Any other front entry only becomes the marker.
     */
    method SweepTick(last: ChannelId) returns (next: ChannelId)
      requires Valid()
      modifies this`voiceCounts, this`ownerCache, this`deleted, cleanupQueue
      ensures Valid()
      ensures voiceCounts == old(voiceCounts)
      ensures old(Tracked()) ==> Tracked()
      ensures next == Cleanup.SweepStep(old(cleanupQueue.Contents), last).1
      ensures cleanupQueue.Contents == Cleanup.AfterStep(old(cleanupQueue.Contents), last)
      ensures Cleanup.SweepStep(old(cleanupQueue.Contents), last).0.None? ==>
                ownerCache == old(ownerCache) && deleted == old(deleted)
      ensures var popped := Cleanup.SweepStep(old(cleanupQueue.Contents), last).0;
              popped.Some? ==>
                ownerCache == old(ownerCache).RemoveByLeft(popped.value.voice)
                && deleted == old(deleted) + if Occupancy.CountOf(voiceCounts, popped.value.voice) == 0
                                             then OptionIds(popped.value.text) + [popped.value.voice, popped.value.category]
                                             else []
    {
      next := last;
      var front := cleanupQueue.Front();
      if front.Some? {
        if front.value.category == last {
          var popped := cleanupQueue.PopFront();
          var t := popped.value;
          if Occupancy.CountOf(voiceCounts, t.voice) == 0 {
            assert voiceCounts - {t.voice} == voiceCounts;
            voiceCounts := voiceCounts - {t.voice};
            deleted := deleted + OptionIds(t.text) + [t.voice, t.category];
          }
          ownerCache := ownerCache.RemoveByLeft(t.voice);
        } else {
          next := front.value.category;
        }
      }
    }

    /** `update_role`: `update_role_raw` on the bot's two capability sets. */
    method UpdateRole(role: Roles.Role)
      modifies this`moveRoleCache, this`createChanRoleCache
      ensures Roles.Capabilities(moveRoleCache, createChanRoleCache)
              == Roles.UpdateRole(Roles.Capabilities(old(moveRoleCache), old(createChanRoleCache)), role)
    {
      var caps := Roles.UpdateRole(Roles.Capabilities(moveRoleCache, createChanRoleCache), role);
      moveRoleCache, createChanRoleCache := caps.move, caps.create;
    }

    /**
     * `guild_role_create`: a new role that may move members joins the move
     * set, and a "+#" role becomes the guild's whitelist role. The
     * create-channel set is not updated.
     */
    method GuildRoleCreate(guild: GuildId, role: Roles.Role)
      modifies this`moveRoleCache, this`whitelistRoleCache
      ensures Roles.MayMove(role.permissions) ==> moveRoleCache == old(moveRoleCache) + {role.id}
      ensures !Roles.MayMove(role.permissions) ==> moveRoleCache == old(moveRoleCache)
      ensures Roles.IsWhitelistRole(role) ==> whitelistRoleCache == old(whitelistRoleCache)[guild := role.id]
      ensures !Roles.IsWhitelistRole(role) ==> whitelistRoleCache == old(whitelistRoleCache)
    {
      if Roles.MayMove(role.permissions) {
        moveRoleCache := moveRoleCache + {role.id};
      }
      if Roles.IsWhitelistRole(role) {
        whitelistRoleCache := whitelistRoleCache[guild := role.id];
      }
    }

    /**
     * `guild_role_delete`: the role leaves the move set, and stops being
     * the guild's whitelist role if it was. The create-channel set is not
     * updated.
     */
    method GuildRoleDelete(guild: GuildId, role: RoleId)
      modifies this`moveRoleCache, this`whitelistRoleCache
      ensures moveRoleCache == old(moveRoleCache) - {role}
      ensures guild in old(whitelistRoleCache) && old(whitelistRoleCache)[guild] == role ==>
                whitelistRoleCache == old(whitelistRoleCache) - {guild}
      ensures !(guild in old(whitelistRoleCache) && old(whitelistRoleCache)[guild] == role) ==>
                whitelistRoleCache == old(whitelistRoleCache)
    {
      moveRoleCache := moveRoleCache - {role};
      if guild in whitelistRoleCache && whitelistRoleCache[guild] == role {
        whitelistRoleCache := whitelistRoleCache - {guild};
      }
    }

    /**
     * `guild_role_update`: both capability sets follow the role's
     * permissions; a "+#" role becomes the guild's whitelist role, and a
     * whitelist role that lost the prefix stops being one.
     */
    method GuildRoleUpdate(guild: GuildId, role: Roles.Role)
      modifies this`moveRoleCache, this`createChanRoleCache, this`whitelistRoleCache
      ensures Roles.Capabilities(moveRoleCache, createChanRoleCache)
              == Roles.UpdateRole(Roles.Capabilities(old(moveRoleCache), old(createChanRoleCache)), role)
      ensures Roles.IsWhitelistRole(role) ==> whitelistRoleCache == old(whitelistRoleCache)[guild := role.id]
      ensures !Roles.IsWhitelistRole(role) && guild in old(whitelistRoleCache) && old(whitelistRoleCache)[guild] == role.id ==>
                whitelistRoleCache == old(whitelistRoleCache) - {guild}
      ensures !Roles.IsWhitelistRole(role) && !(guild in old(whitelistRoleCache) && old(whitelistRoleCache)[guild] == role.id) ==>
                whitelistRoleCache == old(whitelistRoleCache)
    {
      UpdateRole(role);
      if Roles.IsWhitelistRole(role) {
        whitelistRoleCache := whitelistRoleCache[guild := role.id];
      } else if guild in whitelistRoleCache && whitelistRoleCache[guild] == role.id {
        whitelistRoleCache := whitelistRoleCache - {guild};
      }
    }

    /** `guild_create`: every role of the guild is applied, and the guild's owner recorded. */
    method GuildCreate(guild: GuildId, owner: UserId, roles: seq<Roles.Role>)
      modifies this`moveRoleCache, this`createChanRoleCache, this`guildOwnerCache
      ensures Roles.Capabilities(moveRoleCache, createChanRoleCache)
              == Roles.UpdateRoles(Roles.Capabilities(old(moveRoleCache), old(createChanRoleCache)), roles)
      ensures guildOwnerCache == old(guildOwnerCache)[guild := owner]
    {
      var i := 0;
      while i < |roles|
        invariant 0 <= i <= |roles|
        invariant Roles.Capabilities(moveRoleCache, createChanRoleCache)
                  == Roles.UpdateRoles(Roles.Capabilities(old(moveRoleCache), old(createChanRoleCache)), roles[..i])
        invariant guildOwnerCache == old(guildOwnerCache)
      {
        assert roles[..i + 1][..i] == roles[..i];
        UpdateRole(roles[i]);
        i := i + 1;
      }
      assert roles[..i] == roles;
      guildOwnerCache := guildOwnerCache[guild := owner];
    }

    /** The loop of `ready` that puts the voice ids of non-party categories into the ignore cache. */
    method IgnoreVoices(ids: seq<ChannelId>)
      requires Valid()
      modifies this`ignoreCache
      ensures Valid()
      ensures ignoreCache == IgnoreAll(old(ignoreCache), ids)
    {
      var i := 0;
      while i < |ids|
        invariant 0 <= i <= |ids|
        invariant Valid()
        invariant ignoreCache == IgnoreAll(old(ignoreCache), ids[..i])
      {
        assert ids[..i + 1][..i] == ids[..i];
        ignoreCache := ignoreCache.Put(ids[i], ());
        i := i + 1;
      }
      assert ids[..i] == ids;
    }

    /** The loop of `ready` that counts the users already in voice. */
    method CountVoiceStates(states: seq<(UserId, ChannelId)>)
      requires Valid()
      modifies this`voiceChannels, this`voiceCounts
      ensures Valid()
      ensures (voiceChannels, voiceCounts) == ArriveAll(old(voiceChannels), old(voiceCounts), states)
    {
      var i := 0;
      while i < |states|
        invariant 0 <= i <= |states|
        invariant Valid()
        invariant (voiceChannels, voiceCounts) == ArriveAll(old(voiceChannels), old(voiceCounts), states[..i])
      {
        assert states[..i + 1][..i] == states[..i];
        var arrived := Occupancy.Arrive(voiceChannels, voiceCounts, states[i].0, states[i].1);
        voiceChannels, voiceCounts := arrived.0, arrived.1;
        i := i + 1;
      }
      assert states[..i] == states;
    }

    /** The role loop of `ready` for one guild: capabilities and the whitelist, role by role. */
    method ApplyGuildRoles(guild: GuildId, roles: seq<Roles.Role>)
      requires Valid()
      modifies this`moveRoleCache, this`createChanRoleCache, this`whitelistRoleCache
      ensures Valid()
      ensures Roles.Capabilities(moveRoleCache, createChanRoleCache)
              == Roles.UpdateRoles(Roles.Capabilities(old(moveRoleCache), old(createChanRoleCache)), roles)
      ensures whitelistRoleCache == Roles.WhitelistRoles(old(whitelistRoleCache), guild, roles)
    {
      var i := 0;
      while i < |roles|
        invariant 0 <= i <= |roles|
        invariant Roles.Capabilities(moveRoleCache, createChanRoleCache)
                  == Roles.UpdateRoles(Roles.Capabilities(old(moveRoleCache), old(createChanRoleCache)), roles[..i])
        invariant whitelistRoleCache == Roles.WhitelistRoles(old(whitelistRoleCache), guild, roles[..i])
        invariant Valid()
      {
        assert roles[..i + 1][..i] == roles[..i];
        UpdateRole(roles[i]);
        if Roles.IsWhitelistRole(roles[i]) {
          whitelistRoleCache := whitelistRoleCache[guild := roles[i].id];
        }
        i := i + 1;
      }
      assert roles[..i] == roles;
    }

    /** The body of `ready`'s loop for one guild. */
    method ReadyGuild(g: GuildStatus)
      requires Valid()
      requires g.OnlineGuild? ==> GuildScan.DistinctIds(g.channels)
      modifies this`moveRoleCache, this`createChanRoleCache, this`whitelistRoleCache, this`guildOwnerCache,
               this`categoryCache, this`ignoreCache, this`voiceChannels, this`voiceCounts
      ensures Valid()
      ensures Seeded() == SeedGuild(old(Seeded()), g)
    {
      if g.OnlineGuild? {
        ReadyRoles(g.id, g.owner, g.roles);
        ReadyChannels(g.channels, g.voiceStates);
      }
    }

    /** The role half of `ready`'s loop for one guild: capabilities, whitelist and guild owner. */
    method ReadyRoles(guild: GuildId, owner: UserId, roles: seq<Roles.Role>)
      requires Valid()
      modifies this`moveRoleCache, this`createChanRoleCache, this`whitelistRoleCache, this`guildOwnerCache
      ensures Valid()
      ensures Roles.Capabilities(moveRoleCache, createChanRoleCache)
              == Roles.UpdateRoles(Roles.Capabilities(old(moveRoleCache), old(createChanRoleCache)), roles)
      ensures whitelistRoleCache == Roles.WhitelistRoles(old(whitelistRoleCache), guild, roles)
      ensures guildOwnerCache == old(guildOwnerCache)[guild := owner]
    {
      ApplyGuildRoles(guild, roles);
      guildOwnerCache := guildOwnerCache[guild := owner];
    }

    /** The channel half of `ready`'s loop for one guild: the scan and the voice-state count. */
    method ReadyChannels(channels: seq<GuildScan.ChannelInfo>, states: seq<(UserId, ChannelId)>)
      requires Valid()
      requires GuildScan.DistinctIds(channels)
      modifies this`categoryCache, this`ignoreCache, this`voiceChannels, this`voiceCounts
      ensures Valid()
      ensures categoryCache == PutAll(old(categoryCache), GuildScan.Pairings(channels))
      ensures ignoreCache == IgnoreAll(old(ignoreCache), GuildScan.Leftovers(GuildScan.Referenced(channels), GuildScan.PartyIds(channels), channels))
      ensures (voiceChannels, voiceCounts) == ArriveAll(old(voiceChannels), old(voiceCounts), states)
    {
      ScanChannels(channels);
      CountVoiceStates(states);
    }

    /** The channel scan of `ready` for one guild: party entries are cached, other voice channels ignored. */
    method ScanChannels(channels: seq<GuildScan.ChannelInfo>)
      requires Valid()
      requires GuildScan.DistinctIds(channels)
      modifies this`categoryCache, this`ignoreCache
      ensures Valid()
      ensures categoryCache == PutAll(old(categoryCache), GuildScan.Pairings(channels))
      ensures ignoreCache == IgnoreAll(old(ignoreCache), GuildScan.Leftovers(GuildScan.Referenced(channels), GuildScan.PartyIds(channels), channels))
    {
      var puts, leftovers := GuildScan.Scan(channels);
      PutPairings(puts);
      IgnoreVoices(leftovers);
    }

    /**
     * `ready`: rebuild the role sets, the whitelist and guild-owner maps,
     * the category and ignore caches and the occupancy tracker from the
     * guilds the connection reports, guild by guild.
     */
    method Ready(guilds: seq<GuildStatus>)
      requires Valid()
      requires forall i :: 0 <= i < |guilds| && guilds[i].OnlineGuild? ==> GuildScan.DistinctIds(guilds[i].channels)
      modifies this`moveRoleCache, this`createChanRoleCache, this`whitelistRoleCache, this`guildOwnerCache,
               this`categoryCache, this`ignoreCache, this`voiceChannels, this`voiceCounts
      ensures Valid()
      ensures Seeded() == SeedAll(old(Seeded()), guilds)
    {
      var i := 0;
      while i < |guilds|
        invariant 0 <= i <= |guilds|
        invariant Valid()
        invariant Seeded() == SeedAll(old(Seeded()), guilds[..i])
      {
        assert guilds[..i + 1][..i] == guilds[..i];
        ReadyGuild(guilds[i]);
        i := i + 1;
      }
      assert guilds[..i] == guilds;
    }
  }
}
