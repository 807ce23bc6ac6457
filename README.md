# Discoordinator: the party bookkeeping, modelled in Dafny

Discoordinator is a Discord bot for temporary voice parties. A user types
`/party`, optionally with a name, and the bot creates three channels: a
category named `+# <name>`, a voice channel and a text channel. Once the
last person leaves the voice channel, the bot deletes all three. It has no
store of its own. Everything it knows is held in in-memory caches, which
this project models:

- the category cache: an LRU map of 32 entries, from a voice id to its category and text channel;
- the ignore cache: an LRU set of 128 voice channels known not to be parties;
- the owner cache: a bidirectional map from a voice id to its (creator, guild) pair;
- the rate-limit cache: an LRU map of 128 entries, from a user to the instant of their last recorded command;
- the occupancy tracker: user → channel, and channel → head count;
- the role caches: roles that may move members, roles that may create channels, the `+#` whitelist role and the owner of each guild;
- the cleanup ring: 32 parties whose creator could not be moved in, retired by a once-a-minute sweep;
- the argument parser of the command (`Args::parse`).

The model has one module per concern, one file each:

| file | module | what |
|---|---|---|
| `types.dfy` | `Types` | ids, `Option`, cache entry shapes |
| `lru.dfy` | `Lru` | the `lru` crate's cache as a value: capacity, recency order, entries |
| `owner_map.dfy` | `OwnerMap` | the `bimap` crate's map as two inverse maps |
| `occupancy.dfy` | `Occupancy` | departure and arrival on the tracker, and its consistency |
| `guild_scan.dfy` | `GuildScan` | the channel scan shared by `update_guild_cache` and `ready`: its two loops as a method, proved against a declarative pairing |
| `roles.dfy` | `Roles` | `update_role_raw`, the whitelist updates, the permission gate |
| `rate_limit.dfy` | `RateLimit` | the 20 s / 300 s rate-limit decision and its stamp |
| `party_name.dfy` | `PartyName` | the choice of the party name |
| `command.dfy` | `Command` | the token lexer and `Args::parse` (a loop, proved against a fold) |
| `cleanup_queue.dfy` | `Cleanup` | the 32-slot ring over an array, and the sweep as a state machine |
| `bot.dfy` | `Discoordinator` | the class `Bot`, holding the caches as fields, and its event handlers |

Calls to the chat service become inputs, and the bot's own actions are
recorded in ghost state:

- A channel listing fetched for a rescan is an `Option<seq<ChannelInfo>>`; `None` means the request failed.
- The results of the three `create_channel` calls and of `move_member` are a `Remote` value.
- Whether a string parses as a user id is a function parameter.
- Every channel delete the bot requests is appended, in order, to the ghost sequence `Bot.deleted`.
- Instants are naturals counting nanoseconds, so the source's `Duration` comparisons and `as_secs()` truncation hold exactly.

## Behaviour as written

Where the code and its design notes disagree, the model follows the code:

- On a party command within 20 s of the user's last recorded one, the bot does nothing at all. A user who already owns a party gets the owner refusal, and their instant is recorded again (`RateLimit.OwnerRetryRefreshes`).
- The push-time eviction from a full cleanup ring reads the occupancy count under the evicted entry's *category* id. Only voice channels are ever counted, so that count is always zero. The entry's voice channel is then deleted twice, its text channel once, and its category never (`Cleanup.EvictionIgnoresOccupancy`). Removing the category's count entry is a no-op, and `Bot.PushCleanup` proves that the counts are unchanged.
- The sweep pops a front entry it has seen on two consecutive ticks whatever its occupancy. It always drops that entry's owner record. Only the deletes depend on the voice channel's count (`Bot.SweepTick`).
- The scan keeps the last voice child and the last text child of each category. A party category with only a text child is cached under voice id 0 (`GuildScan.TextOnlyPartyKeyedZero`).
- A rescan happens on every category-cache miss, whether or not the ignore cache holds the channel (`Bot.Retire`).
- A user who joins an ignored channel is not tracked at all (`Bot.Join`).
- `guild_role_create` and `guild_role_delete` update the move set only. The create-channel set changes only on `guild_role_update`, `guild_create` and `ready`.
- `ready` counts each listed voice state on top of the existing tracker. A user who is already tracked makes the counts inexact (`Occupancy.ArriveTrackedUserOvercounts`): at their own channel they are counted twice, and at another channel the old channel's count still includes them. Counts stay exact only for users who are new and listed once (`Discoordinator.SeedKeepsConsistency`).
- A voice-state event names the user's channel even when it has not changed, as with a mute toggle. The handler still runs the departure first, so the sole occupant of a cached party empties it, and its channels are deleted (`Bot.Leave`), before the user is counted again.
- The owner cache is an unbounded bidirectional map, not an LRU cache.

## Model

| member | source | states |
|---|---|---|
| Lru.Cache.Peek | src/main.rs:125 | the value under a key, if any, without touching recency |
| Lru.Cache.Get | src/main.rs:337 | the value under a key, and the cache with that key made most recent. A miss leaves the cache unchanged. The cache invariant is kept |
| Lru.Cache.Put | src/main.rs:93 | the key is stored with its value and becomes most recent. A new key in a full cache evicts exactly the least recent key; otherwise nothing else changes |
| Lru.Cache.Pop | src/main.rs:306 | returns what the key held and removes it. A miss leaves the cache unchanged |
| Lru.Empty | src/main.rs:536-539 | an empty, valid cache of the given capacity |
| Lru.PutFullEvictsOnlyLeastRecent | src/main.rs:536 | in a full cache, a new key replaces the least recent key. Every other entry keeps its value, and the size stays the same |
| Lru.PutKeepsRecent | src/main.rs:93 | keys that end the recency order, fewer than the capacity and other than the put key, still end it after the put, followed by the key, and keep their values |
| Lru.GetOnlyReorders | src/main.rs:357 | a hit changes only the recency order, which is a permutation of the old one ending in the key |
| OwnerMap.BiMap.GetByLeft | src/main.rs:346 | the owner of a voice channel, if any |
| OwnerMap.BiMap.ContainsRight | src/main.rs:131 | true exactly when some channel is owned by the given (user, guild) pair |
| OwnerMap.BiMap.Insert | src/main.rs:222 | adds the pair and drops any pair sharing its channel or its owner. The two maps stay inverse |
| OwnerMap.BiMap.RemoveByLeft | src/main.rs:312 | drops exactly the pair of the channel. The two maps stay inverse, and the old owner owns nothing afterwards |
| OwnerMap.Empty | src/main.rs:538 | the empty map is inverse |
| OwnerMap.OwnersUnique | src/main.rs:43 | a (user, guild) pair owns at most one channel |
| Occupancy.Depart | src/main.rs:292-297 | the user's mapping is dropped. Their channel's count is decremented, or removed when it was 1, and no other count changes. A channel without a count is left alone. The channel is reported as emptied exactly when its count was 1. Counts stay positive |
| Occupancy.Arrive | src/main.rs:342-343 | the user is mapped to the channel, whose count goes up by one (starting from 0); no other count changes |
| Occupancy.DepartPreservesConsistency | src/main.rs:293-297 | a departure keeps the counts equal to the numbers of mapped users. It reports an emptied channel exactly when the user was its only occupant |
| Occupancy.ArrivePreservesConsistency | src/main.rs:342-343 | the arrival of an untracked user keeps the counts exact |
| Occupancy.ArriveTrackedUserOvercounts | src/main.rs:436-439 | re-arriving a tracked user at any channel makes exact counts inexact: their own channel is counted twice, or another channel leaves the old count stale |
| GuildScan.Scan | src/main.rs:69-95 | the scan's two loops put exactly the declarative pairings, in order. The voice ids of non-party records are left over |
| GuildScan.RecordCategories | src/main.rs:71-90 | the first loop: the party category ids in listing order, plus one record (last voice child, last text child) per referenced category |
| GuildScan.TakeParties | src/main.rs:91-95 | the second loop removes each party's record and yields its pairing. Only non-party records remain |
| GuildScan.ScanPutsExactlyParties | src/main.rs:91-95 | an entry is put exactly when its category is a "+# " category that has a child. The entry maps that category's last voice child to (category, last text child) |
| GuildScan.SlotsHoldChildren | src/main.rs:78-86 | the voice slot holds a voice child of the category, or is 0 when there is none. The text slot holds a text child |
| GuildScan.TextOnlyPartyKeyedZero | src/main.rs:80 | a party category whose children are all text channels is put under voice id 0 |
| GuildScan.ReferencedIsChildren | src/main.rs:79-80 | a category gets a record exactly when some text or voice channel names it as parent |
| GuildScan.PartyIdsAreParties | src/main.rs:73-76 | the category list holds exactly the ids of the "+# " categories |
| Roles.UpdateRole | src/main.rs:102-113 | a role is in the move set iff it has move-members or administrator. It is in the create set iff it has manage-channels or administrator. Other ids keep their membership |
| Roles.UpdateRolesExact | src/main.rs:386-387 | after a guild's roles are applied, each of them has exactly the capabilities its permissions grant; other ids are untouched |
| Roles.WhitelistLastWins | src/main.rs:388 | after `ready`'s role loop, the guild's whitelist role is the last "+#" role seen; with none, the map is unchanged |
| Roles.MayUseCommand | src/main.rs:140-149 | a guild without a whitelist role lets everyone through. The guild owner always passes. In a guild with a whitelist role, an author who is not the owner is refused exactly when they hold neither the whitelist role nor any create-channel role |
| RateLimit.Elapsed | src/main.rs:125-127 | the time since the record, or 301 s for a user without one |
| RateLimit.Decide | src/main.rs:128-138 | under 20 s: silent. Otherwise an owner is refused. Under 300 s: too soon, with `300 - whole seconds` (1 to 280) left. Otherwise allowed. Each case holds iff its condition does |
| RateLimit.Attempt | src/main.rs:124-139 | the decision is made from a peek. The instant is recorded exactly on the owner refusal and on success; otherwise the cache is unchanged |
| RateLimit.BurstKeepsRecord | src/main.rs:128-130 | retries within 20 s of the record leave the cache, recency included, exactly as it was |
| RateLimit.WaitIsAccurate | src/main.rs:135-136 | retrying after the announced number of seconds is allowed; one second earlier is still too soon |
| RateLimit.OwnerRetryRefreshes | src/main.rs:131-133 | an owner retrying after 20 s is refused, and their record moves to the retry's instant |
| PartyName.Truncate | src/main.rs:157 | a prefix of the input, of length min(length, 20) |
| PartyName.SelectName | src/main.rs:156-172 | the `name` keyword cut to 20 characters. Otherwise the first argument cut likewise, unless it parses as a user id. Otherwise the message id |
| PartyName.NameIsShortOrMessageId | src/main.rs:156-172 | a chosen name is at most 20 characters long, or is the message id |
| Command.Lex | src/command.rs:6-20 | an error token can only come from a quote in the text |
| Command.LexEmptyIffBlank | src/command.rs:6-20 | white space yields no token, so the token stream is empty exactly when the text is blank |
| Command.ParseFrom | src/command.rs:35-55 | any error token makes the parse fail. A successful parse keeps every keyword already collected |
| Command.Classify | src/command.rs:12-20 | a bare word is a long flag iff it is "--" and letters, and short flags iff it is "-" and letters; otherwise it is the word itself |
| Command.WordLength | src/command.rs:16 | the longest prefix without white space or quotes |
| Command.QuoteEnd | src/command.rs:15 | the index of the first quote, or the length when there is none |
| Command.Parse | src/command.rs:30-56 | the parser's loop gives the fold of the token stream over empty arguments |
| Command.ParseOkIffWellFormed | src/command.rs:43-50 | parsing succeeds iff no token is an error and every long flag is directly followed by an argument |
| Command.CountFlagsCounts | src/command.rs:37-41 | counting a flag group adds each letter's number of occurrences |
| Command.ParseCountsFlags | src/command.rs:37-41 | each flag's count is the number of times its letter appears across all flag groups |
| Command.ParseCollectsPositionals | src/command.rs:42 | the positional arguments are the argument tokens not taken by a long flag, in order |
| Command.ParseKeepsLastKeyword | src/command.rs:43-45 | a keyword given several times keeps its last value |
| Command.UnbalancedQuoteLexesError | src/command.rs:9-15 | text with an odd number of quotes lexes to an error token |
| Command.UnbalancedQuoteFails | src/command.rs:50 | text with an odd number of quotes fails to parse |
| Command.QuotedArgument | src/command.rs:15 | a quoted text without quotes comes back as the single positional argument |
| Command.BlankParsesEmpty | src/command.rs:8 | all-white-space text parses to no arguments |
| Cleanup.CleanupQueue.constructor | src/main.rs:533 | an empty ring of 32 slots |
| Cleanup.CleanupQueue.IsFull | src/main.rs:247 | full iff 32 entries are queued |
| Cleanup.CleanupQueue.Front | src/main.rs:248 | the oldest entry, or none iff the ring is empty |
| Cleanup.CleanupQueue.PushBack | src/main.rs:267 | appends the entry. On a full ring the oldest entry is overwritten, so the length stays 32 |
| Cleanup.CleanupQueue.PopFront | src/main.rs:568 | removes and returns the oldest entry |
| Cleanup.SweepStep | src/main.rs:563-585 | an empty ring: no change. A front entry whose category equals the marker is popped. Otherwise the front's category becomes the marker |
| Cleanup.SweepRetiresOnePerTwoTicks | src/main.rs:557-586 | with distinct categories and an unseen front, 2k ticks retire exactly the first k entries (or all), and the new front is unseen |
| Cleanup.SweepEmpty | src/main.rs:563-564 | ticks on an empty ring change nothing |
| Cleanup.FirstSightingKeepsEntry | src/main.rs:582-585 | a front entry is never popped on the tick it is first seen |
| Cleanup.EvictionDeletes | src/main.rs:251-257 | when the count under the entry's category id is zero: the voice, text and voice again; otherwise nothing |
| Cleanup.EvictionIgnoresOccupancy | src/main.rs:251-257 | when the category has no count, which always holds: the voice channel is deleted at least twice and the category never, whoever is in the voice channel |
| Discoordinator.PutAllEntriesFromScan | src/main.rs:91-95 | after the puts, every entry either kept its cached value or is the pairing the scan produced for that voice id |
| Discoordinator.Rescanned | src/main.rs:62-95 | the category cache after a rescan (unchanged when the listing failed) is valid, with its capacity. What it holds is stated by `PutAllEntriesFromScan` and `PutAllKeepsPairings` |
| Discoordinator.PutAllKeepsPairings | src/main.rs:91-95 | when the pairings have distinct voice ids and fit in the cache, none is evicted by the later puts: they end the recency order and each voice id maps to its own entry |
| Discoordinator.RescanFindsListedParty | src/main.rs:299-306 | an emptied voice channel that is missing from the category cache and that the listing pairs with a party is found after the rescan, with the listing's category and text channel, and popping it (as `Retire` does) yields that entry, so `Retire` deletes those channels |
| Discoordinator.ArriveAll | src/main.rs:436-439 | the tracked users are those before plus those of the voice states; counts stay positive |
| Discoordinator.ArriveAllKeepsConsistency | src/main.rs:436-439 | seeding with distinct, untracked users keeps the counts exact |
| Discoordinator.SeedMembers | src/main.rs:384-440 | after `ready`, the tracked users are the old ones plus every online guild's voice-state users |
| Discoordinator.SeedKeepsConsistency | src/main.rs:384-440 | with every voice user listed once and untracked, the rebuilt tracker is exact |
| Discoordinator.SeedGuild | src/main.rs:384-440 | one guild of the payload keeps both caches valid with their capacities, and keeps counts positive |
| Discoordinator.Bot.constructor | src/main.rs:530-544 | every cache is empty, with capacities 32, 128 and 128 |
| Discoordinator.Bot.UpdateGuildCache | src/main.rs:56-96 | the category cache becomes the rescan of the listing; a failed listing changes nothing |
| Discoordinator.Bot.PutPairings | src/main.rs:91-95 | the pairings are put in order |
| Discoordinator.Bot.Leave | src/main.rs:292-298 | the tracker departs the user, and exact counts stay exact. A channel the departure empties is retired as `Retire` states; otherwise only the tracker changes |
| Discoordinator.Bot.Retire | src/main.rs:299-324 | an emptied channel is looked up, with a rescan of the guild on a miss. A hit pops it, deletes its voice, text and category channels and drops its owner; a miss puts it in the ignore cache |
| Discoordinator.Bot.Join | src/main.rs:335-370 | the ignore lookup promotes the channel. An ignored channel leaves the user untracked. Otherwise the user arrives, and unless they own the channel its category entry is promoted |
| Discoordinator.Bot.VoiceStateUpdate | src/main.rs:286-371 | no guild: nothing changes. Otherwise the user's old mapping is dropped, and exact counts stay exact. An untracked user joining a channel that is not ignored arrives there |
| Discoordinator.Bot.PushCleanup | src/main.rs:245-267 | appends to the ring. Evicting a full ring's oldest entry deletes as `EvictionDeletes` says and drops its owner. The counts do not change |
| Discoordinator.Bot.CreateParty | src/main.rs:194-267 | a failed category changes nothing. A failed voice channel deletes the category. Otherwise the author owns the voice channel and the party is cached, and if the author was not moved it is queued |
| Discoordinator.Checks | src/main.rs:125-152 | the rate limiter, the whitelist role and the arguments are checked in turn. Each refusal holds exactly when its check is the first to fail, and none of them creates a channel. None means all passed |
| Discoordinator.Bot.Gate | src/main.rs:117-154 | anything that is not a party command from a user in a guild is ignored. Otherwise the whitelist refusal, the parse refusal and passing each hold exactly when the rate limiter allows and the earlier checks pass. No reply creates a channel |
| Discoordinator.Bot.Screen | src/main.rs:117-155 | the reply is `Checks` on the state before the call, and anything that is not a party command from a user in a guild is ignored. Only a party command touches the rate-limit record, as the limiter's step says. When all checks pass, the parsed arguments are returned |
| Discoordinator.Bot.Message | src/main.rs:117-284 | a failed check is the reply and changes nothing but the rate-limit record. Otherwise a party is attempted, as `Established` describes, under the name `SelectName` chooses. Counts are never touched and exact counts stay exact |
| Discoordinator.Bot.SweepTick | src/main.rs:562-586 | the ring and marker advance as `SweepStep`. A popped entry always loses its owner. Its channels are deleted only when its voice channel has no count |
| Discoordinator.Bot.UpdateRole | src/main.rs:98-100 | the capability sets become `UpdateRole` of the old ones |
| Discoordinator.Bot.GuildRoleCreate | src/main.rs:466-473 | a role that may move joins the move set. A "+#" role becomes the guild's whitelist role. The create set is untouched |
| Discoordinator.Bot.GuildRoleDelete | src/main.rs:475-481 | the role leaves the move set, and stops being the whitelist role if it was |
| Discoordinator.Bot.GuildRoleUpdate | src/main.rs:483-491 | the capabilities follow the role. A "+#" role becomes the whitelist role, and a whitelist role that lost the prefix is dropped |
| Discoordinator.Bot.GuildCreate | src/main.rs:493-500 | every role is applied in turn, and the owner is recorded |
| Discoordinator.Bot.ApplyGuildRoles | src/main.rs:385-394 | the capabilities and whitelist after `ready`'s role loop for one guild |
| Discoordinator.Bot.ReadyRoles | src/main.rs:385-397 | the roles applied and the guild owner recorded |
| Discoordinator.Bot.ScanChannels | src/main.rs:401-434 | the scan's pairings are cached and its leftovers ignored, in order |
| Discoordinator.Bot.IgnoreVoices | src/main.rs:431-434 | the leftover voice ids are put into the ignore cache in order |
| Discoordinator.Bot.CountVoiceStates | src/main.rs:436-439 | the voice states are arrived in order |
| Discoordinator.Bot.ReadyChannels | src/main.rs:399-439 | the scan and the voice-state count of one guild |
| Discoordinator.Bot.ReadyGuild | src/main.rs:384-440 | one guild's effect is `SeedGuild`; an offline guild changes nothing |
| Discoordinator.Bot.Ready | src/main.rs:373-440 | the rebuilt state is `SeedAll` of the payload, guild by guild |

## Left out

- Calls to the chat service are inputs or ghost records; their effects on the service are not modelled. These are channel listing, creation, deletion, member moves, permission overwrites and replies.
- The initial permission overwrites (src/main.rs:173-192) and the category permission granted on joining (src/main.rs:358-368) are left out. They only issue service calls.
- Moving the listed users after a successful move (src/main.rs:269-279) is left out: it only issues service calls.
- Locks, threads and the 60-second sleep are left out. Each handler runs atomically, and the sweep thread is one `SweepTick` per call, so interleavings between handlers are not captured.
- The clock is an input. The second `Instant::now()` of the rate limiter (src/main.rs:139) is taken to be the same instant as the first.
- `main` is left out: the token, the client, the event delegation and the `USER_ID` static set by `ready`.
- `ready`'s final loop (src/main.rs:442-457) is left out. It can delete only channels with a zero count, and the model proves every count positive (`Bot.Valid`).
- Logging is left out.
- `u8` voice counts and flag counts are unbounded naturals, so their overflow is not modelled.
- The lexer assumes that `logos` takes the longest match, and that on a tie a flag pattern beats a bare word. After an unpaired quote it resumes at the next character.
- Whether an argument parses as a user id is a parameter.
- Strings are sequences of characters. The byte slice `content[6..]` equals the character slice, because "/party" is ASCII.
- Hash-map iteration order is fixed: listings in the given order, leftover records in order of first reference.
- Each listing's channel ids are distinct (a precondition), because they are the keys of a map.
- A message with no member data would panic at src/main.rs:141 (in a guild with a whitelist role) and at src/main.rs:272 (after a successful move, in any guild). The model always receives the author's roles.
- `ready` panics on a voice state without a channel (src/main.rs:437). The model's voice states always carry a channel.
- Discoordinator.Bot.VoiceStateUpdate: for a user who was tracked, the arrival is stated by `Leave` and `Join`, not in its own contract.
