/**
 * Identifiers and small value types shared by the group-lifecycle model.
 *
 * The chat platform's ids (channel, user, guild, role) are opaque, totally
 * ordered 64-bit numbers; the model uses unbounded naturals for them.
 * `ChannelId(0)` in the source is the channel id 0 here.
 */
module Types {

  type ChannelId = nat
  type UserId = nat
  type GuildId = nat
  type RoleId = nat

  datatype Option<+T> = None | Some(value: T)

  /** What the category cache stores for a voice channel: its category and its optional text channel. */
  datatype CategoryEntry = CategoryEntry(category: ChannelId, text: Option<ChannelId>)

  /** A pending-deletion candidate in the cleanup queue: (category, voice channel, optional text channel). */
  datatype CleanupEntry = CleanupEntry(category: ChannelId, voice: ChannelId, text: Option<ChannelId>)

  /** The owner-cache value: the creator of a party and the guild it was created in. */
  datatype Owner = Owner(user: UserId, guild: GuildId)

  /** The ids of an optional channel, as a sequence of zero or one ids. */
  function OptionIds(c: Option<ChannelId>): (ids: seq<ChannelId>)
    ensures c.None? <==> ids == []
    ensures c.Some? ==> ids == [c.value]
  {
    match c
    case None => []
    case Some(id) => [id]
  }

  /** `s` starts with `prefix` (Rust's `str::starts_with`). */
  predicate StartsWith(s: string, prefix: string) {
    |prefix| <= |s| && s[..|prefix|] == prefix
  }
}
