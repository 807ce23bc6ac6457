/**
 * The role capability cache: which roles may move members, which may
 * create channels, and the per-guild whitelist role ("+#"-prefixed name).
 *
 * A role's permission bits are reduced to the three the bot reads.
 */
module Roles {
  import opened Types

  const WhitelistPrefix: string := "+#"

  datatype Permissions = Permissions(administrator: bool, manageChannels: bool, moveMembers: bool)

  datatype Role = Role(id: RoleId, name: string, permissions: Permissions)

  /** A role grants "may move" with move-members or administrator. */
  predicate MayMove(p: Permissions) {
    p.moveMembers || p.administrator
  }

  /** A role grants "may create channels" with manage-channels or administrator. */
  predicate MayCreate(p: Permissions) {
    p.manageChannels || p.administrator
  }

  predicate IsWhitelistRole(role: Role) {
    StartsWith(role.name, WhitelistPrefix)
  }

  /** The pair (move set, create-channel set). */
  datatype Capabilities = Capabilities(move: set<RoleId>, create: set<RoleId>)

  /**
   * `update_role_raw`: the two sets change only at `role.id`, which is in
   * the move set iff the role may move and in the create set iff it may
   * create channels.
   */
  function UpdateRole(caps: Capabilities, role: Role): (r: Capabilities)
    ensures role.id in r.move <==> MayMove(role.permissions)
    ensures role.id in r.create <==> MayCreate(role.permissions)
    ensures forall id :: id != role.id ==> (id in r.move <==> id in caps.move) && (id in r.create <==> id in caps.create)
  {
    Capabilities(
      if MayMove(role.permissions) then caps.move + {role.id} else caps.move - {role.id},
      if MayCreate(role.permissions) then caps.create + {role.id} else caps.create - {role.id})
  }

  /** `update_role_raw` applied to each role in turn (the loops of `guild_create` and `ready`). */
  function UpdateRoles(caps: Capabilities, roles: seq<Role>): Capabilities {
    if roles == [] then caps else UpdateRole(UpdateRoles(caps, roles[..|roles| - 1]), roles[|roles| - 1])
  }

  /** A guild's roles are the values of a map keyed by role id, so their ids are distinct. */
  predicate DistinctRoleIds(roles: seq<Role>) {
    forall i, j :: 0 <= i < j < |roles| ==> roles[i].id != roles[j].id
  }

  /**
   * After a guild's roles are applied, a role of the guild has exactly the
   * capabilities its permissions grant, and every other role id keeps what
   * it had.
   */
  lemma {:induction false} UpdateRolesExact(caps: Capabilities, roles: seq<Role>, id: RoleId)
    requires DistinctRoleIds(roles)
    ensures forall i :: 0 <= i < |roles| && roles[i].id == id ==>
              (id in UpdateRoles(caps, roles).move <==> MayMove(roles[i].permissions))
              && (id in UpdateRoles(caps, roles).create <==> MayCreate(roles[i].permissions))
    ensures (forall i :: 0 <= i < |roles| ==> roles[i].id != id) ==>
              (id in UpdateRoles(caps, roles).move <==> id in caps.move)
              && (id in UpdateRoles(caps, roles).create <==> id in caps.create)
  {
    if roles != [] {
      var init := roles[..|roles| - 1];
      assert DistinctRoleIds(init);
      UpdateRolesExact(caps, init, id);
      forall i | 0 <= i < |init| ensures init[i] == roles[i] && roles[i].id != roles[|roles| - 1].id {
      }
    }
  }

  /**
   * The whitelist updates of `ready`'s role loop: each "+#" role of the
   * guild is inserted in turn, so the last one seen wins.
   */
  function WhitelistRoles(whitelist: map<GuildId, RoleId>, guild: GuildId, roles: seq<Role>): map<GuildId, RoleId> {
    if roles == [] then whitelist
    else
      var before := WhitelistRoles(whitelist, guild, roles[..|roles| - 1]);
      if IsWhitelistRole(roles[|roles| - 1]) then before[guild := roles[|roles| - 1].id] else before
  }

  /** The id of the last "+#" role in iteration order, if any. */
  function LastWhitelistRole(roles: seq<Role>): (r: Option<RoleId>)
    ensures r.None? <==> forall i :: 0 <= i < |roles| ==> !IsWhitelistRole(roles[i])
    ensures r.Some? ==> exists i :: 0 <= i < |roles| && IsWhitelistRole(roles[i]) && roles[i].id == r.value
                                    && forall j :: i < j < |roles| ==> !IsWhitelistRole(roles[j])
  {
    if roles == [] then None
    else if IsWhitelistRole(roles[|roles| - 1]) then Some(roles[|roles| - 1].id)
    else
      var r := LastWhitelistRole(roles[..|roles| - 1]);
      if r.None? then
        assert forall i :: 0 <= i < |roles| - 1 ==> roles[..|roles| - 1][i] == roles[i];
        None
      else
        LastWhitelistSurvives(roles[..|roles| - 1], roles[|roles| - 1], r.value);
        assert roles[..|roles| - 1] + [roles[|roles| - 1]] == roles;
        r
  }

  /** A last "+#" role of `init` stays the last one when a role that is not "+#" follows. */
  lemma LastWhitelistSurvives(init: seq<Role>, last: Role, id: RoleId)
    requires !IsWhitelistRole(last)
    requires exists i :: 0 <= i < |init| && IsWhitelistRole(init[i]) && init[i].id == id
                         && forall j :: i < j < |init| ==> !IsWhitelistRole(init[j])
    ensures var roles := init + [last];
            exists i :: 0 <= i < |roles| && IsWhitelistRole(roles[i]) && roles[i].id == id
                        && forall j :: i < j < |roles| ==> !IsWhitelistRole(roles[j])
  {
    var roles := init + [last];
    var i :| 0 <= i < |init| && IsWhitelistRole(init[i]) && init[i].id == id
             && forall j :: i < j < |init| ==> !IsWhitelistRole(init[j]);
    assert roles[i] == init[i];
    forall j | i < j < |roles|
      ensures !IsWhitelistRole(roles[j])
    {
      if j < |init| {
        assert roles[j] == init[j];
      }
    }
  }

  /**
   * Last write wins: after the loop the guild's whitelist entry is the last
   * "+#" role in iteration order; with none, the map is unchanged.
   */
  lemma {:induction false} WhitelistLastWins(whitelist: map<GuildId, RoleId>, guild: GuildId, roles: seq<Role>)
    ensures WhitelistRoles(whitelist, guild, roles) ==
              match LastWhitelistRole(roles)
              case None => whitelist
              case Some(id) => whitelist[guild := id]
  {
    if roles != [] && !IsWhitelistRole(roles[|roles| - 1]) {
      WhitelistLastWins(whitelist, guild, roles[..|roles| - 1]);
    }
    if roles != [] && IsWhitelistRole(roles[|roles| - 1]) {
      WhitelistLastWins(whitelist, guild, roles[..|roles| - 1]);
      var before := WhitelistRoles(whitelist, guild, roles[..|roles| - 1]);
      assert before[guild := roles[|roles| - 1].id] == whitelist[guild := roles[|roles| - 1].id];
    }
  }

  /**
   * The permission gate of the party command: when the guild has a
   * whitelist role, the author must hold it or a create-channel role, or
   * own the guild; a guild without a whitelist role lets everyone through.
   */
  function MayUseCommand(whitelist: map<GuildId, RoleId>, create: set<RoleId>, guildOwners: map<GuildId, UserId>,
                         guild: GuildId, author: UserId, memberRoles: seq<RoleId>): (ok: bool)
    ensures guild !in whitelist ==> ok
    ensures guild in guildOwners && guildOwners[guild] == author ==> ok
    ensures guild in whitelist && !ok ==>
              forall i :: 0 <= i < |memberRoles| ==> memberRoles[i] != whitelist[guild] && memberRoles[i] !in create
    ensures guild in whitelist && !(guild in guildOwners && guildOwners[guild] == author)
            && (forall i :: 0 <= i < |memberRoles| ==> memberRoles[i] != whitelist[guild] && memberRoles[i] !in create)
            ==> !ok
  {
    guild !in whitelist
    || (exists i :: 0 <= i < |memberRoles| && (memberRoles[i] == whitelist[guild] || memberRoles[i] in create))
    || (guild in guildOwners && guildOwners[guild] == author)
  }
}
