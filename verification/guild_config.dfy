/** The `guild_config` table: one row of settings per guild (vouch_bot.py:31-42, 56-68), and the
    threshold check of `/set_thresholds` (vouch_bot.py:195). A column holding SQL NULL is None. */
module GuildConfig {
  import opened Basics

  datatype Config = Config(
    vouchChannelId: Option<int>,
    roleNewId: Option<int>,
    roleVerifiedId: Option<int>,
    roleTrustedId: Option<int>,
    threshNew: Option<int>,
    threshVerified: Option<int>,
    threshTrusted: Option<int>)

  /** The row `INSERT INTO guild_config (guild_id)` creates: the three thresholds take their
      column defaults 1, 5 and 15; everything else is NULL. */
  const DEFAULT_CONFIG: Config := Config(None, None, None, None, Some(1), Some(5), Some(15))

  /** The columns `set_config_value` is called with. */
  datatype Field = VouchChannelId | RoleNewId | RoleVerifiedId | RoleTrustedId | ThreshNew | ThreshVerified | ThreshTrusted

  function Get(cfg: Config, field: Field): Option<int> {
    match field
    case VouchChannelId => cfg.vouchChannelId
    case RoleNewId => cfg.roleNewId
    case RoleVerifiedId => cfg.roleVerifiedId
    case RoleTrustedId => cfg.roleTrustedId
    case ThreshNew => cfg.threshNew
    case ThreshVerified => cfg.threshVerified
    case ThreshTrusted => cfg.threshTrusted
  }

  /** `SET {key} = value` on one row: that column holds the value, every other column is kept. */
  function WithField(cfg: Config, field: Field, value: int): (updated: Config)
    ensures Get(updated, field) == Some(value)
    ensures forall other :: other != field ==> Get(updated, other) == Get(cfg, other)
  {
    match field
    case VouchChannelId => cfg.(vouchChannelId := Some(value))
    case RoleNewId => cfg.(roleNewId := Some(value))
    case RoleVerifiedId => cfg.(roleVerifiedId := Some(value))
    case RoleTrustedId => cfg.(roleTrustedId := Some(value))
    case ThreshNew => cfg.(threshNew := Some(value))
    case ThreshVerified => cfg.(threshVerified := Some(value))
    case ThreshTrusted => cfg.(threshTrusted := Some(value))
  }

  /** The table after `get_config(guild)`: a default row is inserted when the guild has none. */
  function EnsureRow(configs: map<int, Config>, guild: int): (after: map<int, Config>)
    ensures guild in after
    ensures guild in configs ==> after == configs
    ensures guild !in configs ==> after[guild] == DEFAULT_CONFIG && after.Keys == configs.Keys + {guild}
    ensures forall g :: g in configs ==> g in after && after[g] == configs[g]
  {
    if guild in configs then configs else configs[guild := DEFAULT_CONFIG]
  }

  /** `set_config_value` exactly as written: `UPDATE ... WHERE guild_id = ?` touches no row when
      the guild has none, so the value is dropped. */
  function SetFieldAsWritten(configs: map<int, Config>, guild: int, field: Field, value: int): (after: map<int, Config>)
    ensures guild !in configs ==> after == configs
    ensures guild in configs ==> after.Keys == configs.Keys && Get(after[guild], field) == Some(value)
  {
    if guild in configs then configs[guild := WithField(configs[guild], field, value)] else configs
  }

  /** `set_config_value` as intended: the guild's row (created with its defaults when missing)
      gets the new value. */
  function SetField(configs: map<int, Config>, guild: int, field: Field, value: int): (after: map<int, Config>)
    ensures after.Keys == configs.Keys + {guild}
    ensures Get(after[guild], field) == Some(value)
  {
    var present := EnsureRow(configs, guild);
    present[guild := WithField(present[guild], field, value)]
  }

  /** The corrected update stores the value in the guild's row, keeps every other column of that
      row as `get_config` would have found it, and leaves every other guild alone. */
  lemma SetFieldStores(configs: map<int, Config>, guild: int, field: Field, value: int)
    ensures var after := SetField(configs, guild, field, value);
      && after.Keys == configs.Keys + {guild}
      && Get(after[guild], field) == Some(value)
      && (forall other :: other != field ==> Get(after[guild], other) == Get(EnsureRow(configs, guild)[guild], other))
      && (forall g :: g in configs && g != guild ==> after[g] == configs[g])
  {
  }

  /** As written and as intended agree whenever the guild already has a row. */
  lemma SetFieldAgreesOnExistingRow(configs: map<int, Config>, guild: int, field: Field, value: int)
    requires guild in configs
    ensures SetFieldAsWritten(configs, guild, field, value) == SetField(configs, guild, field, value)
  {
  }

  /** The three updates `/setup_roles` makes, with a given update function. */
  function SetupRolesAsWritten(configs: map<int, Config>, guild: int, newRole: int, verifiedRole: int, trustedRole: int): (after: map<int, Config>)
    ensures guild !in configs ==> after == configs
    ensures guild in configs ==>
      && guild in after
      && after[guild].roleNewId == Some(newRole)
      && after[guild].roleVerifiedId == Some(verifiedRole)
      && after[guild].roleTrustedId == Some(trustedRole)
  {
    var c1 := SetFieldAsWritten(configs, guild, RoleNewId, newRole);
    var c2 := SetFieldAsWritten(c1, guild, RoleVerifiedId, verifiedRole);
    SetFieldAsWritten(c2, guild, RoleTrustedId, trustedRole)
  }

  function SetupRoles(configs: map<int, Config>, guild: int, newRole: int, verifiedRole: int, trustedRole: int): (after: map<int, Config>)
    ensures guild in after
    ensures after[guild].roleNewId == Some(newRole)
    ensures after[guild].roleVerifiedId == Some(verifiedRole)
    ensures after[guild].roleTrustedId == Some(trustedRole)
  {
    var c1 := SetField(configs, guild, RoleNewId, newRole);
    var c2 := SetField(c1, guild, RoleVerifiedId, verifiedRole);
    SetField(c2, guild, RoleTrustedId, trustedRole)
  }

  /** As written, `/setup_roles` on a guild that never ran `/vouch` or `/rep` stores nothing: the
      next `get_config` sees the default row, without roles. */
  lemma SetupRolesOnFreshGuildIsLost(configs: map<int, Config>, guild: int, newRole: int, verifiedRole: int, trustedRole: int)
    requires guild !in configs
    ensures SetupRolesAsWritten(configs, guild, newRole, verifiedRole, trustedRole) == configs
    ensures EnsureRow(SetupRolesAsWritten(configs, guild, newRole, verifiedRole, trustedRole), guild)[guild] == DEFAULT_CONFIG
  {
  }

  /** With the intended update, the roles are stored even on a fresh guild, and the thresholds
      keep their defaults. */
  lemma SetupRolesStores(configs: map<int, Config>, guild: int, newRole: int, verifiedRole: int, trustedRole: int)
    ensures var after := SetupRoles(configs, guild, newRole, verifiedRole, trustedRole);
      && guild in after
      && after[guild].roleNewId == Some(newRole)
      && after[guild].roleVerifiedId == Some(verifiedRole)
      && after[guild].roleTrustedId == Some(trustedRole)
      && after[guild].threshNew == EnsureRow(configs, guild)[guild].threshNew
      && after[guild].threshVerified == EnsureRow(configs, guild)[guild].threshVerified
      && after[guild].threshTrusted == EnsureRow(configs, guild)[guild].threshTrusted
      && after[guild].vouchChannelId == EnsureRow(configs, guild)[guild].vouchChannelId
      && (forall g :: g in configs && g != guild ==> after[g] == configs[g])
  {
    SetFieldStores(configs, guild, RoleNewId, newRole);
    var c1 := SetField(configs, guild, RoleNewId, newRole);
    SetFieldStores(c1, guild, RoleVerifiedId, verifiedRole);
    var c2 := SetField(c1, guild, RoleVerifiedId, verifiedRole);
    SetFieldStores(c2, guild, RoleTrustedId, trustedRole);
  }

  // ---------------------------------------------------------------------------------------------
  // `/set_thresholds`.

  /** The check `/set_thresholds` makes before storing anything. */
  predicate ThresholdsValid(newT: int, verifiedT: int, trustedT: int): (valid: bool)
    ensures valid ==> newT >= 0 && verifiedT >= 0 && trustedT >= 0
  {
    0 <= newT <= verifiedT <= trustedT
  }

  /** The three updates `/set_thresholds` makes once the check passed. */
  function SetThresholds(configs: map<int, Config>, guild: int, newT: int, verifiedT: int, trustedT: int): (after: map<int, Config>)
    ensures guild in after
    ensures after[guild].threshNew == Some(newT)
    ensures after[guild].threshVerified == Some(verifiedT)
    ensures after[guild].threshTrusted == Some(trustedT)
  {
    var c1 := SetField(configs, guild, ThreshNew, newT);
    var c2 := SetField(c1, guild, ThreshVerified, verifiedT);
    SetField(c2, guild, ThreshTrusted, trustedT)
  }

  lemma SetThresholdsStores(configs: map<int, Config>, guild: int, newT: int, verifiedT: int, trustedT: int)
    ensures var after := SetThresholds(configs, guild, newT, verifiedT, trustedT);
      && guild in after
      && after[guild].threshNew == Some(newT)
      && after[guild].threshVerified == Some(verifiedT)
      && after[guild].threshTrusted == Some(trustedT)
      && after[guild].roleNewId == EnsureRow(configs, guild)[guild].roleNewId
      && after[guild].roleVerifiedId == EnsureRow(configs, guild)[guild].roleVerifiedId
      && after[guild].roleTrustedId == EnsureRow(configs, guild)[guild].roleTrustedId
      && after[guild].vouchChannelId == EnsureRow(configs, guild)[guild].vouchChannelId
      && (forall g :: g in configs && g != guild ==> after[g] == configs[g])
  {
    SetFieldStores(configs, guild, ThreshNew, newT);
    var c1 := SetField(configs, guild, ThreshNew, newT);
    SetFieldStores(c1, guild, ThreshVerified, verifiedT);
    var c2 := SetField(c1, guild, ThreshVerified, verifiedT);
    SetFieldStores(c2, guild, ThreshTrusted, trustedT);
  }
}
