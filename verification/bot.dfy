/** The slash-command handlers, reduced to what they decide and store (vouch_bot.py:121-146,
    176-270). The Discord member is an object whose role set `apply_roles` changes; whether the
    caller is an administrator, the guild's resolvable role ids and the clock are parameters. */
module Bot {
  import opened Basics
  import opened Ledger
  import opened GuildConfig
  import opened Tiers
  import opened Store
  import PrettyTime

  /** A guild member: its id, whether it is a bot account, and the role ids it holds. */
  class Member {
    const id: int
    const isBot: bool
    var roles: set<int>

    constructor (id: int, isBot: bool, roles: set<int>)
      ensures this.id == id && this.isBot == isBot && this.roles == roles
    {
      this.id := id;
      this.isBot := isBot;
      this.roles := roles;
    }
  }

  /** `apply_roles`: choose the tier for `total`, take every configured tier role off the member,
      then give the chosen tier's role when it resolves, and report that tier's name. */
  method ApplyRoles(db: Database, member: Member, guild: int, guildRoles: set<int>, total: int)
    returns (newTier: Option<string>)
    modifies db, member
    ensures db.configs == EnsureRow(old(db.configs), guild) && db.vouches == old(db.vouches)
    ensures member.roles == UpdatedRoles(old(member.roles), db.configs[guild], guildRoles, total)
    ensures newTier == AnnouncedTier(db.configs[guild], guildRoles, total)
  {
    var cfg := db.GetConfig(guild);
    var tiers := GetTiers(cfg);
    var chosen := ChooseTier(tiers, total);

    var rolesAll := TierRoles(cfg, guildRoles);
    var toRemove := rolesAll * member.roles;
    if toRemove != {} {
      member.roles := member.roles - toRemove;
    }

    newTier := None;
    if chosen.Some? && HasRole(chosen.value) {
      var role := chosen.value.roleId.value;
      if role in guildRoles {
        member.roles := member.roles + {role};
        newTier := Some(chosen.value.name.Label());
      }
    }
  }

  datatype VouchOutcome =
    | BotTarget
    | SelfVouch
    | OnCooldown(remaining: int, wait: string)
    | Added(total: nat, newTier: Option<string>)

  /** `/vouch` by `voucher` for `target`: refuse a bot, then a self-vouch, then a vouch still in
      cooldown at `now`; otherwise record it at `addedAt` (the handler reads the clock twice),
      recount and update the target's tier role. A refusal changes nothing. */
  method Vouch(db: Database, guild: int, target: Member, voucher: int, note: Option<string>, proof: Option<string>,
               guildRoles: set<int>, now: int, addedAt: int)
    returns (outcome: VouchOutcome)
    modifies db, target
    ensures outcome.BotTarget? <==> target.isBot
    ensures outcome.SelfVouch? <==> !target.isBot && target.id == voucher
    ensures outcome.OnCooldown? <==>
      !target.isBot && target.id != voucher && !CanVouchNow(old(db.vouches), guild, target.id, voucher, now).0
    ensures outcome.OnCooldown? ==>
      && outcome.remaining == CanVouchNow(old(db.vouches), guild, target.id, voucher, now).1
      && outcome.wait == PrettyTime.PrettyTime(outcome.remaining)
    ensures !outcome.Added? ==>
      db.vouches == old(db.vouches) && db.configs == old(db.configs) && target.roles == old(target.roles)
    ensures outcome.Added? ==>
      && db.vouches == old(db.vouches) + [VouchRow(guild, target.id, voucher, note, proof, addedAt)]
      && outcome.total == CountFor(db.vouches, guild, target.id) == CountFor(old(db.vouches), guild, target.id) + 1
      && db.configs == EnsureRow(old(db.configs), guild)
      && target.roles == UpdatedRoles(old(target.roles), db.configs[guild], guildRoles, outcome.total)
      && outcome.newTier == AnnouncedTier(db.configs[guild], guildRoles, outcome.total)
  {
    if target.isBot {
      return BotTarget;
    }
    if target.id == voucher {
      return SelfVouch;
    }
    var decision := CanVouchNow(db.vouches, guild, target.id, voucher, now);
    if !decision.0 {
      return OnCooldown(decision.1, PrettyTime.PrettyTime(decision.1));
    }
    db.AddVouch(guild, target.id, voucher, note, proof, addedAt);
    var total := CountFor(db.vouches, guild, target.id);
    var newTier := ApplyRoles(db, target, guild, guildRoles, total);
    outcome := Added(total, newTier);
  }

  /** `/rep`: the member's vouch count in the guild and the name of the tier it reaches. */
  method Rep(db: Database, guild: int, user: Member) returns (total: nat, achieved: string)
    modifies db
    ensures db.vouches == old(db.vouches) && db.configs == EnsureRow(old(db.configs), guild)
    ensures total == CountFor(db.vouches, guild, user.id)
    ensures achieved == TierLabel(Classify(GetTiers(db.configs[guild]), total))
  {
    total := CountFor(db.vouches, guild, user.id);
    var cfg := db.GetConfig(guild);
    var tiers := GetTiers(cfg);
    achieved := Achieved(tiers, total);
  }

  datatype AdminOutcome = AdminOnly | BadThresholds | Saved

  /** `/set_thresholds`: administrators only; stored only when `0 <= new <= verified <= trusted`. */
  method SetThresholdsCommand(db: Database, guild: int, isAdmin: bool, newT: int, verifiedT: int, trustedT: int)
    returns (outcome: AdminOutcome)
    modifies db
    ensures outcome == if !isAdmin then AdminOnly else if !ThresholdsValid(newT, verifiedT, trustedT) then BadThresholds else Saved
    ensures outcome != Saved ==> db.configs == old(db.configs)
    ensures outcome == Saved ==> db.configs == SetThresholds(old(db.configs), guild, newT, verifiedT, trustedT)
    ensures db.vouches == old(db.vouches)
  {
    if !isAdmin {
      return AdminOnly;
    }
    if !ThresholdsValid(newT, verifiedT, trustedT) {
      return BadThresholds;
    }
    db.SetConfigValue(guild, ThreshNew, newT);
    db.SetConfigValue(guild, ThreshVerified, verifiedT);
    db.SetConfigValue(guild, ThreshTrusted, trustedT);
    outcome := Saved;
  }

  /** `/setup_roles`: administrators only; stores the three tier role ids. */
  method SetupRolesCommand(db: Database, guild: int, isAdmin: bool, newRole: int, verifiedRole: int, trustedRole: int)
    returns (outcome: AdminOutcome)
    modifies db
    ensures outcome == if isAdmin then Saved else AdminOnly
    ensures !isAdmin ==> db.configs == old(db.configs)
    ensures isAdmin ==> db.configs == SetupRoles(old(db.configs), guild, newRole, verifiedRole, trustedRole)
    ensures db.vouches == old(db.vouches)
  {
    if !isAdmin {
      return AdminOnly;
    }
    db.SetConfigValue(guild, RoleNewId, newRole);
    db.SetConfigValue(guild, RoleVerifiedId, verifiedRole);
    db.SetConfigValue(guild, RoleTrustedId, trustedRole);
    outcome := Saved;
  }

  /** `/set_vouch_channel`: administrators only; stores the log channel id. */
  method SetVouchChannelCommand(db: Database, guild: int, isAdmin: bool, channel: int)
    returns (outcome: AdminOutcome)
    modifies db
    ensures outcome == if isAdmin then Saved else AdminOnly
    ensures !isAdmin ==> db.configs == old(db.configs)
    ensures isAdmin ==> db.configs == SetField(old(db.configs), guild, VouchChannelId, channel)
    ensures db.vouches == old(db.vouches)
  {
    if !isAdmin {
      return AdminOnly;
    }
    db.SetConfigValue(guild, VouchChannelId, channel);
    outcome := Saved;
  }

  /** A client of the handlers: a first `/vouch` is recorded, and the same vouch repeated at the
      same instant is refused for a full day, leaving one new row. */
  method VouchTwice(db: Database, guild: int, target: Member, voucher: int, guildRoles: set<int>, now: int)
    returns (first: VouchOutcome, second: VouchOutcome)
    requires !target.isBot && target.id != voucher
    requires forall i :: 0 <= i < |db.vouches| ==> !ByVoucher(db.vouches[i], guild, target.id, voucher)
    modifies db, target
    ensures first.Added? && second == OnCooldown(COOLDOWN_SECONDS, PrettyTime.PrettyTime(COOLDOWN_SECONDS))
    ensures |db.vouches| == |old(db.vouches)| + 1
  {
    RefusedRightAfterAdd(db.vouches, guild, target.id, voucher, None, None, now);
    FirstVouchAllowed(db.vouches, guild, target.id, voucher, now);
    first := Vouch(db, guild, target, voucher, None, None, guildRoles, now, now);
    second := Vouch(db, guild, target, voucher, None, None, guildRoles, now, now);
  }
}
