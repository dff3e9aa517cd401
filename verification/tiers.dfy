/** The tier policy: `Tier` and `get_tiers` (vouch_bot.py:108-119), the first-match selection
    loops of `apply_roles` and `rep` (vouch_bot.py:125-129, 266-270), and the role set
    `apply_roles` leaves a member with (vouch_bot.py:131-146). */
module Tiers {
  import opened Basics
  import opened GuildConfig

  datatype TierName = Trusted | Verified | New {
    function Label(): string {
      match this
      case Trusted => "Trusted Trader"
      case Verified => "Verified Trader"
      case New => "New Trader"
    }
  }

  datatype Tier = Tier(name: TierName, threshold: int, roleId: Option<int>)

  /** `int(stored or default)`: a NULL or 0 column falls back to the default. */
  function ThresholdOr(stored: Option<int>, default: int): (threshold: int)
    ensures stored.Some? && stored.value != 0 ==> threshold == stored.value
    ensures stored.None? || stored.value == 0 ==> threshold == default
  {
    if stored.None? || stored.value == 0 then default else stored.value
  }

  /** `int(stored or 0) or None`: a NULL or 0 role id means no role. */
  function RoleOf(stored: Option<int>): (role: Option<int>)
    ensures role.Some? <==> stored.Some? && stored.value != 0
    ensures role.Some? ==> role == stored
  {
    if stored.None? || stored.value == 0 then None else stored
  }

  /** `get_tiers`: Trusted, Verified, New, in that order. */
  function GetTiers(cfg: Config): (tiers: seq<Tier>)
    ensures |tiers| == 3
    ensures tiers[0].name == Trusted && tiers[1].name == Verified && tiers[2].name == New
    ensures forall i :: 0 <= i < |tiers| ==> tiers[i].threshold != 0 && tiers[i].roleId != Some(0)
    ensures tiers[0].roleId == RoleOf(cfg.roleTrustedId)
    ensures tiers[1].roleId == RoleOf(cfg.roleVerifiedId)
    ensures tiers[2].roleId == RoleOf(cfg.roleNewId)
  {
    [ Tier(Trusted, ThresholdOr(cfg.threshTrusted, 15), RoleOf(cfg.roleTrustedId)),
      Tier(Verified, ThresholdOr(cfg.threshVerified, 5), RoleOf(cfg.roleVerifiedId)),
      Tier(New, ThresholdOr(cfg.threshNew, 1), RoleOf(cfg.roleNewId)) ]
  }

  /** A stored non-zero threshold is used as it is; NULL or 0 gives 15, 5 or 1. */
  lemma GetTiersThresholds(cfg: Config)
    ensures var tiers := GetTiers(cfg);
      && (cfg.threshTrusted.Some? && cfg.threshTrusted.value != 0 ==> tiers[0].threshold == cfg.threshTrusted.value)
      && (cfg.threshVerified.Some? && cfg.threshVerified.value != 0 ==> tiers[1].threshold == cfg.threshVerified.value)
      && (cfg.threshNew.Some? && cfg.threshNew.value != 0 ==> tiers[2].threshold == cfg.threshNew.value)
      && (cfg.threshTrusted in {None, Some(0)} ==> tiers[0].threshold == 15)
      && (cfg.threshVerified in {None, Some(0)} ==> tiers[1].threshold == 5)
      && (cfg.threshNew in {None, Some(0)} ==> tiers[2].threshold == 1)
  {
  }

  /** Each tier carries the role id stored in its own column, and a NULL or 0 id gives no role. */
  lemma GetTiersRoles(cfg: Config)
    ensures var tiers := GetTiers(cfg);
      && (cfg.roleTrustedId.Some? && cfg.roleTrustedId.value != 0 ==> tiers[0].roleId == cfg.roleTrustedId)
      && (cfg.roleVerifiedId.Some? && cfg.roleVerifiedId.value != 0 ==> tiers[1].roleId == cfg.roleVerifiedId)
      && (cfg.roleNewId.Some? && cfg.roleNewId.value != 0 ==> tiers[2].roleId == cfg.roleNewId)
      && (cfg.roleTrustedId in {None, Some(0)} ==> tiers[0].roleId == None)
      && (cfg.roleVerifiedId in {None, Some(0)} ==> tiers[1].roleId == None)
      && (cfg.roleNewId in {None, Some(0)} ==> tiers[2].roleId == None)
  {
  }

  // ---------------------------------------------------------------------------------------------
  // Selection.

  /** Python's truth test `t.role_id`: the id is neither None nor 0. */
  predicate HasRole(tier: Tier) {
    tier.roleId.Some? && tier.roleId.value != 0
  }

  /** The loop's test: the tier has a role and the total reaches its threshold. */
  predicate Eligible(tier: Tier, total: int) {
    HasRole(tier) && tier.threshold <= total
  }

  /** The index of the first eligible tier at or after `start`. */
  function FirstEligibleFrom(tiers: seq<Tier>, total: int, start: nat): (k: Option<nat>)
    requires start <= |tiers|
    ensures k.Some? ==> start <= k.value < |tiers| && Eligible(tiers[k.value], total)
    ensures k.Some? ==> forall j :: start <= j < k.value ==> !Eligible(tiers[j], total)
    ensures k.None? ==> forall j :: start <= j < |tiers| ==> !Eligible(tiers[j], total)
    decreases |tiers| - start
  {
    if start == |tiers| then None
    else if Eligible(tiers[start], total) then Some(start)
    else FirstEligibleFrom(tiers, total, start + 1)
  }

  /** The tier `apply_roles` and `rep` settle on, if any. */
  function Classify(tiers: seq<Tier>, total: int): (chosen: Option<Tier>)
    ensures chosen.Some? ==>
      exists k :: 0 <= k < |tiers| && tiers[k] == chosen.value && Eligible(tiers[k], total) &&
        forall j :: 0 <= j < k ==> !Eligible(tiers[j], total)
    ensures chosen.None? ==> forall j :: 0 <= j < |tiers| ==> !Eligible(tiers[j], total)
  {
    match FirstEligibleFrom(tiers, total, 0)
    case None => None
    case Some(k) => Some(tiers[k])
  }

  /** What `rep` shows for a classification. */
  function TierLabel(tier: Option<Tier>): string {
    match tier
    case None => "Unranked"
    case Some(t) => t.name.Label()
  }

  /** The selection loop of `apply_roles`: the first tier whose threshold the total reaches and
      whose role is set. */
  method ChooseTier(tiers: seq<Tier>, total: int) returns (chosen: Option<Tier>)
    ensures chosen == Classify(tiers, total)
    ensures chosen.Some? ==> chosen.value in tiers && Eligible(chosen.value, total)
  {
    chosen := None;
    for i := 0 to |tiers|
      invariant chosen.None?
      invariant forall j :: 0 <= j < i ==> !Eligible(tiers[j], total)
    {
      if total >= tiers[i].threshold && HasRole(tiers[i]) {
        chosen := Some(tiers[i]);
        break;
      }
    }
  }

  /** The selection loop of `rep`, which tests the role first and keeps only the name. */
  method Achieved(tiers: seq<Tier>, total: int) returns (achieved: string)
    ensures achieved == TierLabel(Classify(tiers, total))
  {
    achieved := "Unranked";
    for i := 0 to |tiers|
      invariant achieved == "Unranked"
      invariant forall j :: 0 <= j < i ==> !Eligible(tiers[j], total)
    {
      if HasRole(tiers[i]) && total >= tiers[i].threshold {
        achieved := tiers[i].name.Label();
        break;
      }
    }
  }

  // ---------------------------------------------------------------------------------------------
  // Classification properties.

  /** With all three roles set and thresholds in ascending order, the tier is the highest whose
      threshold the total reaches. */
  lemma ClassifyOrdered(cfg: Config, total: int)
    requires RoleOf(cfg.roleNewId).Some? && RoleOf(cfg.roleVerifiedId).Some? && RoleOf(cfg.roleTrustedId).Some?
    requires var tiers := GetTiers(cfg); tiers[2].threshold <= tiers[1].threshold <= tiers[0].threshold
    ensures var tiers := GetTiers(cfg);
      && (total < tiers[2].threshold ==> Classify(tiers, total) == None)
      && (tiers[2].threshold <= total < tiers[1].threshold ==> Classify(tiers, total) == Some(tiers[2]))
      && (tiers[1].threshold <= total < tiers[0].threshold ==> Classify(tiers, total) == Some(tiers[1]))
      && (tiers[0].threshold <= total ==> Classify(tiers, total) == Some(tiers[0]))
  {
    var tiers := GetTiers(cfg);
    var k := FirstEligibleFrom(tiers, total, 0);
    if total < tiers[2].threshold {
      assert !Eligible(tiers[0], total) && !Eligible(tiers[1], total) && !Eligible(tiers[2], total);
    } else if total < tiers[1].threshold {
      assert !Eligible(tiers[0], total) && !Eligible(tiers[1], total) && Eligible(tiers[2], total);
    } else if total < tiers[0].threshold {
      assert !Eligible(tiers[0], total) && Eligible(tiers[1], total);
    } else {
      assert Eligible(tiers[0], total);
    }
  }

  /** All roles set, thresholds at their defaults (stored 1/5/15, NULL or 0). */
  predicate DefaultPolicy(cfg: Config) {
    && RoleOf(cfg.roleNewId).Some? && RoleOf(cfg.roleVerifiedId).Some? && RoleOf(cfg.roleTrustedId).Some?
    && cfg.threshNew in {None, Some(0), Some(1)}
    && cfg.threshVerified in {None, Some(0), Some(5)}
    && cfg.threshTrusted in {None, Some(0), Some(15)}
  }

  lemma DefaultPolicyExamples(cfg: Config)
    requires DefaultPolicy(cfg)
    ensures TierLabel(Classify(GetTiers(cfg), 0)) == "Unranked"
    ensures TierLabel(Classify(GetTiers(cfg), 1)) == "New Trader"
    ensures TierLabel(Classify(GetTiers(cfg), 4)) == "New Trader"
    ensures TierLabel(Classify(GetTiers(cfg), 5)) == "Verified Trader"
    ensures TierLabel(Classify(GetTiers(cfg), 14)) == "Verified Trader"
    ensures TierLabel(Classify(GetTiers(cfg), 15)) == "Trusted Trader"
  {
    var tiers := GetTiers(cfg);
    assert tiers[2].threshold == 1 && tiers[1].threshold == 5 && tiers[0].threshold == 15;
    ClassifyOrdered(cfg, 0);
    ClassifyOrdered(cfg, 1);
    ClassifyOrdered(cfg, 4);
    ClassifyOrdered(cfg, 5);
    ClassifyOrdered(cfg, 14);
    ClassifyOrdered(cfg, 15);
  }

  /** A member without vouches is Unranked whenever no stored threshold is negative (which
      `/set_thresholds` never stores): a stored 0 falls back to a positive default. */
  lemma ZeroVouchesUnranked(cfg: Config)
    requires cfg.threshNew.None? || cfg.threshNew.value >= 0
    requires cfg.threshVerified.None? || cfg.threshVerified.value >= 0
    requires cfg.threshTrusted.None? || cfg.threshTrusted.value >= 0
    ensures Classify(GetTiers(cfg), 0) == None
  {
  }

  /** More vouches never give a lower tier: the tier chosen for a larger total comes no later in
      the list. */
  lemma {:induction false} ClassifyMonotone(tiers: seq<Tier>, total: int, more: int, start: nat)
    requires start <= |tiers| && total <= more
    requires FirstEligibleFrom(tiers, total, start).Some?
    ensures FirstEligibleFrom(tiers, more, start).Some?
    ensures FirstEligibleFrom(tiers, more, start).value <= FirstEligibleFrom(tiers, total, start).value
    decreases |tiers| - start
  {
    if !Eligible(tiers[start], more) {
      ClassifyMonotone(tiers, total, more, start + 1);
    }
  }

  /** `/set_thresholds` accepts a 0, but `get_tiers` reads a stored 0 as its default: after
      thresholds 0/0/4 with a Trusted role set, Verified is never reached, since its threshold
      becomes 5 and Trusted, checked first, already applies from 4. */
  lemma ZeroVerifiedIsSkipped(cfg: Config, total: int)
    requires cfg.threshNew == Some(0) && cfg.threshVerified == Some(0) && cfg.threshTrusted == Some(4)
    requires RoleOf(cfg.roleTrustedId).Some?
    ensures ThresholdsValid(0, 0, 4)
    ensures Classify(GetTiers(cfg), total).Some? ==> Classify(GetTiers(cfg), total).value.name != Verified
  {
  }

  // ---------------------------------------------------------------------------------------------
  // The role set after `apply_roles`. `guildRoles` holds the ids `guild.get_role` resolves.

  /** `roles_all`: the configured tier roles that exist in the guild. */
  function TierRoles(cfg: Config, guildRoles: set<int>): (roles: set<int>)
    ensures roles <= guildRoles
    ensures forall r :: r in roles ==>
      Some(r) == GetTiers(cfg)[0].roleId || Some(r) == GetTiers(cfg)[1].roleId || Some(r) == GetTiers(cfg)[2].roleId
    ensures forall i :: 0 <= i < 3 && GetTiers(cfg)[i].roleId.Some? && GetTiers(cfg)[i].roleId.value in guildRoles ==>
      GetTiers(cfg)[i].roleId.value in roles
  {
    set r | r in guildRoles && (RoleOf(cfg.roleNewId) == Some(r) || RoleOf(cfg.roleVerifiedId) == Some(r) || RoleOf(cfg.roleTrustedId) == Some(r))
  }

  /** The role `apply_roles` adds: the chosen tier's, when it resolves. */
  function GrantedRole(cfg: Config, guildRoles: set<int>, total: int): (granted: Option<int>)
    ensures granted.Some? ==>
      && granted.value in guildRoles
      && Classify(GetTiers(cfg), total).Some?
      && Classify(GetTiers(cfg), total).value.roleId == granted
    ensures granted.None? ==>
      || Classify(GetTiers(cfg), total).None?
      || Classify(GetTiers(cfg), total).value.roleId.value !in guildRoles
  {
    match Classify(GetTiers(cfg), total)
    case None => None
    case Some(t) => if HasRole(t) && t.roleId.value in guildRoles then t.roleId else None
  }

  /** `member.roles` after `apply_roles`: every held tier role removed, then the granted one added. */
  function UpdatedRoles(held: set<int>, cfg: Config, guildRoles: set<int>, total: int): (after: set<int>)
    ensures after <= held + TierRoles(cfg, guildRoles)
    ensures GrantedRole(cfg, guildRoles, total).Some? ==> GrantedRole(cfg, guildRoles, total).value in after
  {
    GrantedRoleIsTierRole(cfg, guildRoles, total);
    (held - TierRoles(cfg, guildRoles)) + (match GrantedRole(cfg, guildRoles, total) case None => {} case Some(r) => {r})
  }

  /** What `apply_roles` returns: the chosen tier's name, only when its role was added. */
  function AnnouncedTier(cfg: Config, guildRoles: set<int>, total: int): (announced: Option<string>)
    ensures announced.Some? <==> GrantedRole(cfg, guildRoles, total).Some?
    ensures announced.Some? ==> announced.value == TierLabel(Classify(GetTiers(cfg), total))
  {
    if GrantedRole(cfg, guildRoles, total).Some? then Some(Classify(GetTiers(cfg), total).value.name.Label()) else None
  }

  /** The granted role is one of the tier roles, and belongs to the chosen tier. */
  lemma GrantedRoleIsTierRole(cfg: Config, guildRoles: set<int>, total: int)
    ensures var granted := GrantedRole(cfg, guildRoles, total);
      granted.Some? ==>
        && granted.value in TierRoles(cfg, guildRoles)
        && Classify(GetTiers(cfg), total).Some?
        && Classify(GetTiers(cfg), total).value.roleId == granted
  {
    var tiers := GetTiers(cfg);
    var granted := GrantedRole(cfg, guildRoles, total);
    if granted.Some? {
      var k := FirstEligibleFrom(tiers, total, 0).value;
      assert tiers[k].roleId == granted;
      assert k == 0 || k == 1 || k == 2;
    }
  }

  /** Afterwards the member holds exactly the granted tier role among the tier roles, and every
      other role as before. */
  lemma UpdatedRolesShape(held: set<int>, cfg: Config, guildRoles: set<int>, total: int)
    ensures var after := UpdatedRoles(held, cfg, guildRoles, total);
      && (after * TierRoles(cfg, guildRoles) == match GrantedRole(cfg, guildRoles, total) case None => {} case Some(r) => {r})
      && (forall r :: r !in TierRoles(cfg, guildRoles) ==> (r in after <==> r in held))
  {
    GrantedRoleIsTierRole(cfg, guildRoles, total);
  }

  /** Applying the update a second time with the same total changes nothing. */
  lemma UpdatedRolesIdempotent(held: set<int>, cfg: Config, guildRoles: set<int>, total: int)
    ensures UpdatedRoles(UpdatedRoles(held, cfg, guildRoles, total), cfg, guildRoles, total) == UpdatedRoles(held, cfg, guildRoles, total)
  {
    GrantedRoleIsTierRole(cfg, guildRoles, total);
  }
}
