/** The SQLite database as one object holding the two tables, updated in place
    (vouch_bot.py:56-77). */
module Store {
  import opened Basics
  import opened Ledger
  import opened GuildConfig

  class Database {
    /** The `vouches` table, in insertion order. */
    var vouches: seq<VouchRow>
    /** The `guild_config` table, keyed by guild id. */
    var configs: map<int, Config>

    /** `init_db` on a new file: both tables empty. */
    constructor ()
      ensures vouches == [] && configs == map[]
    {
      vouches := [];
      configs := map[];
    }

    /** `add_vouch`: one row appended, stamped with `now`; the config table is untouched. */
    method AddVouch(guild: int, target: int, voucher: int, note: Option<string>, proof: Option<string>, now: int)
      modifies this
      ensures vouches == old(vouches) + [VouchRow(guild, target, voucher, note, proof, now)]
      ensures configs == old(configs)
      ensures CountFor(vouches, guild, target) == CountFor(old(vouches), guild, target) + 1
      ensures forall g, t :: g != guild || t != target ==> CountFor(vouches, g, t) == CountFor(old(vouches), g, t)
    {
      var row := VouchRow(guild, target, voucher, note, proof, now);
      forall g, t ensures CountFor(vouches + [row], g, t) == CountFor(vouches, g, t) + (if ForTarget(row, g, t) then 1 else 0) {
        CountAppend(vouches, row, g, t);
      }
      vouches := vouches + [row];
    }

    /** `get_config`: the guild's row, inserted with its defaults first when missing. */
    method GetConfig(guild: int) returns (cfg: Config)
      modifies this
      ensures configs == EnsureRow(old(configs), guild)
      ensures vouches == old(vouches)
      ensures cfg == configs[guild]
      ensures guild in old(configs) ==> cfg == old(configs)[guild] && configs == old(configs)
      ensures guild !in old(configs) ==> cfg == DEFAULT_CONFIG
    {
      if guild !in configs {
        configs := configs[guild := DEFAULT_CONFIG];
      }
      cfg := configs[guild];
    }

    /** `set_config_value`, as a typed field update that also creates a missing row (see
        `SetFieldAsWritten` for the update as the source writes it). */
    method SetConfigValue(guild: int, field: Field, value: int)
      modifies this
      ensures configs == SetField(old(configs), guild, field, value)
      ensures vouches == old(vouches)
      ensures guild in configs && Get(configs[guild], field) == Some(value)
    {
      var cfg := GetConfig(guild);
      configs := configs[guild := WithField(cfg, field, value)];
    }
  }
}
