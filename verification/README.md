# Vouch bot: ledger, cooldown and tier policy in Dafny

A model of the reputation core of a Discord "vouch" bot (`vouch_bot.py`). Members of a guild vouch
for each other. Every vouch is a row in a `vouches` table. A voucher must wait 24 hours before
vouching again for the same member in the same guild. A member's vouch count is mapped to one of
three tiers: Trusted Trader, Verified Trader or New Trader. Each tier needs a threshold count and
has a Discord role, and the bot keeps the member's tier role in step with the count. A
`guild_config` table holds the role ids, the thresholds (defaults 1/5/15) and a log channel per
guild.

Files:

- `basics.dfy`: `Option`, which stands for a SQL NULL, a missing row or an unresolved role.
- `pretty_time.dfy`: `pretty_time`. It splits seconds into hours, minutes and seconds and
  chooses one of three formats. A reader function `ReadDuration` parses the three formats back.
- `ledger.dfy`: the vouch rows, `vouch_count` (`CountFor`), the newest matching row
  (`LatestAt`) and the cooldown decision of `can_vouch_now` (`CanVouchNow`), as functions of the
  table and of `now`.
- `guild_config.dfy`: the config record and its column defaults. Also `get_config`'s lazy insert
  (`EnsureRow`), `set_config_value` as a typed field update, and the threshold check of
  `/set_thresholds`.
- `tiers.dfy`: `Tier` and `get_tiers`, including the fallback that turns a NULL or 0 into the
  default. Also the first-match selection loops of `apply_roles` (`ChooseTier`) and `rep`
  (`Achieved`), and the role set `apply_roles` leaves behind (`UpdatedRoles`).
- `store.dfy`: class `Database`. It holds both tables and is updated in place by `AddVouch`,
  `GetConfig` and `SetConfigValue`.
- `bot.dfy`: class `Member`, whose role set changes in place, and the command handlers
  `ApplyRoles`, `Vouch`, `Rep` and the three admin commands.

Parameters replace the environment:

- the clock: `now` for the cooldown check and `addedAt` for the insert, since the handler reads
  the clock twice;
- the administrator check: `isAdmin`;
- `guild.get_role`: the set `guildRoles` of role ids that resolve in the guild.

Zero vouches never reach the lowest tier while no stored threshold is negative: `get_tiers`
turns a stored 0 into its default (`Tiers.ZeroVouchesUnranked`).

## Model

| member | source | states |
|---|---|---|
| `PrettyTime.Split` | vouch_bot.py:149-151 | `h*3600 + m*60 + s == seconds` with `0 <= m < 60` and `0 <= s < 60`; `h > 0` exactly from 3600 seconds on, and with `h == 0`, `m > 0` exactly from 60 seconds on |
| `PrettyTime.Render` | vouch_bot.py:152-156 | the text is at least two characters long and ends in `m` when hours are shown, otherwise in `s`; its words, digit for digit, are fixed by `RenderWords` and its value by `RenderReadsBack` |
| `PrettyTime.RenderReadsBack` | vouch_bot.py:152-156 | each of the three formats (`{h}h {m}m`, `{m}m {s}s`, `{s}s`) reads back as `h*3600 + m*60` when hours are shown, otherwise as `m*60 + s` |
| `PrettyTime.RenderWords` | vouch_bot.py:152-156 | there is a space exactly when hours or minutes are shown; the words are then `{h}h` and `{m}m` when `h > 0`, otherwise `{m}m` and `{s}s`; with no space the one word is `{s}s`; each word is read without leading zeros, so with `ReadUnitOnlyDecimal` it is exactly `str(n)` and its unit |
| `PrettyTime.PrettyTime` | vouch_bot.py:148-156 | the text is at least two characters long and ends in `m` from an hour on, otherwise in `s`; its words, digit for digit, are fixed by `PrettyTimeWords` (examples in `PrettyTimeExamples`) |
| `PrettyTime.PrettyTimeReadsBack` | vouch_bot.py:148-156 | for `seconds >= 0`, reading the text back gives the exact seconds below an hour, and the seconds rounded down to the minute from an hour on |
| `PrettyTime.PrettyTimeWords` | vouch_bot.py:148-156 | for `seconds >= 0`: two words exactly from 60 seconds on; from 3600 on they are `{seconds // 3600}h` (a positive count) and `{(seconds % 3600) // 60}m` (below 60); below 3600 they are `{(seconds % 3600) // 60}m` (positive) and `{seconds % 60}s` (below 60); below 60 the one word is `{seconds}s`; as each word is read without leading zeros, `ReadUnitOnlyDecimal` makes it exactly `str(n)` and its unit |
| `PrettyTime.PrettyTimeExamples` | vouch_bot.py:148-156 | 3900 seconds show as `1h 5m`, 65 as `1m 5s` and 5 as `5s` |
| `PrettyTime.DecimalReadsBack` | vouch_bot.py:153-156 | the decimal digits printed for a count read back as that count |
| `PrettyTime.Decimal` | vouch_bot.py:153-156 | `str(n)` for `n >= 0`: at least one character, decimal digits only, and no leading zero unless the number is 0 |
| `PrettyTime.ReadNumberOnlyDecimal` | vouch_bot.py:153-156 | the reader accepts only what `str(n)` prints: a string read as `n` is exactly `Decimal(n)`, so a zero-padded `05` is not a 5 |
| `PrettyTime.ReadUnitOnlyDecimal` | vouch_bot.py:153-156 | a word read as `n` with a unit is exactly `str(n)` followed by that unit |
| `Ledger.CountFor` | vouch_bot.py:79-85 | the count is at most the table size, and 0 exactly when no row is for that guild and target |
| `Ledger.CountAppend` | vouch_bot.py:70-85 | appending a row raises the count of its own (guild, target) by one and leaves every other count unchanged |
| `Ledger.LatestAt` | vouch_bot.py:91-98 | None exactly when no row matches (guild, target, voucher); otherwise the largest `created_at` of a matching row |
| `Ledger.CanVouchNow` | vouch_bot.py:87-105 | allowed exactly when every matching row is older than `now - 24h`; remaining is never negative and is 0 when allowed; when refused, remaining is `max(0, last + 24h - now)` for the newest matching row |
| `Ledger.OtherRowsIgnored` | vouch_bot.py:91-98 | a row with another guild, target or voucher never changes the decision |
| `Ledger.OnlyNewestMatters` | vouch_bot.py:95-105 | two tables whose newest matching row has the same time give the same decision |
| `Ledger.RefusedRightAfterAdd` | vouch_bot.py:70-105 | right after a vouch is stored at `now`, the same vouch is refused with at least 24h left, and with exactly 24h when no matching row lies in the future |
| `Ledger.CooldownAtMostOneDay` | vouch_bot.py:102-104 | when no matching row lies in the future, the remaining time is between 0 and 24h |
| `Ledger.CooldownBoundary` | vouch_bot.py:88-105 | exactly 24h after the newest matching row the vouch is still refused, with 0 left; one second later it is allowed |
| `Ledger.FirstVouchAllowed` | vouch_bot.py:99-100 | with no matching row the answer is `(True, 0)` |
| `GuildConfig.WithField` | vouch_bot.py:65-68 | the updated column holds the value and every other column is kept |
| `GuildConfig.EnsureRow` | vouch_bot.py:56-63 | the guild then has a row; an existing row and every other guild stay as they were; a missing row is the default with thresholds 1/5/15 and NULL roles and channel |
| `GuildConfig.SetFieldAsWritten` | vouch_bot.py:65-68 | the update as written: a guild without a row leaves the table as it was; a guild with a row gets the value in that column and the set of guilds is unchanged |
| `GuildConfig.SetField` | vouch_bot.py:56-68 | the corrected update: the guild then has a row, no other guild is added, and the column holds the value |
| `GuildConfig.SetFieldStores` | vouch_bot.py:65-68 | the corrected update stores the value in the guild's row, keeps its other columns as `get_config` would find them, and leaves other guilds alone |
| `GuildConfig.SetFieldAgreesOnExistingRow` | vouch_bot.py:65-68 | when the guild already has a row, the update as written and the corrected update agree |
| `GuildConfig.SetupRolesAsWritten` | vouch_bot.py:182-184 | the three updates of `/setup_roles` as written: nothing changes for a guild without a row; otherwise the three role ids are stored |
| `GuildConfig.SetupRoles` | vouch_bot.py:182-184 | the three updates with the corrected update: the guild has a row holding the three role ids |
| `GuildConfig.SetupRolesOnFreshGuildIsLost` | vouch_bot.py:176-184 | for every table and every guild without a row, `/setup_roles` as written leaves the table as it was, and the next `get_config` sees the default row, without roles |
| `GuildConfig.SetupRolesStores` | vouch_bot.py:176-184 | with the corrected update, the three role ids are stored and the thresholds, the channel and other guilds are kept |
| `GuildConfig.ThresholdsValid` | vouch_bot.py:195 | the check `0 <= new <= verified <= trusted`; a threshold that passes it is never negative |
| `GuildConfig.SetThresholds` | vouch_bot.py:199-201 | the three updates of `/set_thresholds` with the corrected update: the guild has a row holding the three thresholds |
| `GuildConfig.SetThresholdsStores` | vouch_bot.py:198-201 | the three thresholds are stored and the roles, the channel and other guilds are kept |
| `Tiers.ThresholdOr` | vouch_bot.py:116-118 | `int(stored or default)`: a stored non-zero value is kept, NULL or 0 gives the default |
| `Tiers.RoleOf` | vouch_bot.py:116-118 | a role id is set exactly when the stored one is neither NULL nor 0, and then it is the stored one |
| `Tiers.GetTiers` | vouch_bot.py:114-119 | three tiers in the order Trusted, Verified, New; no threshold is 0 and no role id is 0; each tier takes its role from its own column (`role_trusted_id`, `role_verified_id`, `role_new_id`) |
| `Tiers.GetTiersThresholds` | vouch_bot.py:114-119 | a stored non-zero threshold is used as it is; a NULL or 0 becomes 15, 5 or 1 |
| `Tiers.GetTiersRoles` | vouch_bot.py:116-118 | a stored non-zero role id stays with its own tier; a NULL or 0 id gives that tier no role |
| `Tiers.FirstEligibleFrom` | vouch_bot.py:125-129 | the index of the first tier with a role whose threshold the total reaches, or none when no tier qualifies |
| `Tiers.Classify` | vouch_bot.py:125-129 | the chosen tier is eligible and every tier before it in the list is not; none is chosen only when no tier is eligible |
| `Tiers.ChooseTier` | vouch_bot.py:125-129 | the `for ... break` loop of `apply_roles` returns that first qualifying tier, or none |
| `Tiers.Achieved` | vouch_bot.py:266-270 | the loop of `rep` returns the same tier's name, or "Unranked" |
| `Tiers.ClassifyOrdered` | vouch_bot.py:114-129 | with all roles set and ascending thresholds, the tier is the highest whose threshold the total reaches |
| `Tiers.DefaultPolicyExamples` | vouch_bot.py:114-129 | with all roles set and default thresholds: 0 gives Unranked, 1 and 4 give New, 5 and 14 give Verified, 15 gives Trusted |
| `Tiers.ZeroVouchesUnranked` | vouch_bot.py:114-119 | with no negative stored threshold, a member with 0 vouches is Unranked, because a stored 0 falls back to a positive default |
| `Tiers.ClassifyMonotone` | vouch_bot.py:125-129 | a larger total never gives a tier that comes later in the list |
| `Tiers.ZeroVerifiedIsSkipped` | vouch_bot.py:114-119 | thresholds 0/0/4 pass the check of `/set_thresholds`, but with a Trusted role set no total ever reaches Verified |
| `Tiers.TierRoles` | vouch_bot.py:131-134 | `roles_all`: only roles that resolve in the guild, each the role of one of the three tiers, and every resolvable tier role is among them |
| `Tiers.GrantedRole` | vouch_bot.py:140-143 | a granted role resolves and is the chosen tier's role; no role is granted only when no tier is chosen or its role does not resolve |
| `Tiers.GrantedRoleIsTierRole` | vouch_bot.py:131-144 | the role added is one of the resolvable configured tier roles, and it is the chosen tier's role |
| `Tiers.UpdatedRoles` | vouch_bot.py:136-143 | the member ends up with no role outside the old roles and the tier roles, and holds the granted role |
| `Tiers.UpdatedRolesShape` | vouch_bot.py:131-146 | afterwards the member holds, among the tier roles, exactly the granted one; every other role is held as before |
| `Tiers.UpdatedRolesIdempotent` | vouch_bot.py:131-146 | a second update with the same total changes nothing |
| `Tiers.AnnouncedTier` | vouch_bot.py:144-146 | a tier name is returned exactly when its role was added, and it is the name `rep` shows |
| `Store.Database.constructor` | vouch_bot.py:29-54 | both tables start empty |
| `Store.Database.AddVouch` | vouch_bot.py:70-77 | exactly one row is appended, stamped with `now`; that (guild, target) count grows by one, every other count and the config table are unchanged |
| `Store.Database.GetConfig` | vouch_bot.py:56-63 | returns the guild's row and inserts the 1/5/15 default first when it is missing; an existing row and the vouches are untouched |
| `Store.Database.SetConfigValue` | vouch_bot.py:65-68 | the table becomes the corrected `SetField` of the old one; the vouches are untouched |
| `Bot.ApplyRoles` | vouch_bot.py:121-146 | the config row is ensured; the member's roles become the old roles minus every resolvable tier role, plus the chosen tier's role when it resolves; the returned name is `AnnouncedTier` |
| `Bot.Vouch` | vouch_bot.py:218-234 | a bot target is refused first, then a self-vouch, then a cooldown refusal with its remaining time and its `pretty_time` text; a refusal changes nothing; otherwise one row is appended, the reported total is the new count (old count + 1), and the roles are updated |
| `Bot.Rep` | vouch_bot.py:258-270 | the total is the member's count in the guild and the tier name is that of `Classify` on the guild's tiers |
| `Bot.SetThresholdsCommand` | vouch_bot.py:191-201 | a non-admin is refused first, then thresholds that fail `0 <= new <= verified <= trusted`; a refusal changes nothing; otherwise all three thresholds are stored with the corrected update |
| `Bot.SetupRolesCommand` | vouch_bot.py:176-184 | a non-admin is refused and nothing changes; otherwise the three role ids are stored with the corrected update |
| `Bot.SetVouchChannelCommand` | vouch_bot.py:208-214 | a non-admin is refused and nothing changes; otherwise the channel id is stored with the corrected update |
| `Bot.VouchTwice` | vouch_bot.py:217-233 | a first vouch is recorded; the same vouch repeated at the same instant is refused with 24h to wait, leaving one new row |

## Findings

| source | as written | input that shows it | evidently intended | confidence | as-written member | corrected member |
|---|---|---|---|---|---|---|
| vouch_bot.py:65-68 | `set_config_value` runs `UPDATE guild_config ... WHERE guild_id = ?`, which changes no row when the guild has none yet. `/setup_roles`, `/set_thresholds` and `/set_vouch_channel` never call `get_config` first. | a new guild whose administrator runs `/setup_roles` before anyone has used `/vouch` or `/rep` | the roles (thresholds, channel) are stored, as the confirmation message claims | high; not executed | `GuildConfig.SetupRolesOnFreshGuildIsLost` | `GuildConfig.SetupRolesStores` |

`Store.Database.SetConfigValue` and the admin commands use the corrected update. It first
inserts the default row as `get_config` does, then sets the field. `GuildConfig.SetFieldAsWritten`
keeps the update as the source writes it.

## Left out

- Discord plumbing is not modelled: the client, intents, command registration and syncing in
  `on_ready`, `bot.run`, and the missing-token `RuntimeError`. It is foreign-library I/O.
- Message and embed construction is not modelled. This covers the replies of every command, the
  `/rep` embed, and the vouch log embed with its channel lookup and 1024-character truncation.
  All of it is rendering. The `pretty_time` text of a cooldown refusal is kept in `OnCooldown`.
- SQLite connections, commits and the `id AUTOINCREMENT` column are not modelled. The tables are
  a sequence and a map held in memory, and a row's position in the sequence stands for its id.
- `time.time()`, `os.getenv`, `admin_only` and `guild.get_role` are not modelled. They are
  parameters: `now`/`addedAt`, `isAdmin` and `guildRoles`.
- Concurrency is not modelled: the race between `can_vouch_now` and `add_vouch`, and concurrent
  command dispatch. The model is sequential.
- `member.roles` is a set of role ids, not Discord's ordered list of role objects. Failures of
  `remove_roles`/`add_roles` are not modelled.
- `rep`'s `user or interaction.user` is resolved by the caller, who passes one `Member`.
- Integers are unbounded. SQLite's 64-bit `INTEGER` limit is not modelled: ids, counts and
  timestamps stay far below it.
- Python's `int(...)` conversions of stored values are not modelled. The stored values are
  already integers here.
- The default arguments `new=1, verified=5, trusted=15` of `/set_thresholds` are not modelled:
  `Bot.SetThresholdsCommand` takes all three values, and the caller supplies the defaults for
  the ones the administrator leaves out.
