/** The `vouches` table and the queries over it: `vouch_count` and the 24-hour cooldown of
    `can_vouch_now` (vouch_bot.py:43-53, 79-105). Rows are kept in insertion order. */
module Ledger {
  import opened Basics

  /** 24 hours: how long a voucher must wait before vouching for the same target again. */
  const COOLDOWN_SECONDS: int := 24 * 60 * 60

  /** One row of the `vouches` table; `createdAt` is the UNIX time of the insert. */
  datatype VouchRow = VouchRow(
    guild: int,
    target: int,
    voucher: int,
    note: Option<string>,
    proof: Option<string>,
    createdAt: int)

  /** The row is a vouch for `target` in `guild`. */
  predicate ForTarget(row: VouchRow, guild: int, target: int) {
    row.guild == guild && row.target == target
  }

  /** The row is a vouch by `voucher` for `target` in `guild`. */
  predicate ByVoucher(row: VouchRow, guild: int, target: int, voucher: int) {
    ForTarget(row, guild, target) && row.voucher == voucher
  }

  /** `SELECT COUNT(*) ... WHERE guild_id = ? AND target_id = ?`. */
  function CountFor(rows: seq<VouchRow>, guild: int, target: int): (n: nat)
    ensures n <= |rows|
    ensures n == 0 <==> forall i :: 0 <= i < |rows| ==> !ForTarget(rows[i], guild, target)
  {
    if rows == [] then 0
    else
      assert forall i :: 1 <= i < |rows| ==> rows[1..][i - 1] == rows[i];
      (if ForTarget(rows[0], guild, target) then 1 else 0) + CountFor(rows[1..], guild, target)
  }

  /** `SELECT created_at ... ORDER BY created_at DESC LIMIT 1`: the newest `created_at` among
      the rows by `voucher` for `target` in `guild`, or None when there is none. */
  function LatestAt(rows: seq<VouchRow>, guild: int, target: int, voucher: int): (last: Option<int>)
    ensures last.None? <==> forall i :: 0 <= i < |rows| ==> !ByVoucher(rows[i], guild, target, voucher)
    ensures last.Some? ==>
      (exists i :: 0 <= i < |rows| && ByVoucher(rows[i], guild, target, voucher) && rows[i].createdAt == last.value)
    ensures last.Some? ==>
      forall i :: 0 <= i < |rows| && ByVoucher(rows[i], guild, target, voucher) ==> rows[i].createdAt <= last.value
  {
    if rows == [] then None
    else
      assert forall i :: 1 <= i < |rows| ==> rows[1..][i - 1] == rows[i];
      var rest := LatestAt(rows[1..], guild, target, voucher);
      if !ByVoucher(rows[0], guild, target, voucher) then rest
      else if rest.Some? && rest.value > rows[0].createdAt then rest
      else Some(rows[0].createdAt)
  }

  function Max0(x: int): int {
    if x < 0 then 0 else x
  }

  /** `can_vouch_now` at time `now`: whether `voucher` may vouch for `target` in `guild`, and
      if not, how many seconds are left (never negative). */
  function CanVouchNow(rows: seq<VouchRow>, guild: int, target: int, voucher: int, now: int): (decision: (bool, int))
    ensures decision.1 >= 0
    ensures decision.0 ==> decision.1 == 0
    ensures decision.0 <==>
      forall i :: 0 <= i < |rows| && ByVoucher(rows[i], guild, target, voucher) ==> rows[i].createdAt < now - COOLDOWN_SECONDS
    ensures !decision.0 ==>
      forall i :: 0 <= i < |rows| && ByVoucher(rows[i], guild, target, voucher) ==> rows[i].createdAt + COOLDOWN_SECONDS - now <= decision.1
    ensures !decision.0 && decision.1 > 0 ==>
      exists i :: 0 <= i < |rows| && ByVoucher(rows[i], guild, target, voucher) && rows[i].createdAt + COOLDOWN_SECONDS - now == decision.1
  {
    var cutoff := now - COOLDOWN_SECONDS;
    match LatestAt(rows, guild, target, voucher)
    case None => (true, 0)
    case Some(last) =>
      if last >= cutoff then (false, Max0(last + COOLDOWN_SECONDS - now)) else (true, 0)
  }

  // ---------------------------------------------------------------------------------------------
  // Appending a row.

  lemma {:induction false} CountAppend(rows: seq<VouchRow>, row: VouchRow, guild: int, target: int)
    ensures CountFor(rows + [row], guild, target) == CountFor(rows, guild, target) + (if ForTarget(row, guild, target) then 1 else 0)
  {
    if rows != [] {
      assert (rows + [row])[1..] == rows[1..] + [row];
      CountAppend(rows[1..], row, guild, target);
    }
  }

  lemma {:induction false} LatestAtAppend(rows: seq<VouchRow>, row: VouchRow, guild: int, target: int, voucher: int)
    ensures LatestAt(rows + [row], guild, target, voucher) ==
      if !ByVoucher(row, guild, target, voucher) then LatestAt(rows, guild, target, voucher)
      else match LatestAt(rows, guild, target, voucher)
        case None => Some(row.createdAt)
        case Some(last) => Some(if last > row.createdAt then last else row.createdAt)
  {
    if rows != [] {
      assert (rows + [row])[1..] == rows[1..] + [row];
      LatestAtAppend(rows[1..], row, guild, target, voucher);
    }
  }

  /** A row by a different guild, target or voucher never changes the cooldown decision. */
  lemma OtherRowsIgnored(rows: seq<VouchRow>, row: VouchRow, guild: int, target: int, voucher: int, now: int)
    requires !ByVoucher(row, guild, target, voucher)
    ensures CanVouchNow(rows + [row], guild, target, voucher, now) == CanVouchNow(rows, guild, target, voucher, now)
  {
    LatestAtAppend(rows, row, guild, target, voucher);
  }

  /** Only the newest matching row matters: two tables whose newest matching row carries the same
      time give the same decision, whatever else they hold. */
  lemma OnlyNewestMatters(rows: seq<VouchRow>, other: seq<VouchRow>, guild: int, target: int, voucher: int, now: int)
    requires LatestAt(rows, guild, target, voucher) == LatestAt(other, guild, target, voucher)
    ensures CanVouchNow(rows, guild, target, voucher, now) == CanVouchNow(other, guild, target, voucher, now)
  {
  }

  /** A vouch just recorded at `now` blocks the same voucher for at least a full cooldown, and for
      exactly one when no earlier matching row lies in the future. */
  lemma RefusedRightAfterAdd(rows: seq<VouchRow>, guild: int, target: int, voucher: int,
                             note: Option<string>, proof: Option<string>, now: int)
    ensures var decision := CanVouchNow(rows + [VouchRow(guild, target, voucher, note, proof, now)], guild, target, voucher, now);
      !decision.0 && decision.1 >= COOLDOWN_SECONDS
    ensures (forall i :: 0 <= i < |rows| && ByVoucher(rows[i], guild, target, voucher) ==> rows[i].createdAt <= now) ==>
      CanVouchNow(rows + [VouchRow(guild, target, voucher, note, proof, now)], guild, target, voucher, now) == (false, COOLDOWN_SECONDS)
  {
    LatestAtAppend(rows, VouchRow(guild, target, voucher, note, proof, now), guild, target, voucher);
  }

  // ---------------------------------------------------------------------------------------------
  // Cooldown bounds.

  /** When no matching row lies in the future, the wait is at most 24 hours. */
  lemma CooldownAtMostOneDay(rows: seq<VouchRow>, guild: int, target: int, voucher: int, now: int)
    requires forall i :: 0 <= i < |rows| && ByVoucher(rows[i], guild, target, voucher) ==> rows[i].createdAt <= now
    ensures 0 <= CanVouchNow(rows, guild, target, voucher, now).1 <= COOLDOWN_SECONDS
  {
  }

  /** Exactly 24 hours after the newest vouch it is still refused (`last >= cutoff`), with 0
      seconds left; one second later it is allowed. */
  lemma CooldownBoundary(rows: seq<VouchRow>, guild: int, target: int, voucher: int, last: int)
    requires LatestAt(rows, guild, target, voucher) == Some(last)
    ensures CanVouchNow(rows, guild, target, voucher, last + COOLDOWN_SECONDS) == (false, 0)
    ensures CanVouchNow(rows, guild, target, voucher, last + COOLDOWN_SECONDS + 1) == (true, 0)
  {
  }

  /** A voucher with no earlier vouch for the target may always vouch. */
  lemma FirstVouchAllowed(rows: seq<VouchRow>, guild: int, target: int, voucher: int, now: int)
    requires forall i :: 0 <= i < |rows| ==> !ByVoucher(rows[i], guild, target, voucher)
    ensures CanVouchNow(rows, guild, target, voucher, now) == (true, 0)
  {
  }
}
