/** Deposits of the lock contract and what they release over time
    (contracts/lock/src/query.rs). */
module LockQuery {
  import opened Cosmos
  import opened FixedPoint
  import opened LockState

  /** How a deposit is released: linearly from `start` at a per-second
      rate, or all at once after `unlock`. Times are in seconds. */
  datatype DepositLock =
    | Linear(start: nat, perSecondVesting: Dec)
    | TimeUnlock(unlock: nat)

  datatype DepositInfo = DepositInfo(id: nat, lock: DepositLock, recipient: Addr, asset: Asset)

  /** The amount an optional release carries; nothing counts as zero. */
  function Unlockable(release: Option<Asset>): nat
  {
    if release.Some? then release.value.amount else 0
  }

  /** `_available_unlock`: for a linear lock, nothing up to `start`, then
      the time since `start` times the per-second rate, capped at the
      deposit (the uncapped product must fit in a `u128`); for a cliff, the
      whole deposit strictly after `unlock` and nothing before. */
  function AvailableUnlock(d: DepositInfo, now: nat): (r: Result<Option<Asset>>)
    ensures r.Ok? && r.value.Some? ==> r.value.value.info == d.asset.info
                                       && r.value.value.amount <= d.asset.amount
    ensures d.lock.Linear? ==> (r == Ok(None) <==> now <= d.lock.start)
    ensures d.lock.Linear? && now > d.lock.start ==>
              var vested := MulFloor(now - d.lock.start, d.lock.perSecondVesting);
              (r.Err? <==> vested > U128_MAX)
              && (r.Err? ==> r.error == Overflow)
              && (r.Ok? ==> r.value.Some? && r.value.value.amount <= vested
                            && (r.value.value.amount == d.asset.amount
                                || r.value.value.amount == vested))
    ensures d.lock.TimeUnlock? ==>
              r.Ok? && (r.value.Some? <==> d.lock.unlock < now)
              && (r.value.Some? ==> r.value.value == d.asset)
  {
    match d.lock
    case Linear(start, perSecond) =>
      if now <= start then Ok(None)
      else
        var vested := MulFloor(now - start, perSecond);
        if vested > U128_MAX then Err(Overflow)
        else Ok(Some(Asset(d.asset.info, if d.asset.amount < vested then d.asset.amount else vested)))
    case TimeUnlock(unlock) =>
      if unlock < now then Ok(Some(d.asset)) else Ok(None)
  }

  /** What a deposit releases only grows with time, and a query that
      succeeds at a later time succeeds at every earlier one. */
  lemma {:induction false} AvailableUnlockMonotone(d: DepositInfo, t1: nat, t2: nat)
    requires t1 <= t2 && AvailableUnlock(d, t2).Ok?
    ensures AvailableUnlock(d, t1).Ok?
    ensures Unlockable(AvailableUnlock(d, t1).value) <= Unlockable(AvailableUnlock(d, t2).value)
  {
    if d.lock.Linear? && t1 > d.lock.start {
      MulFloorMonotone(t1 - d.lock.start, t2 - d.lock.start, d.lock.perSecondVesting);
    }
  }

  /** A linear lock has released the whole deposit once the vested amount
      covers it. */
  lemma {:induction false} LinearFullyReleased(d: DepositInfo, now: nat)
    requires d.lock.Linear? && now > d.lock.start
    requires d.asset.amount <= MulFloor(now - d.lock.start, d.lock.perSecondVesting) <= U128_MAX
    ensures AvailableUnlock(d, now) == Ok(Some(d.asset))
  {
  }

  /** `query_available_unlock`: the releasable asset of a stored deposit,
      reported as zero of the same asset when nothing is releasable. */
  function QueryAvailableUnlock(deposits: map<nat, DepositInfo>, id: nat, now: nat): (r: Result<Asset>)
    ensures id !in deposits ==> r == Err(NotFound)
    ensures id in deposits ==> (r.Ok? <==> AvailableUnlock(deposits[id], now).Ok?)
    ensures r.Ok? ==> r.value.info == deposits[id].asset.info
                      && r.value.amount == Unlockable(AvailableUnlock(deposits[id], now).value)
                      && r.value.amount <= deposits[id].asset.amount
  {
    if id !in deposits then Err(NotFound)
    else
      var d := deposits[id];
      match AvailableUnlock(d, now)
      case Err(e) => Err(e)
      case Ok(release) =>
        Ok(if release.Some? then release.value else Asset(d.asset.info, 0))
  }
}
