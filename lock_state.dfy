/** Assets and deposit fees of the lock contract
    (contracts/lock/src/state.rs). */
module LockState {
  import opened Cosmos
  import opened FixedPoint

  /** The kind of an asset: a native denomination, a cw20 contract, or a
      cw1155 token. */
  datatype AssetInfo =
    | Native(denom: string)
    | Cw20(contractAddr: Addr)
    | Cw1155(contractAddr: Addr, tokenId: string)

  datatype Asset = Asset(info: AssetInfo, amount: nat)

  /** A deposit fee: a fixed amount, or a decimal factor applied to the
      deposit. */
  datatype Fee = Fixed(fee: nat) | Variable(factor: Dec)

  /** An allow-list entry. */
  datatype AcceptedToken = AcceptedToken(asset: AssetInfo, depositFee: Fee)

  /** The variable branch of `Fee::apply`: the amount kept is
      `amount * factor`, floored, and must fit in a `u128`. */
  function ApplyVariableFee(factor: Dec, asset: Asset): (r: Result<Asset>)
    ensures r.Err? <==> MulFloor(asset.amount, factor) > U128_MAX
    ensures r.Err? ==> r.error == Overflow
    ensures r.Ok? ==> r.value.info == asset.info
    ensures r.Ok? ==> r.value.amount * ONE <= asset.amount * factor < (r.value.amount + 1) * ONE
    ensures r.Ok? && factor <= ONE ==> r.value.amount <= asset.amount
  {
    var kept := MulFloor(asset.amount, factor);
    if kept > U128_MAX then Err(Overflow)
    else
      if factor <= ONE then
        MulFloorAtMostWhole(asset.amount, factor);
        Ok(asset.(amount := kept))
      else Ok(asset.(amount := kept))
  }

  /** `Fee::apply` as written. The fixed branch refuses every deposit larger
      than the fee, and the subtraction underflows for every deposit smaller
      than the fee, so only a deposit of exactly the fee passes, leaving
      nothing. */
  function ApplyFeeAsWritten(fee: Fee, asset: Asset): (r: Result<Asset>)
    ensures fee.Fixed? ==> (r.Ok? <==> fee.fee == asset.amount)
    ensures fee.Fixed? && fee.fee < asset.amount ==> r == Err(NotEnoughDeposited(fee.fee, asset.amount))
    ensures fee.Fixed? && fee.fee > asset.amount ==> r == Err(Overflow)
    ensures fee.Fixed? && r.Ok? ==> r.value == asset.(amount := 0)
    ensures fee.Variable? ==> r == ApplyVariableFee(fee.factor, asset)
  {
    match fee
    case Fixed(f) =>
      if f < asset.amount then Err(NotEnoughDeposited(f, asset.amount))
      else if asset.amount < f then Err(Overflow)
      else Ok(asset.(amount := asset.amount - f))
    case Variable(v) => ApplyVariableFee(v, asset)
  }

  /** A deposit of 100 against a fixed fee of 10 is refused as written. */
  lemma FixedFeeAsWrittenRefusesLargerDeposit()
    ensures ApplyFeeAsWritten(Fixed(10), Asset(Native("uatom"), 100))
            == Err(NotEnoughDeposited(10, 100))
  {
  }

  /** `Fee::apply` with the guard the error message describes: a deposit
      below the fixed fee is refused; otherwise the fee is taken off. The
      asset kind never changes. */
  function ApplyFee(fee: Fee, asset: Asset): (r: Result<Asset>)
    ensures r.Ok? ==> r.value.info == asset.info
    ensures fee.Fixed? ==> (r.Ok? <==> fee.fee <= asset.amount)
    ensures fee.Fixed? && r.Ok? ==> r.value.amount + fee.fee == asset.amount
    ensures fee.Fixed? && r.Err? ==> r.error == NotEnoughDeposited(fee.fee, asset.amount)
    ensures fee.Variable? ==> r == ApplyVariableFee(fee.factor, asset)
  {
    match fee
    case Fixed(f) =>
      if asset.amount < f then Err(NotEnoughDeposited(f, asset.amount))
      else Ok(asset.(amount := asset.amount - f))
    case Variable(v) => ApplyVariableFee(v, asset)
  }

  /** The two readings of the fixed fee agree on the one deposit the written
      guard lets through, and on every variable fee. */
  lemma {:induction false} ApplyFeeAgreesWhereWrittenSucceeds(fee: Fee, asset: Asset)
    requires ApplyFeeAsWritten(fee, asset).Ok?
    ensures ApplyFee(fee, asset) == ApplyFeeAsWritten(fee, asset)
  {
    if fee.Fixed? {
      assert fee.fee == asset.amount;
    }
  }
}
