/** Debt decay and the checks at the head of a deposit
    (contracts/bond/src/execute.rs). */
module BondExecute {
  import opened Cosmos
  import opened FixedPoint
  import opened BondState

  /** `decay_amount`: the share of the outstanding debt that has decayed
      linearly since the last decay, never more than the debt itself. */
  function DecayAmount(debt: nat, lastDecay: nat, now: nat, vestingTerm: nat): (decay: nat)
    requires lastDecay <= now && vestingTerm > 0
    ensures decay <= debt
    ensures decay * vestingTerm <= debt * (now - lastDecay)
    ensures decay == debt || debt * (now - lastDecay) < (decay + 1) * vestingTerm
  {
    var owed := debt * (now - lastDecay);
    var decay := owed / vestingTerm;
    DivBounds(owed, vestingTerm);
    if decay > debt then
      MulMonotone(debt, decay, vestingTerm);
      debt
    else decay
  }

  /** Nothing decays when no time has passed. */
  lemma DecayAtLastDecay(debt: nat, t: nat, vestingTerm: nat)
    requires vestingTerm > 0
    ensures DecayAmount(debt, t, t, vestingTerm) == 0
  {
  }

  /** Once a whole vesting term has passed, the whole debt has decayed. */
  lemma {:induction false} DecayWholeAfterTerm(debt: nat, lastDecay: nat, now: nat, vestingTerm: nat)
    requires lastDecay <= now && vestingTerm > 0
    requires now - lastDecay >= vestingTerm
    ensures DecayAmount(debt, lastDecay, now, vestingTerm) == debt
  {
    var e := now - lastDecay;
    MulMonotone(vestingTerm, e, debt);
    assert debt * vestingTerm <= debt * e;
    var decay := DecayAmount(debt, lastDecay, now, vestingTerm);
    if decay < debt {
      assert debt * e < (decay + 1) * vestingTerm;
      MulMonotone(decay + 1, debt, vestingTerm);
      assert false;
    }
  }

  /** The decay grows with the time elapsed. */
  lemma {:induction false} DecayMonotone(debt: nat, lastDecay: nat, t1: nat, t2: nat, vestingTerm: nat)
    requires lastDecay <= t1 <= t2 && vestingTerm > 0
    ensures DecayAmount(debt, lastDecay, t1, vestingTerm) <= DecayAmount(debt, lastDecay, t2, vestingTerm)
  {
    MulMonotone(t1 - lastDecay, t2 - lastDecay, debt);
    DivMonotone(debt * (t1 - lastDecay), debt * (t2 - lastDecay), vestingTerm);
  }

  /** `compute_deposit_value`: the deposit itself for a plain token; LP
      valuation is unfinished in the source and yields 0. */
  function ComputeDepositValue(deposited: nat, isLp: bool): (value: nat)
    ensures !isLp ==> value == deposited
    ensures isLp ==> value == 0
  {
    if !isLp then deposited else 0
  }

  /** The guard sequence at the top of `deposit`, run on the debt left after
      decay: capacity, slippage, the single principal coin, a nonzero amount,
      then the debt ceiling once more. On success, the deposit's value. */
  function DepositGuards(debt: nat, terms: Terms, maxPrice: Dec, price: Dec,
                         funds: seq<Coin>, principle: string): (r: Result<nat>)
    ensures r.Ok? <==> debt < terms.maxDebt && price <= maxPrice
                       && |funds| == 1 && funds[0].denom == principle && funds[0].amount > 0
    ensures r.Ok? ==> r.value == funds[0].amount
    ensures debt > terms.maxDebt ==> r == Err(MaxCapacityReached)
    ensures debt <= terms.maxDebt && maxPrice < price ==> r == Err(SlippageLimit)
    ensures debt <= terms.maxDebt && price <= maxPrice && r.Err? && r.error != MaxDebtReached
            ==> r.error == ReceiveOneCoin(principle)
    ensures debt == terms.maxDebt && price <= maxPrice
            && |funds| == 1 && funds[0].denom == principle && funds[0].amount > 0
            ==> r == Err(MaxDebtReached)
  {
    if debt > terms.maxDebt then Err(MaxCapacityReached)
    else if maxPrice < price then Err(SlippageLimit)
    else
      match DepositOneCoin(funds, principle)
      case Err(e) => Err(e)
      case Ok(amount) =>
        if amount == 0 then Err(ReceiveOneCoin(principle))
        else if debt >= terms.maxDebt then Err(MaxDebtReached)
        else Ok(ComputeDepositValue(amount, false))
  }
}
