/** The rebase of the sCW20 token (contracts/scw20/src/rebase.rs): the staking
    contract reports a profit, the total supply grows by it (capped), and the
    number of gons per token fragment is recomputed. Balances are held in
    gons, so this changes every holder's balance in proportion. The
    circulating supply is the total supply (contracts/scw20/src/query.rs). */
module Scw20Rebase {
  import opened Cosmos
  import opened FixedPoint

  const INITIAL_FRAGMENTS_SUPPLY: nat := 5_000_000
  /** The largest multiple of the initial supply that fits in a `u128`. */
  const TOTAL_GONS: nat := U128_MAX - U128_MAX % INITIAL_FRAGMENTS_SUPPLY
  /** The supply cap, `u64::MAX`. */
  const MAX_SUPPLY: nat := U64_MAX

  /** The gons total is a positive multiple of the initial supply and fits
      in a `u128`. */
  lemma TotalGonsIsMultiple()
    ensures TOTAL_GONS % INITIAL_FRAGMENTS_SUPPLY == 0
    ensures 0 < TOTAL_GONS <= U128_MAX
    ensures MAX_SUPPLY < TOTAL_GONS
  {
  }

  /** The supply increase for `profit`: `profit * total / circulating`, or
      the profit itself while nothing circulates. The product is `u128`
      arithmetic and fails beyond it. */
  function RebaseAmount(profit: nat, totalSupply: nat, circulating: nat): (r: Result<nat>)
    ensures circulating == 0 ==> r == Ok(profit)
    ensures circulating > 0 ==> (r.Err? <==> profit * totalSupply > U128_MAX)
    ensures r.Err? ==> r.error == Overflow
    ensures r.Ok? && circulating > 0 ==>
              r.value * circulating <= profit * totalSupply < (r.value + 1) * circulating
  {
    if circulating == 0 then Ok(profit)
    else if profit * totalSupply > U128_MAX then Err(Overflow)
    else
      var q := profit * totalSupply / circulating;
      assert q * circulating <= profit * totalSupply < (q + 1) * circulating;
      Ok(q)
  }

  /** With the whole supply circulating, the supply grows by exactly the
      profit. */
  lemma {:induction false} FullCirculationAddsProfit(profit: nat, supply: nat)
    requires profit * supply <= U128_MAX
    ensures RebaseAmount(profit, supply, supply) == Ok(profit)
  {
    if supply > 0 {
      FloorUnique(profit, supply, profit * supply);
    }
  }

  /** The stored supply and gons-per-fragment after a rebase of `profit`
      from the staking contract: the supply grows by the rebase amount,
      capped at `MAX_SUPPLY`, and the gons total is spread over it. With the
      whole supply circulating the rebase amount is the profit itself, so
      the call fails only when `profit * total` or `total + profit`
      overflows a `u128`. */
  function SupplyAfterRebase(totalSupply: nat, profit: nat): (r: Result<(nat, nat)>)
    requires profit > 0
    ensures r.Err? <==> profit * totalSupply > U128_MAX || totalSupply + profit > U128_MAX
    ensures r.Err? ==> r.error == Overflow
    ensures r.Ok? ==> 0 < r.value.0 <= MAX_SUPPLY
    ensures r.Ok? ==> r.value.1 * r.value.0 <= TOTAL_GONS < (r.value.1 + 1) * r.value.0
    ensures r.Ok? ==>
              r.value.0 == if totalSupply + profit > MAX_SUPPLY then MAX_SUPPLY else totalSupply + profit
    ensures r.Ok? ==> r.value.0 >= if totalSupply > MAX_SUPPLY then MAX_SUPPLY else totalSupply
  {
    assert profit * totalSupply <= U128_MAX ==> RebaseAmount(profit, totalSupply, totalSupply) == Ok(profit) by {
      if profit * totalSupply <= U128_MAX {
        FullCirculationAddsProfit(profit, totalSupply);
      }
    }
    match RebaseAmount(profit, totalSupply, totalSupply)
    case Err(e) => Err(e)
    case Ok(amount) =>
      if totalSupply + amount > U128_MAX then Err(Overflow)
      else
        var supply := if totalSupply + amount > MAX_SUPPLY then MAX_SUPPLY else totalSupply + amount;
        var gons := TOTAL_GONS / supply;
        assert gons * supply <= TOTAL_GONS < (gons + 1) * supply;
        Ok((supply, gons))
  }

  class Scw20 {
    var totalSupply: nat
    var gonsPerFragment: nat
    var stakingContract: Addr

    /** `execute_rebase`: a zero profit is accepted from anyone and changes
        nothing; otherwise only the staking contract may rebase. */
    method ExecuteRebase(sender: Addr, profit: nat) returns (r: Result<()>)
      modifies this
      ensures profit == 0 ==> r == Ok(())
      ensures profit > 0 && sender != old(stakingContract) ==>
                r == Err(UnauthorizedWithAddress(old(stakingContract)))
      ensures profit > 0 && sender == old(stakingContract) ==>
                var next := SupplyAfterRebase(old(totalSupply), profit);
                (r.Ok? <==> next.Ok?)
                && (next.Ok? ==> totalSupply == next.value.0 && gonsPerFragment == next.value.1)
                && (next.Err? ==> r == Err(next.error))
      ensures r.Err? || profit == 0 ==>
                totalSupply == old(totalSupply) && gonsPerFragment == old(gonsPerFragment)
      ensures stakingContract == old(stakingContract)
    {
      if profit == 0 {
        return Ok(());
      }
      if sender != stakingContract {
        return Err(UnauthorizedWithAddress(stakingContract));
      }
      var amount: nat;
      if totalSupply != 0 {
        if profit * totalSupply > U128_MAX {
          return Err(Overflow);
        }
        amount := profit * totalSupply / totalSupply;
      } else {
        amount := profit;
      }
      var supply := totalSupply + amount;
      if supply > U128_MAX {
        return Err(Overflow);
      }
      if supply > MAX_SUPPLY {
        supply := MAX_SUPPLY;
      }
      gonsPerFragment := TOTAL_GONS / supply;
      totalSupply := supply;
      return Ok(());
    }
  }
}
