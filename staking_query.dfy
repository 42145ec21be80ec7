/** Token denominations and the exchange rate of the staking contract
    (contracts/staking/src/query.rs). The contract's bank balance of the
    base token and the bank supply of the staking token are parameters. */
module StakingQuery {
  import opened Cosmos
  import opened FixedPoint

  /** Subdenom of the staking token the contract creates. */
  const STAKING_TOKEN_DENOM: string := "staking_token"

  /** A token-factory denomination: `factory/<contract>/<subdenom>`. */
  function FactoryDenom(contract: Addr, subdenom: string): string
  {
    "factory/" + contract + "/" + subdenom
  }

  /** The base token. Its subdenom is a constant of the deployment. */
  function BaseDenom(contract: Addr, baseSubdenom: string): string
  {
    FactoryDenom(contract, baseSubdenom)
  }

  /** The staking token. */
  function StakingDenom(contract: Addr): string
  {
    FactoryDenom(contract, STAKING_TOKEN_DENOM)
  }

  /** For one contract, two factory denominations are equal exactly when
      their subdenoms are. */
  lemma {:induction false} FactoryDenomInjective(contract: Addr, s1: string, s2: string)
    ensures FactoryDenom(contract, s1) == FactoryDenom(contract, s2) <==> s1 == s2
  {
    var prefix := "factory/" + contract + "/";
    assert FactoryDenom(contract, s1) == prefix + s1;
    assert FactoryDenom(contract, s2) == prefix + s2;
    if prefix + s1 == prefix + s2 {
      assert s1 == (prefix + s1)[|prefix|..];
      assert s2 == (prefix + s2)[|prefix|..];
    }
  }

  /** The base and staking denominations differ exactly when the base
      subdenom is not the staking subdenom. */
  lemma BaseAndStakingDenomsDiffer(contract: Addr, baseSubdenom: string)
    ensures BaseDenom(contract, baseSubdenom) == StakingDenom(contract)
            <==> baseSubdenom == STAKING_TOKEN_DENOM
  {
    FactoryDenomInjective(contract, baseSubdenom, STAKING_TOKEN_DENOM);
  }

  function OrZero(o: Option<nat>): nat
  {
    if o.Some? then o.value else 0
  }

  /** `current_exchange_rate`: how many base tokens one staking token is
      worth. `deposit` is taken off the balance and `stakedExclude` off the
      staked supply (the call sites pass both); taking more than there is
      underflows. The rate is one while nothing is staked or the pool holds
      no more than the staked supply, and never less than one. */
  function CurrentExchangeRate(balance: nat, stakedSupply: nat, deposit: Option<nat>,
                               stakedExclude: Option<nat>): (r: Result<Dec>)
    ensures r.Err? <==> OrZero(deposit) > balance || OrZero(stakedExclude) > stakedSupply
    ensures r.Err? ==> r.error == Overflow
    ensures r.Ok? ==> r.value >= ONE
    ensures r.Ok? ==> var deposited := balance - OrZero(deposit);
                      var staked := stakedSupply - OrZero(stakedExclude);
                      (staked == 0 || deposited <= staked ==> r.value == ONE)
                      && (staked > 0 && deposited > staked ==>
                            r.value * staked <= deposited * ONE < (r.value + 1) * staked)
  {
    if OrZero(deposit) > balance || OrZero(stakedExclude) > stakedSupply then Err(Overflow)
    else
      var deposited := balance - OrZero(deposit);
      var staked := stakedSupply - OrZero(stakedExclude);
      if staked == 0 || deposited <= staked then Ok(ONE)
      else
        RatioAtLeastOne(deposited, staked);
        Ok(FromRatio(deposited, staked))
  }

  /** `query_exchange_rate`: the rate with nothing excluded; it cannot fail. */
  function QueryExchangeRate(balance: nat, stakedSupply: nat): (r: Result<Dec>)
    ensures r.Ok? && r.value >= ONE
    ensures stakedSupply == 0 || balance <= stakedSupply ==> r.value == ONE
    ensures stakedSupply > 0 && balance > stakedSupply ==>
              r.value * stakedSupply <= balance * ONE < (r.value + 1) * stakedSupply
  {
    CurrentExchangeRate(balance, stakedSupply, None, None)
  }

  /** Holding 100 base tokens against 80 staking tokens gives a rate of 1.25. */
  lemma ExchangeRateHundredOverEighty()
    ensures QueryExchangeRate(100, 80) == Ok(ONE + ONE / 4)
  {
    FloorUnique(ONE + ONE / 4, 80, 100 * ONE);
  }
}
