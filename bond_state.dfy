/** The bond contract's stored records and its price formula
    (contracts/bond/src/state.rs). */
module BondState {
  import opened Cosmos
  import opened FixedPoint

  datatype Config = Config(
    usd: string,
    principle: string,
    admin: Addr,
    staking: Addr,
    oracle: Addr,
    oracleTrustPeriod: nat,  // seconds
    treasury: Addr)

  datatype Terms = Terms(
    controlVariable: Dec,
    minimumPrice: Dec,
    maxPayout: Dec,          // fraction of the base supply
    maxDebt: nat,
    vestingTerm: nat)        // seconds

  /** A depositor's bond position. */
  datatype Bond = Bond(
    payout: nat,
    pricePaid: Dec,
    vestingTimeLeft: nat,
    lastTime: nat)

  /** `Bond::default()`: every field zero. */
  const DefaultBond: Bond := Bond(0, 0, 0, 0)

  /** Scheduled creep of the control variable towards `target`. */
  datatype Adjustment = Adjustment(
    add: bool,
    rate: Dec,
    target: Dec,
    buffer: nat,             // seconds
    lastTime: nat)

  /** `query_bond_price`: control variable times debt ratio, never below the
      minimum price. */
  function QueryBondPrice(terms: Terms, debtRatio: Dec): (price: Dec)
    ensures price >= terms.minimumPrice
    ensures price >= Mul(terms.controlVariable, debtRatio)
    ensures price == terms.minimumPrice || price == Mul(terms.controlVariable, debtRatio)
  {
    var price := Mul(terms.controlVariable, debtRatio);
    if price < terms.minimumPrice then terms.minimumPrice else price
  }

  /** The terms that `bond_price` saves back: the minimum price is cleared once
      the formula price is no longer below it. */
  function ClearFloor(terms: Terms, debtRatio: Dec): (t: Terms)
    ensures t == terms.(minimumPrice := t.minimumPrice)
    ensures Mul(terms.controlVariable, debtRatio) < terms.minimumPrice ==> t.minimumPrice == terms.minimumPrice
    ensures Mul(terms.controlVariable, debtRatio) >= terms.minimumPrice ==> t.minimumPrice == 0
  {
    var price := Mul(terms.controlVariable, debtRatio);
    if price < terms.minimumPrice then terms
    else if terms.minimumPrice != 0 then terms.(minimumPrice := 0)
    else terms
  }

  /** Clearing the floor does not change the price quoted for the same ratio. */
  lemma ClearFloorKeepsPrice(terms: Terms, debtRatio: Dec)
    ensures QueryBondPrice(ClearFloor(terms, debtRatio), debtRatio) == QueryBondPrice(terms, debtRatio)
  {
  }

  /** Applying `bond_price` twice with the same ratio leaves the terms it left
      after the first time. */
  lemma ClearFloorIdempotent(terms: Terms, debtRatio: Dec)
    ensures ClearFloor(ClearFloor(terms, debtRatio), debtRatio) == ClearFloor(terms, debtRatio)
  {
  }

  /** The relief is one-way: once the floor has been cleared, every later
      quote is the bare formula price, whatever the ratio. */
  lemma {:induction false} FloorReliefIsPermanent(terms: Terms, debtRatio: Dec, laterRatio: Dec)
    requires Mul(terms.controlVariable, debtRatio) >= terms.minimumPrice
    ensures QueryBondPrice(ClearFloor(terms, debtRatio), laterRatio)
         == Mul(terms.controlVariable, laterRatio)
  {
    var t := ClearFloor(terms, debtRatio);
    assert t.minimumPrice == 0 && t.controlVariable == terms.controlVariable;
  }
}
