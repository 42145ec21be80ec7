/** Read-only queries of the bond contract (contracts/bond/src/query.rs),
    and the dollar price of a bond (contracts/bond/src/state.rs), which
    needs the oracle check defined here. The bank supply, the outstanding
    debt and the oracle's answer are parameters. */
module BondQuery {
  import opened Cosmos
  import opened FixedPoint
  import opened BondState

  /** The oracle's answer for the principal/usd pair. */
  datatype PriceResponse = PriceResponse(rate: Dec, lastUpdatedBase: nat, lastUpdatedQuote: nat)

  /** `debt_ratio`: outstanding debt over the base token's supply. */
  function DebtRatio(currentDebt: nat, baseSupply: nat): (ratio: Dec)
    requires baseSupply > 0
    ensures ratio * baseSupply <= currentDebt * ONE < (ratio + 1) * baseSupply
    ensures currentDebt <= baseSupply ==> ratio <= ONE
  {
    var ratio := FromRatio(currentDebt, baseSupply);
    if currentDebt <= baseSupply && ratio > ONE then
      MulMonotone(ONE + 1, ratio, baseSupply);
      MulMonotone(currentDebt, baseSupply, ONE);
      ratio
    else ratio
  }

  /** `asset_price`: the oracle rate, refused when either side of the quote
      is older than the trust period. A quote exactly at the limit passes. */
  function AssetPrice(quote: PriceResponse, trustPeriod: nat, now: nat): (r: Result<Dec>)
    ensures r.Err? <==> quote.lastUpdatedBase + trustPeriod < now
                        || quote.lastUpdatedQuote + trustPeriod < now
    ensures r.Err? ==> r.error == StalePrice
    ensures r.Ok? ==> r.value == quote.rate
  {
    if quote.lastUpdatedBase + trustPeriod < now || quote.lastUpdatedQuote + trustPeriod < now
    then Err(StalePrice)
    else Ok(quote.rate)
  }

  /** `standardized_debt_ratio`: the debt ratio valued at the oracle price. */
  function StandardizedDebtRatio(currentDebt: nat, baseSupply: nat, quote: PriceResponse,
                                 trustPeriod: nat, now: nat): (r: Result<Dec>)
    requires baseSupply > 0
    ensures r.Err? <==> AssetPrice(quote, trustPeriod, now).Err?
    ensures r.Ok? ==> r.value * ONE <= DebtRatio(currentDebt, baseSupply) * quote.rate
                                      < (r.value + 1) * ONE
  {
    match AssetPrice(quote, trustPeriod, now)
    case Err(e) => Err(e)
    case Ok(price) => Ok(Mul(DebtRatio(currentDebt, baseSupply), price))
  }

  /** `bond_price_in_usd`: the bond price times the oracle price; never below
      the minimum price valued at the oracle price. */
  function BondPriceInUsd(terms: Terms, debtRatio: Dec, quote: PriceResponse,
                          trustPeriod: nat, now: nat): (r: Result<Dec>)
    ensures r.Err? <==> AssetPrice(quote, trustPeriod, now).Err?
    ensures r.Ok? ==> r.value * ONE <= QueryBondPrice(terms, debtRatio) * quote.rate
                                      < (r.value + 1) * ONE
    ensures r.Ok? ==> r.value >= Mul(terms.minimumPrice, quote.rate)
  {
    match AssetPrice(quote, trustPeriod, now)
    case Err(e) => Err(e)
    case Ok(rate) =>
      var price := QueryBondPrice(terms, debtRatio);
      MulMonotone(terms.minimumPrice, price, rate);
      DivMonotone(terms.minimumPrice * rate, price * rate, ONE);
      Ok(Mul(price, rate))
  }

  /** `payout_for`: how many whole tokens `value` buys at the bond price.
      A zero price fails the decimal division; a result beyond `u128` fails
      the conversion. */
  function PayoutFor(terms: Terms, debtRatio: Dec, value: nat): (r: Result<nat>)
    ensures QueryBondPrice(terms, debtRatio) == 0 <==> r == Err(DivideByZero)
    ensures r == Err(Overflow) <==> QueryBondPrice(terms, debtRatio) > 0
                                    && (U128_MAX + 1) * QueryBondPrice(terms, debtRatio) <= value * ONE
    ensures r.Err? ==> r.error == DivideByZero || r.error == Overflow
    ensures r.Ok? ==> r.value <= U128_MAX
    ensures r.Ok? ==> r.value * QueryBondPrice(terms, debtRatio) <= value * ONE
                      < (r.value + 1) * QueryBondPrice(terms, debtRatio)
  {
    var price := QueryBondPrice(terms, debtRatio);
    if price == 0 then Err(DivideByZero)
    else
      var payout := Truncate(Quot(FromInt(value), price));
      TruncateQuot(value, price);
      FloorExceeds(payout, price, value * ONE, U128_MAX);
      if payout > U128_MAX then Err(Overflow) else Ok(payout)
  }

  /** The payout of the first deposit in the contract's own scenario: 10,000
      principal at price 2 buys 5,000. */
  lemma PayoutAtPriceTwo()
    ensures PayoutFor(Terms(1000 * ONE, 2 * ONE, ONE / 5, 500_000, 3600), 0, 10_000) == Ok(5_000)
  {
    var terms := Terms(1000 * ONE, 2 * ONE, ONE / 5, 500_000, 3600);
    assert QueryBondPrice(terms, 0) == 2 * ONE;
    var r := PayoutFor(terms, 0, 10_000);
    assert r.Ok? ==> r.value == 5_000 by {
      if r.Ok? {
        FloorUnique(r.value, 2 * ONE, 10_000 * ONE);
      }
    }
    assert Quot(FromInt(10_000), 2 * ONE) == 5_000 * ONE;
  }

  /** `bond_info`: the stored position, or the all-zero default for an
      address that never bonded. */
  function BondInfo(bonds: map<Addr, Bond>, recipient: Addr): (b: Bond)
    ensures recipient in bonds ==> b == bonds[recipient]
    ensures recipient !in bonds ==> b.payout == 0 && b.pricePaid == 0
                                    && b.vestingTimeLeft == 0 && b.lastTime == 0
  {
    if recipient in bonds then bonds[recipient] else DefaultBond
  }

  /** `percent_vested_for`: time since the last interaction over the vesting
      time left, as a decimal; zero when no vesting time is left; an error
      for an address with no bond. */
  function PercentVestedFor(bonds: map<Addr, Bond>, recipient: Addr, now: nat): (r: Result<Dec>)
    requires recipient in bonds ==> bonds[recipient].lastTime <= now
    ensures r.Err? <==> recipient !in bonds
    ensures r.Err? ==> r.error == NotFound
    ensures r.Ok? && bonds[recipient].vestingTimeLeft == 0 ==> r.value == 0
    ensures r.Ok? && bonds[recipient].vestingTimeLeft > 0 ==>
              r.value * bonds[recipient].vestingTimeLeft
                <= (now - bonds[recipient].lastTime) * ONE
                < (r.value + 1) * bonds[recipient].vestingTimeLeft
  {
    if recipient !in bonds then Err(NotFound)
    else
      var bond := bonds[recipient];
      var elapsed := now - bond.lastTime;
      if bond.vestingTimeLeft != 0 then Ok(FromRatio(elapsed, bond.vestingTimeLeft))
      else Ok(0)
  }

  /** Percent vested grows with time. */
  lemma {:induction false} PercentVestedMonotone(bonds: map<Addr, Bond>, recipient: Addr, t1: nat, t2: nat)
    requires recipient in bonds && bonds[recipient].lastTime <= t1 <= t2
    ensures PercentVestedFor(bonds, recipient, t1).value <= PercentVestedFor(bonds, recipient, t2).value
  {
    var b := bonds[recipient];
    if b.vestingTimeLeft != 0 {
      MulMonotone(t1 - b.lastTime, t2 - b.lastTime, ONE);
      DivMonotone((t1 - b.lastTime) * ONE, (t2 - b.lastTime) * ONE, b.vestingTimeLeft);
    }
  }

  /** Halfway through the vesting time, half is vested. */
  lemma {:induction false} PercentVestedHalfway(bonds: map<Addr, Bond>, recipient: Addr, now: nat)
    requires recipient in bonds && bonds[recipient].lastTime <= now
    requires (now - bonds[recipient].lastTime) * 2 == bonds[recipient].vestingTimeLeft
    requires bonds[recipient].vestingTimeLeft > 0
    ensures PercentVestedFor(bonds, recipient, now) == Ok(ONE / 2)
  {
    var b := bonds[recipient];
    var e := now - b.lastTime;
    FloorUnique(ONE / 2, b.vestingTimeLeft, e * ONE);
  }

  /** At exactly the end of the vesting time, everything is vested. */
  lemma {:induction false} PercentVestedAtEnd(bonds: map<Addr, Bond>, recipient: Addr, now: nat)
    requires recipient in bonds && bonds[recipient].lastTime <= now
    requires now - bonds[recipient].lastTime == bonds[recipient].vestingTimeLeft > 0
    ensures PercentVestedFor(bonds, recipient, now) == Ok(ONE)
  {
    var b := bonds[recipient];
    FloorUnique(ONE, b.vestingTimeLeft, b.vestingTimeLeft * ONE);
  }

  /** `pending_payout_for`: the whole payout once more than 100% is vested,
      otherwise the vested fraction of it, floored, which must fit in a
      `u128`; never more than the payout. */
  function PendingPayoutFor(bonds: map<Addr, Bond>, recipient: Addr, now: nat): (r: Result<nat>)
    requires recipient in bonds ==> bonds[recipient].lastTime <= now
    ensures recipient !in bonds ==> r == Err(NotFound)
    ensures recipient in bonds ==>
              var percent := PercentVestedFor(bonds, recipient, now).value;
              (r.Err? <==> percent <= ONE && (U128_MAX + 1) * ONE <= bonds[recipient].payout * percent)
              && (r.Err? ==> r.error == Overflow)
              && (r.Ok? && percent <= ONE ==>
                    r.value * ONE <= bonds[recipient].payout * percent < (r.value + 1) * ONE)
    ensures r.Ok? ==> r.value <= bonds[recipient].payout
    ensures r.Ok? && PercentVestedFor(bonds, recipient, now).value >= ONE
            ==> r.value == bonds[recipient].payout
  {
    match PercentVestedFor(bonds, recipient, now)
    case Err(e) => Err(e)
    case Ok(percent) =>
      var bond := BondInfo(bonds, recipient);
      if percent > ONE then Ok(bond.payout)
      else
        var pending := MulFloor(bond.payout, percent);
        MulFloorAtMostWhole(bond.payout, percent);
        FloorExceeds(pending, ONE, bond.payout * percent, U128_MAX);
        if pending > U128_MAX then Err(Overflow) else Ok(pending)
  }

  /** `max_payout`: the maximum-payout fraction of the base supply, floored;
      the conversion to `u128` fails beyond it. */
  function MaxPayout(baseSupply: nat, terms: Terms): (r: Result<nat>)
    ensures r.Ok? ==> r.value * ONE <= baseSupply * terms.maxPayout < (r.value + 1) * ONE
    ensures r.Err? <==> (U128_MAX + 1) * ONE <= baseSupply * terms.maxPayout
    ensures r.Err? ==> r.error == Overflow
    ensures terms.maxPayout <= ONE && baseSupply <= U128_MAX ==> r.Ok? && r.value <= baseSupply
  {
    var payout := MulFloor(baseSupply, terms.maxPayout);
    FloorExceeds(payout, ONE, baseSupply * terms.maxPayout, U128_MAX);
    if terms.maxPayout <= ONE then
      MulFloorAtMostWhole(baseSupply, terms.maxPayout);
      if payout > U128_MAX then Err(Overflow) else Ok(payout)
    else if payout > U128_MAX then Err(Overflow) else Ok(payout)
  }
}
