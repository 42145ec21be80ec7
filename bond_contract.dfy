/** The bond contract's stored state and the operations that change it
    (contracts/bond/src/contract.rs, and the mutating parts of execute.rs,
    state.rs and helpers.rs). Each storage item is a field; a failed call
    aborts the host transaction, so every error path leaves the fields as
    they were. */
module BondContract {
  import opened Cosmos
  import opened FixedPoint
  import opened BondState
  import opened BondExecute
  import opened BondHelpers

  class BondContract {
    var config: Config
    var terms: Terms
    /** The outstanding debt item (`TOTAL_DEBT`, read as `CURRENT_DEBT`). */
    var totalDebt: nat
    var lastDecay: nat
    var adjustment: Adjustment

    /** `instantiate`: stores the configuration (the admin defaults to the
        sender), the given terms, zero debt, the decay clock at `now`, and a
        stopped adjustment schedule whose clock is also `now`. */
    constructor Instantiate(now: nat, sender: Addr, usd: string, principle: string,
                            oracle: Addr, admin: Option<Addr>, staking: Addr,
                            oracleTrustPeriod: nat, treasury: Addr, term: Terms)
      ensures config.admin == (if admin.Some? then admin.value else sender)
      ensures config == Config(usd, principle, config.admin, staking, oracle,
                               oracleTrustPeriod, treasury)
      ensures terms == term
      ensures totalDebt == 0 && lastDecay == now
      ensures adjustment == Adjustment(true, 0, 0, 0, now)
    {
      var owner := if admin.Some? then admin.value else sender;
      config := Config(usd, principle, owner, staking, oracle, oracleTrustPeriod, treasury);
      terms := term;
      lastDecay := now;
      totalDebt := 0;
      adjustment := Adjustment(true, 0, 0, 0, now);
    }

    /** `update_terms`: the admin replaces the terms wholesale. */
    method UpdateTerms(sender: Addr, newTerms: Terms) returns (r: Result<()>)
      modifies this
      ensures r.Err? <==> sender != old(config.admin)
      ensures r.Err? ==> r.error == Unauthorized && terms == old(terms)
      ensures r.Ok? ==> terms == newTerms
      ensures config == old(config) && totalDebt == old(totalDebt)
      ensures lastDecay == old(lastDecay) && adjustment == old(adjustment)
    {
      if sender != config.admin {
        return Err(Unauthorized);
      }
      terms := newTerms;
      return Ok(());
    }

    /** `update_config`: the admin changes exactly the fields given. */
    method UpdateConfig(sender: Addr, usd: Option<string>, principle: Option<string>,
                        admin: Option<Addr>, staking: Option<Addr>, oracle: Option<Addr>,
                        oracleTrustPeriod: Option<nat>, treasury: Option<Addr>)
      returns (r: Result<()>)
      modifies this
      ensures r.Err? <==> sender != old(config.admin)
      ensures r.Err? ==> r.error == Unauthorized && config == old(config)
      ensures r.Ok? ==> config == Config(
                Merge(usd, old(config.usd)),
                Merge(principle, old(config.principle)),
                Merge(admin, old(config.admin)),
                Merge(staking, old(config.staking)),
                Merge(oracle, old(config.oracle)),
                Merge(oracleTrustPeriod, old(config.oracleTrustPeriod)),
                Merge(treasury, old(config.treasury)))
      ensures terms == old(terms) && totalDebt == old(totalDebt)
      ensures lastDecay == old(lastDecay) && adjustment == old(adjustment)
    {
      if sender != config.admin {
        return Err(Unauthorized);
      }
      var c := config;
      if usd.Some? { c := c.(usd := usd.value); }
      if principle.Some? { c := c.(principle := principle.value); }
      if admin.Some? { c := c.(admin := admin.value); }
      if staking.Some? { c := c.(staking := staking.value); }
      if oracle.Some? { c := c.(oracle := oracle.value); }
      if oracleTrustPeriod.Some? { c := c.(oracleTrustPeriod := oracleTrustPeriod.value); }
      if treasury.Some? { c := c.(treasury := treasury.value); }
      config := c;
      return Ok(());
    }

    /** `update_adjustment`: the admin changes exactly the schedule fields
        given; the schedule clock `last_time` is never touched. */
    method UpdateAdjustment(sender: Addr, add: Option<bool>, rate: Option<Dec>,
                            target: Option<Dec>, buffer: Option<nat>)
      returns (r: Result<()>)
      modifies this
      ensures r.Err? <==> sender != old(config.admin)
      ensures r.Err? ==> r.error == Unauthorized && adjustment == old(adjustment)
      ensures r.Ok? ==> adjustment == Adjustment(
                Merge(add, old(adjustment.add)),
                Merge(rate, old(adjustment.rate)),
                Merge(target, old(adjustment.target)),
                Merge(buffer, old(adjustment.buffer)),
                old(adjustment.lastTime))
      ensures config == old(config) && terms == old(terms)
      ensures totalDebt == old(totalDebt) && lastDecay == old(lastDecay)
    {
      if sender != config.admin {
        return Err(Unauthorized);
      }
      var a := adjustment;
      if add.Some? { a := a.(add := add.value); }
      if rate.Some? { a := a.(rate := rate.value); }
      if target.Some? { a := a.(target := target.value); }
      if buffer.Some? { a := a.(buffer := buffer.value); }
      adjustment := a;
      return Ok(());
    }

    /** `decay_debt`: removes the decayed share from the debt (the clamp in
        `DecayAmount` rules out an underflow) and restarts the decay clock. A
        zero vesting term fails the division. */
    method DecayDebt(now: nat) returns (r: Result<()>)
      requires lastDecay <= now
      modifies this
      ensures r.Err? <==> old(terms.vestingTerm) == 0
      ensures r.Err? ==> r.error == DivideByZero
                         && totalDebt == old(totalDebt) && lastDecay == old(lastDecay)
      ensures r.Ok? ==> totalDebt == old(totalDebt)
                          - DecayAmount(old(totalDebt), old(lastDecay), now, old(terms.vestingTerm))
                        && lastDecay == now
      ensures totalDebt <= old(totalDebt)
      ensures config == old(config) && terms == old(terms) && adjustment == old(adjustment)
    {
      if terms.vestingTerm == 0 {
        return Err(DivideByZero);
      }
      totalDebt := totalDebt - DecayAmount(totalDebt, lastDecay, now, terms.vestingTerm);
      lastDecay := now;
      return Ok(());
    }

    /** `bond_price`: the quoted price for the given debt ratio, saving back
        terms whose minimum price is cleared once it no longer binds. */
    method BondPrice(debtRatio: Dec) returns (price: Dec)
      modifies this
      ensures price == QueryBondPrice(old(terms), debtRatio)
      ensures terms == ClearFloor(old(terms), debtRatio)
      ensures price == QueryBondPrice(terms, debtRatio)
      ensures config == old(config) && totalDebt == old(totalDebt)
      ensures lastDecay == old(lastDecay) && adjustment == old(adjustment)
    {
      price := Mul(terms.controlVariable, debtRatio);
      if price < terms.minimumPrice {
        price := terms.minimumPrice;
      } else if terms.minimumPrice != 0 {
        terms := terms.(minimumPrice := 0);
      }
      ClearFloorKeepsPrice(old(terms), debtRatio);
    }

    /** `adjust`, with the schedule clock advanced whenever it acts (see
        `BondHelpers.AdjustStepCorrected`). */
    method Adjust(now: nat)
      modifies this
      ensures (terms, adjustment) == AdjustStepCorrected(old(terms), old(adjustment), now)
      ensures config == old(config) && totalDebt == old(totalDebt) && lastDecay == old(lastDecay)
    {
      if adjustment.rate != 0 && now > adjustment.lastTime + adjustment.buffer {
        var cv: Dec;
        var rate := adjustment.rate;
        if adjustment.add {
          cv := terms.controlVariable + adjustment.rate;
          if cv >= adjustment.target {
            rate := 0;
          }
        } else {
          cv := if terms.controlVariable >= adjustment.rate
                then terms.controlVariable - adjustment.rate else 0;
          if cv <= adjustment.target {
            rate := 0;
          }
        }
        adjustment := adjustment.(rate := rate, lastTime := now);
        terms := terms.(controlVariable := cv);
      }
    }

    /** The head of `deposit`: decay the debt, then run the guards on the
        decayed debt with the price the terms quote for `debtRatio`. On
        success the decayed debt is kept and the deposit's value returned;
        any failure aborts and leaves every field as it was. */
    method Deposit(now: nat, funds: seq<Coin>, maxPrice: Dec, debtRatio: Dec)
      returns (r: Result<nat>)
      requires lastDecay <= now
      modifies this
      ensures old(terms.vestingTerm) == 0 ==> r == Err(DivideByZero)
      ensures old(terms.vestingTerm) > 0 ==>
                r == DepositGuards(
                       old(totalDebt) - DecayAmount(old(totalDebt), old(lastDecay), now, old(terms.vestingTerm)),
                       old(terms), maxPrice, QueryBondPrice(old(terms), debtRatio),
                       funds, old(config.principle))
      ensures r.Ok? ==> totalDebt == old(totalDebt)
                          - DecayAmount(old(totalDebt), old(lastDecay), now, old(terms.vestingTerm))
                        && lastDecay == now && totalDebt < terms.maxDebt
      ensures r.Err? ==> totalDebt == old(totalDebt) && lastDecay == old(lastDecay)
      ensures config == old(config) && terms == old(terms) && adjustment == old(adjustment)
    {
      var savedDebt, savedDecay := totalDebt, lastDecay;
      var decayed := DecayDebt(now);
      if decayed.Err? {
        return Err(decayed.error);
      }
      r := DepositGuards(totalDebt, terms, maxPrice, QueryBondPrice(terms, debtRatio),
                         funds, config.principle);
      if r.Err? {
        totalDebt, lastDecay := savedDebt, savedDecay;
      }
    }
  }

  /** The field an optional update leaves: the new value when one is given. */
  function Merge<T>(update: Option<T>, current: T): T
  {
    if update.Some? then update.value else current
  }
}
