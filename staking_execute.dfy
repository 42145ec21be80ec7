/** Staking, unstaking, minting and the epoch rebase of the staking contract
    (contracts/staking/src/execute.rs). `stake`, `unstake` and `mint` only
    compute amounts and build messages, so they are functions of the bank
    balance and supply they would query; `rebase` updates the epoch state,
    so it is a method of the `Staking` class. */
module StakingExecute {
  import opened Cosmos
  import opened FixedPoint
  import opened StakingQuery
  import opened StakingHelpers

  /** Staking tokens minted for a deposit of `deposit` base tokens:
      `deposit / rate`, truncated to whole tokens. */
  function StakeMint(deposit: nat, rate: Dec): (m: nat)
    requires rate >= ONE
    ensures m * rate <= deposit * ONE < (m + 1) * rate
    ensures m <= deposit
  {
    TruncateQuot(deposit, rate);
    var m := Truncate(Quot(FromInt(deposit), rate));
    MulMonotone(ONE, rate, deposit);
    MulCancel(m, deposit, rate);
    m
  }

  /** Base tokens paid out for `amount` staking tokens: `amount * rate`,
      truncated to whole tokens; at least `amount`, since the rate is at
      least one. */
  function RedeemAmount(amount: nat, rate: Dec): (r: nat)
    requires rate >= ONE
    ensures r * ONE <= amount * rate < (r + 1) * ONE
    ensures r >= amount
  {
    TruncateMulWhole(amount, rate);
    MulFloorAtLeastWhole(amount, rate);
    Truncate(Mul(FromInt(amount), rate))
  }

  /** `stake`: exactly one coin of the base token is accepted; the rate is
      computed with that deposit taken off the balance (which already holds
      it), and the minted staking tokens go to `to`. A mint beyond `u128`
      fails the conversion. */
  function Stake(contract: Addr, baseSubdenom: string, funds: seq<Coin>, balance: nat,
                 stakedSupply: nat, to: Addr): (r: Result<seq<Msg>>)
    ensures DepositOneCoin(funds, BaseDenom(contract, baseSubdenom)).Err? ==>
              r == Err(ReceiveOneCoin(BaseDenom(contract, baseSubdenom)))
    ensures (DepositOneCoin(funds, BaseDenom(contract, baseSubdenom)).Ok?
             && funds[0].amount > balance) ==> r == Err(Overflow)
    ensures r.Ok? ==>
              var deposit := funds[0].amount;
              var rate := CurrentExchangeRate(balance, stakedSupply, Some(deposit), None).value;
              var minted := Minted(r.value, StakingDenom(contract));
              minted <= deposit
              && minted * rate <= deposit * ONE < (minted + 1) * rate
              && Received(r.value, to, StakingDenom(contract)) == minted
              && minted <= U128_MAX
    ensures r.Ok? ==> r.value == MintMsgs(contract, StakingDenom(contract), to,
                                          Minted(r.value, StakingDenom(contract)))
    ensures (r.Err? && DepositOneCoin(funds, BaseDenom(contract, baseSubdenom)).Ok?
             && funds[0].amount <= balance) ==> r.error == Overflow
    ensures r.Ok? <==> DepositOneCoin(funds, BaseDenom(contract, baseSubdenom)).Ok?
                       && funds[0].amount <= balance
                       && funds[0].amount * ONE
                          < (U128_MAX + 1) * CurrentExchangeRate(balance, stakedSupply, Some(funds[0].amount), None).value
  {
    match DepositOneCoin(funds, BaseDenom(contract, baseSubdenom))
    case Err(e) => Err(e)
    case Ok(deposit) =>
      match CurrentExchangeRate(balance, stakedSupply, Some(deposit), None)
      case Err(e) => Err(e)
      case Ok(rate) =>
        var mint := StakeMint(deposit, rate);
        FloorExceeds(mint, rate, deposit * ONE, U128_MAX);
        if mint > U128_MAX then Err(Overflow)
        else Ok(MintMsgs(contract, StakingDenom(contract), to, mint))
  }

  /** The messages of an unstake: the contract burns the returned staking
      tokens, then sends the redeemed base tokens to `to`; nothing else is
      burned, minted or sent. */
  function UnstakeMsgs(contract: Addr, baseSubdenom: string, amount: nat, to: Addr,
                       redeem: nat): (msgs: seq<Msg>)
    ensures |msgs| == 2 && msgs[0].Burn? && msgs[0].sender == contract && msgs[1].Send?
    ensures Burned(msgs, StakingDenom(contract)) == amount
    ensures forall d :: d != StakingDenom(contract) ==> Burned(msgs, d) == 0
    ensures Received(msgs, to, BaseDenom(contract, baseSubdenom)) == redeem
    ensures forall a, d :: (a, d) != (to, BaseDenom(contract, baseSubdenom)) ==> Received(msgs, a, d) == 0
    ensures forall d :: Minted(msgs, d) == 0
  {
    var msgs := [Burn(contract, StakingDenom(contract), amount),
                 Send(to, BaseDenom(contract, baseSubdenom), redeem)];
    PairTotals(msgs[0], msgs[1]);
    msgs
  }

  /** `unstake` as written: the call site passes the returned amount as an
      exclusion from the staked supply, so the rate is computed as if those
      tokens no longer existed. */
  function UnstakeAsWritten(contract: Addr, baseSubdenom: string, funds: seq<Coin>,
                            balance: nat, stakedSupply: nat, to: Addr): (r: Result<seq<Msg>>)
    ensures DepositOneCoin(funds, StakingDenom(contract)).Err? ==>
              r == Err(ReceiveOneCoin(StakingDenom(contract)))
    ensures r.Ok? ==>
              var amount := funds[0].amount;
              var rate := CurrentExchangeRate(balance, stakedSupply, None, Some(amount));
              rate.Ok?
              && r.value == UnstakeMsgs(contract, baseSubdenom, amount, to, RedeemAmount(amount, rate.value))
    ensures r.Ok? <==> DepositOneCoin(funds, StakingDenom(contract)).Ok?
                       && funds[0].amount <= stakedSupply
                       && funds[0].amount
                            * CurrentExchangeRate(balance, stakedSupply, None, Some(funds[0].amount)).value
                          < (U128_MAX + 1) * ONE
  {
    match DepositOneCoin(funds, StakingDenom(contract))
    case Err(e) => Err(e)
    case Ok(amount) =>
      match CurrentExchangeRate(balance, stakedSupply, None, Some(amount))
      case Err(e) => Err(e)
      case Ok(rate) =>
        var redeem := RedeemAmount(amount, rate);
        FloorExceeds(redeem, ONE, amount * rate, U128_MAX);
        if redeem > U128_MAX then Err(Overflow)
        else Ok(UnstakeMsgs(contract, baseSubdenom, amount, to, redeem))
  }

  /** With 200 base tokens against 100 staking tokens, returning 50 staking
      tokens (a quarter of the pool's fair value) pays out all 200. */
  lemma UnstakeAsWrittenDrainsPool()
    ensures var funds := [Coin(StakingDenom("pool"), 50)];
            UnstakeAsWritten("pool", "base", funds, 200, 100, "alice")
              == Ok(UnstakeMsgs("pool", "base", 50, "alice", 200))
  {
    FloorUnique(4 * ONE, 50, 200 * ONE);
    assert CurrentExchangeRate(200, 100, None, Some(50)) == Ok(4 * ONE);
    FloorUnique(200, ONE, 50 * (4 * ONE));
    TruncateMulWhole(50, 4 * ONE);
  }

  /** `unstake`, with the rate of the whole staked supply (the returned
      tokens are burned only after the call): the returned staking tokens
      are burned and `amount * rate` base tokens are sent to `to`. */
  function Unstake(contract: Addr, baseSubdenom: string, funds: seq<Coin>, balance: nat,
                   stakedSupply: nat, to: Addr): (r: Result<seq<Msg>>)
    ensures DepositOneCoin(funds, StakingDenom(contract)).Err? ==>
              r == Err(ReceiveOneCoin(StakingDenom(contract)))
    ensures r.Err? && DepositOneCoin(funds, StakingDenom(contract)).Ok? ==> r.error == Overflow
    ensures r.Ok? ==>
              var amount := funds[0].amount;
              var rate := QueryExchangeRate(balance, stakedSupply).value;
              Burned(r.value, StakingDenom(contract)) == amount
              && r.value == UnstakeMsgs(contract, baseSubdenom, amount, to, RedeemAmount(amount, rate))
              && RedeemAmount(amount, rate) >= amount
    ensures r.Ok? <==> DepositOneCoin(funds, StakingDenom(contract)).Ok?
                       && funds[0].amount * QueryExchangeRate(balance, stakedSupply).value
                          < (U128_MAX + 1) * ONE
  {
    match DepositOneCoin(funds, StakingDenom(contract))
    case Err(e) => Err(e)
    case Ok(amount) =>
      var rate := QueryExchangeRate(balance, stakedSupply).value;
      var redeem := RedeemAmount(amount, rate);
      FloorExceeds(redeem, ONE, amount * rate, U128_MAX);
      if redeem > U128_MAX then Err(Overflow)
      else Ok(UnstakeMsgs(contract, baseSubdenom, amount, to, redeem))
  }

  /** With the corrected rate, an unstake pays at most its pro-rata share of
      the pool once the pool covers the staked supply; then an unstake of at
      most the staked supply never pays out more than the pool holds. While
      the pool holds less than the staked supply the rate stays at one, so
      every unstake redeems exactly its amount. */
  lemma {:induction false} UnstakeProRata(balance: nat, stakedSupply: nat, amount: nat)
    ensures stakedSupply <= balance ==>
              RedeemAmount(amount, QueryExchangeRate(balance, stakedSupply).value) * stakedSupply
                <= amount * balance
    ensures stakedSupply <= balance && amount <= stakedSupply ==>
              RedeemAmount(amount, QueryExchangeRate(balance, stakedSupply).value) <= balance
    ensures balance <= stakedSupply ==>
              RedeemAmount(amount, QueryExchangeRate(balance, stakedSupply).value) == amount
  {
    var rate := QueryExchangeRate(balance, stakedSupply).value;
    var redeem := RedeemAmount(amount, rate);
    if stakedSupply == 0 || balance <= stakedSupply {
      assert rate == ONE;
      FloorUnique(amount, ONE, amount * ONE);
    } else {
      // rate * supply <= balance * ONE.
      assert rate * stakedSupply <= balance * ONE;
      MulMonotone(redeem * ONE, amount * rate, stakedSupply);
      MulMonotone(rate * stakedSupply, balance * ONE, amount);
      assert (redeem * stakedSupply) * ONE == (redeem * ONE) * stakedSupply;
      assert (amount * rate) * stakedSupply == (rate * stakedSupply) * amount;
      assert (balance * ONE) * amount == (amount * balance) * ONE;
      MulCancel(redeem * stakedSupply, amount * balance, ONE);
      if amount <= stakedSupply {
        MulMonotone(amount, stakedSupply, balance);
        MulCancel(redeem, balance, stakedSupply);
      }
    }
  }

  /** A minter's permission record. */
  datatype MinterInfo = MinterInfo(canMint: bool)

  /** `mint`: a registered minter with permission has `amount` of the base
      token minted and sent to `to`. An unregistered sender fails the
      storage load. */
  function MintTokens(minters: map<Addr, MinterInfo>, contract: Addr, baseSubdenom: string,
                      sender: Addr, to: Addr, amount: nat): (r: Result<seq<Msg>>)
    ensures sender !in minters ==> r == Err(NotFound)
    ensures sender in minters && !minters[sender].canMint ==> r == Err(Unauthorized)
    ensures r.Ok? <==> sender in minters && minters[sender].canMint
    ensures r.Ok? ==> Minted(r.value, BaseDenom(contract, baseSubdenom)) == amount
                      && Received(r.value, to, BaseDenom(contract, baseSubdenom)) == amount
    ensures r.Ok? ==> r.value == MintMsgs(contract, BaseDenom(contract, baseSubdenom), to, amount)
  {
    if sender !in minters then Err(NotFound)
    else if !minters[sender].canMint then Err(Unauthorized)
    else Ok(MintMsgs(contract, BaseDenom(contract, baseSubdenom), to, amount))
  }

  /** A worked example: with 10,000 staking tokens out and 12,563 base
      tokens in the pool, a stake of 10,000 (already in the balance) mints
      10,000 * 10,000 / 12,563 = 7,959 staking tokens. */
  lemma StakeMintsAtPremiumRate()
    ensures var base := BaseDenom("pool", "base");
            var r := Stake("pool", "base", [Coin(base, 10_000)], 22_563, 10_000, "alice");
            r.Ok? && Minted(r.value, StakingDenom("pool")) == 7_959
  {
    var base := BaseDenom("pool", "base");
    BaseAndStakingDenomsDiffer("pool", "base");
    var rate := 1_256_300_000_000_000_000;
    FloorUnique(rate, 10_000, 12_563 * ONE);
    assert CurrentExchangeRate(22_563, 10_000, Some(10_000), None) == Ok(rate);
    var m := StakeMint(10_000, rate);
    FloorUnique(m, rate, 10_000 * ONE);
    FloorUnique(7_959, rate, 10_000 * ONE);
  }

  /** Stored configuration: epoch length in seconds and the per-epoch rate. */
  datatype StakingConfig = StakingConfig(epochLength: nat, epochApr: Dec, admin: Addr)

  datatype EpochState = EpochState(epochEnd: nat, epochNumber: nat)

  /** What `rebase` does at time `now` with the contract holding `balance`
      base tokens: nothing before the epoch ends; otherwise mint
      `balance * apr` base tokens to the contract and move on by exactly one
      epoch. */
  function RebaseOutcome(config: StakingConfig, state: EpochState, now: nat, balance: nat,
                         contract: Addr, baseSubdenom: string): (r: (EpochState, seq<Msg>))
    ensures state.epochEnd > now ==> r == (state, [])
    ensures state.epochEnd <= now ==>
              r.0 == EpochState(state.epochEnd + config.epochLength, state.epochNumber + 1)
              && |r.1| == 1 && r.1[0].Mint? && r.1[0].sender == contract
              && r.1[0].denom == BaseDenom(contract, baseSubdenom)
              && var minted := Minted(r.1, BaseDenom(contract, baseSubdenom));
                 minted * ONE <= balance * config.epochApr < (minted + 1) * ONE
  {
    if state.epochEnd > now then (state, [])
    else
      var msgs := [Mint(contract, BaseDenom(contract, baseSubdenom), MulFloor(balance, config.epochApr))];
      assert msgs[1..] == [];
      (EpochState(state.epochEnd + config.epochLength, state.epochNumber + 1), msgs)
  }

  /** A rebase catches up one epoch at a time: calling it again at the same
      time mints again exactly when more than one epoch had elapsed. */
  lemma {:induction false} RebaseAgainSameTime(config: StakingConfig, state: EpochState, now: nat,
                                               balance: nat, contract: Addr, baseSubdenom: string)
    requires state.epochEnd <= now
    ensures var once := RebaseOutcome(config, state, now, balance, contract, baseSubdenom).0;
            var twice := RebaseOutcome(config, once, now, balance, contract, baseSubdenom);
            (twice == (once, []) <==> state.epochEnd + config.epochLength > now)
            && twice.0.epochNumber <= state.epochNumber + 2
  {
  }

  class Staking {
    const contract: Addr
    const baseSubdenom: string
    var config: StakingConfig
    var epochState: EpochState

    /** Instantiation: the admin defaults to the sender; the first epoch
        has the given number and ends at the given time. */
    constructor Instantiate(contract: Addr, baseSubdenom: string, sender: Addr, admin: Option<Addr>,
                            epochLength: nat, epochApr: Dec, firstEpochNumber: nat,
                            firstEpochTime: nat)
      ensures this.contract == contract && this.baseSubdenom == baseSubdenom
      ensures config == StakingConfig(epochLength, epochApr, if admin.Some? then admin.value else sender)
      ensures epochState == EpochState(firstEpochTime, firstEpochNumber)
    {
      this.contract := contract;
      this.baseSubdenom := baseSubdenom;
      config := StakingConfig(epochLength, epochApr, if admin.Some? then admin.value else sender);
      epochState := EpochState(firstEpochTime, firstEpochNumber);
    }

    /** `rebase`, with the contract's base-token balance as a parameter. */
    method Rebase(now: nat, balance: nat) returns (msgs: seq<Msg>)
      modifies this
      ensures (epochState, msgs)
              == RebaseOutcome(config, old(epochState), now, balance, contract, baseSubdenom)
      ensures config == old(config)
    {
      if epochState.epochEnd > now {
        return [];
      }
      var rebaseAmount := MulFloor(balance, config.epochApr);
      msgs := [Mint(contract, BaseDenom(contract, baseSubdenom), rebaseAmount)];
      epochState := epochState.(epochEnd := epochState.epochEnd + config.epochLength,
                                epochNumber := epochState.epochNumber + 1);
    }
  }
}
