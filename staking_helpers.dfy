/** Message builders of the staking contract
    (contracts/staking/src/helpers.rs). The coin check of the same file is
    `Cosmos.DepositOneCoin`. */
module StakingHelpers {
  import opened Cosmos

  /** `mint_msgs`: mint `amount` of `denom` to the contract, then send that
      same amount to `receiver`; nothing else is minted, burned or sent. */
  function MintMsgs(contract: Addr, denom: string, receiver: Addr, amount: nat): (msgs: seq<Msg>)
    ensures |msgs| == 2 && msgs[0].Mint? && msgs[0].sender == contract && msgs[1].Send?
    ensures Minted(msgs, denom) == amount
    ensures Received(msgs, receiver, denom) == amount
    ensures forall d :: d != denom ==> Minted(msgs, d) == 0
    ensures forall a, d :: (a, d) != (receiver, denom) ==> Received(msgs, a, d) == 0
    ensures forall d :: Burned(msgs, d) == 0
  {
    var msgs := [Mint(contract, denom, amount), Send(receiver, denom, amount)];
    PairTotals(msgs[0], msgs[1]);
    msgs
  }

  /** `create_denom_msg`: the contract itself creates `subdenom`. */
  function CreateDenomMsg(contract: Addr, subdenom: string): (m: Msg)
    ensures m.CreateDenom? && m.sender == contract && m.subdenom == subdenom
  {
    CreateDenom(contract, subdenom)
  }
}
