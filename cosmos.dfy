/** Host-chain vocabulary shared by every contract: addresses, coins, the
    outgoing messages a contract emits, and the error taxonomy. A failed call
    aborts the host transaction, so an `Err` result always means "no state
    change is observable". */
module Cosmos {

  type Addr = string

  /** Largest value of a Rust `u128` (Uint128). */
  const U128_MAX: nat := 0xFFFF_FFFF_FFFF_FFFF_FFFF_FFFF_FFFF_FFFF
  /** Largest value of a Rust `u64`. */
  const U64_MAX: nat := 0xFFFF_FFFF_FFFF_FFFF

  datatype Option<T> = None | Some(value: T)

  datatype Result<T> = Ok(value: T) | Err(error: Error)

  datatype Error =
    | Unauthorized
    | UnauthorizedWithAddress(address: Addr)
    | ReceiveOneCoin(denom: string)
    | MaxCapacityReached
    | SlippageLimit
    | MaxDebtReached
    | StalePrice
    | NotFound
    | DivideByZero
    | Overflow
    | AssetNotAccepted
    | NotEnoughDeposited(expected: nat, got: nat)
    | UnavailableMethod

  datatype Coin = Coin(denom: string, amount: nat)

  /** Outgoing messages: token-factory mint/burn/create-denom, bank sends and
      cw20 transfers. They are executed by the host after the call commits. */
  datatype Msg =
    | Mint(sender: Addr, denom: string, amount: nat)
    | Burn(sender: Addr, denom: string, amount: nat)
    | Send(to: Addr, denom: string, amount: nat)
    | CreateDenom(sender: Addr, subdenom: string)
    | Cw20TransferFrom(token: Addr, owner: Addr, recipient: Addr, amount: nat)
    | Cw20Transfer(token: Addr, recipient: Addr, amount: nat)

  /** The funds attached to a call must be exactly one coin of `denom`;
      its amount is returned. */
  function DepositOneCoin(funds: seq<Coin>, denom: string): (r: Result<nat>)
    ensures r.Ok? <==> |funds| == 1 && funds[0].denom == denom
    ensures r.Ok? ==> r.value == funds[0].amount
    ensures r.Err? ==> r.error == ReceiveOneCoin(denom)
  {
    if |funds| != 1 then Err(ReceiveOneCoin(denom))
    else if funds[0].denom != denom then Err(ReceiveOneCoin(denom))
    else Ok(funds[0].amount)
  }

  /** How much of `denom` one message mints, burns, or sends to `to`. */
  function MintedBy(m: Msg, denom: string): nat
  {
    if m.Mint? && m.denom == denom then m.amount else 0
  }

  function BurnedBy(m: Msg, denom: string): nat
  {
    if m.Burn? && m.denom == denom then m.amount else 0
  }

  function SentBy(m: Msg, to: Addr, denom: string): nat
  {
    if m.Send? && m.to == to && m.denom == denom then m.amount else 0
  }

  /** How much of `denom` the messages mint. */
  function Minted(msgs: seq<Msg>, denom: string): nat
  {
    if msgs == [] then 0 else MintedBy(msgs[0], denom) + Minted(msgs[1..], denom)
  }

  /** How much of `denom` the messages burn. */
  function Burned(msgs: seq<Msg>, denom: string): nat
  {
    if msgs == [] then 0 else BurnedBy(msgs[0], denom) + Burned(msgs[1..], denom)
  }

  /** How much of `denom` the messages send to `to`. */
  function Received(msgs: seq<Msg>, to: Addr, denom: string): nat
  {
    if msgs == [] then 0 else SentBy(msgs[0], to, denom) + Received(msgs[1..], to, denom)
  }

  /** The totals of a two-message response are the sums of its messages. */
  lemma PairTotals(m1: Msg, m2: Msg)
    ensures forall d :: Minted([m1, m2], d) == MintedBy(m1, d) + MintedBy(m2, d)
    ensures forall d :: Burned([m1, m2], d) == BurnedBy(m1, d) + BurnedBy(m2, d)
    ensures forall a, d :: Received([m1, m2], a, d) == SentBy(m1, a, d) + SentBy(m2, a, d)
  {
    var both, second: seq<Msg> := [m1, m2], [m2];
    assert both[1..] == second && second[1..] == [];
    forall d: string
      ensures Minted(both, d) == MintedBy(m1, d) + MintedBy(m2, d)
      ensures Burned(both, d) == BurnedBy(m1, d) + BurnedBy(m2, d)
    {
      assert Minted(second, d) == MintedBy(m2, d) + Minted([], d);
      assert Burned(second, d) == BurnedBy(m2, d) + Burned([], d);
    }
    forall a: Addr, d: string
      ensures Received(both, a, d) == SentBy(m1, a, d) + SentBy(m2, a, d)
    {
      assert Received(second, a, d) == SentBy(m2, a, d) + Received([], a, d);
    }
  }
}
