/** The lock contract's stored state and the operations that change it
    (contracts/lock/src/contract.rs and contracts/lock/src/execute.rs). A
    failed call aborts the host transaction, so every error path leaves the
    fields as they were. */
module LockContract {
  import opened Cosmos
  import opened FixedPoint
  import opened LockState
  import opened LockQuery

  /** The allow-list after saving each token in turn; a later entry for the
      same asset overwrites an earlier one. */
  function AddTokens(m: map<AssetInfo, Fee>, tokens: seq<AcceptedToken>): map<AssetInfo, Fee>
    decreases |tokens|
  {
    if tokens == [] then m
    else
      var last := tokens[|tokens| - 1];
      AddTokens(m, tokens[..|tokens| - 1])[last.asset := last.depositFee]
  }

  /** The allow-list after removing each asset in turn. */
  function RemoveTokens(m: map<AssetInfo, Fee>, assets: seq<AssetInfo>): (r: map<AssetInfo, Fee>)
    ensures forall k :: k in r <==> k in m && k !in assets
    ensures forall k :: k in r ==> r[k] == m[k]
    decreases |assets|
  {
    if assets == [] then m
    else RemoveTokens(m, assets[..|assets| - 1]) - {assets[|assets| - 1]}
  }

  /** The assets a list of tokens names. */
  function Assets(tokens: seq<AcceptedToken>): set<AssetInfo>
  {
    set i | 0 <= i < |tokens| :: tokens[i].asset
  }

  /** Saving tokens adds exactly the listed assets and leaves every other
      entry as it was. */
  lemma {:induction false} AddTokensContents(m: map<AssetInfo, Fee>, tokens: seq<AcceptedToken>, k: AssetInfo)
    ensures k in AddTokens(m, tokens) <==> k in m || k in Assets(tokens)
    ensures k !in Assets(tokens) && k in m ==> AddTokens(m, tokens)[k] == m[k]
    decreases |tokens|
  {
    if tokens != [] {
      var init := tokens[..|tokens| - 1];
      AddTokensContents(m, init, k);
      assert Assets(tokens) == Assets(init) + {tokens[|tokens| - 1].asset} by {
        forall a | a in Assets(tokens) ensures a in Assets(init) + {tokens[|tokens| - 1].asset} {
          var i :| 0 <= i < |tokens| && tokens[i].asset == a;
          if i < |tokens| - 1 {
            assert init[i] == tokens[i];
          }
        }
        forall a | a in Assets(init) ensures a in Assets(tokens) {
          var i :| 0 <= i < |init| && init[i].asset == a;
          assert tokens[i] == init[i];
        }
      }
    }
  }

  /** The fee stored for an asset is the one of its last entry in the list. */
  lemma {:induction false} AddTokensLastWins(m: map<AssetInfo, Fee>, tokens: seq<AcceptedToken>, i: nat)
    requires i < |tokens|
    requires forall j :: i < j < |tokens| ==> tokens[j].asset != tokens[i].asset
    ensures tokens[i].asset in AddTokens(m, tokens)
    ensures AddTokens(m, tokens)[tokens[i].asset] == tokens[i].depositFee
    decreases |tokens|
  {
    if i < |tokens| - 1 {
      var init := tokens[..|tokens| - 1];
      assert init[i] == tokens[i];
      AddTokensLastWins(m, init, i);
    }
  }

  /** `update_accepted_token`'s outcome: additions first, then removals, so
      an asset in both lists ends up absent and every asset in neither is
      untouched. */
  function AcceptedAfterUpdate(m: map<AssetInfo, Fee>, toAdd: seq<AcceptedToken>,
                               toRemove: seq<AssetInfo>): (r: map<AssetInfo, Fee>)
    ensures forall k :: k in r <==> k !in toRemove && (k in m || k in Assets(toAdd))
    ensures forall k :: k in r && k !in Assets(toAdd) ==> r[k] == m[k]
  {
    forall k ensures k in AddTokens(m, toAdd) <==> k in m || k in Assets(toAdd)
             ensures k !in Assets(toAdd) && k in m ==> AddTokens(m, toAdd)[k] == m[k]
    {
      AddTokensContents(m, toAdd, k);
    }
    RemoveTokens(AddTokens(m, toAdd), toRemove)
  }

  /** The message that moves `asset` to `to`; a cw1155 asset has none. */
  function TransferMsg(asset: Asset, to: Addr): (r: Result<Msg>)
    ensures r.Err? <==> asset.info.Cw1155?
    ensures r.Err? ==> r.error == UnavailableMethod
    ensures r.Ok? ==> !r.value.CreateDenom? && r.value.amount == asset.amount
    ensures asset.info.Native? ==> r == Ok(Send(to, asset.info.denom, asset.amount))
    ensures asset.info.Cw20? ==> r == Ok(Cw20Transfer(asset.info.contractAddr, to, asset.amount))
  {
    match asset.info
    case Native(denom) => Ok(Send(to, denom, asset.amount))
    case Cw20(addr) => Ok(Cw20Transfer(addr, to, asset.amount))
    case Cw1155(_, _) => Err(UnavailableMethod)
  }

  /** The part of `execute_lock` after the fee: the deposit gets the next
      id and the post-fee asset; a cw20 asset is pulled from the sender, a
      native asset must arrive as exactly one coin of the post-fee amount,
      and any other kind is refused. */
  function AdmitDeposit(kept: Asset, nextDepositId: nat, contract: Addr, sender: Addr,
                        funds: seq<Coin>, to: Addr, lock: DepositLock)
    : (r: Result<(DepositInfo, seq<Msg>)>)
    ensures r.Ok? <==> kept.info.Cw20? || (kept.info.Native? && funds == [Coin(kept.info.denom, kept.amount)])
    ensures r.Ok? ==> r.value.0 == DepositInfo(nextDepositId + 1, lock, to, kept)
    ensures r.Ok? && kept.info.Native? ==> r.value.1 == []
    ensures r.Ok? && kept.info.Cw20? ==>
              r.value.1 == [Cw20TransferFrom(kept.info.contractAddr, sender, contract, kept.amount)]
    ensures kept.info.Cw1155? ==> r == Err(AssetNotAccepted)
    ensures kept.info.Native? && DepositOneCoin(funds, kept.info.denom).Err? ==>
              r == Err(ReceiveOneCoin(kept.info.denom))
    ensures kept.info.Native? && DepositOneCoin(funds, kept.info.denom).Ok?
            && funds[0].amount != kept.amount ==>
              r == Err(NotEnoughDeposited(kept.amount, funds[0].amount))
  {
    var info := DepositInfo(nextDepositId + 1, lock, to, kept);
    match kept.info
    case Cw20(addr) => Ok((info, [Cw20TransferFrom(addr, sender, contract, kept.amount)]))
    case Native(denom) =>
      (match DepositOneCoin(funds, denom)
       case Err(e) => Err(e)
       case Ok(amount) =>
         if amount != kept.amount then Err(NotEnoughDeposited(kept.amount, amount))
         else Ok((info, [])))
    case Cw1155(_, _) => Err(AssetNotAccepted)
  }

  /** `execute_lock` as written, with `Fee::apply` as written: under a fixed
      fee only a deposit of exactly the fee can be locked, and it locks
      nothing. A variable fee behaves as in `LockOutcome`. */
  function LockOutcomeAsWritten(accepted: map<AssetInfo, Fee>, nextDepositId: nat, contract: Addr,
                                sender: Addr, funds: seq<Coin>, to: Addr, token: Asset,
                                lock: DepositLock): (r: Result<(DepositInfo, seq<Msg>)>)
    ensures token.info !in accepted ==> r == Err(AssetNotAccepted)
    ensures token.info in accepted && accepted[token.info].Fixed? ==>
              (r.Ok? ==> accepted[token.info].fee == token.amount && r.value.0.asset.amount == 0)
              && (accepted[token.info].fee < token.amount ==>
                    r == Err(NotEnoughDeposited(accepted[token.info].fee, token.amount)))
    ensures token.info in accepted && accepted[token.info].Variable? ==>
              r == LockOutcome(accepted, nextDepositId, contract, sender, funds, to, token, lock)
  {
    if token.info !in accepted then Err(AssetNotAccepted)
    else
      match ApplyFeeAsWritten(accepted[token.info], token)
      case Err(e) => Err(e)
      case Ok(kept) => AdmitDeposit(kept, nextDepositId, contract, sender, funds, to, lock)
  }

  /** `execute_lock` on values, with the corrected fee (`ApplyFee`): the
      asset must be on the allow-list, its fee is applied, and the rest is
      `AdmitDeposit`. */
  function LockOutcome(accepted: map<AssetInfo, Fee>, nextDepositId: nat, contract: Addr,
                       sender: Addr, funds: seq<Coin>, to: Addr, token: Asset,
                       lock: DepositLock): (r: Result<(DepositInfo, seq<Msg>)>)
    ensures token.info !in accepted ==> r == Err(AssetNotAccepted)
    ensures token.info.Cw1155? ==> r.Err?
    ensures r.Ok? <==> token.info in accepted && ApplyFee(accepted[token.info], token).Ok?
                       && (token.info.Cw20?
                           || (token.info.Native?
                               && funds == [Coin(token.info.denom, ApplyFee(accepted[token.info], token).value.amount)]))
    ensures token.info in accepted && ApplyFee(accepted[token.info], token).Err? ==>
              r == Err(ApplyFee(accepted[token.info], token).error)
    ensures r.Ok? ==> r.value.0 == DepositInfo(nextDepositId + 1, lock, to,
                                               ApplyFee(accepted[token.info], token).value)
    ensures r.Ok? && token.info.Native? ==> r.value.1 == []
    ensures r.Ok? && token.info.Cw20? ==>
              r.value.1 == [Cw20TransferFrom(token.info.contractAddr, sender, contract,
                                             r.value.0.asset.amount)]
    ensures token.info in accepted && accepted[token.info].Fixed?
            && token.amount < accepted[token.info].fee ==>
              r == Err(NotEnoughDeposited(accepted[token.info].fee, token.amount))
  {
    if token.info !in accepted then Err(AssetNotAccepted)
    else
      match ApplyFee(accepted[token.info], token)
      case Err(e) => Err(e)
      case Ok(kept) => AdmitDeposit(kept, nextDepositId, contract, sender, funds, to, lock)
  }

  /** A native lock of 100 under a fixed fee of 10, with the 90 left after
      the fee attached, is refused as written and locks 90 with the
      corrected fee. */
  lemma LockAsWrittenRefusesFeePayingDeposit()
    ensures var accepted := map[Native("uatom") := Fixed(10)];
            var token := Asset(Native("uatom"), 100);
            var funds := [Coin("uatom", 90)];
            LockOutcomeAsWritten(accepted, 0, "lock", "alice", funds, "alice", token, TimeUnlock(5))
              == Err(NotEnoughDeposited(10, 100))
            && LockOutcome(accepted, 0, "lock", "alice", funds, "alice", token, TimeUnlock(5))
              == Ok((DepositInfo(1, TimeUnlock(5), "alice", Asset(Native("uatom"), 90)), []))
  {
  }

  /** A lock after an unlock at `now`: a linear lock's clock restarts at
      `now` unless it starts later; a cliff is unchanged. */
  function Restarted(lock: DepositLock, now: nat): (r: DepositLock)
    ensures r.Linear? <==> lock.Linear?
    ensures lock.TimeUnlock? ==> r == lock
    ensures r.Linear? ==> r.perSecondVesting == lock.perSecondVesting
                          && now <= r.start && lock.start <= r.start
                          && (r.start == now || r.start == lock.start)
  {
    match lock
    case Linear(start, perSecond) => Linear(if start < now then now else start, perSecond)
    case TimeUnlock(_) => lock
  }

  /** `execute_unlock` on one deposit: only the recipient, as sender or as
      destination, may unlock; something must be releasable; the releasable
      amount is transferred to `to` and taken off the deposit, and a linear
      lock restarts its clock at `now`. */
  function UnlockOutcome(d: DepositInfo, sender: Addr, to: Addr, now: nat): (r: Result<(Msg, DepositInfo)>)
    ensures sender != d.recipient && to != d.recipient ==> r == Err(Unauthorized)
    ensures sender == d.recipient || to == d.recipient ==>
              (AvailableUnlock(d, now).Err? ==> r == Err(AvailableUnlock(d, now).error))
              && (AvailableUnlock(d, now).Ok? && Unlockable(AvailableUnlock(d, now).value) == 0
                  ==> r == Err(NotEnoughDeposited(1, 0)))
    ensures r.Ok? <==> (sender == d.recipient || to == d.recipient)
                       && AvailableUnlock(d, now).Ok?
                       && Unlockable(AvailableUnlock(d, now).value) > 0
                       && !d.asset.info.Cw1155?
    ensures (sender == d.recipient || to == d.recipient) && AvailableUnlock(d, now).Ok?
            && Unlockable(AvailableUnlock(d, now).value) > 0 && d.asset.info.Cw1155? ==>
              r == Err(UnavailableMethod)
    ensures r.Ok? ==>
              var paid := Unlockable(AvailableUnlock(d, now).value);
              var (msg, rest) := r.value;
              paid > 0 && !msg.CreateDenom? && msg.amount == paid
              && TransferMsg(Asset(d.asset.info, paid), to) == Ok(msg)
              && rest.id == d.id && rest.recipient == d.recipient && rest.asset.info == d.asset.info
              && paid + rest.asset.amount == d.asset.amount
              && rest.lock == Restarted(d.lock, now)
              && (d.lock.TimeUnlock? ==> rest.asset.amount == 0)
  {
    if sender != d.recipient && to != d.recipient then Err(Unauthorized)
    else
      match AvailableUnlock(d, now)
      case Err(e) => Err(e)
      case Ok(release) =>
        var paid := Unlockable(release);
        if paid == 0 then Err(NotEnoughDeposited(1, 0))
        else
          var rest := d.(lock := Restarted(d.lock, now), asset := d.asset.(amount := d.asset.amount - paid));
          match TransferMsg(Asset(d.asset.info, paid), to)
          case Err(e) => Err(e)
          case Ok(msg) => Ok((msg, rest))
  }

  /** `execute_unlock` as written: the reduced deposit is computed on a
      local copy and never saved, so the stored deposits come back as they
      were. */
  function UnlockAsWritten(deposits: map<nat, DepositInfo>, id: nat, sender: Addr, to: Addr,
                           now: nat): (r: (Result<Msg>, map<nat, DepositInfo>))
    ensures r.1 == deposits
    ensures id !in deposits ==> r.0 == Err(NotFound)
    ensures id in deposits ==> (r.0.Ok? <==> UnlockOutcome(deposits[id], sender, to, now).Ok?)
    ensures r.0.Ok? ==> r.0.value == UnlockOutcome(deposits[id], sender, to, now).value.0
  {
    if id !in deposits then (Err(NotFound), deposits)
    else
      match UnlockOutcome(deposits[id], sender, to, now)
      case Err(e) => (Err(e), deposits)
      case Ok((msg, _)) => (Ok(msg), deposits)
  }

  /** As written, a cliff deposit of 100 can be unlocked twice, paying out
      200. */
  lemma UnlockTwiceAsWritten()
    ensures var deposits := map[1 := DepositInfo(1, TimeUnlock(5), "alice", Asset(Native("uatom"), 100))];
            var first := UnlockAsWritten(deposits, 1, "alice", "alice", 10);
            var second := UnlockAsWritten(first.1, 1, "alice", "alice", 11);
            first.0 == Ok(Send("alice", "uatom", 100)) && second.0 == Ok(Send("alice", "uatom", 100))
  {
  }

  /** `execute_unlock` with the reduced deposit saved back under its id. */
  function UnlockStep(deposits: map<nat, DepositInfo>, id: nat, sender: Addr, to: Addr,
                      now: nat): (r: (Result<Msg>, map<nat, DepositInfo>))
    ensures id !in deposits ==> r == (Err(NotFound), deposits)
    ensures r.0.Err? ==> r.1 == deposits
    ensures r.0.Ok? ==> id in deposits && UnlockOutcome(deposits[id], sender, to, now).Ok?
                        && r.0.value == UnlockOutcome(deposits[id], sender, to, now).value.0
                        && r.1 == deposits[id := UnlockOutcome(deposits[id], sender, to, now).value.1]
  {
    if id !in deposits then (Err(NotFound), deposits)
    else
      match UnlockOutcome(deposits[id], sender, to, now)
      case Err(e) => (Err(e), deposits)
      case Ok((msg, rest)) => (Ok(msg), deposits[id := rest])
  }

  /** Once saved, a cliff deposit pays out once: a second unlock finds
      nothing left. */
  lemma {:induction false} TimeUnlockPaysOnce(deposits: map<nat, DepositInfo>, id: nat, sender: Addr,
                                              to: Addr, now: nat, later: nat)
    requires id in deposits && deposits[id].lock.TimeUnlock?
    requires UnlockStep(deposits, id, sender, to, now).0.Ok?
    requires sender == deposits[id].recipient || to == deposits[id].recipient
    ensures UnlockStep(UnlockStep(deposits, id, sender, to, now).1, id, sender, to, later).0
            == Err(NotEnoughDeposited(1, 0))
  {
    var after := UnlockStep(deposits, id, sender, to, now).1;
    var d := after[id];
    assert d.asset.amount == 0 && d.lock.TimeUnlock? && d.recipient == deposits[id].recipient;
    assert Unlockable(AvailableUnlock(d, later).value) == 0;
  }

  /** The amount a transfer message carries (zero when the unlock failed). */
  function Paid(r: Result<Msg>): nat
  {
    if r.Ok? && !r.value.CreateDenom? then r.value.amount else 0
  }

  /** A sequence of unlock calls `(sender, to, now)` on one deposit: the
      total paid out and the deposits afterwards. */
  function UnlockRun(deposits: map<nat, DepositInfo>, id: nat, calls: seq<(Addr, Addr, nat)>)
    : (nat, map<nat, DepositInfo>)
    decreases |calls|
  {
    if calls == [] then (0, deposits)
    else
      var step := UnlockStep(deposits, id, calls[0].0, calls[0].1, calls[0].2);
      var rest := UnlockRun(step.1, id, calls[1..]);
      (Paid(step.0) + rest.0, rest.1)
  }

  /** Whatever unlocks are called, what has been paid out plus what is still
      locked is the amount deposited. */
  lemma {:induction false} UnlockRunConserves(deposits: map<nat, DepositInfo>, id: nat,
                                              calls: seq<(Addr, Addr, nat)>)
    requires id in deposits
    ensures id in UnlockRun(deposits, id, calls).1
    ensures UnlockRun(deposits, id, calls).0 + UnlockRun(deposits, id, calls).1[id].asset.amount
            == deposits[id].asset.amount
    decreases |calls|
  {
    if calls != [] {
      var step := UnlockStep(deposits, id, calls[0].0, calls[0].1, calls[0].2);
      UnlockRunConserves(step.1, id, calls[1..]);
    }
  }

  class LockContract {
    const contract: Addr
    var admin: Addr
    var nextDepositId: nat
    var acceptedTokens: map<AssetInfo, Fee>
    var deposits: map<nat, DepositInfo>

    /** Every deposit is stored under its own id, and ids run from 1 to the
        last one handed out. */
    predicate Valid()
      reads this
    {
      forall k :: k in deposits ==> 1 <= k <= nextDepositId && deposits[k].id == k
    }

    /** `instantiate`: the admin defaults to the sender, the id counter
        starts at 0, and every listed token is saved with its fee. */
    constructor Instantiate(contract: Addr, sender: Addr, admin: Option<Addr>,
                            acceptedTokens: seq<AcceptedToken>)
      ensures Valid()
      ensures this.contract == contract
      ensures this.admin == (if admin.Some? then admin.value else sender)
      ensures nextDepositId == 0 && deposits == map[]
      ensures this.acceptedTokens == AddTokens(map[], acceptedTokens)
    {
      this.contract := contract;
      this.admin := if admin.Some? then admin.value else sender;
      nextDepositId := 0;
      deposits := map[];
      var accepted: map<AssetInfo, Fee> := map[];
      var i := 0;
      while i < |acceptedTokens|
        invariant 0 <= i <= |acceptedTokens|
        invariant accepted == AddTokens(map[], acceptedTokens[..i])
      {
        assert acceptedTokens[..i + 1][..i] == acceptedTokens[..i];
        accepted := accepted[acceptedTokens[i].asset := acceptedTokens[i].depositFee];
        i := i + 1;
      }
      assert acceptedTokens[..i] == acceptedTokens;
      this.acceptedTokens := accepted;
    }

    /** `update_config`: the admin may hand over to a new admin. */
    method UpdateConfig(sender: Addr, newAdmin: Option<Addr>) returns (r: Result<()>)
      modifies this
      ensures r.Err? <==> sender != old(admin)
      ensures r.Err? ==> r.error == Unauthorized && admin == old(admin)
      ensures r.Ok? ==> admin == if newAdmin.Some? then newAdmin.value else old(admin)
      ensures nextDepositId == old(nextDepositId) && acceptedTokens == old(acceptedTokens)
      ensures deposits == old(deposits)
    {
      if sender != admin {
        return Err(Unauthorized);
      }
      if newAdmin.Some? {
        admin := newAdmin.value;
      }
      return Ok(());
    }

    /** `update_accepted_token`: the admin saves every token of `toAdd`, then
        removes every asset of `toRemove`. */
    method UpdateAcceptedToken(sender: Addr, toAdd: seq<AcceptedToken>, toRemove: seq<AssetInfo>)
      returns (r: Result<()>)
      modifies this
      ensures r.Err? <==> sender != old(admin)
      ensures r.Err? ==> r.error == Unauthorized && acceptedTokens == old(acceptedTokens)
      ensures r.Ok? ==> acceptedTokens == AcceptedAfterUpdate(old(acceptedTokens), toAdd, toRemove)
      ensures admin == old(admin) && nextDepositId == old(nextDepositId) && deposits == old(deposits)
    {
      if sender != admin {
        return Err(Unauthorized);
      }
      var accepted := acceptedTokens;
      var i := 0;
      while i < |toAdd|
        invariant 0 <= i <= |toAdd|
        invariant accepted == AddTokens(acceptedTokens, toAdd[..i])
      {
        assert toAdd[..i + 1][..i] == toAdd[..i];
        accepted := accepted[toAdd[i].asset := toAdd[i].depositFee];
        i := i + 1;
      }
      assert toAdd[..i] == toAdd;
      var j := 0;
      while j < |toRemove|
        invariant 0 <= j <= |toRemove|
        invariant accepted == RemoveTokens(AddTokens(acceptedTokens, toAdd), toRemove[..j])
      {
        assert toRemove[..j + 1][..j] == toRemove[..j];
        accepted := accepted - {toRemove[j]};
        j := j + 1;
      }
      assert toRemove[..j] == toRemove;
      acceptedTokens := accepted;
      return Ok(());
    }

    /** `execute_lock`: on success the counter moves on by one and the new
        deposit is stored under the new id, which no earlier deposit holds. */
    method Lock(sender: Addr, funds: seq<Coin>, to: Addr, token: Asset, lock: DepositLock)
      returns (r: Result<seq<Msg>>)
      requires Valid()
      modifies this
      ensures Valid()
      ensures var outcome := LockOutcome(old(acceptedTokens), old(nextDepositId), contract,
                                         sender, funds, to, token, lock);
              (r.Ok? <==> outcome.Ok?)
              && (r.Err? ==> r.error == outcome.error && nextDepositId == old(nextDepositId)
                             && deposits == old(deposits))
              && (r.Ok? ==> r.value == outcome.value.1
                            && nextDepositId == old(nextDepositId) + 1
                            && nextDepositId !in old(deposits)
                            && deposits == old(deposits)[nextDepositId := outcome.value.0])
      ensures admin == old(admin) && acceptedTokens == old(acceptedTokens)
    {
      var outcome := LockOutcome(acceptedTokens, nextDepositId, contract, sender, funds, to, token, lock);
      if outcome.Err? {
        return Err(outcome.error);
      }
      nextDepositId := nextDepositId + 1;
      deposits := deposits[nextDepositId := outcome.value.0];
      return Ok(outcome.value.1);
    }

    /** `execute_unlock`, saving the reduced deposit (see `UnlockStep`). */
    method Unlock(sender: Addr, to: Addr, id: nat, now: nat) returns (r: Result<Msg>)
      requires Valid()
      modifies this
      ensures Valid()
      ensures (r, deposits) == UnlockStep(old(deposits), id, sender, to, now)
      ensures admin == old(admin) && nextDepositId == old(nextDepositId)
      ensures acceptedTokens == old(acceptedTokens)
    {
      if id !in deposits {
        return Err(NotFound);
      }
      var outcome := UnlockOutcome(deposits[id], sender, to, now);
      if outcome.Err? {
        return Err(outcome.error);
      }
      deposits := deposits[id := outcome.value.1];
      return Ok(outcome.value.0);
    }
  }
}
