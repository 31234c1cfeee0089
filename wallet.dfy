/**
 The token wallet as mutable state: one object holding the balances map,
 whose update calls rewrite the map in place and whose query reads it. The
 caller identity, which the host runtime supplies, is an explicit argument.
 SendTokens and ReceiveTokens are specified by the corresponding functions of
 module Ledger and restate, in terms of BalanceOf, what those functions are
 proved to do; Reset is specified by the empty map.
 */
module Wallet {
  import opened Ledger

  class TokenWallet {
    /** Account identity to balance; a missing key means a balance of 0. */
    var balances: Balances

    /** The wallet the runtime starts with: no entries at all. */
    constructor ()
      ensures balances == map[]
    {
      balances := map[];
    }

    /** The balance of `id`, 0 when `id` has no entry. */
    function BalanceOf(id: string): (b: U64)
      reads this
    {
      BalanceIn(balances, id)
    }

    /** The sum of all balances. */
    ghost function TotalSupply(): (t: nat)
      reads this
    {
      Total(balances)
    }

    /** `send_tokens`: move `amount` from `caller` to `to`, or report an
        insufficient balance and change nothing. */
    method SendTokens(caller: string, to: string, amount: U64) returns (r: Reply)
      requires TransferFits(balances, caller, to, amount)
      modifies this
      ensures (r, balances) == Transfer(old(balances), caller, to, amount)
      ensures r.Err? <==> old(BalanceOf(caller)) < amount
      ensures r.Err? ==> r.reason == INSUFFICIENT_BALANCE && balances == old(balances)
      ensures r.Ok? && caller != to ==>
                && BalanceOf(caller) == old(BalanceOf(caller)) - amount
                && BalanceOf(to) == old(BalanceOf(to)) + amount
      ensures r.Ok? && caller == to ==> BalanceOf(caller) == old(BalanceOf(caller))
      ensures forall x :: x != caller && x != to ==> BalanceOf(x) == old(BalanceOf(x))
      ensures TotalSupply() == old(TotalSupply())
    {
      var senderBalance := BalanceOf(caller);
      if senderBalance < amount {
        return Err(INSUFFICIENT_BALANCE);
      }
      balances := balances[caller := BalanceOf(caller) - amount];
      balances := balances[to := BalanceOf(to) + amount];
      r := Ok;
    }

    /** `receive_tokens`: credit `amount` to `caller`, minting it. */
    method ReceiveTokens(caller: string, amount: U64) returns (r: Reply)
      requires BalanceOf(caller) + amount < U64_MODULUS
      modifies this
      ensures r == Ok
      ensures balances == Credit(old(balances), caller, amount)
      ensures BalanceOf(caller) == old(BalanceOf(caller)) + amount
      ensures forall x :: x != caller ==> BalanceOf(x) == old(BalanceOf(x))
      ensures TotalSupply() == old(TotalSupply()) + amount
    {
      balances := balances[caller := BalanceOf(caller) + amount];
      r := Ok;
    }

    /** `get_balance`: the caller's balance, 0 when the caller has no entry. */
    method GetBalance(caller: string) returns (b: U64)
      ensures caller in balances ==> b == balances[caller]
      ensures caller !in balances ==> b == 0
      ensures b == BalanceOf(caller)
    {
      b := if caller in balances then balances[caller] else 0;
    }

    /** `reset`: drop every entry, so every balance reads as 0 again. */
    method Reset()
      modifies this
      ensures balances == map[]
      ensures forall id :: BalanceOf(id) == 0
      ensures TotalSupply() == 0
    {
      balances := map[];
    }
  }

  /** The two principals the unit tests switch between. */
  const SENDER: string := "rrkah-fqaaa-aaaaa-aaaaq-cai"
  const RECEIVER: string := "renrk-eyaaa-aaaaa-aaada-cai"

  /** The send-and-receive unit test, on a wallet in whatever state earlier
      calls left: reset, receive 100, send 50, then both sides read 50. */
  method ScenarioSendReceive(wallet: TokenWallet)
    returns (received: Reply, sent: Reply, senderBalance: U64, receiverBalance: U64)
    modifies wallet
    ensures received == Ok && sent == Ok
    ensures senderBalance == 50 && receiverBalance == 50
  {
    assert SENDER[1] != RECEIVER[1];
    wallet.Reset();
    received := wallet.ReceiveTokens(SENDER, 100);
    sent := wallet.SendTokens(SENDER, RECEIVER, 50);
    senderBalance := wallet.GetBalance(SENDER);
    receiverBalance := wallet.GetBalance(RECEIVER);
  }

  /** The insufficient-balance unit test: reset, receive 40, try to send 50;
      the send fails and the balances stay 40 and 0. */
  method ScenarioInsufficientBalance(wallet: TokenWallet)
    returns (received: Reply, sent: Reply, senderBalance: U64, receiverBalance: U64)
    modifies wallet
    ensures received == Ok && sent == Err(INSUFFICIENT_BALANCE)
    ensures senderBalance == 40 && receiverBalance == 0
  {
    assert SENDER[1] != RECEIVER[1];
    wallet.Reset();
    received := wallet.ReceiveTokens(SENDER, 40);
    sent := wallet.SendTokens(SENDER, RECEIVER, 50);
    senderBalance := wallet.GetBalance(SENDER);
    receiverBalance := wallet.GetBalance(RECEIVER);
  }

  /** A balance query on a wallet nobody has used yet reads 0 for anyone. */
  method ScenarioFreshWallet(anyone: string) returns (balance: U64)
    ensures balance == 0
  {
    var wallet := new TokenWallet();
    balance := wallet.GetBalance(anyone);
  }
}
