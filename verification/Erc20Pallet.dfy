/** The token pallet: an object whose dispatchables update its storage in place. */
module Erc20Pallet {
  import opened Bytes
  import opened Erc20Model

  class Pallet {
    var tokenId: U32
    var tokens: map<U32, Token>
    var balances: map<Holding, U64>
    var allowances: map<Spend, U64>
    var events: seq<Event>

    ghost function View(): State
      reads this
    {
      State(tokenId, tokens, balances, allowances, events)
    }

    constructor ()
      ensures View() == GENESIS
    {
      tokenId, tokens, balances, allowances, events := 0, map[], map[], map[], [];
    }

    method BalanceOf(token: U32, owner: AccountId) returns (b: U64)
      ensures b == Balance(View(), token, owner)
    {
      var h := Holding(token, owner);
      b := if h in balances then balances[h] else 0;
    }

    method AllowanceOf(k: Spend) returns (a: U64)
      ensures a == Allowed(View(), k)
    {
      a := if k in allowances then allowances[k] else 0;
    }

    method Init(origin: AccountId, name: seq<Byte>, ticker: seq<Byte>, totalSupply: U64) returns (r: Outcome)
      modifies this
      ensures Result(View(), r) == Erc20Model.Init(old(View()), origin, name, ticker, totalSupply)
    {
      if |name| > 64 {
        return Err(NameTooLong);
      }
      if |ticker| > 32 {
        return Err(TickerTooLong);
      }
      var id := tokenId;
      if id + 1 >= TWO_32 {
        return Err(TokenIdOverflow);
      }
      tokenId := id + 1;
      tokens := tokens[id := Token(name, ticker, totalSupply)];
      balances := balances[Holding(id, origin) := totalSupply];
      return Ok;
    }

    method Transfer(origin: AccountId, token: U32, to: AccountId, value: U64) returns (r: Outcome)
      modifies this
      ensures Result(View(), r) == Move(old(View()), token, origin, to, value)
    {
      r := DoTransfer(token, origin, to, value);
    }

    method Approve(origin: AccountId, token: U32, spender: AccountId, value: U64) returns (r: Outcome)
      modifies this
      ensures Result(View(), r) == Erc20Model.Approve(old(View()), origin, token, spender, value)
    {
      if Holding(token, origin) !in balances {
        return Err(NotOwner);
      }
      var allowance := AllowanceOf(Spend(token, origin, spender));
      if allowance + value >= TWO_64 {
        return Err(AllowanceOverflow);
      }
      allowances := allowances[Spend(token, origin, spender) := allowance + value];
      events := events + [ApprovalEvent(token, origin, spender, value)];
      return Ok;
    }

    method TransferFrom(origin: AccountId, token: U32, from: AccountId, to: AccountId, value: U64)
      returns (r: Outcome)
      modifies this
      ensures Result(View(), r) == Erc20Model.TransferFrom(old(View()), token, from, to, value)
    {
      var k := Spend(token, from, to);
      if k !in allowances {
        return Err(NoAllowance);
      }
      var allowance := AllowanceOf(k);
      if allowance < value {
        return Err(NotEnoughAllowance);
      }
      allowances := allowances[k := allowance - value];
      events := events + [ApprovalEvent(token, from, to, value)];
      r := DoTransfer(token, from, to, value);
    }

    method DoTransfer(token: U32, from: AccountId, to: AccountId, value: U64) returns (r: Outcome)
      modifies this
      ensures Result(View(), r) == Move(old(View()), token, from, to, value)
    {
      if Holding(token, from) !in balances {
        return Err(NotOwner);
      }
      var senderBalance := BalanceOf(token, from);
      if senderBalance < value {
        return Err(NotEnoughBalance);
      }
      var receiverBalance := BalanceOf(token, to);
      if receiverBalance + value >= TWO_64 {
        return Err(BalanceOverflow);
      }
      balances := balances[Holding(token, from) := senderBalance - value];
      balances := balances[Holding(token, to) := receiverBalance + value];
      events := events + [TransferEvent(token, from, to, value)];
      return Ok;
    }

    /** One call of the runtime reaches its dispatchable. */
    method Dispatch(call: Call) returns (r: Outcome)
      modifies this
      ensures Result(View(), r) == Step(old(View()), call)
    {
      match call
      case InitCall(origin, name, ticker, totalSupply) => r := Init(origin, name, ticker, totalSupply);
      case TransferCall(origin, token, to, value) => r := Transfer(origin, token, to, value);
      case ApproveCall(origin, token, spender, value) => r := Approve(origin, token, spender, value);
      case TransferFromCall(origin, token, from, to, value) => r := TransferFrom(origin, token, from, to, value);
    }
  }

  /** A whole run on a new pallet object: it ends in the state, and returns the outcomes, of the modelled run. */
  method Run(calls: seq<Call>) returns (p: Pallet, outs: seq<Outcome>)
    ensures fresh(p) && p.View() == Exec(calls) && outs == Outcomes(calls)
  {
    p := new Pallet();
    outs := [];
    for i := 0 to |calls|
      invariant fresh(p)
      invariant p.View() == Exec(calls[..i]) && outs == Outcomes(calls[..i])
    {
      var r := p.Dispatch(calls[i]);
      outs := outs + [r];
      ExecSnoc(calls[..i], calls[i]);
      assert calls[..i + 1] == calls[..i] + [calls[i]];
    }
    assert calls[..|calls|] == calls;
  }
}
