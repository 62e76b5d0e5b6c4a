/** The multi-token ledger: storage, the effect of each call, and runs of calls. */
module Erc20Model {
  import opened Bytes

  /** Name and ticker are byte strings; balances and supplies are u64. */
  datatype Token = Token(name: seq<Byte>, ticker: seq<Byte>, totalSupply: U64)

  datatype Holding = Holding(token: U32, owner: AccountId)

  datatype Spend = Spend(token: U32, owner: AccountId, spender: AccountId)

  datatype Event =
    | TransferEvent(token: U32, from: AccountId, to: AccountId, value: U64)
    | ApprovalEvent(token: U32, owner: AccountId, spender: AccountId, value: U64)

  datatype Error =
    | NameTooLong | TickerTooLong | TokenIdOverflow | NotOwner | NotEnoughBalance | BalanceOverflow
    | AllowanceOverflow | NoAllowance | NotEnoughAllowance

  datatype Outcome = Ok | Err(error: Error)

  datatype State = State(tokenId: U32, tokens: map<U32, Token>, balances: map<Holding, U64>,
                         allowances: map<Spend, U64>, events: seq<Event>)

  datatype Result = Result(state: State, outcome: Outcome)

  const GENESIS: State := State(0, map[], map[], map[], [])

  function Balance(s: State, token: U32, owner: AccountId): U64 {
    var h := Holding(token, owner);
    if h in s.balances then s.balances[h] else 0
  }

  function Allowed(s: State, k: Spend): U64 {
    if k in s.allowances then s.allowances[k] else 0
  }

  function Init(s: State, sender: AccountId, name: seq<Byte>, ticker: seq<Byte>, totalSupply: U64): Result {
    if |name| > 64 then Result(s, Err(NameTooLong))
    else if |ticker| > 32 then Result(s, Err(TickerTooLong))
    else if s.tokenId + 1 >= TWO_32 then Result(s, Err(TokenIdOverflow))
    else
      Result(s.(tokenId := s.tokenId + 1,
                tokens := s.tokens[s.tokenId := Token(name, ticker, totalSupply)],
                balances := s.balances[Holding(s.tokenId, sender) := totalSupply]),
             Ok)
  }

  /** Both balances are read before either is written, so with `from == to` the second write wins. */
  function Move(s: State, token: U32, from: AccountId, to: AccountId, value: U64): Result {
    if Holding(token, from) !in s.balances then Result(s, Err(NotOwner))
    else
      var fromBalance := Balance(s, token, from);
      var toBalance := Balance(s, token, to);
      if fromBalance < value then Result(s, Err(NotEnoughBalance))
      else if toBalance + value >= TWO_64 then Result(s, Err(BalanceOverflow))
      else
        var debited := s.balances[Holding(token, from) := fromBalance - value];
        Result(s.(balances := debited[Holding(token, to) := toBalance + value],
                  events := s.events + [TransferEvent(token, from, to, value)]),
               Ok)
  }

  function Approve(s: State, sender: AccountId, token: U32, spender: AccountId, value: U64): Result {
    var k := Spend(token, sender, spender);
    if Holding(token, sender) !in s.balances then Result(s, Err(NotOwner))
    else if Allowed(s, k) + value >= TWO_64 then Result(s, Err(AllowanceOverflow))
    else
      Result(s.(allowances := s.allowances[k := Allowed(s, k) + value],
                events := s.events + [ApprovalEvent(token, sender, spender, value)]),
             Ok)
  }

  /** Spending an allowance, logged as an approval of the spent value. */
  function Spent(s: State, k: Spend, value: U64): State
    requires k in s.allowances && value <= s.allowances[k]
  {
    s.(allowances := s.allowances[k := s.allowances[k] - value],
       events := s.events + [ApprovalEvent(k.token, k.owner, k.spender, value)])
  }

  /** The allowance is spent before the move is tried, and stays spent when the move fails. */
  function TransferFrom(s: State, token: U32, from: AccountId, to: AccountId, value: U64): Result {
    var k := Spend(token, from, to);
    if k !in s.allowances then Result(s, Err(NoAllowance))
    else if s.allowances[k] < value then Result(s, Err(NotEnoughAllowance))
    else Move(Spent(s, k, value), token, from, to, value)
  }

  /** A signed extrinsic. The origin of `TransferFromCall` is never read. */
  datatype Call =
    | InitCall(origin: AccountId, name: seq<Byte>, ticker: seq<Byte>, totalSupply: U64)
    | TransferCall(origin: AccountId, token: U32, to: AccountId, value: U64)
    | ApproveCall(origin: AccountId, token: U32, spender: AccountId, value: U64)
    | TransferFromCall(origin: AccountId, token: U32, from: AccountId, to: AccountId, value: U64)

  function Step(s: State, call: Call): Result {
    match call
    case InitCall(origin, name, ticker, totalSupply) => Init(s, origin, name, ticker, totalSupply)
    case TransferCall(origin, token, to, value) => Move(s, token, origin, to, value)
    case ApproveCall(origin, token, spender, value) => Approve(s, origin, token, spender, value)
    case TransferFromCall(_, token, from, to, value) => TransferFrom(s, token, from, to, value)
  }

  function Exec(calls: seq<Call>): State {
    if calls == [] then GENESIS
    else Step(Exec(calls[..|calls| - 1]), calls[|calls| - 1]).state
  }

  function Outcomes(calls: seq<Call>): (outs: seq<Outcome>)
    ensures |outs| == |calls|
  {
    if calls == [] then []
    else
      var before := calls[..|calls| - 1];
      Outcomes(before) + [Step(Exec(before), calls[|calls| - 1]).outcome]
  }

  lemma ExecSnoc(calls: seq<Call>, call: Call)
    ensures Exec(calls + [call]) == Step(Exec(calls), call).state
    ensures Outcomes(calls + [call]) == Outcomes(calls) + [Step(Exec(calls), call).outcome]
  {
    assert (calls + [call])[..|calls|] == calls;
  }
}
