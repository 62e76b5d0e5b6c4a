/** What each call answers and does, in terms of who holds, owes and may spend what: the outcome under every
    guard, everything that changes, and that a refusal changes nothing else. */
module Erc20Effects {
  import opened Bytes
  import opened Erc20Model
  import opened Erc20Allowance

  /** The answer to an attempt to move value between two accounts. */
  ghost predicate AnswersMove(s: State, o: Outcome, token: U32, from: AccountId, to: AccountId, value: U64) {
    var entry := Holding(token, from) in s.balances;
    var covered := value <= Balance(s, token, from);
    var fits := Balance(s, token, to) + value < TWO_64;
    && (o == Err(NotOwner) <==> !entry)
    && (o == Err(NotEnoughBalance) <==> entry && !covered)
    && (o == Err(BalanceOverflow) <==> entry && covered && !fits)
    && (o == Ok <==> entry && covered && fits)
  }

  /** Balances after a move: the recipient gains the value, another sender loses it, nobody else changes, and
      the only entry that can be new is the recipient's. */
  ghost predicate MovedBalances(s: State, t: State, token: U32, from: AccountId, to: AccountId, value: U64) {
    && (forall id: U32, owner: AccountId ::
          Balance(t, id, owner) == Balance(s, id, owner)
            + (if id == token && owner == to then value else 0)
            - (if id == token && owner == from && from != to then value else 0))
    && t.balances.Keys == s.balances.Keys + {Holding(token, to)}
  }

  ghost predicate SameTokens(s: State, t: State) {
    t.tokenId == s.tokenId && t.tokens == s.tokens
  }

  lemma InitEffect(s: State, call: Call)
    requires call.InitCall?
    ensures var r, id := Step(s, call), s.tokenId;
            && (r.outcome == Err(NameTooLong) <==> |call.name| > 64)
            && (r.outcome == Err(TickerTooLong) <==> |call.name| <= 64 && |call.ticker| > 32)
            && (r.outcome == Err(TokenIdOverflow) <==>
                  |call.name| <= 64 && |call.ticker| <= 32 && id == TWO_32 - 1)
            && (r.outcome == Ok <==> |call.name| <= 64 && |call.ticker| <= 32 && id < TWO_32 - 1)
    ensures var r, id := Step(s, call), s.tokenId;
            r.outcome == Ok ==>
              && r.state.tokenId == id + 1
              && r.state.tokens.Keys == s.tokens.Keys + {id}
              && r.state.tokens[id].name == call.name && r.state.tokens[id].ticker == call.ticker
              && r.state.tokens[id].totalSupply == call.totalSupply
              && (forall d | d in s.tokens && d != id :: r.state.tokens[d] == s.tokens[d])
              && r.state.balances.Keys == s.balances.Keys + {Holding(id, call.origin)}
              && Balance(r.state, id, call.origin) == call.totalSupply
              && (forall h | h in s.balances && h != Holding(id, call.origin) ::
                    r.state.balances[h] == s.balances[h])
              && r.state.allowances == s.allowances && r.state.events == s.events
  {
  }

  lemma TransferEffect(s: State, call: Call)
    requires call.TransferCall?
    ensures AnswersMove(s, Step(s, call).outcome, call.token, call.origin, call.to, call.value)
    ensures var r := Step(s, call);
            r.outcome == Ok ==>
              && MovedBalances(s, r.state, call.token, call.origin, call.to, call.value)
              && SameTokens(s, r.state) && r.state.allowances == s.allowances
              && r.state.events == s.events + [TransferEvent(call.token, call.origin, call.to, call.value)]
  {
  }

  lemma ApproveEffect(s: State, call: Call)
    requires call.ApproveCall?
    ensures var r, k := Step(s, call), Spend(call.token, call.origin, call.spender);
            var owner := Holding(call.token, call.origin) in s.balances;
            && (r.outcome == Err(NotOwner) <==> !owner)
            && (r.outcome == Err(AllowanceOverflow) <==> owner && Allowed(s, k) + call.value >= TWO_64)
            && (r.outcome == Ok <==> owner && Allowed(s, k) + call.value < TWO_64)
            && (r.outcome == Ok ==>
                  && (forall j: Spend :: Allowed(r.state, j) == Allowed(s, j) + if j == k then call.value else 0)
                  && r.state.allowances.Keys == s.allowances.Keys + {k}
                  && SameTokens(s, r.state) && r.state.balances == s.balances
                  && r.state.events
                     == s.events + [ApprovalEvent(call.token, call.origin, call.spender, call.value)])
  {
  }

  /** The allowance goes first; the rest is answered and done as a move by the owner. */
  lemma TransferFromEffect(s: State, call: Call)
    requires call.TransferFromCall?
    ensures var r, k := Step(s, call), Spend(call.token, call.from, call.to);
            var approval := ApprovalEvent(call.token, call.from, call.to, call.value);
            && (r.outcome == Err(NoAllowance) <==> k !in s.allowances)
            && (r.outcome == Err(NotEnoughAllowance) <==> k in s.allowances && Allowed(s, k) < call.value)
            && (k in s.allowances && call.value <= Allowed(s, k) ==>
                  && AnswersMove(s, r.outcome, call.token, call.from, call.to, call.value)
                  && (forall j: Spend :: Allowed(r.state, j) == Allowed(s, j) - if j == k then call.value else 0)
                  && r.state.allowances.Keys == s.allowances.Keys && SameTokens(s, r.state)
                  && (r.outcome == Ok ==>
                        && MovedBalances(s, r.state, call.token, call.from, call.to, call.value)
                        && r.state.events == s.events + [approval]
                             + [TransferEvent(call.token, call.from, call.to, call.value)])
                  && (r.outcome != Ok ==>
                        r.state.balances == s.balances && r.state.events == s.events + [approval]))
  {
  }

  /** A refused call leaves the whole state equal, except a `transfer_from` refused after its allowance was
      spent: that one changes exactly the allowance entry and logs one approval. */
  lemma RefusalKeepsState(s: State, call: Call)
    requires Step(s, call).outcome != Ok
    ensures var r := Step(s, call);
            if LosesAllowance(call, r.outcome) then
              var k := Spend(call.token, call.from, call.to);
              && k in s.allowances && call.value <= s.allowances[k]
              && r.state == s.(allowances := s.allowances[k := s.allowances[k] - call.value],
                               events := s.events + [ApprovalEvent(call.token, call.from, call.to, call.value)])
            else r.state == s
  {
  }
}
