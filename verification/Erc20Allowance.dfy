/** Where every approved unit went: still allowed, moved, or lost to a transfer that failed. */
module Erc20Allowance {
  import opened Bytes
  import opened Erc20Model
  import opened Erc20Overflow

  /** The value one call with this outcome approved, moved or lost for an (owner, spender) pair of a token. */
  function ApprovedBy(call: Call, outcome: Outcome, k: Spend): nat {
    if call.ApproveCall? && Spend(call.token, call.origin, call.spender) == k && outcome == Ok then call.value else 0
  }

  function MovedBy(call: Call, outcome: Outcome, k: Spend): nat {
    if call.TransferFromCall? && Spend(call.token, call.from, call.to) == k && outcome == Ok then call.value else 0
  }

  /** A `transfer_from` that passed the allowance checks but failed afterwards. */
  predicate LosesAllowance(call: Call, outcome: Outcome) {
    call.TransferFromCall? && outcome in {Err(NotOwner), Err(NotEnoughBalance), Err(BalanceOverflow)}
  }

  function LostBy(call: Call, outcome: Outcome, k: Spend): nat {
    if LosesAllowance(call, outcome) && Spend(call.token, call.from, call.to) == k then call.value else 0
  }

  function Approved(calls: seq<Call>, k: Spend): nat {
    if calls == [] then 0
    else
      var before, call := calls[..|calls| - 1], calls[|calls| - 1];
      Approved(before, k) + ApprovedBy(call, Step(Exec(before), call).outcome, k)
  }

  function Moved(calls: seq<Call>, k: Spend): nat {
    if calls == [] then 0
    else
      var before, call := calls[..|calls| - 1], calls[|calls| - 1];
      Moved(before, k) + MovedBy(call, Step(Exec(before), call).outcome, k)
  }

  function Lost(calls: seq<Call>, k: Spend): nat {
    if calls == [] then 0
    else
      var before, call := calls[..|calls| - 1], calls[|calls| - 1];
      Lost(before, k) + LostBy(call, Step(Exec(before), call).outcome, k)
  }

  lemma StepAllowance(s: State, call: Call, k: Spend)
    ensures var r := Step(s, call);
            Allowed(r.state, k) + MovedBy(call, r.outcome, k) + LostBy(call, r.outcome, k)
            == Allowed(s, k) + ApprovedBy(call, r.outcome, k)
  {
  }

  /** Over every run: approved == remaining + moved + lost. So what moves never exceeds what was approved. */
  lemma {:induction false} AllowanceAccounting(calls: seq<Call>, k: Spend)
    ensures Approved(calls, k) == Allowed(Exec(calls), k) + Moved(calls, k) + Lost(calls, k)
    ensures Moved(calls, k) <= Approved(calls, k)
  {
    if calls != [] {
      AllowanceAccounting(calls[..|calls| - 1], k);
      StepAllowance(Exec(calls[..|calls| - 1]), calls[|calls| - 1], k);
    }
  }

  /** An allowance exists only where the owner has a balance entry. */
  ghost predicate Backed(s: State) {
    forall k | k in s.allowances :: Holding(k.token, k.owner) in s.balances
  }

  lemma {:induction false} AllowancesBacked(calls: seq<Call>)
    ensures Backed(Exec(calls))
  {
    if calls != [] {
      AllowancesBacked(calls[..|calls| - 1]);
      StepBacked(Exec(calls[..|calls| - 1]), calls[|calls| - 1]);
    }
  }

  lemma EntriesStay(s: State, call: Call)
    ensures s.balances.Keys <= Step(s, call).state.balances.Keys
  {
  }

  lemma StepBacked(s: State, call: Call)
    requires Backed(s)
    ensures Backed(Step(s, call).state)
  {
    EntriesStay(s, call);
    var t := Step(s, call).state;
    forall k | k in t.allowances
      ensures Holding(k.token, k.owner) in t.balances
    {
      assert k in s.allowances || (call.ApproveCall? && k == Spend(call.token, call.origin, call.spender));
    }
  }

  /** In every reachable state, spending an allowance succeeds exactly when allowance, balance and the
      receiver's range all admit the value, loses the allowance exactly when the allowance admits it and one
      of the other two does not, and otherwise changes nothing. Towards another account, while less than
      2^64 was issued, the receiver's range always admits it. */
  lemma TransferFromExact(calls: seq<Call>, call: Call)
    requires call.TransferFromCall?
    ensures var s, k := Exec(calls), Spend(call.token, call.from, call.to);
            var r := Step(s, call);
            var allowed := k in s.allowances && call.value <= Allowed(s, k);
            var covered := call.value <= Balance(s, call.token, call.from);
            var fits := Balance(s, call.token, call.to) + call.value < TWO_64;
            && (r.outcome == Ok <==> allowed && covered && fits)
            && (LosesAllowance(call, r.outcome) <==> allowed && !(covered && fits))
            && (!allowed ==> r.state == s)
            && (call.from != call.to && Issued(s, call.token) < TWO_64 && covered ==> fits)
  {
    var s, k := Exec(calls), Spend(call.token, call.from, call.to);
    AllowancesBacked(calls);
    IssuedIsTotal(calls, call.token);
    if call.from != call.to {
      TwoBalances(s, call.token, call.from, call.to);
    }
    if k in s.allowances {
      assert Holding(k.token, k.owner) in s.balances;
    }
  }
}
