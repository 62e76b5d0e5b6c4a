/** When the receiver's checked addition can fail: exactly after too much was transferred to oneself. */
module Erc20Overflow {
  import opened Bytes
  import opened MapSums
  import opened Erc20Model
  import opened Erc20Supply

  /** In one state, no move between different accounts can overflow the receiver if and only if no two
      balances add up to 2^64. */
  lemma MovesSafeIff(s: State, token: U32)
    ensures (forall from: AccountId, to: AccountId, value: U64 | from != to ::
               Move(s, token, from, to, value).outcome != Err(BalanceOverflow))
       <==> (forall a: AccountId, b: AccountId | a != b :: Balance(s, token, a) + Balance(s, token, b) < TWO_64)
  {
    forall a: AccountId, b: AccountId | a != b && Balance(s, token, a) + Balance(s, token, b) >= TWO_64
      ensures Move(s, token, a, b, Balance(s, token, a)).outcome == Err(BalanceOverflow)
    {
    }
  }

  /** What was ever issued of a token: its supply and what self-transfers added. */
  function Issued(s: State, id: U32): nat {
    if id in s.tokens then s.tokens[id].totalSupply + SelfMoved(s.events, id) else 0
  }

  lemma IssuedIsTotal(calls: seq<Call>, id: U32)
    ensures Total(Exec(calls), id) == Issued(Exec(calls), id)
    ensures id !in Exec(calls).tokens ==> SelfMoved(Exec(calls).events, id) == 0
  {
    var s := Exec(calls);
    RunInv(calls);
    if id !in s.tokens {
      assert Holders(s.balances, id) == map[];
      NothingMovedYet(s.events, id);
    }
  }

  /** While less than 2^64 was issued, no move to another account overflows. */
  lemma IssuedBelowIsSafe(calls: seq<Call>, call: Call)
    requires !call.InitCall? && !SelfTransfer(call) && Issued(Exec(calls), call.token) < TWO_64
    ensures Step(Exec(calls), call).outcome != Err(BalanceOverflow)
  {
    var s := Exec(calls);
    IssuedIsTotal(calls, call.token);
    if call.TransferCall? || call.TransferFromCall? {
      var from := if call.TransferCall? then call.origin else call.from;
      TwoBalances(s, call.token, from, call.to);
    }
  }

  lemma TwoBalances(s: State, token: U32, a: AccountId, b: AccountId)
    requires a != b
    ensures Balance(s, token, a) + Balance(s, token, b) <= Total(s, token)
  {
    var holders := Holders(s.balances, token);
    SumOfTwo(holders, Holding(token, a), Holding(token, b));
    assert At(holders, Holding(token, a)) == Balance(s, token, a);
    assert At(holders, Holding(token, b)) == Balance(s, token, b);
  }

  /** Once 2^64 or more is issued, all holders in turn can send their balance to one account until one of
      these transfers overflows; none of them is a self-transfer. */
  lemma {:induction false} Gather(calls: seq<Call>, id: U32, b: AccountId) returns (cont: seq<Call>, call: Call)
    requires Total(Exec(calls), id) >= TWO_64
    ensures NoSelfTransfers(cont) && call.TransferCall? && call.token == id && !SelfTransfer(call)
    ensures Step(Exec(calls + cont), call).outcome == Err(BalanceOverflow)
    decreases Total(Exec(calls), id) - Balance(Exec(calls), id, b)
  {
    var s := Exec(calls);
    var holders := Holders(s.balances, id);
    assert At(holders, Holding(id, b)) == Balance(s, id, b);
    PositiveElsewhere(holders, Holding(id, b));
    var h :| h in holders && h != Holding(id, b) && holders[h] > 0;
    call := TransferCall(h.owner, id, b, s.balances[h]);
    if Balance(s, id, b) + s.balances[h] >= TWO_64 {
      cont := [];
      assert calls + cont == calls;
    } else {
      var first, next := call, calls + [call];
      ExecSnoc(calls, call);
      MoveBalances(s, id, h.owner, b, s.balances[h]);
      MoveTotals(s, id, h.owner, b, s.balances[h], id);
      cont, call := Gather(next, id, b);
      assert calls + ([first] + cont) == next + cont;
      cont := [first] + cont;
    }
  }

  /** No continuation of the run that self-transfers nothing on the token lets a call between different
      accounts overflow. */
  ghost predicate NeverOverflowsLater(calls: seq<Call>, id: U32) {
    forall cont: seq<Call>, call: Call
      | SelfMoved(Exec(calls + cont).events, id) == SelfMoved(Exec(calls).events, id)
        && !call.InitCall? && call.token == id && !SelfTransfer(call) ::
      Step(Exec(calls + cont), call).outcome != Err(BalanceOverflow)
  }

  /** The same for the continuations that contain no self-transfer at all. */
  ghost predicate NeverOverflowsPlainly(calls: seq<Call>, id: U32) {
    forall cont: seq<Call>, call: Call
      | NoSelfTransfers(cont) && !call.InitCall? && call.token == id && !SelfTransfer(call) ::
      Step(Exec(calls + cont), call).outcome != Err(BalanceOverflow)
  }

  lemma IssuedUnchanged(calls: seq<Call>, cont: seq<Call>, id: U32)
    requires SelfMoved(Exec(calls + cont).events, id) == SelfMoved(Exec(calls).events, id)
    requires Issued(Exec(calls), id) < TWO_64
    ensures Issued(Exec(calls + cont), id) < TWO_64
  {
    if id in Exec(calls).tokens {
      DetailsPermanent(calls, cont, id);
    } else {
      IssuedIsTotal(calls, id);
    }
  }

  /** The exact condition, on the state reached: the receiver's addition is safe in all continuations that
      self-transfer nothing, or that contain no self-transfer, if and only if less than 2^64 was issued. */
  // The run is not taken apart here: the attribute keeps the prover from trying induction on it.
  lemma {:induction false} OverflowFreeIff(calls: seq<Call>, id: U32)
    ensures NeverOverflowsLater(calls, id) <==> Issued(Exec(calls), id) < TWO_64
    ensures NeverOverflowsPlainly(calls, id) <==> Issued(Exec(calls), id) < TWO_64
  {
    if Issued(Exec(calls), id) < TWO_64 {
      SafeContinuations(calls, id);
    } else {
      IssuedIsTotal(calls, id);
      var cont, call := Gather(calls, id, Zeros(32));
      PlainIsQuiet(calls, cont, id);
    }
  }

  lemma PlainIsQuiet(calls: seq<Call>, cont: seq<Call>, id: U32)
    requires NoSelfTransfers(cont)
    ensures SelfMoved(Exec(calls + cont).events, id) == SelfMoved(Exec(calls).events, id)
  {
    NoSelfMoves(calls, cont, id);
  }

  lemma SafeContinuations(calls: seq<Call>, id: U32)
    requires Issued(Exec(calls), id) < TWO_64
    ensures NeverOverflowsLater(calls, id) && NeverOverflowsPlainly(calls, id)
  {
    forall cont: seq<Call>, call: Call
      | SelfMoved(Exec(calls + cont).events, id) == SelfMoved(Exec(calls).events, id)
        && !call.InitCall? && call.token == id && !SelfTransfer(call)
      ensures Step(Exec(calls + cont), call).outcome != Err(BalanceOverflow)
    {
      IssuedUnchanged(calls, cont, id);
      IssuedBelowIsSafe(calls + cont, call);
    }
    forall cont: seq<Call>, call: Call
      | NoSelfTransfers(cont) && !call.InitCall? && call.token == id && !SelfTransfer(call)
      ensures Step(Exec(calls + cont), call).outcome != Err(BalanceOverflow)
    {
      PlainIsQuiet(calls, cont, id);
      IssuedUnchanged(calls, cont, id);
      IssuedBelowIsSafe(calls + cont, call);
    }
  }

  /** So, while less than 2^64 was issued, a move to another account succeeds exactly when the sender has an
      entry of at least the value. */
  lemma MoveSucceedsIff(calls: seq<Call>, token: U32, from: AccountId, to: AccountId, value: U64)
    requires from != to && Issued(Exec(calls), token) < TWO_64
    ensures var s, r := Exec(calls), Move(Exec(calls), token, from, to, value);
            && r.outcome != Err(BalanceOverflow)
            && (r.outcome == Ok <==> Holding(token, from) in s.balances && value <= Balance(s, token, from))
  {
    var call := TransferCall(from, token, to, value);
    IssuedBelowIsSafe(calls, call);
  }

  /** And a run without self-transfers on a token never meets the overflow error on it. */
  lemma NeverOverflows(calls: seq<Call>, id: U32, i: nat)
    requires NoSelfTransfersOn(calls, id)
    requires i < |calls| && !calls[i].InitCall? && calls[i].token == id
    ensures Outcomes(calls)[i] != Err(BalanceOverflow)
  {
    var before, call := calls[..i], calls[i];
    OutcomeAt(calls, i);
    assert call in calls;
    OverflowFreeIff([], id);
    NoSelfMoves([], before, id);
    assert [] + before == before;
    if !SelfTransfer(call) {
      assert Step(Exec([] + before), call).outcome != Err(BalanceOverflow);
    }
  }

  lemma {:induction false} OutcomeAt(calls: seq<Call>, i: nat)
    requires i < |calls|
    ensures Outcomes(calls)[i] == Step(Exec(calls[..i]), calls[i]).outcome
  {
    var before := calls[..|calls| - 1];
    if i < |before| {
      OutcomeAt(before, i);
      assert before[..i] == calls[..i];
    }
  }

  /** Half the number range is issued to `a`, and all but one unit of it goes to `b`. */
  function IssueRun(calls: seq<Call>, a: AccountId, b: AccountId): seq<Call> {
    calls + [InitCall(a, [], [], TWO_64 / 2)] + [TransferCall(a, Exec(calls).tokenId, b, TWO_64 / 2 - 1)]
  }

  /** Then `b` doubles its balance by transferring to itself, and `a` cannot send its last unit. */
  function OverflowRun(calls: seq<Call>, a: AccountId, b: AccountId): seq<Call> {
    var id := Exec(calls).tokenId;
    IssueRun(calls, a, b) + [TransferCall(b, id, b, TWO_64 / 2 - 1)] + [TransferCall(b, id, b, 1)]
  }

  lemma TransferNow(calls: seq<Call>, from: AccountId, id: U32, to: AccountId, value: U64)
    requires Holding(id, from) in Exec(calls).balances && value <= Balance(Exec(calls), id, from)
    requires Balance(Exec(calls), id, to) + value < TWO_64
    ensures var s, t := Exec(calls), Exec(calls + [TransferCall(from, id, to, value)]);
            && Holding(id, from) in t.balances && Holding(id, to) in t.balances
            && Balance(t, id, to) == Balance(s, id, to) + value
            && (from != to ==> Balance(t, id, from) == Balance(s, id, from) - value)
            && forall owner: AccountId | owner != from && owner != to :: Balance(t, id, owner) == Balance(s, id, owner)
  {
    ExecSnoc(calls, TransferCall(from, id, to, value));
    MoveBalances(Exec(calls), id, from, to, value);
  }

  lemma AfterIssue(calls: seq<Call>, a: AccountId, b: AccountId)
    requires a != b && Exec(calls).tokenId + 1 < TWO_32
    ensures var s, id := Exec(IssueRun(calls, a, b)), Exec(calls).tokenId;
            && Holding(id, a) in s.balances && Holding(id, b) in s.balances
            && Balance(s, id, a) == 1 && Balance(s, id, b) == TWO_64 / 2 - 1
  {
    var id, create := Exec(calls).tokenId, InitCall(a, [], [], TWO_64 / 2);
    RunInv(calls);
    ExecSnoc(calls, create);
    var s := Exec(calls + [create]);
    assert Balance(s, id, a) == TWO_64 / 2 && Balance(s, id, b) == 0;
    TransferNow(calls + [create], a, id, b, TWO_64 / 2 - 1);
  }

  lemma EntryStays(calls: seq<Call>, call: Call, h: Holding)
    requires h in Exec(calls).balances
    ensures h in Exec(calls + [call]).balances
  {
    ExecSnoc(calls, call);
  }

  /** With self-transfers the receiver's checked addition can fail although the sender owns the value: after
      any run that leaves an id free, the empty run for one. */
  lemma OverflowAfterSelfTransfer(calls: seq<Call>, a: AccountId, b: AccountId)
    requires a != b && Exec(calls).tokenId + 1 < TWO_32
    ensures var s, id := Exec(OverflowRun(calls, a, b)), Exec(calls).tokenId;
            Balance(s, id, a) == 1 && Move(s, id, a, b, 1).outcome == Err(BalanceOverflow)
  {
    AfterIssue(calls, a, b);
    var id, issued := Exec(calls).tokenId, IssueRun(calls, a, b);
    TransferNow(issued, b, id, b, TWO_64 / 2 - 1);
    var doubled := issued + [TransferCall(b, id, b, TWO_64 / 2 - 1)];
    EntryStays(issued, TransferCall(b, id, b, TWO_64 / 2 - 1), Holding(id, a));
    TransferNow(doubled, b, id, b, 1);
    EntryStays(doubled, TransferCall(b, id, b, 1), Holding(id, a));
  }
}
