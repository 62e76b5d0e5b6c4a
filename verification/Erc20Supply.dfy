/** Token ids, supply and overflow: what holds of every token after every run. */
module Erc20Supply {
  import opened Bytes
  import opened MapSums
  import opened Erc20Model

  /** The balance entries of one token, by owner. */
  function Holders(balances: map<Holding, U64>, token: U32): map<Holding, nat> {
    map h | h in balances && h.token == token :: balances[h]
  }

  ghost function Total(s: State, token: U32): nat {
    Sum(Holders(s.balances, token))
  }

  /** The value a log says was transferred, on one token, from an account to itself. */
  function SelfMoved(events: seq<Event>, token: U32): nat {
    if events == [] then 0
    else
      var e := events[|events| - 1];
      SelfMoved(events[..|events| - 1], token)
      + if e.TransferEvent? && e.token == token && e.from == e.to then e.value else 0
  }

  /** Ids are handed out once, in order, and every storage key belongs to an id already handed out. */
  ghost predicate Fresh(s: State) {
    && (forall id: U32 :: id in s.tokens <==> id < s.tokenId)
    && (forall h | h in s.balances :: h.token < s.tokenId)
    && (forall k | k in s.allowances :: k.token < s.tokenId)
  }

  /** The exact supply equation. */
  ghost predicate Supplied(s: State) {
    forall id | id in s.tokens :: Total(s, id) == s.tokens[id].totalSupply + SelfMoved(s.events, id)
  }

  /** The log speaks of existing tokens only. */
  ghost predicate LogFresh(s: State) {
    forall e | e in s.events :: e.token < s.tokenId
  }

  ghost predicate Inv(s: State) {
    Fresh(s) && LogFresh(s) && Supplied(s)
  }

  lemma SelfMovedSnoc(events: seq<Event>, e: Event, token: U32)
    ensures SelfMoved(events + [e], token)
         == SelfMoved(events, token) + if e.TransferEvent? && e.token == token && e.from == e.to then e.value else 0
  {
    assert (events + [e])[..|events|] == events;
  }

  lemma {:induction false} NothingMovedYet(events: seq<Event>, token: U32)
    requires forall e | e in events :: e.token != token
    ensures SelfMoved(events, token) == 0
  {
    if events != [] {
      assert events[|events| - 1] in events;
      NothingMovedYet(events[..|events| - 1], token);
    }
  }

  lemma HoldersAfterWrite(balances: map<Holding, U64>, h: Holding, v: U64, token: U32)
    ensures Holders(balances[h := v], token)
         == if h.token == token then Holders(balances, token)[h := v] else Holders(balances, token)
  {
  }

  /** Writing one balance changes the total of its own token by the difference, and no other total. */
  lemma TotalAfterWrite(balances: map<Holding, U64>, h: Holding, v: U64, token: U32)
    ensures var before, after := Holders(balances, token), Holders(balances[h := v], token);
            Sum(after) == if h.token == token then Sum(before) - At(before, h) + v else Sum(before)
  {
    HoldersAfterWrite(balances, h, v, token);
    if h.token == token {
      SumUpdate(Holders(balances, token), h, v);
    }
  }

  lemma InitKeeps(s: State, sender: AccountId, name: seq<Byte>, ticker: seq<Byte>, totalSupply: U64)
    requires Inv(s)
    ensures Inv(Init(s, sender, name, ticker, totalSupply).state)
  {
    var t := Init(s, sender, name, ticker, totalSupply).state;
    if t != s {
      forall id | id in t.tokens
        ensures Total(t, id) == t.tokens[id].totalSupply + SelfMoved(t.events, id)
      {
        TotalAfterWrite(s.balances, Holding(s.tokenId, sender), totalSupply, id);
        if id == s.tokenId {
          assert Holders(s.balances, id) == map[];
          NothingMovedYet(s.events, id);
        }
      }
    }
  }

  /** A debit followed by a credit on what was read before the debit. */
  lemma DebitCredit(balances: map<Holding, U64>, h: Holding, g: Holding, value: U64, read: U64, id: U32)
    requires h in balances && value <= balances[h] && h.token == g.token
    requires read == (if g in balances then balances[g] else 0) && read + value < TWO_64
    ensures Sum(Holders(balances[h := balances[h] - value][g := read + value], id))
         == Sum(Holders(balances, id)) + if id == h.token && h == g then value else 0
  {
    var debited := balances[h := balances[h] - value];
    TotalAfterWrite(balances, h, balances[h] - value, id);
    TotalAfterWrite(debited, g, read + value, id);
    if id == h.token {
      assert At(Holders(balances, id), h) == balances[h];
      assert At(Holders(debited, id), g) == if h == g then balances[h] - value else read;
    }
  }

  /** A successful move changes only its own token's total, by the value when it is a move to itself. */
  lemma MoveTotals(s: State, token: U32, from: AccountId, to: AccountId, value: U64, id: U32)
    requires Move(s, token, from, to, value).outcome == Ok
    ensures Total(Move(s, token, from, to, value).state, id)
         == Total(s, id) + if id == token && from == to then value else 0
  {
    DebitCredit(s.balances, Holding(token, from), Holding(token, to), value, Balance(s, token, to), id);
  }

  lemma MoveKeeps(s: State, token: U32, from: AccountId, to: AccountId, value: U64)
    requires Inv(s)
    ensures Inv(Move(s, token, from, to, value).state)
  {
    var r := Move(s, token, from, to, value);
    if r.outcome == Ok {
      assert Holding(token, from).token < s.tokenId;
      forall id | id in r.state.tokens
        ensures Total(r.state, id) == r.state.tokens[id].totalSupply + SelfMoved(r.state.events, id)
      {
        MoveTotals(s, token, from, to, value, id);
        SelfMovedSnoc(s.events, TransferEvent(token, from, to, value), id);
      }
    }
  }

  /** Changing one existing token's allowance and logging an approval disturbs nothing. */
  lemma ApprovalKeeps(s: State, k: Spend, allowance: U64, value: U64)
    requires Inv(s) && k.token < s.tokenId
    ensures Inv(s.(allowances := s.allowances[k := allowance],
                   events := s.events + [ApprovalEvent(k.token, k.owner, k.spender, value)]))
  {
    var e := ApprovalEvent(k.token, k.owner, k.spender, value);
    var t := s.(allowances := s.allowances[k := allowance], events := s.events + [e]);
    forall id | id in t.tokens
      ensures Total(t, id) == t.tokens[id].totalSupply + SelfMoved(t.events, id)
    {
      SelfMovedSnoc(s.events, e, id);
      assert Total(t, id) == Total(s, id);
    }
  }

  lemma ApproveKeeps(s: State, sender: AccountId, token: U32, spender: AccountId, value: U64)
    requires Inv(s)
    ensures Inv(Approve(s, sender, token, spender, value).state)
  {
    if Approve(s, sender, token, spender, value).outcome == Ok {
      assert Holding(token, sender).token < s.tokenId;
      var k := Spend(token, sender, spender);
      ApprovalKeeps(s, k, Allowed(s, k) + value, value);
    }
  }

  lemma TransferFromKeeps(s: State, token: U32, from: AccountId, to: AccountId, value: U64)
    requires Inv(s)
    ensures Inv(TransferFrom(s, token, from, to, value).state)
  {
    var k := Spend(token, from, to);
    if k in s.allowances && value <= s.allowances[k] {
      ApprovalKeeps(s, k, s.allowances[k] - value, value);
      MoveKeeps(Spent(s, k, value), token, from, to, value);
    }
  }

  lemma StepKeeps(s: State, call: Call)
    requires Inv(s)
    ensures Inv(Step(s, call).state)
  {
    match call
    case InitCall(origin, name, ticker, totalSupply) => InitKeeps(s, origin, name, ticker, totalSupply);
    case TransferCall(origin, token, to, value) => MoveKeeps(s, token, origin, to, value);
    case ApproveCall(origin, token, spender, value) => ApproveKeeps(s, origin, token, spender, value);
    case TransferFromCall(_, token, from, to, value) => TransferFromKeeps(s, token, from, to, value);
  }

  /** After every run, ids are fresh for the storage and for the log, and the supply equation holds. */
  lemma {:induction false} RunInv(calls: seq<Call>)
    ensures Fresh(Exec(calls)) && LogFresh(Exec(calls)) && Supplied(Exec(calls))
  {
    if calls != [] {
      RunInv(calls[..|calls| - 1]);
      StepKeeps(Exec(calls[..|calls| - 1]), calls[|calls| - 1]);
    }
  }

  /** After every run, a token's balances add up to its supply plus what was transferred to oneself. */
  lemma SupplyEquation(calls: seq<Call>, id: U32)
    requires id in Exec(calls).tokens
    ensures Total(Exec(calls), id) == Exec(calls).tokens[id].totalSupply + SelfMoved(Exec(calls).events, id)
  {
    RunInv(calls);
  }

  /** A call that would move value from an account to itself. */
  predicate SelfTransfer(call: Call) {
    (call.TransferCall? && call.origin == call.to) || (call.TransferFromCall? && call.from == call.to)
  }

  predicate NoSelfTransfers(calls: seq<Call>) {
    forall call | call in calls :: !SelfTransfer(call)
  }

  /** A call that could add to what was self-transferred on the token. */
  predicate SelfTransferOn(call: Call, id: U32) {
    SelfTransfer(call) && call.token == id && call.value > 0
  }

  predicate NoSelfTransfersOn(calls: seq<Call>, id: U32) {
    forall call | call in calls :: !SelfTransferOn(call, id)
  }

  lemma MoveSelfMoved(s: State, token: U32, from: AccountId, to: AccountId, value: U64, id: U32)
    requires from != to || token != id || value == 0
    ensures SelfMoved(Move(s, token, from, to, value).state.events, id) == SelfMoved(s.events, id)
  {
    SelfMovedSnoc(s.events, TransferEvent(token, from, to, value), id);
  }

  lemma StepSelfMoved(s: State, call: Call, id: U32)
    requires !SelfTransferOn(call, id)
    ensures SelfMoved(Step(s, call).state.events, id) == SelfMoved(s.events, id)
  {
    match call
    case InitCall(_, _, _, _) =>
    case TransferCall(origin, token, to, value) => MoveSelfMoved(s, token, origin, to, value, id);
    case ApproveCall(origin, token, spender, value) =>
      SelfMovedSnoc(s.events, ApprovalEvent(token, origin, spender, value), id);
    case TransferFromCall(_, token, from, to, value) =>
      var k := Spend(token, from, to);
      if k in s.allowances && value <= s.allowances[k] {
        SelfMovedSnoc(s.events, ApprovalEvent(token, from, to, value), id);
        MoveSelfMoved(Spent(s, k, value), token, from, to, value, id);
      }
  }

  /** A continuation without self-transfers on a token leaves its self-moved value as it was. */
  lemma {:induction false} NoSelfMoves(calls: seq<Call>, cont: seq<Call>, id: U32)
    requires NoSelfTransfersOn(cont, id)
    ensures SelfMoved(Exec(calls + cont).events, id) == SelfMoved(Exec(calls).events, id)
  {
    if cont == [] {
      assert calls + cont == calls;
    } else {
      var front, call := cont[..|cont| - 1], cont[|cont| - 1];
      NoSelfMoves(calls, front, id);
      assert call in cont;
      StepSelfMoved(Exec(calls + front), call, id);
      assert calls + cont == calls + front + [call];
      ExecSnoc(calls + front, call);
    }
  }

  /** In a run without self-transfers on a token, its supply is conserved exactly. */
  lemma SupplyConserved(calls: seq<Call>, id: U32)
    requires NoSelfTransfersOn(calls, id) && id in Exec(calls).tokens
    ensures Total(Exec(calls), id) == Exec(calls).tokens[id].totalSupply
  {
    RunInv(calls);
    NoSelfMoves([], calls, id);
    assert [] + calls == calls;
  }

  /** The token a call is about. */
  function Subject(s: State, call: Call): U32 {
    if call.InitCall? then s.tokenId else call.token
  }

  /** What a successful call adds to its token's total. */
  function Minted(call: Call): nat {
    match call
    case InitCall(_, _, _, totalSupply) => totalSupply
    case TransferCall(_, _, _, value) => if SelfTransfer(call) then value else 0
    case ApproveCall(_, _, _, _) => 0
    case TransferFromCall(_, _, _, _, value) => if SelfTransfer(call) then value else 0
  }

  lemma FailedTotals(s: State, call: Call, id: U32)
    requires Step(s, call).outcome != Ok
    ensures Total(Step(s, call).state, id) == Total(s, id)
  {
  }

  lemma InitTotals(s: State, origin: AccountId, name: seq<Byte>, ticker: seq<Byte>, totalSupply: U64, id: U32)
    requires Fresh(s) && Init(s, origin, name, ticker, totalSupply).outcome == Ok
    ensures Total(Init(s, origin, name, ticker, totalSupply).state, id)
         == Total(s, id) + if id == s.tokenId then totalSupply else 0
  {
    TotalAfterWrite(s.balances, Holding(s.tokenId, origin), totalSupply, id);
    if id == s.tokenId {
      assert Holders(s.balances, id) == map[];
    }
  }

  lemma StepTotals(s: State, call: Call, id: U32)
    requires Inv(s) && Step(s, call).outcome == Ok
    ensures Total(Step(s, call).state, id) == Total(s, id) + if id == Subject(s, call) then Minted(call) else 0
  {
    match call
    case InitCall(origin, name, ticker, totalSupply) => InitTotals(s, origin, name, ticker, totalSupply, id);
    case TransferCall(origin, token, to, value) => MoveTotals(s, token, origin, to, value, id);
    case ApproveCall(_, _, _, _) =>
    case TransferFromCall(_, token, from, to, value) =>
      MoveTotals(Spent(s, Spend(token, from, to), value), token, from, to, value, id);
  }

  /** The guards under which a move to oneself goes through and doubles the value. */
  predicate Doubles(s: State, token: U32, who: AccountId, value: U64) {
    && value > 0 && Holding(token, who) in s.balances
    && value <= Balance(s, token, who) && Balance(s, token, who) + value < TWO_64
  }

  /** The guards, all on the state before the call, under which a call makes value out of nothing: a
      creation with a positive supply, or a positive move from an account to itself. */
  predicate Mints(s: State, call: Call) {
    match call
    case InitCall(_, name, ticker, totalSupply) =>
      |name| <= 64 && |ticker| <= 32 && s.tokenId + 1 < TWO_32 && totalSupply > 0
    case TransferCall(origin, token, to, value) => origin == to && Doubles(s, token, origin, value)
    case ApproveCall(_, _, _, _) => false
    case TransferFromCall(_, token, from, to, value) =>
      var k := Spend(token, from, to);
      from == to && k in s.allowances && value <= s.allowances[k] && Doubles(s, token, from, value)
  }

  lemma MintsIff(s: State, call: Call)
    ensures Mints(s, call) <==> Step(s, call).outcome == Ok && Minted(call) > 0
  {
  }

  /** In every reachable state, a call conserves the total of every token if and only if it does not mint. */
  lemma ConservesIff(calls: seq<Call>, call: Call)
    ensures var s, r := Exec(calls), Step(Exec(calls), call);
            (forall id: U32 :: Total(r.state, id) == Total(s, id)) <==> !Mints(s, call)
  {
    var s, r := Exec(calls), Step(Exec(calls), call);
    RunInv(calls);
    MintsIff(s, call);
    if r.outcome == Ok {
      StepTotals(s, call, Subject(s, call));
      assert Total(r.state, Subject(s, call)) == Total(s, Subject(s, call)) + Minted(call);
    }
    forall id: U32 | !Mints(s, call)
      ensures Total(r.state, id) == Total(s, id)
    {
      if r.outcome != Ok { FailedTotals(s, call, id); } else { StepTotals(s, call, id); }
    }
  }

  /** Who holds what after a successful move. */
  lemma MoveBalances(s: State, token: U32, from: AccountId, to: AccountId, value: U64)
    requires Holding(token, from) in s.balances && value <= Balance(s, token, from)
    requires Balance(s, token, to) + value < TWO_64
    ensures var r := Move(s, token, from, to, value);
            && r.outcome == Ok
            && Holding(token, from) in r.state.balances && Holding(token, to) in r.state.balances
            && Balance(r.state, token, to) == Balance(s, token, to) + value
            && (from != to ==> Balance(r.state, token, from) == Balance(s, token, from) - value)
            && forall owner: AccountId, id: U32 | (id != token || owner != from) && (id != token || owner != to) ::
                 Balance(r.state, id, owner) == Balance(s, id, owner)
  {
  }

  /** After any run that leaves an id free, the empty run for one: whoever creates a token and transfers it
      all to itself holds twice its supply. */
  lemma SupplyInflated(calls: seq<Call>, a: AccountId, v: U64)
    requires Exec(calls).tokenId + 1 < TWO_32 && 0 < v && 2 * v < TWO_64
    ensures var id := Exec(calls).tokenId;
            var s := Exec(calls + [InitCall(a, [], [], v)] + [TransferCall(a, id, a, v)]);
            id in s.tokens && s.tokens[id].totalSupply == v && Total(s, id) == 2 * v
  {
    var id, create := Exec(calls).tokenId, InitCall(a, [], [], v);
    RunInv(calls);
    ExecSnoc(calls, create);
    InitTotals(Exec(calls), a, [], [], v, id);
    assert Total(Exec(calls), id) == 0 by {
      assert Holders(Exec(calls).balances, id) == map[];
    }
    var s := Exec(calls + [create]);
    ExecSnoc(calls + [create], TransferCall(a, id, a, v));
    MoveBalances(s, id, a, a, v);
    MoveTotals(s, id, a, a, v, id);
  }

  lemma DetailsAfterCall(run: seq<Call>, call: Call, id: U32)
    requires id in Exec(run).tokens
    ensures id in Exec(run + [call]).tokens && Exec(run + [call]).tokens[id] == Exec(run).tokens[id]
  {
    RunInv(run);
    ExecSnoc(run, call);
  }

  /** Once created, a token's details never change, and no later `init` reuses its id. */
  lemma {:induction false} DetailsPermanent(before: seq<Call>, after: seq<Call>, id: U32)
    requires id in Exec(before).tokens
    ensures id in Exec(before + after).tokens && Exec(before + after).tokens[id] == Exec(before).tokens[id]
  {
    if after == [] {
      assert before + after == before;
    } else {
      var run := before + after[..|after| - 1];
      DetailsPermanent(before, after[..|after| - 1], id);
      DetailsAfterCall(run, after[|after| - 1], id);
      assert before + after == run + [after[|after| - 1]];
    }
  }

  /** A creation writes only keys that no map holds yet. */
  lemma InitWritesFreshKeys(calls: seq<Call>, origin: AccountId, name: seq<Byte>, ticker: seq<Byte>, totalSupply: U64)
    requires Init(Exec(calls), origin, name, ticker, totalSupply).outcome == Ok
    ensures var s := Exec(calls);
            && s.tokenId !in s.tokens
            && (forall h | h in s.balances :: h.token != s.tokenId)
            && (forall k | k in s.allowances :: k.token != s.tokenId)
  {
    RunInv(calls);
  }

  /** Everything stored about one token. */
  ghost predicate SameToken(s: State, t: State, id: U32) {
    && (id in s.tokens <==> id in t.tokens) && (id in s.tokens ==> s.tokens[id] == t.tokens[id])
    && Holders(s.balances, id) == Holders(t.balances, id)
    && (forall k: Spend | k.token == id :: (k in s.allowances <==> k in t.allowances) && Allowed(s, k) == Allowed(t, k))
  }

  lemma MoveOther(s: State, token: U32, from: AccountId, to: AccountId, value: U64, id: U32)
    requires token != id
    ensures SameToken(s, Move(s, token, from, to, value).state, id)
  {
    if Move(s, token, from, to, value).outcome == Ok {
      var h, g := Holding(token, from), Holding(token, to);
      var debited := s.balances[h := s.balances[h] - value];
      HoldersAfterWrite(s.balances, h, s.balances[h] - value, id);
      HoldersAfterWrite(debited, g, Balance(s, token, to) + value, id);
    }
  }

  /** A call on one token, or the creation of another, leaves a token as it was. */
  lemma OtherTokenUntouched(s: State, call: Call, id: U32)
    requires Subject(s, call) != id
    ensures SameToken(s, Step(s, call).state, id)
  {
    match call
    case InitCall(origin, _, _, totalSupply) =>
      HoldersAfterWrite(s.balances, Holding(s.tokenId, origin), totalSupply, id);
    case TransferCall(origin, token, to, value) => MoveOther(s, token, origin, to, value, id);
    case ApproveCall(_, _, _, _) =>
    case TransferFromCall(_, token, from, to, value) =>
      var k := Spend(token, from, to);
      if k in s.allowances && value <= s.allowances[k] {
        MoveOther(Spent(s, k, value), token, from, to, value, id);
      }
  }
}
