/** The reference design: a ledger of spent (sender, receiver, nonce, session) tuples that is never pruned.
    The pallet, which forgets its session index on every close, behaves exactly like it. */
module MicropaymentLedger {
  import opened Bytes
  import opened MicropaymentModel
  import opened MicropaymentSafety

  datatype Ledger = Ledger(channel: map<Pair, Chan>, nonce: map<Pair, U64>, spent: set<Key>, events: seq<Event>)

  datatype LedgerResult = LedgerResult(ledger: Ledger, outcome: Outcome)

  const EMPTY: Ledger := Ledger(map[], map[], {}, [])

  /** Shutting a channel leaves the spent tuples alone. */
  function Shut(l: Ledger, pair: Pair, now: U64): Ledger {
    l.(channel := l.channel - {pair}, events := l.events + [ChannelClosed(pair.sender, pair.receiver, now)])
  }

  /** When a channel opened now for so many seconds ends. */
  function Deadline(now: U64, duration: U32): U64 {
    var millis := 1000 * duration % TWO_32;
    if now + millis < TWO_64 then now + millis else TWO_64 - 1
  }

  function Post(c: Crypto, l: Ledger, call: Call): LedgerResult {
    var pair := Pair(call.sender, call.receiver);
    match call
    case OpenCall(sender, receiver, duration, now) =>
      if pair in l.channel then LedgerResult(l, Err(AlreadyOpened))
      else if sender == receiver then LedgerResult(l, Err(SameAccount))
      else
        var nonce: U64 := if pair in l.nonce then l.nonce[pair] else 0;
        var chan := Chan(sender, receiver, nonce, now, Deadline(now, duration));
        var event := ChannelOpened(sender, receiver, nonce, now, Deadline(now, duration));
        LedgerResult(Ledger(l.channel[pair := chan], l.nonce[pair := Wrap(nonce + 1, TWO_64)], l.spent,
                            l.events + [event]), Ok)
    case CloseCall(_, _, now) =>
      if pair !in l.channel then LedgerResult(l, Err(NoChannel)) else LedgerResult(Shut(l, pair, now), Ok)
    case ClaimCall(sender, receiver, session, amount, signature, now, transferOk) =>
      if pair !in l.channel then LedgerResult(l, Err(NoChannel))
      else if l.channel[pair].expiration < now then LedgerResult(Shut(l, pair, now), Ok)
      else
        var nonce := l.channel[pair].nonce;
        var key := Key(pair, nonce, session);
        if key in l.spent then LedgerResult(l, Err(SessionConsumed))
        else if |signature| != SIGNATURE_LENGTH then LedgerResult(l, Trap)
        else if !c.verify(signature, DigestOf(c, receiver, nonce, session, amount), sender) then
          LedgerResult(l, Err(BadSignature))
        else if !transferOk then LedgerResult(l, Err(TransferFailed))
        else LedgerResult(l.(spent := l.spent + {key}, events := l.events + [ClaimPayment(sender, receiver, amount)]),
                          Ok)
  }

  function PostAll(c: Crypto, calls: seq<Call>): Ledger {
    if calls == [] then EMPTY
    else Post(c, PostAll(c, calls[..|calls| - 1]), calls[|calls| - 1]).ledger
  }

  function LedgerOutcomes(c: Crypto, calls: seq<Call>): (outs: seq<Outcome>)
    ensures |outs| == |calls|
  {
    if calls == [] then []
    else
      var before := calls[..|calls| - 1];
      LedgerOutcomes(c, before) + [Post(c, PostAll(c, before), calls[|calls| - 1]).outcome]
  }

  function Spent(paid: seq<Payment>): set<Key> {
    set p | p in paid :: KeyOf(p)
  }

  function Abstraction(s: State): Ledger {
    Ledger(s.channel, s.nonce, Spent(s.paid), s.events)
  }

  /** The pruned session check agrees with the unpruned ledger on every open channel. */
  lemma SessionCheckAgrees(c: Crypto, s: State, pair: Pair, session: U32)
    requires Inv(c, s) && NoWrap(s) && pair in s.channel
    ensures SessionKey(pair, session) in s.session
       <==> Key(pair, s.channel[pair].nonce, session) in Spent(s.paid)
  {
    assert PairInv(s, pair);
    var epoch := Opens(s.events, pair) - 1;
    var key := Key(pair, s.channel[pair].nonce, session);
    if PaidIn(s.paid, pair, epoch, session) {
      var i :| 0 <= i < |s.paid| && s.paid[i].pair == pair && s.paid[i].epoch == epoch
               && s.paid[i].session == session;
      assert PaymentInv(c, s, s.paid[i]);
      assert KeyOf(s.paid[i]) == key;
    }
    if key in Spent(s.paid) {
      var i :| 0 <= i < |s.paid| && KeyOf(s.paid[i]) == key;
      assert PaymentInv(c, s, s.paid[i]);
      assert Opens(s.events, pair) <= TWO_64;
      assert s.paid[i].epoch == epoch;
    }
  }

  lemma SpentSnoc(paid: seq<Payment>, p: Payment)
    ensures Spent(paid + [p]) == Spent(paid) + {KeyOf(p)}
  {
    assert forall q :: q in paid + [p] <==> q in paid || q == p;
  }

  /** One step of the pallet is one step of the ledger, with the same outcome. */
  lemma StepRefines(c: Crypto, s: State, call: Call)
    requires Inv(c, s) && NoWrap(s)
    ensures Post(c, Abstraction(s), call)
         == LedgerResult(Abstraction(Step(c, s, call).state), Step(c, s, call).outcome)
  {
    if call.OpenCall? {
      ExpirationExact(call.now, call.duration);
    } else if call.ClaimCall? {
      var pair := Pair(call.sender, call.receiver);
      if pair in s.channel {
        SessionCheckAgrees(c, s, pair, call.session);
        var t := Step(c, s, call).state;
        if |t.paid| > |s.paid| {
          SpentSnoc(s.paid, t.paid[|s.paid|]);
        }
      }
    }
  }

  lemma OpensGrow(c: Crypto, s: State, call: Call)
    ensures forall pair: Pair :: Opens(s.events, pair) <= Opens(Step(c, s, call).state.events, pair)
  {
    var t := Step(c, s, call).state;
    if t.events != s.events {
      OpensSnoc(s.events, t.events[|s.events|]);
    }
  }

  /** Over every run in which no pair is opened more than 2^64 times, the pallet and the unpruned ledger
      return the same outcomes, keep the same channels and nonces, and write the same log. */
  lemma {:induction false} RunRefines(c: Crypto, calls: seq<Call>)
    requires NoWrap(Exec(c, calls))
    ensures PostAll(c, calls) == Abstraction(Exec(c, calls))
    ensures LedgerOutcomes(c, calls) == Outcomes(c, calls)
  {
    if calls != [] {
      var before := calls[..|calls| - 1];
      var s := Exec(c, before);
      OpensGrow(c, s, calls[|calls| - 1]);
      assert NoWrap(s) by {
        forall pair: Pair
          ensures Opens(s.events, pair) <= TWO_64
        {
          assert Opens(Exec(c, calls).events, pair) <= TWO_64;
        }
      }
      RunInv(c, before);
      RunRefines(c, before);
      StepRefines(c, s, calls[|calls| - 1]);
    }
  }

  /** A step with one outcome on both sides is one step of the ledger, and pays no spent tuple again. */
  lemma AgreeingStep(c: Crypto, s: State, call: Call)
    requires Post(c, Abstraction(s), call).outcome == Step(c, s, call).outcome && PaidOncePerKey(s.paid)
    ensures Post(c, Abstraction(s), call).ledger == Abstraction(Step(c, s, call).state)
    ensures PaidOncePerKey(Step(c, s, call).state.paid)
  {
    var t := Step(c, s, call).state;
    if call.OpenCall? {
      ExpirationExact(call.now, call.duration);
    }
    if t.paid != s.paid {
      var p := t.paid[|s.paid|];
      assert t.paid == s.paid + [p];
      SpentSnoc(s.paid, p);
      forall i | 0 <= i < |s.paid|
        ensures KeyOf(s.paid[i]) != KeyOf(p)
      {
        assert KeyOf(s.paid[i]) in Spent(s.paid);
      }
    }
  }

  /** A run in which pallet and ledger return the same outcomes ends in the same state, wrap-around or not,
      and pays no tuple twice. */
  lemma {:induction false} AgreeingRun(c: Crypto, calls: seq<Call>)
    requires LedgerOutcomes(c, calls) == Outcomes(c, calls)
    ensures PostAll(c, calls) == Abstraction(Exec(c, calls))
    ensures PaidOncePerKey(Exec(c, calls).paid)
  {
    if calls != [] {
      var before, call := calls[..|calls| - 1], calls[|calls| - 1];
      var ledgerOuts, outs := LedgerOutcomes(c, calls), Outcomes(c, calls);
      assert ledgerOuts[..|before|] == LedgerOutcomes(c, before) && outs[..|before|] == Outcomes(c, before);
      AgreeingRun(c, before);
      assert ledgerOuts[|before|] == outs[|before|];
      AgreeingStep(c, Exec(c, before), call);
    }
  }

  /** The ledger's spent set only grows, and a claim pays exactly when it adds a tuple to it. */
  lemma LedgerNeverForgets(c: Crypto, l: Ledger, call: Call)
    ensures l.spent <= Post(c, l, call).ledger.spent
    ensures Post(c, l, call).ledger.spent != l.spent <==>
              && call.ClaimCall?
              && var pair := Pair(call.sender, call.receiver);
              && pair in l.channel
              && call.now <= l.channel[pair].expiration
              && Key(pair, l.channel[pair].nonce, call.session) !in l.spent
              && |call.signature| == 64
              && c.verify(call.signature,
                          DigestOf(c, call.receiver, l.channel[pair].nonce, call.session, call.amount), call.sender)
              && call.transferOk
  {
    if Post(c, l, call).ledger.spent != l.spent {
      var pair := Pair(call.sender, call.receiver);
      assert Key(pair, l.channel[pair].nonce, call.session) in Post(c, l, call).ledger.spent;
    }
  }
}
