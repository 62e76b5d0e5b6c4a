/** Pairs do not interfere: what a pair stores, logs and pays is decided by the calls on that pair alone. */
module MicropaymentPairs {
  import opened Bytes
  import opened MicropaymentModel
  import opened MicropaymentLog

  datatype PairView = PairView(channel: Option<Chan>, nonce: U64, session: map<SessionKey, bool>,
                               log: seq<Event>, payments: seq<Payment>)

  function PairPayments(paid: seq<Payment>, pair: Pair): seq<Payment> {
    if paid == [] then []
    else
      var p := paid[|paid| - 1];
      PairPayments(paid[..|paid| - 1], pair) + if p.pair == pair then [p] else []
  }

  function PairSessions(session: map<SessionKey, bool>, pair: Pair): map<SessionKey, bool> {
    map k | k in session && k.pair == pair :: session[k]
  }

  function ViewOf(s: State, pair: Pair): PairView {
    PairView(if pair in s.channel then Some(s.channel[pair]) else None, NonceOf(s, pair),
             PairSessions(s.session, pair), PairLog(s.events, pair), PairPayments(s.paid, pair))
  }

  function CallsOn(calls: seq<Call>, pair: Pair): seq<Call> {
    if calls == [] then []
    else
      var call := calls[|calls| - 1];
      CallsOn(calls[..|calls| - 1], pair) + if Pair(call.sender, call.receiver) == pair then [call] else []
  }

  /** The outcomes a run gave to the calls on one pair. */
  function OutcomesOn(c: Crypto, calls: seq<Call>, pair: Pair): seq<Outcome> {
    if calls == [] then []
    else
      var before, call := calls[..|calls| - 1], calls[|calls| - 1];
      OutcomesOn(c, before, pair)
      + if Pair(call.sender, call.receiver) == pair then [Step(c, Exec(c, before), call).outcome] else []
  }

  /** Counting openings needs only the pair's own log. */
  lemma {:induction false} OpensInLog(events: seq<Event>, pair: Pair)
    ensures Opens(PairLog(events, pair), pair) == Opens(events, pair)
  {
    if events != [] {
      var before, e := events[..|events| - 1], events[|events| - 1];
      OpensInLog(before, pair);
      if PairOf(e) == pair {
        OpensSnoc(PairLog(before, pair), e);
      } else {
        assert PairLog(events, pair) == PairLog(before, pair);
      }
    }
  }

  lemma PairPaymentsSnoc(paid: seq<Payment>, p: Payment, pair: Pair)
    ensures PairPayments(paid + [p], pair) == PairPayments(paid, pair) + if p.pair == pair then [p] else []
  {
    assert (paid + [p])[..|paid|] == paid;
  }

  lemma SessionsFrame(c: Crypto, s: State, call: Call, pair: Pair)
    requires Pair(call.sender, call.receiver) != pair
    ensures PairSessions(Step(c, s, call).state.session, pair) == PairSessions(s.session, pair)
    ensures NonceOf(Step(c, s, call).state, pair) == NonceOf(s, pair)
  {
  }

  /** A call on one pair, closing by prefix removal included, changes nothing another pair can see. */
  lemma OtherPairUntouched(c: Crypto, s: State, call: Call, pair: Pair)
    requires Pair(call.sender, call.receiver) != pair
    ensures ViewOf(Step(c, s, call).state, pair) == ViewOf(s, pair)
  {
    SessionsFrame(c, s, call, pair);
    OtherChannel(c, s, call, pair);
    var t := Step(c, s, call).state;
    if t.events != s.events {
      PairLogSnoc(s.events, t.events[|s.events|], pair);
    }
    if t.paid != s.paid {
      PairPaymentsSnoc(s.paid, t.paid[|s.paid|], pair);
    }
  }

  lemma SessionsAfterClaim(session: map<SessionKey, bool>, key: SessionKey)
    ensures PairSessions(session[key := true], key.pair) == PairSessions(session, key.pair)[key := true]
    ensures key in session <==> key in PairSessions(session, key.pair)
  {
  }

  lemma SessionsAfterClose(session: map<SessionKey, bool>, pair: Pair)
    ensures PairSessions(WithoutSessions(session, pair), pair) == map[]
  {
  }

  lemma OpenLocal(c: Crypto, s: State, u: State, sender: AccountId, receiver: AccountId, duration: U32, now: U64)
    requires ViewOf(s, Pair(sender, receiver)) == ViewOf(u, Pair(sender, receiver))
    ensures var p, q := Open(s, sender, receiver, duration, now), Open(u, sender, receiver, duration, now);
            p.outcome == q.outcome && ViewOf(p.state, Pair(sender, receiver)) == ViewOf(q.state, Pair(sender, receiver))
  {
    var pair := Pair(sender, receiver);
    if Open(s, sender, receiver, duration, now).outcome == Ok {
      var e := ChannelOpened(sender, receiver, NonceOf(s, pair), now, Expiration(now, duration));
      PairLogSnoc(s.events, e, pair);
      PairLogSnoc(u.events, e, pair);
    }
  }

  lemma ClosedLocal(s: State, u: State, pair: Pair, now: U64)
    requires ViewOf(s, pair) == ViewOf(u, pair)
    ensures ViewOf(Closed(s, pair, now), pair) == ViewOf(Closed(u, pair, now), pair)
  {
    var e := ChannelClosed(pair.sender, pair.receiver, now);
    PairLogSnoc(s.events, e, pair);
    PairLogSnoc(u.events, e, pair);
    SessionsAfterClose(s.session, pair);
    SessionsAfterClose(u.session, pair);
  }

  /** A paid claim, seen by its pair. */
  lemma PaidView(s: State, p: Payment)
    ensures var v := ViewOf(s, p.pair);
            ViewOf(Paid(s, p), p.pair)
            == v.(session := v.session[SessionKey(p.pair, p.session) := true],
                  log := v.log + [ClaimPayment(p.pair.sender, p.pair.receiver, p.amount)],
                  payments := v.payments + [p])
  {
    PairLogSnoc(s.events, ClaimPayment(p.pair.sender, p.pair.receiver, p.amount), p.pair);
    PairPaymentsSnoc(s.paid, p, p.pair);
    SessionsAfterClaim(s.session, SessionKey(p.pair, p.session));
  }

  lemma PaidLocal(s: State, u: State, p: Payment)
    requires ViewOf(s, p.pair) == ViewOf(u, p.pair)
    ensures ViewOf(Paid(s, p), p.pair) == ViewOf(Paid(u, p), p.pair)
  {
    PaidView(s, p);
    PaidView(u, p);
  }

  /** What a claim consults is visible to the pair. */
  lemma SameAnswers(s: State, u: State, pair: Pair, session: U32)
    requires ViewOf(s, pair) == ViewOf(u, pair)
    ensures pair in s.channel <==> pair in u.channel
    ensures pair in s.channel ==> s.channel[pair] == u.channel[pair]
    ensures SessionKey(pair, session) in s.session <==> SessionKey(pair, session) in u.session
    ensures Opens(s.events, pair) == Opens(u.events, pair)
  {
    SessionsAfterClaim(s.session, SessionKey(pair, session));
    SessionsAfterClaim(u.session, SessionKey(pair, session));
    OpensInLog(s.events, pair);
    OpensInLog(u.events, pair);
  }

  lemma ClaimLocal(c: Crypto, s: State, u: State, receiver: AccountId, sender: AccountId, session: U32,
                   amount: U128, signature: seq<Byte>, now: U64, transferOk: bool)
    requires ViewOf(s, Pair(sender, receiver)) == ViewOf(u, Pair(sender, receiver))
    ensures var p := Claim(c, s, receiver, sender, session, amount, signature, now, transferOk);
            var q := Claim(c, u, receiver, sender, session, amount, signature, now, transferOk);
            p.outcome == q.outcome && ViewOf(p.state, Pair(sender, receiver)) == ViewOf(q.state, Pair(sender, receiver))
  {
    var pair := Pair(sender, receiver);
    var p := Claim(c, s, receiver, sender, session, amount, signature, now, transferOk);
    var q := Claim(c, u, receiver, sender, session, amount, signature, now, transferOk);
    SameAnswers(s, u, pair, session);
    assert p.outcome == q.outcome;
    if p.outcome != Ok {
      assert p.state == s && q.state == u;
    } else if s.channel[pair].expiration < now {
      assert p.state == Closed(s, pair, now) && q.state == Closed(u, pair, now);
      ClosedLocal(s, u, pair, now);
    } else {
      var pay := Payment(pair, Opens(s.events, pair) - 1, s.channel[pair].nonce, session, amount, signature, now);
      assert p.state == Paid(s, pay) && q.state == Paid(u, pay);
      PaidLocal(s, u, pay);
    }
  }

  /** States that look the same to a pair answer its calls alike and still look the same afterwards. */
  lemma StepLocal(c: Crypto, s: State, u: State, call: Call, pair: Pair)
    requires ViewOf(s, pair) == ViewOf(u, pair) && Pair(call.sender, call.receiver) == pair
    ensures Step(c, s, call).outcome == Step(c, u, call).outcome
    ensures ViewOf(Step(c, s, call).state, pair) == ViewOf(Step(c, u, call).state, pair)
  {
    match call
    case OpenCall(sender, receiver, duration, now) => OpenLocal(c, s, u, sender, receiver, duration, now);
    case CloseCall(sender, receiver, now) => ClosedLocal(s, u, pair, now);
    case ClaimCall(sender, receiver, session, amount, signature, now, transferOk) =>
      ClaimLocal(c, s, u, receiver, sender, session, amount, signature, now, transferOk);
  }

  /** For every run, a pair's storage, log, transfers and outcomes are those of the run of its own calls. */
  lemma {:induction false} PairsIndependent(c: Crypto, calls: seq<Call>, pair: Pair)
    ensures ViewOf(Exec(c, calls), pair) == ViewOf(Exec(c, CallsOn(calls, pair)), pair)
    ensures OutcomesOn(c, calls, pair) == Outcomes(c, CallsOn(calls, pair))
  {
    if calls != [] {
      var before, call := calls[..|calls| - 1], calls[|calls| - 1];
      var own := CallsOn(before, pair);
      PairsIndependent(c, before, pair);
      if Pair(call.sender, call.receiver) == pair {
        StepLocal(c, Exec(c, before), Exec(c, own), call, pair);
        assert CallsOn(calls, pair)[..|own|] == own;
      } else {
        OtherPairUntouched(c, Exec(c, before), call, pair);
        assert CallsOn(calls, pair) == own;
      }
    }
  }
}
