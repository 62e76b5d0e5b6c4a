/** The shape of the event log: per pair, opened - claims - closed, again and again, with nonces counting
    up, and every claim inside its channel's time window. */
module MicropaymentLog {
  import opened Bytes
  import opened MicropaymentModel
  import opened MicropaymentSafety

  datatype Receipt = Receipt(amount: U128, at: U64)

  /** One life of a channel: its opening, the claims in order, and its closing if that has come. */
  datatype Period = Period(nonce: U64, openedAt: U64, expiration: U64, receipts: seq<Receipt>, closedAt: Option<U64>)

  function PairLog(events: seq<Event>, pair: Pair): seq<Event> {
    if events == [] then []
    else
      var e := events[|events| - 1];
      PairLog(events[..|events| - 1], pair) + if PairOf(e) == pair then [e] else []
  }

  function PairReceipts(paid: seq<Payment>, pair: Pair): seq<Receipt> {
    if paid == [] then []
    else
      var p := paid[|paid| - 1];
      PairReceipts(paid[..|paid| - 1], pair) + if p.pair == pair then [Receipt(p.amount, p.at)] else []
  }

  function RenderReceipts(pair: Pair, receipts: seq<Receipt>): seq<Event> {
    seq(|receipts|, i requires 0 <= i < |receipts| => ClaimPayment(pair.sender, pair.receiver, receipts[i].amount))
  }

  function RenderClosing(pair: Pair, closedAt: Option<U64>): seq<Event> {
    match closedAt
    case None => []
    case Some(at) => [ChannelClosed(pair.sender, pair.receiver, at)]
  }

  function Render(pair: Pair, p: Period): seq<Event> {
    [ChannelOpened(pair.sender, pair.receiver, p.nonce, p.openedAt, p.expiration)]
    + RenderReceipts(pair, p.receipts) + RenderClosing(pair, p.closedAt)
  }

  function RenderAll(pair: Pair, ps: seq<Period>): seq<Event> {
    if ps == [] then [] else RenderAll(pair, ps[..|ps| - 1]) + Render(pair, ps[|ps| - 1])
  }

  function AllReceipts(ps: seq<Period>): seq<Receipt> {
    if ps == [] then [] else AllReceipts(ps[..|ps| - 1]) + ps[|ps| - 1].receipts
  }

  /** The periods of one pair in one run, told from the calls and their outcomes. */
  function Extend(c: Crypto, s: State, call: Call, pair: Pair, ps: seq<Period>): seq<Period> {
    var r := Step(c, s, call);
    if Pair(call.sender, call.receiver) != pair || r.outcome != Ok then ps
    else if call.OpenCall? then
      ps + [Period(NonceOf(s, pair), call.now, Expiration(call.now, call.duration), [], None)]
    else if ps == [] then ps
    else
      var last := ps[|ps| - 1];
      var changed := if pair in r.state.channel
                     then last.(receipts := last.receipts + [Receipt(call.amount, call.now)])
                     else last.(closedAt := Some(call.now));
      ps[..|ps| - 1] + [changed]
  }

  function Periods(c: Crypto, calls: seq<Call>, pair: Pair): seq<Period> {
    if calls == [] then []
    else
      var before := calls[..|calls| - 1];
      Extend(c, Exec(c, before), calls[|calls| - 1], pair, Periods(c, before, pair))
  }

  ghost predicate PeriodOk(ps: seq<Period>, i: nat)
    requires i < |ps|
  {
    && ps[i].nonce == Wrap(i, TWO_64)
    && ps[i].openedAt <= ps[i].expiration
    && (forall r | r in ps[i].receipts :: r.at <= ps[i].expiration)
    && (i < |ps| - 1 ==> ps[i].closedAt.Some?)
  }

  ghost predicate AllOk(ps: seq<Period>) {
    forall i | 0 <= i < |ps| :: PeriodOk(ps, i)
  }

  /** The pair's log is its periods rendered one after the other, its transfers are their receipts, and the
      channel is open exactly when the last period has no closing yet. */
  ghost predicate Shape(s: State, pair: Pair, ps: seq<Period>) {
    && PairLog(s.events, pair) == RenderAll(pair, ps)
    && PairReceipts(s.paid, pair) == AllReceipts(ps)
    && |ps| == Opens(s.events, pair)
    && AllOk(ps)
    && (pair in s.channel <==> ps != [] && ps[|ps| - 1].closedAt.None?)
    && (pair in s.channel ==>
          var p := ps[|ps| - 1];
          s.channel[pair] == Chan(pair.sender, pair.receiver, p.nonce, p.openedAt, p.expiration))
  }

  lemma PairLogSnoc(events: seq<Event>, e: Event, pair: Pair)
    ensures PairLog(events + [e], pair) == PairLog(events, pair) + if PairOf(e) == pair then [e] else []
    ensures Opens(events + [e], pair)
         == Opens(events, pair) + if e.ChannelOpened? && PairOf(e) == pair then 1 else 0
  {
    assert (events + [e])[..|events|] == events;
  }

  lemma PairReceiptsSnoc(paid: seq<Payment>, p: Payment, pair: Pair)
    ensures PairReceipts(paid + [p], pair)
         == PairReceipts(paid, pair) + if p.pair == pair then [Receipt(p.amount, p.at)] else []
  {
    assert (paid + [p])[..|paid|] == paid;
  }

  lemma RenderAllSnoc(pair: Pair, ps: seq<Period>, p: Period)
    ensures RenderAll(pair, ps + [p]) == RenderAll(pair, ps) + Render(pair, p)
    ensures AllReceipts(ps + [p]) == AllReceipts(ps) + p.receipts
  {
    assert (ps + [p])[..|ps|] == ps;
  }

  /** A new period can follow once the previous one is closed. */
  lemma PeriodAppended(ps: seq<Period>, p: Period)
    requires AllOk(ps) && (ps != [] ==> ps[|ps| - 1].closedAt.Some?)
    requires p.nonce == Wrap(|ps|, TWO_64) && p.openedAt <= p.expiration && p.receipts == []
    ensures AllOk(ps + [p])
  {
    var qs := ps + [p];
    forall i | 0 <= i < |qs|
      ensures PeriodOk(qs, i)
    {
      assert i < |ps| ==> PeriodOk(ps, i);
    }
  }

  lemma OpenedShape(s: State, pair: Pair, duration: U32, now: U64, ps: seq<Period>)
    requires PairInv(s, pair) && Shape(s, pair, ps)
    requires Open(s, pair.sender, pair.receiver, duration, now).outcome == Ok
    ensures Shape(Open(s, pair.sender, pair.receiver, duration, now).state, pair,
                  ps + [Period(NonceOf(s, pair), now, Expiration(now, duration), [], None)])
  {
    var p := Period(NonceOf(s, pair), now, Expiration(now, duration), [], None);
    PairLogSnoc(s.events, ChannelOpened(pair.sender, pair.receiver, p.nonce, p.openedAt, p.expiration), pair);
    RenderAllSnoc(pair, ps, p);
    PeriodAppended(ps, p);
    assert Render(pair, p) == [ChannelOpened(pair.sender, pair.receiver, p.nonce, p.openedAt, p.expiration)];
  }

  /** Changing the last period within its window keeps all periods in order. */
  lemma LastChanged(ps: seq<Period>, changed: Period)
    requires ps != [] && AllOk(ps)
    requires var last := ps[|ps| - 1];
             changed.nonce == last.nonce && changed.openedAt == last.openedAt && changed.expiration == last.expiration
    requires forall r | r in changed.receipts :: r.at <= changed.expiration
    ensures AllOk(ps[..|ps| - 1] + [changed])
  {
    var qs := ps[..|ps| - 1] + [changed];
    forall i | 0 <= i < |qs|
      ensures PeriodOk(qs, i)
    {
      assert PeriodOk(ps, i);
    }
  }

  lemma ClosedShape(s: State, pair: Pair, now: U64, ps: seq<Period>)
    requires Shape(s, pair, ps) && pair in s.channel
    ensures Shape(Closed(s, pair, now), pair, ps[..|ps| - 1] + [ps[|ps| - 1].(closedAt := Some(now))])
  {
    var front, last := ps[..|ps| - 1], ps[|ps| - 1];
    assert PeriodOk(ps, |ps| - 1);
    LastChanged(ps, last.(closedAt := Some(now)));
    PairLogSnoc(s.events, ChannelClosed(pair.sender, pair.receiver, now), pair);
    assert ps == front + [last];
    RenderAllSnoc(pair, front, last);
    RenderAllSnoc(pair, front, last.(closedAt := Some(now)));
  }

  lemma RenderClaim(pair: Pair, p: Period, r: Receipt)
    requires p.closedAt.None?
    ensures Render(pair, p.(receipts := p.receipts + [r]))
         == Render(pair, p) + [ClaimPayment(pair.sender, pair.receiver, r.amount)]
  {
    assert RenderReceipts(pair, p.receipts + [r])
        == RenderReceipts(pair, p.receipts) + [ClaimPayment(pair.sender, pair.receiver, r.amount)];
  }

  lemma ClaimedShape(s: State, t: State, pair: Pair, p: Payment, ps: seq<Period>)
    requires Shape(s, pair, ps) && pair in s.channel && p.pair == pair && p.at <= s.channel[pair].expiration
    requires t.channel == s.channel && t.paid == s.paid + [p]
    requires t.events == s.events + [ClaimPayment(pair.sender, pair.receiver, p.amount)]
    ensures Shape(t, pair, ps[..|ps| - 1]
                           + [ps[|ps| - 1].(receipts := ps[|ps| - 1].receipts + [Receipt(p.amount, p.at)])])
  {
    var front, last := ps[..|ps| - 1], ps[|ps| - 1];
    var changed := last.(receipts := last.receipts + [Receipt(p.amount, p.at)]);
    assert PeriodOk(ps, |ps| - 1);
    LastChanged(ps, changed);
    PairLogSnoc(s.events, ClaimPayment(pair.sender, pair.receiver, p.amount), pair);
    PairReceiptsSnoc(s.paid, p, pair);
    assert ps == front + [last];
    RenderAllSnoc(pair, front, last);
    RenderAllSnoc(pair, front, changed);
    RenderClaim(pair, last, Receipt(p.amount, p.at));
  }

  /** A call on another pair, or a refused one, leaves this pair's log, transfers and channel alone. */
  lemma OtherShape(c: Crypto, s: State, call: Call, pair: Pair, ps: seq<Period>)
    requires Shape(s, pair, ps)
    requires Pair(call.sender, call.receiver) != pair || Step(c, s, call).outcome != Ok
    ensures Shape(Step(c, s, call).state, pair, ps)
  {
    OtherChannel(c, s, call, pair);
    var t := Step(c, s, call).state;
    if t.events != s.events {
      PairLogSnoc(s.events, t.events[|s.events|], pair);
    }
    if t.paid != s.paid {
      PairReceiptsSnoc(s.paid, t.paid[|s.paid|], pair);
    }
  }

  lemma OtherChannel(c: Crypto, s: State, call: Call, pair: Pair)
    requires Pair(call.sender, call.receiver) != pair || Step(c, s, call).outcome != Ok
    ensures var t := Step(c, s, call).state;
            && (pair in t.channel <==> pair in s.channel)
            && (pair in s.channel ==> t.channel[pair] == s.channel[pair])
            && (t.events == s.events
                || (|t.events| == |s.events| + 1 && t.events == s.events + [t.events[|s.events|]]
                    && PairOf(t.events[|s.events|]) != pair))
            && (t.paid == s.paid
                || (|t.paid| == |s.paid| + 1 && t.paid == s.paid + [t.paid[|s.paid|]]
                    && t.paid[|s.paid|].pair != pair))
  {
  }

  lemma StepShape(c: Crypto, s: State, call: Call, pair: Pair, ps: seq<Period>)
    requires PairInv(s, pair) && Shape(s, pair, ps)
    ensures Shape(Step(c, s, call).state, pair, Extend(c, s, call, pair, ps))
  {
    var r := Step(c, s, call);
    if Pair(call.sender, call.receiver) != pair || r.outcome != Ok {
      OtherShape(c, s, call, pair, ps);
    } else if call.OpenCall? {
      OpenedShape(s, pair, call.duration, call.now, ps);
    } else if pair !in r.state.channel {
      ClosedShape(s, pair, call.now, ps);
    } else {
      ClaimedShape(s, r.state, pair, r.state.paid[|s.paid|], ps);
    }
  }

  /** For every run and every pair, the log is (Opened Claim* Closed)* cut off at the end, the i-th opening
      has nonce i (wrapped to 64 bits), and each claim event is one executed transfer. */
  lemma {:induction false} LogShape(c: Crypto, calls: seq<Call>, pair: Pair)
    ensures Shape(Exec(c, calls), pair, Periods(c, calls, pair))
  {
    if calls != [] {
      var before := calls[..|calls| - 1];
      LogShape(c, before, pair);
      RunInv(c, before);
      StepShape(c, Exec(c, before), calls[|calls| - 1], pair, Periods(c, before, pair));
    }
  }

  /** The openings that went through for a pair, in order. */
  function Openings(c: Crypto, calls: seq<Call>, pair: Pair): seq<Call> {
    if calls == [] then []
    else
      var before, call := calls[..|calls| - 1], calls[|calls| - 1];
      Openings(c, before, pair)
      + if call.OpenCall? && Pair(call.sender, call.receiver) == pair && Step(c, Exec(c, before), call).outcome == Ok
        then [call] else []
  }

  lemma {:induction false} PeriodsFollowOpenings(c: Crypto, calls: seq<Call>, pair: Pair)
    ensures |Openings(c, calls, pair)| == |Periods(c, calls, pair)|
    ensures forall i | 0 <= i < |Openings(c, calls, pair)| ::
              var p, call := Periods(c, calls, pair)[i], Openings(c, calls, pair)[i];
              && call.OpenCall?
              && p.openedAt == call.now && p.expiration == Expiration(call.now, call.duration)
  {
    if calls != [] {
      PeriodsFollowOpenings(c, calls[..|calls| - 1], pair);
    }
  }

  /** Each period starts at the clock of its opening call and lasts for the call's milliseconds modulo 2^32,
      cut off at the last moment. */
  lemma PeriodDurations(c: Crypto, calls: seq<Call>, pair: Pair, i: nat)
    requires i < |Periods(c, calls, pair)|
    ensures |Openings(c, calls, pair)| == |Periods(c, calls, pair)| && Openings(c, calls, pair)[i].OpenCall?
    ensures var p, call := Periods(c, calls, pair)[i], Openings(c, calls, pair)[i];
            var m := 1000 * call.duration % TWO_32;
            && p.openedAt == call.now
            && p.expiration == if call.now + m < TWO_64 then call.now + m else TWO_64 - 1
  {
    PeriodsFollowOpenings(c, calls, pair);
    ExpirationExact(Openings(c, calls, pair)[i].now, Openings(c, calls, pair)[i].duration);
  }

  ghost predicate Monotone(calls: seq<Call>) {
    forall i, j :: 0 <= i < j < |calls| ==> calls[i].now <= calls[j].now
  }

  /** All times of a period lie between its opening and `now`. */
  ghost predicate Within(p: Period, now: U64) {
    && p.openedAt <= now
    && (forall r | r in p.receipts :: p.openedAt <= r.at <= now)
    && (p.closedAt.Some? ==> p.openedAt <= p.closedAt.value <= now)
  }

  lemma {:induction false} PeriodTimes(c: Crypto, calls: seq<Call>, pair: Pair, now: U64)
    requires Monotone(calls) && (calls != [] ==> calls[|calls| - 1].now <= now)
    ensures forall p | p in Periods(c, calls, pair) :: Within(p, now)
  {
    if calls != [] {
      var before := calls[..|calls| - 1];
      PeriodTimes(c, before, pair, calls[|calls| - 1].now);
      var ps, qs := Periods(c, before, pair), Periods(c, calls, pair);
      forall p | p in qs
        ensures Within(p, now)
      {
        if p !in ps && |ps| == |qs| {
          assert Within(ps[|ps| - 1], calls[|calls| - 1].now);
        } else if p in ps {
          assert Within(p, calls[|calls| - 1].now);
        }
      }
    }
  }

  /** Under a clock that never runs backwards, a claim of the i-th opening is paid at a time t with
      opened <= t <= expiration <= opened + 1000 * duration. */
  lemma ClaimWindow(c: Crypto, calls: seq<Call>, pair: Pair, i: nat, r: Receipt)
    requires Monotone(calls) && i < |Periods(c, calls, pair)| && r in Periods(c, calls, pair)[i].receipts
    ensures i < |Openings(c, calls, pair)| && Openings(c, calls, pair)[i].OpenCall?
    ensures var p, call := Periods(c, calls, pair)[i], Openings(c, calls, pair)[i];
            p.openedAt <= r.at <= p.expiration <= p.openedAt + 1000 * call.duration
  {
    LogShape(c, calls, pair);
    PeriodsFollowOpenings(c, calls, pair);
    var now := calls[|calls| - 1].now;
    PeriodTimes(c, calls, pair, now);
    assert PeriodOk(Periods(c, calls, pair), i);
    assert Within(Periods(c, calls, pair)[i], now);
    ExpirationWindow(Openings(c, calls, pair)[i].now, Openings(c, calls, pair)[i].duration);
  }
}
