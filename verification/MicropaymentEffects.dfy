/** What each channel call answers and does in any state, wrapped nonces included. */
module MicropaymentEffects {
  import opened Bytes
  import opened SignedMessage
  import opened MicropaymentModel
  import opened MicropaymentLedger

  /** The storage of all pairs but one is as it was. */
  ghost predicate OtherPairsSame(s: State, t: State, pair: Pair) {
    && (forall q: Pair | q != pair ::
          && (q in t.channel <==> q in s.channel) && (q in s.channel ==> t.channel[q] == s.channel[q])
          && NonceOf(t, q) == NonceOf(s, q))
    && (forall k: SessionKey | k.pair != pair ::
          (k in t.session <==> k in s.session) && (k in s.session ==> t.session[k] == s.session[k]))
  }

  lemma OpenEffect(c: Crypto, s: State, call: Call)
    requires call.OpenCall?
    ensures var r, pair := Step(c, s, call), Pair(call.sender, call.receiver);
            && (r.outcome == Err(AlreadyOpened) <==> pair in s.channel)
            && (r.outcome == Err(SameAccount) <==> pair !in s.channel && pair.sender == pair.receiver)
            && (r.outcome == Ok <==> pair !in s.channel && pair.sender != pair.receiver)
            && (r.outcome != Ok ==> r.state == s)
            && (r.outcome == Ok ==>
                  var nonce, end := NonceOf(s, pair), Deadline(call.now, call.duration);
                  && pair in r.state.channel
                  && r.state.channel[pair] == Chan(call.sender, call.receiver, nonce, call.now, end)
                  && NonceOf(r.state, pair) == (if nonce == TWO_64 - 1 then 0 else nonce + 1)
                  && OtherPairsSame(s, r.state, pair) && r.state.session == s.session
                  && r.state.events
                     == s.events + [ChannelOpened(call.sender, call.receiver, nonce, call.now, end)]
                  && r.state.paid == s.paid)
  {
    ExpirationExact(call.now, call.duration);
  }

  /** What closing a pair's channel does, asked for or on expiry. */
  ghost predicate ClosedFor(s: State, t: State, pair: Pair, now: U64) {
    && pair !in t.channel && (forall k | k in t.session :: k.pair != pair)
    && NonceOf(t, pair) == NonceOf(s, pair) && OtherPairsSame(s, t, pair)
    && t.events == s.events + [ChannelClosed(pair.sender, pair.receiver, now)] && t.paid == s.paid
  }

  lemma CloseEffect(c: Crypto, s: State, call: Call)
    requires call.CloseCall?
    ensures var r, pair := Step(c, s, call), Pair(call.sender, call.receiver);
            && (pair in s.channel ==> r.outcome == Ok && ClosedFor(s, r.state, pair, call.now))
            && (pair !in s.channel ==> r.outcome == Err(NoChannel) && r.state == s)
  {
  }

  /** The signature check of a claim on an open channel. */
  predicate Signed(c: Crypto, s: State, call: Call)
    requires call.ClaimCall? && Pair(call.sender, call.receiver) in s.channel
  {
    var nonce := s.channel[Pair(call.sender, call.receiver)].nonce;
    var digest := c.hash(Layout(Message(call.receiver, nonce, call.session, call.amount)));
    c.verify(call.signature, digest, call.sender)
  }

  lemma ClaimAnswer(c: Crypto, s: State, call: Call)
    requires call.ClaimCall? && Pair(call.sender, call.receiver) in s.channel
    ensures var r, pair := Step(c, s, call), Pair(call.sender, call.receiver);
            var expired := s.channel[pair].expiration < call.now;
            var unspent := SessionKey(pair, call.session) !in s.session;
            var wellSized := |call.signature| == 64;
            && (r.outcome == Err(SessionConsumed) <==> !expired && !unspent)
            && (r.outcome == Trap <==> !expired && unspent && !wellSized)
            && (r.outcome == Err(BadSignature) <==> !expired && unspent && wellSized && !Signed(c, s, call))
            && (r.outcome == Err(TransferFailed) <==>
                  !expired && unspent && wellSized && Signed(c, s, call) && !call.transferOk)
            && (r.outcome == Ok <==>
                  expired || (unspent && wellSized && Signed(c, s, call) && call.transferOk))
  {
  }

  lemma ClaimEffect(c: Crypto, s: State, call: Call)
    requires call.ClaimCall?
    ensures var r, pair := Step(c, s, call), Pair(call.sender, call.receiver);
            && (pair !in s.channel ==> r.outcome == Err(NoChannel))
            && (r.outcome != Ok ==> r.state == s)
            && (r.outcome == Ok ==>
                  && pair in s.channel
                  && (s.channel[pair].expiration < call.now ==> ClosedFor(s, r.state, pair, call.now))
                  && (call.now <= s.channel[pair].expiration ==>
                        && r.state.channel == s.channel && r.state.nonce == s.nonce
                        && r.state.session == s.session[SessionKey(pair, call.session) := true]
                        && r.state.events == s.events + [ClaimPayment(call.sender, call.receiver, call.amount)]
                        && r.state.paid
                           == s.paid + [Payment(pair, Opens(s.events, pair) - 1, s.channel[pair].nonce,
                                                call.session, call.amount, call.signature, call.now)]))
  {
  }
}
