/** Where replay protection ends: the u64 nonce comes round after 2^64 openings of one pair. */
module MicropaymentWrap {
  import opened Bytes
  import opened MicropaymentModel
  import opened MicropaymentSafety
  import opened MicropaymentLedger

  /** No pair was opened more than `k` times. */
  ghost predicate OpenedAtMost(s: State, k: nat) {
    forall pair: Pair :: Opens(s.events, pair) <= k
  }

  function OpenCallOf(pair: Pair): Call {
    OpenCall(pair.sender, pair.receiver, 0, 0)
  }

  function CloseCallOf(pair: Pair): Call {
    CloseCall(pair.sender, pair.receiver, 0)
  }

  /** The run `calls` followed by opening and closing the pair's channel `n` times. */
  function Cycled(calls: seq<Call>, pair: Pair, n: nat): seq<Call> {
    if n == 0 then calls else Cycled(calls, pair, n - 1) + [OpenCallOf(pair)] + [CloseCallOf(pair)]
  }

  /** Between two logs, the pair was opened `n` more times and no other pair was opened. */
  ghost predicate OpenedMore(before: seq<Event>, after: seq<Event>, pair: Pair, n: nat) {
    forall q: Pair :: Opens(after, q) == Opens(before, q) + if q == pair then n else 0
  }

  lemma OpenNow(c: Crypto, calls: seq<Call>, pair: Pair)
    requires pair.sender != pair.receiver && pair !in Exec(c, calls).channel
    ensures var s, t := Exec(c, calls), Exec(c, calls + [OpenCallOf(pair)]);
            && pair in t.channel && t.channel[pair].nonce == Wrap(Opens(s.events, pair), TWO_64)
            && t.channel[pair].expiration == 0
            && t.session == s.session && t.paid == s.paid && OpenedMore(s.events, t.events, pair, 1)
  {
    var s := Exec(c, calls);
    ExecSnoc(c, calls, OpenCallOf(pair));
    RunInv(c, calls);
    assert PairInv(s, pair);
    OpensSnoc(s.events, Step(c, s, OpenCallOf(pair)).state.events[|s.events|]);
  }

  lemma CloseNow(c: Crypto, calls: seq<Call>, pair: Pair)
    requires pair in Exec(c, calls).channel
    ensures var s, t := Exec(c, calls), Exec(c, calls + [CloseCallOf(pair)]);
            pair !in t.channel && t.paid == s.paid && OpenedMore(s.events, t.events, pair, 0)
  {
    var s := Exec(c, calls);
    ExecSnoc(c, calls, CloseCallOf(pair));
    OpensSnoc(s.events, ChannelClosed(pair.sender, pair.receiver, 0));
  }

  lemma CycleNow(c: Crypto, calls: seq<Call>, pair: Pair)
    requires pair.sender != pair.receiver && pair !in Exec(c, calls).channel
    ensures var s, t := Exec(c, calls), Exec(c, calls + [OpenCallOf(pair)] + [CloseCallOf(pair)]);
            pair !in t.channel && t.paid == s.paid && OpenedMore(s.events, t.events, pair, 1)
  {
    OpenNow(c, calls, pair);
    CloseNow(c, calls + [OpenCallOf(pair)], pair);
  }

  lemma {:induction false} CyclesRun(c: Crypto, calls: seq<Call>, pair: Pair, n: nat)
    requires pair.sender != pair.receiver && pair !in Exec(c, calls).channel
    ensures var s, t := Exec(c, calls), Exec(c, Cycled(calls, pair, n));
            pair !in t.channel && t.paid == s.paid && OpenedMore(s.events, t.events, pair, n)
  {
    if n > 0 {
      CyclesRun(c, calls, pair, n - 1);
      CycleNow(c, Cycled(calls, pair, n - 1), pair);
    }
  }

  /** A claim on the pair that the currency will honour, signed for the given nonce. */
  ghost predicate GoodClaim(c: Crypto, pair: Pair, claim: Call, nonce: U64) {
    && pair.sender != pair.receiver
    && claim.ClaimCall? && Pair(claim.sender, claim.receiver) == pair && claim.now == 0 && claim.transferOk
    && |claim.signature| == SIGNATURE_LENGTH
    && c.verify(claim.signature, DigestOf(c, claim.receiver, nonce, claim.session, claim.amount), claim.sender)
  }

  /** A good claim on an open channel at its opening moment is paid, unless its session was consumed. */
  lemma ClaimNow(c: Crypto, calls: seq<Call>, pair: Pair, claim: Call)
    requires var s := Exec(c, calls);
             && pair in s.channel && s.channel[pair].expiration == 0
             && GoodClaim(c, pair, claim, s.channel[pair].nonce)
             && SessionKey(pair, claim.session) !in s.session
    ensures var s, t := Exec(c, calls), Exec(c, calls + [claim]);
            && pair in t.channel && OpenedMore(s.events, t.events, pair, 0)
            && |t.paid| == |s.paid| + 1 && t.paid[..|s.paid|] == s.paid
            && KeyOf(t.paid[|s.paid|]) == Key(pair, s.channel[pair].nonce, claim.session)
  {
    ExecSnoc(c, calls, claim);
    OpensSnoc(Exec(c, calls).events, ClaimPayment(pair.sender, pair.receiver, claim.amount));
  }

  /** Opening a closed channel and claiming at once pays, when the signature is good for the nonce. */
  lemma OpenAndClaim(c: Crypto, calls: seq<Call>, pair: Pair, claim: Call)
    requires pair !in Exec(c, calls).channel
    requires GoodClaim(c, pair, claim, Wrap(Opens(Exec(c, calls).events, pair), TWO_64))
    ensures var s, t := Exec(c, calls), Exec(c, calls + [OpenCallOf(pair)] + [claim]);
            && pair in t.channel && OpenedMore(s.events, t.events, pair, 1)
            && |t.paid| == |s.paid| + 1 && t.paid[..|s.paid|] == s.paid
            && KeyOf(t.paid[|s.paid|]) == Key(pair, Wrap(Opens(s.events, pair), TWO_64), claim.session)
  {
    OpenNow(c, calls, pair);
    RunInv(c, calls);
    assert PairInv(Exec(c, calls), pair);
    assert SessionKey(pair, claim.session) !in Exec(c, calls).session;
    ClaimNow(c, calls + [OpenCallOf(pair)], pair, claim);
  }

  /** One paid claim, after `m` idle openings, and the channel closed again. */
  function FirstRound(pair: Pair, m: nat, claim: Call): seq<Call> {
    Cycled([], pair, m) + [OpenCallOf(pair)] + [claim] + [CloseCallOf(pair)]
  }

  lemma FirstRoundRun(c: Crypto, pair: Pair, m: nat, claim: Call)
    requires GoodClaim(c, pair, claim, Wrap(m, TWO_64))
    ensures var s := Exec(c, FirstRound(pair, m, claim));
            && pair !in s.channel && OpenedMore([], s.events, pair, m + 1)
            && |s.paid| == 1 && KeyOf(s.paid[0]) == Key(pair, Wrap(m, TWO_64), claim.session)
  {
    CyclesRun(c, [], pair, m);
    OpenAndClaim(c, Cycled([], pair, m), pair, claim);
    CloseNow(c, Cycled([], pair, m) + [OpenCallOf(pair)] + [claim], pair);
  }

  /** The first round, `n` idle openings, and the same claim again. */
  function ReplayRun(pair: Pair, m: nat, claim: Call, n: nat): seq<Call> {
    Cycled(FirstRound(pair, m, claim), pair, n) + [OpenCallOf(pair)] + [claim]
  }

  /** A run that paid once, at `m` openings, and has seen 2^64 of them since, pays the same claim again. */
  lemma PaidAgain(c: Crypto, calls: seq<Call>, pair: Pair, m: nat, claim: Call)
    requires GoodClaim(c, pair, claim, Wrap(m, TWO_64))
    requires var s := Exec(c, calls);
             && pair !in s.channel && OpenedMore([], s.events, pair, m + TWO_64)
             && |s.paid| == 1 && KeyOf(s.paid[0]) == Key(pair, Wrap(m, TWO_64), claim.session)
    ensures var t := Exec(c, calls + [OpenCallOf(pair)] + [claim]);
            && OpenedMore([], t.events, pair, m + TWO_64 + 1)
            && |t.paid| == 2 && KeyOf(t.paid[0]) == KeyOf(t.paid[1])
  {
    var s := Exec(c, calls);
    assert Opens(s.events, pair) == m + TWO_64;
    OpenAndClaim(c, calls, pair, claim);
    var t := Exec(c, calls + [OpenCallOf(pair)] + [claim]);
    assert t.paid[0] == t.paid[..|s.paid|][0];
  }

  /** After 2^64 further openings the replayed claim is paid again, under the same
      (sender, receiver, nonce, session). */
  lemma ReplayAfterWrap(c: Crypto, pair: Pair, m: nat, claim: Call, n: nat)
    requires GoodClaim(c, pair, claim, Wrap(m, TWO_64)) && n + 1 == TWO_64
    ensures var t := Exec(c, ReplayRun(pair, m, claim, n));
            && OpenedMore([], t.events, pair, m + TWO_64 + 1)
            && |t.paid| == 2 && KeyOf(t.paid[0]) == KeyOf(t.paid[1])
  {
    FirstRoundRun(c, pair, m, claim);
    CyclesRun(c, FirstRound(pair, m, claim), pair, n);
    PaidAgain(c, Cycled(FirstRound(pair, m, claim), pair, n), pair, m, claim);
  }

  lemma FewOpeningsDoNotWrap(s: State, k: nat)
    requires OpenedAtMost(s, k) && k <= TWO_64
    ensures NoWrap(s)
  {
    forall q: Pair
      ensures Opens(s.events, q) <= TWO_64
    {
      assert Opens(s.events, q) <= k;
    }
  }

  /** For every number of openings beyond 2^64 there is a run that pays one tuple twice. */
  lemma WrappingRun(c: Crypto, pair: Pair, session: U32, amount: U128, sign: U64 -> seq<Byte>, k: nat)
    returns (run: seq<Call>)
    requires pair.sender != pair.receiver && k > TWO_64
    requires forall nonce: U64 :: |sign(nonce)| == SIGNATURE_LENGTH
               && c.verify(sign(nonce), DigestOf(c, pair.receiver, nonce, session, amount), pair.sender)
    ensures OpenedAtMost(Exec(c, run), k) && !PaidOncePerKey(Exec(c, run).paid)
  {
    var m := k - TWO_64 - 1;
    var claim := ClaimCall(pair.sender, pair.receiver, session, amount, sign(Wrap(m, TWO_64)), 0, true);
    ReplayAfterWrap(c, pair, m, claim, TWO_64 - 1);
    run := ReplayRun(pair, m, claim, TWO_64 - 1);
  }

  /** The exact threshold. For a sender able to sign for every nonce, all runs that open no pair more than
      `k` times pay each (sender, receiver, nonce, session) at most once if and only if k <= 2^64. */
  lemma AtMostOnceThreshold(c: Crypto, pair: Pair, session: U32, amount: U128, sign: U64 -> seq<Byte>, k: nat)
    requires pair.sender != pair.receiver
    requires forall nonce: U64 :: |sign(nonce)| == SIGNATURE_LENGTH
               && c.verify(sign(nonce), DigestOf(c, pair.receiver, nonce, session, amount), pair.sender)
    ensures (forall calls: seq<Call> ::
               OpenedAtMost(Exec(c, calls), k) ==> PaidOncePerKey(Exec(c, calls).paid))
       <==> k <= TWO_64
  {
    if k <= TWO_64 {
      forall calls: seq<Call> | OpenedAtMost(Exec(c, calls), k)
        ensures PaidOncePerKey(Exec(c, calls).paid)
      {
        FewOpeningsDoNotWrap(Exec(c, calls), k);
        AtMostOncePerKey(c, calls);
      }
    } else {
      var run := WrappingRun(c, pair, session, amount, sign, k);
    }
  }

  /** The refinement has the same threshold. For a sender able to sign for every nonce, the pallet returns the
      outcomes of the unpruned ledger in all runs that open no pair more than `k` times if and only if
      k <= 2^64. */
  lemma RefinementThreshold(c: Crypto, pair: Pair, session: U32, amount: U128, sign: U64 -> seq<Byte>, k: nat)
    requires pair.sender != pair.receiver
    requires forall nonce: U64 :: |sign(nonce)| == SIGNATURE_LENGTH
               && c.verify(sign(nonce), DigestOf(c, pair.receiver, nonce, session, amount), pair.sender)
    ensures (forall calls: seq<Call> ::
               OpenedAtMost(Exec(c, calls), k) ==> LedgerOutcomes(c, calls) == Outcomes(c, calls))
       <==> k <= TWO_64
  {
    if k <= TWO_64 {
      forall calls: seq<Call> | OpenedAtMost(Exec(c, calls), k)
        ensures LedgerOutcomes(c, calls) == Outcomes(c, calls)
      {
        FewOpeningsDoNotWrap(Exec(c, calls), k);
        RunRefines(c, calls);
      }
    } else {
      var run := WrappingRun(c, pair, session, amount, sign, k);
      if LedgerOutcomes(c, run) == Outcomes(c, run) {
        AgreeingRun(c, run);
      }
    }
  }
}
