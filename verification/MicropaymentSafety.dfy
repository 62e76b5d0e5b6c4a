/** What every call keeps, and the two replay theorems: at most one payment per (pair, nonce, session),
    and at most one payment per digest. */
module MicropaymentSafety {
  import opened Bytes
  import opened SignedMessage
  import opened MicropaymentModel

  datatype Key = Key(pair: Pair, nonce: U64, session: U32)

  function KeyOf(p: Payment): Key {
    Key(p.pair, p.nonce, p.session)
  }

  function MessageOf(p: Payment): Message {
    Message(p.pair.receiver, p.nonce, p.session, p.amount)
  }

  function PaidDigest(c: Crypto, p: Payment): Digest {
    c.hash(Layout(MessageOf(p)))
  }

  ghost predicate PaidIn(paid: seq<Payment>, pair: Pair, epoch: int, session: U32) {
    exists i :: 0 <= i < |paid| && paid[i].pair == pair && paid[i].epoch == epoch && paid[i].session == session
  }

  ghost predicate DistinctEpochs(paid: seq<Payment>) {
    forall i, j :: 0 <= i < j < |paid| && paid[i].pair == paid[j].pair && paid[i].epoch == paid[j].epoch
      ==> paid[i].session != paid[j].session
  }

  /** What the storage of one pair says about the log and the transfers. The pruned session index agrees
      with the transfers of the current opening, and is empty while the channel is closed. */
  ghost predicate PairInv(s: State, pair: Pair) {
    && NonceOf(s, pair) == Wrap(Opens(s.events, pair), TWO_64)
    && (forall session: U32 ::
          SessionKey(pair, session) in s.session
          <==> pair in s.channel && PaidIn(s.paid, pair, Opens(s.events, pair) - 1, session))
    && (pair in s.channel ==>
          var chan := s.channel[pair];
          && pair.sender != pair.receiver
          && Pair(chan.sender, chan.receiver) == pair
          && Opens(s.events, pair) > 0
          && chan.nonce == Wrap(Opens(s.events, pair) - 1, TWO_64)
          && chan.openedAt <= chan.expiration)
  }

  ghost predicate PaymentInv(c: Crypto, s: State, p: Payment) {
    && 0 <= p.epoch < Opens(s.events, p.pair)
    && p.nonce == Wrap(p.epoch, TWO_64)
    && p.pair.sender != p.pair.receiver
    && |p.signature| == SIGNATURE_LENGTH
    && c.verify(p.signature, PaidDigest(c, p), p.pair.sender)
  }

  ghost predicate Inv(c: Crypto, s: State) {
    && (forall pair: Pair :: PairInv(s, pair))
    && (forall p | p in s.paid :: PaymentInv(c, s, p))
    && DistinctEpochs(s.paid)
  }

  lemma PaidInSnoc(paid: seq<Payment>, p: Payment)
    ensures forall pair, epoch, session: U32 ::
              PaidIn(paid + [p], pair, epoch, session)
              <==> PaidIn(paid, pair, epoch, session)
                   || (p.pair == pair && p.epoch == epoch && p.session == session)
  {
    forall pair, epoch, session: U32
      ensures PaidIn(paid + [p], pair, epoch, session)
         <==> PaidIn(paid, pair, epoch, session)
              || (p.pair == pair && p.epoch == epoch && p.session == session)
    {
      var after := paid + [p];
      if PaidIn(paid, pair, epoch, session) {
        var i :| 0 <= i < |paid| && paid[i].pair == pair && paid[i].epoch == epoch && paid[i].session == session;
        assert after[i] == paid[i];
      }
      assert after[|paid|] == p;
    }
  }

  /** Opening or closing changes no transfer, and the log only grows. */
  lemma PaymentsKept(c: Crypto, s: State, t: State)
    requires forall p | p in s.paid :: PaymentInv(c, s, p)
    requires forall pair: Pair :: Opens(s.events, pair) <= Opens(t.events, pair)
    ensures forall p | p in s.paid :: PaymentInv(c, t, p)
  {
    forall p | p in s.paid
      ensures PaymentInv(c, t, p)
    {
      assert PaymentInv(c, s, p);
    }
  }

  lemma OpenKeeps(c: Crypto, s: State, sender: AccountId, receiver: AccountId, duration: U32, now: U64)
    requires Inv(c, s)
    ensures Inv(c, Open(s, sender, receiver, duration, now).state)
  {
    var t := Open(s, sender, receiver, duration, now).state;
    if t != s {
      OpensSnoc(s.events, t.events[|s.events|]);
      PaymentsKept(c, s, t);
      NothingPaidYet(c, s, Pair(sender, receiver));
      assert PairInv(s, Pair(sender, receiver));
      forall pair: Pair | pair != Pair(sender, receiver)
        ensures PairInv(t, pair)
      {
        assert PairInv(s, pair);
      }
      OpenedPair(s, sender, receiver, duration, now);
    }
  }

  lemma OpenedPair(s: State, sender: AccountId, receiver: AccountId, duration: U32, now: U64)
    requires PairInv(s, Pair(sender, receiver))
    requires Open(s, sender, receiver, duration, now).outcome == Ok
    requires forall session: U32 ::
               !PaidIn(s.paid, Pair(sender, receiver), Opens(s.events, Pair(sender, receiver)), session)
    ensures PairInv(Open(s, sender, receiver, duration, now).state, Pair(sender, receiver))
  {
    var pair := Pair(sender, receiver);
    var t := Open(s, sender, receiver, duration, now).state;
    OpensSnoc(s.events, t.events[|s.events|]);
    WrapIncrement(Opens(s.events, pair), TWO_64);
  }

  lemma NothingPaidYet(c: Crypto, s: State, pair: Pair)
    requires forall p | p in s.paid :: PaymentInv(c, s, p)
    ensures forall session: U32 :: !PaidIn(s.paid, pair, Opens(s.events, pair), session)
  {
    forall i | 0 <= i < |s.paid|
      ensures s.paid[i].pair == pair ==> s.paid[i].epoch < Opens(s.events, pair)
    {
      assert PaymentInv(c, s, s.paid[i]);
    }
  }

  lemma ClosedKeeps(c: Crypto, s: State, pair: Pair, now: U64)
    requires Inv(c, s)
    ensures Inv(c, Closed(s, pair, now))
  {
    var t := Closed(s, pair, now);
    OpensSnoc(s.events, t.events[|s.events|]);
    PaymentsKept(c, s, t);
    forall q: Pair
      ensures PairInv(t, q)
    {
      assert PairInv(s, q);
    }
  }

  lemma ClaimKeeps(c: Crypto, s: State, receiver: AccountId, sender: AccountId, session: U32, amount: U128,
                   signature: seq<Byte>, now: U64, transferOk: bool)
    requires Inv(c, s)
    ensures Inv(c, Claim(c, s, receiver, sender, session, amount, signature, now, transferOk).state)
  {
    var t := Claim(c, s, receiver, sender, session, amount, signature, now, transferOk).state;
    var pair := Pair(sender, receiver);
    if |t.paid| == |s.paid| {
      ClosedKeeps(c, s, pair, now);
    } else {
      var p := t.paid[|s.paid|];
      assert t.paid == s.paid + [p];
      assert PairInv(s, pair);
      OpensSnoc(s.events, t.events[|s.events|]);
      PaymentsKept(c, s, t);
      PaidInSnoc(s.paid, p);
      forall q: Pair
        ensures PairInv(t, q)
      {
        assert PairInv(s, q);
      }
      DistinctSnoc(s.paid, p);
    }
  }

  lemma DistinctSnoc(paid: seq<Payment>, p: Payment)
    requires DistinctEpochs(paid) && !PaidIn(paid, p.pair, p.epoch, p.session)
    ensures DistinctEpochs(paid + [p])
  {
  }

  lemma {:induction false} RunInv(c: Crypto, calls: seq<Call>)
    ensures Inv(c, Exec(c, calls))
  {
    if calls != [] {
      var s := Exec(c, calls[..|calls| - 1]);
      RunInv(c, calls[..|calls| - 1]);
      match calls[|calls| - 1]
      case OpenCall(sender, receiver, duration, now) => OpenKeeps(c, s, sender, receiver, duration, now);
      case CloseCall(sender, receiver, now) => ClosedKeeps(c, s, Pair(sender, receiver), now);
      case ClaimCall(sender, receiver, session, amount, signature, now, transferOk) =>
        ClaimKeeps(c, s, receiver, sender, session, amount, signature, now, transferOk);
    }
  }

  /** No pair was opened so often that its u64 nonce came round again. */
  ghost predicate NoWrap(s: State) {
    forall pair: Pair :: Opens(s.events, pair) <= TWO_64
  }

  /** Over any run whatever, a pair pays at most once per opening and session. */
  lemma AtMostOncePerOpening(c: Crypto, calls: seq<Call>)
    ensures DistinctEpochs(Exec(c, calls).paid)
  {
    RunInv(c, calls);
  }

  /** How often the u64 nonce came round before the opening with this ordinal. */
  function Round(epoch: nat): nat {
    if epoch < TWO_64 then 0 else 1 + Round(epoch - TWO_64)
  }

  /** How many rounds of nonces `opens` openings have begun: `opens` / 2^64, rounded up. */
  function Rounds(opens: nat): nat {
    if opens == 0 then 0 else 1 + Round(opens - 1)
  }

  lemma {:induction false} RoundIsQuotient(epoch: nat)
    ensures Round(epoch) == epoch / TWO_64
  {
    if epoch >= TWO_64 {
      RoundIsQuotient(epoch - TWO_64);
    }
  }

  lemma RoundsIsCeiling(opens: nat)
    ensures Rounds(opens) == (opens + TWO_64 - 1) / TWO_64
  {
    if opens > 0 {
      RoundIsQuotient(opens - 1);
    }
  }

  lemma {:induction false} RoundAndNonce(d: nat, e: nat)
    requires Round(d) == Round(e) && Wrap(d, TWO_64) == Wrap(e, TWO_64)
    ensures d == e
  {
    if d >= TWO_64 && e >= TWO_64 {
      RoundAndNonce(d - TWO_64, e - TWO_64);
    }
  }

  lemma {:induction false} RoundGrows(d: nat, e: nat)
    requires d <= e
    ensures Round(d) <= Round(e)
  {
    if d >= TWO_64 {
      RoundGrows(d - TWO_64, e - TWO_64);
    }
  }

  /** Every payment's nonce is its epoch, wrapped. */
  ghost predicate Wrapped(paid: seq<Payment>) {
    forall p | p in paid :: p.epoch >= 0 && p.nonce == Wrap(p.epoch, TWO_64)
  }

  /** The positions of the payments under one key whose opening lies in the first `rounds` rounds. */
  ghost function PaymentsUnder(paid: seq<Payment>, key: Key, rounds: nat): set<nat>
    requires Wrapped(paid)
  {
    set i: nat | i < |paid| && KeyOf(paid[i]) == key && Round(paid[i].epoch) < rounds
  }

  lemma {:induction false} AtMostOneARound(paid: seq<Payment>, key: Key, rounds: nat)
    requires Wrapped(paid) && DistinctEpochs(paid)
    ensures |PaymentsUnder(paid, key, rounds)| <= rounds
  {
    if rounds > 0 {
      AtMostOneARound(paid, key, rounds - 1);
      var all, earlier := PaymentsUnder(paid, key, rounds), PaymentsUnder(paid, key, rounds - 1);
      if i :| i in all && i !in earlier {
        forall j | j in all && j !in earlier
          ensures i == j
        {
          RoundAndNonce(paid[i].epoch, paid[j].epoch);
        }
        assert all == earlier + {i};
      } else {
        assert all == earlier;
      }
    }
  }

  /** Over any run whatever, a (sender, receiver, nonce, session) is paid at most once per begun round of
      2^64 openings of the pair. */
  lemma PaidOncePerRound(c: Crypto, calls: seq<Call>, key: Key)
    ensures var s := Exec(c, calls);
            |set i: nat | i < |s.paid| && KeyOf(s.paid[i]) == key| <= Rounds(Opens(s.events, key.pair))
  {
    RunInv(c, calls);
    var s := Exec(c, calls);
    PaymentsWrapped(c, s);
    var rounds := Rounds(Opens(s.events, key.pair));
    forall i: nat | i < |s.paid| && KeyOf(s.paid[i]) == key
      ensures Round(s.paid[i].epoch) < rounds
    {
      assert PaymentInv(c, s, s.paid[i]);
      RoundGrows(s.paid[i].epoch, Opens(s.events, key.pair) - 1);
    }
    assert PaymentsUnder(s.paid, key, rounds) == set i: nat | i < |s.paid| && KeyOf(s.paid[i]) == key;
    AtMostOneARound(s.paid, key, rounds);
  }

  lemma PaymentsWrapped(c: Crypto, s: State)
    requires Inv(c, s)
    ensures Wrapped(s.paid)
  {
    forall p | p in s.paid
      ensures p.epoch >= 0 && p.nonce == Wrap(p.epoch, TWO_64)
    {
      assert PaymentInv(c, s, p);
    }
  }

  ghost predicate PaidOncePerKey(paid: seq<Payment>) {
    forall i, j :: 0 <= i < j < |paid| ==> KeyOf(paid[i]) != KeyOf(paid[j])
  }

  /** Without nonce wrap-around, each (sender, receiver, nonce, session) leads to at most one transfer,
      whatever was signed and however often the channel was closed, expired and opened again. */
  lemma AtMostOncePerKey(c: Crypto, calls: seq<Call>)
    requires NoWrap(Exec(c, calls))
    ensures PaidOncePerKey(Exec(c, calls).paid)
  {
    var s := Exec(c, calls);
    forall i: nat, j: nat | i < j < |s.paid|
      ensures KeyOf(s.paid[i]) != KeyOf(s.paid[j])
    {
      var key := KeyOf(s.paid[i]);
      var same := set k: nat | k < |s.paid| && KeyOf(s.paid[k]) == key;
      PaidOncePerRound(c, calls, key);
      assert Opens(s.events, key.pair) <= TWO_64;
      assert |same - {i}| == |same| - 1;
      assert j in same ==> j in same - {i};
    }
  }

  /** No two different messages that this trail was paid for share a digest. */
  ghost predicate NoCollision(c: Crypto, paid: seq<Payment>) {
    forall p, q | p in paid && q in paid ::
      PaidDigest(c, p) == PaidDigest(c, q) ==> Layout(MessageOf(p)) == Layout(MessageOf(q))
  }

  lemma SubsetSize<T>(a: set<T>, b: set<T>)
    requires a <= b
    ensures |a| <= |b|
  {
    assert b == a + (b - a);
  }

  /** Over any run, the payments of one sender under one digest, across all receivers, channels and
      reopenings, are at most one per begun round of 2^64 openings of the pair they share. */
  lemma DigestPaidOncePerRound(c: Crypto, calls: seq<Call>, p: Payment)
    requires p in Exec(c, calls).paid && NoCollision(c, Exec(c, calls).paid)
    ensures var s := Exec(c, calls);
            |set i: nat | i < |s.paid| && s.paid[i].pair.sender == p.pair.sender
                          && PaidDigest(c, s.paid[i]) == PaidDigest(c, p)|
            <= Rounds(Opens(s.events, p.pair))
  {
    var paid := Exec(c, calls).paid;
    var same := set i: nat | i < |paid| && paid[i].pair.sender == p.pair.sender
                             && PaidDigest(c, paid[i]) == PaidDigest(c, p);
    var under := set i: nat | i < |paid| && KeyOf(paid[i]) == KeyOf(p);
    forall i | i in same
      ensures i in under
    {
      assert paid[i] in paid;
      LayoutInjective(MessageOf(paid[i]), MessageOf(p));
    }
    PaidOncePerRound(c, calls, KeyOf(p));
    SubsetSize(same, under);
  }

  /** So, without nonce wrap-around, a digest signed by one sender pays once. */
  lemma OneDigestPaysOnce(c: Crypto, calls: seq<Call>, i: nat, j: nat)
    requires NoWrap(Exec(c, calls)) && NoCollision(c, Exec(c, calls).paid)
    requires i < |Exec(c, calls).paid| && j < |Exec(c, calls).paid|
    ensures var paid := Exec(c, calls).paid;
            paid[i].pair.sender == paid[j].pair.sender && PaidDigest(c, paid[i]) == PaidDigest(c, paid[j])
            ==> i == j
  {
    var s := Exec(c, calls);
    var p := s.paid[i];
    var same := set k: nat | k < |s.paid| && s.paid[k].pair.sender == p.pair.sender
                             && PaidDigest(c, s.paid[k]) == PaidDigest(c, p);
    DigestPaidOncePerRound(c, calls, p);
    assert Opens(s.events, p.pair) <= TWO_64;
    assert i in same && |same - {i}| == |same| - 1;
    assert j in same && j != i ==> j in same - {i};
  }

  /** Every transfer was backed by a 64-byte signature of the sender over exactly the paid message. */
  lemma EveryPaymentSigned(c: Crypto, calls: seq<Call>, p: Payment)
    requires p in Exec(c, calls).paid
    ensures |p.signature| == 64 && c.verify(p.signature, PaidDigest(c, p), p.pair.sender)
    ensures p.pair.sender != p.pair.receiver
  {
    RunInv(c, calls);
    assert PaymentInv(c, Exec(c, calls), p);
  }
}
