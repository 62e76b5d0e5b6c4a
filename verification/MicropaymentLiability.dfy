/** What a sender can lose: never more than, per (nonce, session), the largest amount it ever signed. */
module MicropaymentLiability {
  import opened Bytes
  import opened MapSums
  import opened SignedMessage
  import opened MicropaymentModel
  import opened MicropaymentSafety

  /** A message some sender really signed, at any time and for any receiver. */
  datatype Authorization = Authorization(sender: AccountId, message: Message)

  datatype Slot = Slot(nonce: U64, session: U32)

  /** Every signature accepted in the trail is over the digest of something its sender signed. */
  ghost predicate Unforged(c: Crypto, paid: seq<Payment>, signed: set<Authorization>) {
    forall p | p in paid && c.verify(p.signature, PaidDigest(c, p), p.pair.sender) ::
      exists a :: a in signed && a.sender == p.pair.sender && c.hash(Layout(a.message)) == PaidDigest(c, p)
  }

  /** No paid message shares its digest with a different signed message. */
  ghost predicate NoSignedCollision(c: Crypto, paid: seq<Payment>, signed: set<Authorization>) {
    forall p, a | p in paid && a in signed && c.hash(Layout(a.message)) == PaidDigest(c, p) ::
      Layout(a.message) == Layout(MessageOf(p))
  }

  ghost predicate Signs(a: Authorization, pair: Pair, slot: Slot) {
    a.sender == pair.sender && a.message.receiver == pair.receiver
    && a.message.nonce == slot.nonce && a.message.session == slot.session
  }

  ghost function Amounts(signed: set<Authorization>, pair: Pair, slot: Slot): set<U128> {
    set a | a in signed && Signs(a, pair, slot) :: a.message.amount
  }

  ghost function Largest(amounts: set<U128>): (m: nat)
    ensures forall x | x in amounts :: x <= m
    ensures if amounts == {} then m == 0 else m in amounts
  {
    if amounts == {} then 0
    else
      var x :| x in amounts;
      assert amounts == (amounts - {x}) + {x};
      var m := Largest(amounts - {x});
      if m <= x then x else m
  }

  /** The largest amount signed for each slot of the pair. */
  ghost function Caps(signed: set<Authorization>, pair: Pair): map<Slot, nat> {
    map slot | slot in set a | a in signed && a.sender == pair.sender && a.message.receiver == pair.receiver ::
                                 Slot(a.message.nonce, a.message.session)
      :: Largest(Amounts(signed, pair, slot))
  }

  function TotalPaid(paid: seq<Payment>, pair: Pair): nat {
    if paid == [] then 0
    else
      var p := paid[|paid| - 1];
      TotalPaid(paid[..|paid| - 1], pair) + if p.pair == pair then p.amount else 0
  }

  function PaidSlots(paid: seq<Payment>, pair: Pair): map<Slot, nat> {
    if paid == [] then map[]
    else
      var p, slots := paid[|paid| - 1], PaidSlots(paid[..|paid| - 1], pair);
      if p.pair == pair then slots[Slot(p.nonce, p.session) := p.amount] else slots
  }

  /** When no slot is paid twice, the total is the sum over the paid slots. */
  lemma {:induction false} TotalIsSumOfSlots(paid: seq<Payment>, pair: Pair)
    requires PaidOncePerKey(paid)
    ensures TotalPaid(paid, pair) == Sum(PaidSlots(paid, pair))
    ensures forall slot | slot in PaidSlots(paid, pair) ::
              exists i :: 0 <= i < |paid| && paid[i].pair == pair
                          && Slot(paid[i].nonce, paid[i].session) == slot
                          && PaidSlots(paid, pair)[slot] == paid[i].amount
  {
    if paid != [] {
      var front, p := paid[..|paid| - 1], paid[|paid| - 1];
      TotalIsSumOfSlots(front, pair);
      var slots := PaidSlots(front, pair);
      if p.pair == pair {
        SumUpdate(slots, Slot(p.nonce, p.session), p.amount);
        forall i | 0 <= i < |front| && front[i].pair == pair
          ensures Slot(front[i].nonce, front[i].session) != Slot(p.nonce, p.session)
        {
          assert KeyOf(paid[i]) != KeyOf(paid[|paid| - 1]);
        }
      }
      forall slot | slot in PaidSlots(paid, pair)
        ensures exists i :: 0 <= i < |paid| && paid[i].pair == pair
                            && Slot(paid[i].nonce, paid[i].session) == slot
                            && PaidSlots(paid, pair)[slot] == paid[i].amount
      {
        if p.pair == pair && slot == Slot(p.nonce, p.session) {
          assert paid[|paid| - 1].pair == pair;
        } else {
          var i :| 0 <= i < |front| && front[i].pair == pair
                   && Slot(front[i].nonce, front[i].session) == slot && slots[slot] == front[i].amount;
          assert paid[i] == front[i];
        }
      }
    }
  }

  /** A paid slot is a slot the sender signed, for at least the amount paid. */
  // The run is not taken apart here: the attribute keeps the prover from trying induction on it.
  lemma {:induction false} PaidWithinCap(c: Crypto, calls: seq<Call>, signed: set<Authorization>, p: Payment)
    requires var paid := Exec(c, calls).paid;
             p in paid && Unforged(c, paid, signed) && NoSignedCollision(c, paid, signed)
    ensures Slot(p.nonce, p.session) in Caps(signed, p.pair)
    ensures p.amount <= Caps(signed, p.pair)[Slot(p.nonce, p.session)]
  {
    EveryPaymentSigned(c, calls, p);
    var a :| a in signed && a.sender == p.pair.sender && c.hash(Layout(a.message)) == PaidDigest(c, p);
    LayoutInjective(a.message, MessageOf(p));
    var slot := Slot(p.nonce, p.session);
    assert Slot(a.message.nonce, a.message.session) == slot;
    assert Signs(a, p.pair, slot) && p.amount in Amounts(signed, p.pair, slot);
  }

  /** The payments of one pair made in one round of nonces. */
  function InRound(paid: seq<Payment>, pair: Pair, r: nat): seq<Payment>
    requires Wrapped(paid)
  {
    if paid == [] then []
    else
      var front, p := paid[..|paid| - 1], paid[|paid| - 1];
      InRound(front, pair, r) + if p.pair == pair && Round(p.epoch) == r then [p] else []
  }

  lemma {:induction false} InRoundOnce(paid: seq<Payment>, pair: Pair, r: nat)
    requires Wrapped(paid) && DistinctEpochs(paid)
    ensures PaidOncePerKey(InRound(paid, pair, r))
    ensures forall p | p in InRound(paid, pair, r) :: p in paid && p.pair == pair && Round(p.epoch) == r
  {
    if paid != [] {
      var front, p := paid[..|paid| - 1], paid[|paid| - 1];
      InRoundOnce(front, pair, r);
      var ps := InRound(front, pair, r);
      forall i | 0 <= i < |ps| && p.pair == pair && Round(p.epoch) == r
        ensures KeyOf(ps[i]) != KeyOf(p)
      {
        assert ps[i] in front;
        var k :| 0 <= k < |front| && front[k] == ps[i];
        assert paid[k] == ps[i];
        if ps[i].nonce == p.nonce {
          RoundAndNonce(ps[i].epoch, p.epoch);
        }
      }
    }
  }

  function SumRounds(paid: seq<Payment>, pair: Pair, rounds: nat): nat
    requires Wrapped(paid)
  {
    if rounds == 0 then 0
    else SumRounds(paid, pair, rounds - 1) + TotalPaid(InRound(paid, pair, rounds - 1), pair)
  }

  lemma TotalPaidSnoc(paid: seq<Payment>, p: Payment, pair: Pair)
    ensures TotalPaid(paid + [p], pair) == TotalPaid(paid, pair) + if p.pair == pair then p.amount else 0
  {
    assert (paid + [p])[..|paid|] == paid;
  }

  /** One more payment adds its amount to the one round it falls into. */
  lemma {:induction false} SumRoundsGrows(paid: seq<Payment>, pair: Pair, rounds: nat)
    requires Wrapped(paid) && paid != []
    ensures var front, p := paid[..|paid| - 1], paid[|paid| - 1];
            SumRounds(paid, pair, rounds) == SumRounds(front, pair, rounds)
              + if p.pair == pair && Round(p.epoch) < rounds then p.amount else 0
  {
    if rounds > 0 {
      SumRoundsGrows(paid, pair, rounds - 1);
      var front, p := paid[..|paid| - 1], paid[|paid| - 1];
      TotalPaidSnoc(InRound(front, pair, rounds - 1), p, pair);
      assert InRound(front, pair, rounds - 1) + [] == InRound(front, pair, rounds - 1);
    }
  }

  lemma {:induction false} NothingPaid(pair: Pair, rounds: nat)
    ensures SumRounds([], pair, rounds) == 0
  {
    if rounds > 0 {
      NothingPaid(pair, rounds - 1);
    }
  }

  lemma {:induction false} TotalByRounds(paid: seq<Payment>, pair: Pair, rounds: nat)
    requires Wrapped(paid)
    requires forall p | p in paid && p.pair == pair :: Round(p.epoch) < rounds
    ensures TotalPaid(paid, pair) == SumRounds(paid, pair, rounds)
  {
    if paid == [] {
      NothingPaid(pair, rounds);
    } else {
      TotalByRounds(paid[..|paid| - 1], pair, rounds);
      SumRoundsGrows(paid, pair, rounds);
    }
  }

  /** In one round, what is paid stays within what was signed. */
  lemma RoundWithinCaps(c: Crypto, calls: seq<Call>, signed: set<Authorization>, pair: Pair, r: nat)
    requires Wrapped(Exec(c, calls).paid)
    requires Unforged(c, Exec(c, calls).paid, signed) && NoSignedCollision(c, Exec(c, calls).paid, signed)
    ensures TotalPaid(InRound(Exec(c, calls).paid, pair, r), pair) <= Sum(Caps(signed, pair))
  {
    AtMostOncePerOpening(c, calls);
    InRoundOnce(Exec(c, calls).paid, pair, r);
    var paid := InRound(Exec(c, calls).paid, pair, r);
    TotalIsSumOfSlots(paid, pair);
    var slots := PaidSlots(paid, pair);
    forall slot | slot in slots
      ensures slot in Caps(signed, pair) && slots[slot] <= Caps(signed, pair)[slot]
    {
      var i :| 0 <= i < |paid| && paid[i].pair == pair
               && Slot(paid[i].nonce, paid[i].session) == slot && slots[slot] == paid[i].amount;
      assert paid[i] in paid;
      PaidWithinCap(c, calls, signed, paid[i]);
    }
    SumMonotone(slots, Caps(signed, pair));
  }

  lemma {:induction false} SumRoundsBound(paid: seq<Payment>, pair: Pair, rounds: nat, cap: nat)
    requires Wrapped(paid) && forall r: nat :: TotalPaid(InRound(paid, pair, r), pair) <= cap
    ensures SumRounds(paid, pair, rounds) <= rounds * cap
  {
    if rounds > 0 {
      SumRoundsBound(paid, pair, rounds - 1, cap);
      assert rounds * cap == (rounds - 1) * cap + cap;
    }
  }

  lemma EveryPaymentInARound(c: Crypto, s: State, pair: Pair)
    requires Inv(c, s) && Wrapped(s.paid)
    ensures forall p | p in s.paid && p.pair == pair :: Round(p.epoch) < Rounds(Opens(s.events, pair))
  {
    forall p | p in s.paid && p.pair == pair
      ensures Round(p.epoch) < Rounds(Opens(s.events, pair))
    {
      assert PaymentInv(c, s, p);
      RoundGrows(p.epoch, Opens(s.events, pair) - 1);
    }
  }

  /** Over every run, the total a sender pays a receiver is at most the sum, over the (nonce, session) slots
      it signed for that receiver, of the largest amount it signed for the slot, once per begun round of 2^64
      openings of the pair. */
  // The run is not taken apart here: the attribute keeps the prover from trying induction on it.
  lemma {:induction false} LiabilityBound(c: Crypto, calls: seq<Call>, signed: set<Authorization>, pair: Pair)
    requires Unforged(c, Exec(c, calls).paid, signed) && NoSignedCollision(c, Exec(c, calls).paid, signed)
    ensures var s := Exec(c, calls);
            TotalPaid(s.paid, pair) <= Rounds(Opens(s.events, pair)) * Sum(Caps(signed, pair))
  {
    var s := Exec(c, calls);
    RunInv(c, calls);
    PaymentsWrapped(c, s);
    EveryPaymentInARound(c, s, pair);
    TotalByRounds(s.paid, pair, Rounds(Opens(s.events, pair)));
    forall r: nat
      ensures TotalPaid(InRound(s.paid, pair, r), pair) <= Sum(Caps(signed, pair))
    {
      RoundWithinCaps(c, calls, signed, pair, r);
    }
    SumRoundsBound(s.paid, pair, Rounds(Opens(s.events, pair)), Sum(Caps(signed, pair)));
  }

  /** While the pair's nonce has not wrapped, the caps themselves are the bound. */
  lemma LiabilityBeforeWrap(c: Crypto, calls: seq<Call>, signed: set<Authorization>, pair: Pair)
    requires Unforged(c, Exec(c, calls).paid, signed) && NoSignedCollision(c, Exec(c, calls).paid, signed)
    requires Opens(Exec(c, calls).events, pair) <= TWO_64
    ensures TotalPaid(Exec(c, calls).paid, pair) <= Sum(Caps(signed, pair))
  {
    LiabilityBound(c, calls, signed, pair);
    FewRounds(Opens(Exec(c, calls).events, pair), Sum(Caps(signed, pair)));
  }

  lemma FewRounds(opens: nat, cap: nat)
    requires opens <= TWO_64
    ensures Rounds(opens) * cap <= cap
  {
    assert Rounds(opens) == if opens == 0 then 0 else 1;
  }
}
