/** The pallet itself: an object whose dispatchables update the storage maps in place. */
module MicropaymentPallet {
  import opened Bytes
  import opened SignedMessage
  import opened MicropaymentModel

  class Pallet {
    const crypto: Crypto
    var channel: map<Pair, Chan>
    var nonce: map<Pair, U64>
    var session: map<SessionKey, bool>
    var events: seq<Event>
    ghost var paid: seq<Payment>

    ghost function View(): State
      reads this
    {
      State(channel, nonce, session, events, paid)
    }

    constructor (crypto: Crypto)
      ensures this.crypto == crypto && View() == GENESIS
    {
      this.crypto := crypto;
      channel, nonce, session, events, paid := map[], map[], map[], [], [];
    }

    method OpenChannel(origin: AccountId, receiver: AccountId, duration: U32, now: U64) returns (r: Outcome)
      modifies this
      ensures Result(View(), r) == Open(old(View()), origin, receiver, duration, now)
    {
      var pair := Pair(origin, receiver);
      if pair in channel {
        return Err(AlreadyOpened);
      }
      if origin == receiver {
        return Err(SameAccount);
      }
      var next := if pair in nonce then nonce[pair] else 0;
      var millis: U32 := duration * 1000 % TWO_32;
      WrapIsRemainder(duration * 1000, TWO_32);
      var expiration: U64 := if now + millis < TWO_64 then now + millis else TWO_64 - 1;
      channel := channel[pair := Chan(origin, receiver, next, now, expiration)];
      var following: U64 := (next + 1) % TWO_64;
      WrapIsRemainder(next + 1, TWO_64);
      nonce := nonce[pair := following];
      events := events + [ChannelOpened(origin, receiver, next, now, expiration)];
      return Ok;
    }

    method RemoveChannel(pair: Pair)
      modifies this`channel, this`session
      ensures channel == old(channel) - {pair}
      ensures session == WithoutSessions(old(session), pair)
    {
      session := map k | k in session && k.pair != pair :: session[k];
      channel := channel - {pair};
    }

    method CloseChannel(origin: AccountId, sender: AccountId, now: U64) returns (r: Outcome)
      modifies this
      ensures Result(View(), r) == Close(old(View()), origin, sender, now)
    {
      var pair := Pair(sender, origin);
      if pair !in channel {
        return Err(NoChannel);
      }
      RemoveChannel(pair);
      events := events + [ChannelClosed(sender, origin, now)];
      return Ok;
    }

    method ClaimPayment(origin: AccountId, sender: AccountId, sessionId: U32, amount: U128,
                        signature: seq<Byte>, now: U64, transferOk: bool) returns (r: Outcome)
      modifies this
      ensures Result(View(), r)
           == Claim(crypto, old(View()), origin, sender, sessionId, amount, signature, now, transferOk)
    {
      var pair := Pair(sender, origin);
      if pair !in channel {
        return Err(NoChannel);
      }
      var chan := channel[pair];
      if chan.expiration < now {
        RemoveChannel(pair);
        events := events + [ChannelClosed(sender, origin, now)];
        return Ok;
      }
      var key := SessionKey(pair, sessionId);
      if key in session {
        return Err(SessionConsumed);
      }
      var verified := VerifySignature(sender, origin, chan.nonce, sessionId, amount, signature);
      if verified != Ok {
        return verified;
      }
      if !transferOk {
        return Err(TransferFailed);
      }
      paid := paid + [Payment(pair, Opens(events, pair) - 1, chan.nonce, sessionId, amount, signature, now)];
      session := session[key := true];
      events := events + [Event.ClaimPayment(sender, origin, amount)];
      return Ok;
    }

    method VerifySignature(sender: AccountId, receiver: AccountId, nonce: U64, sessionId: U32, amount: U128,
                           signature: seq<Byte>) returns (r: Outcome)
      ensures r == Ok <==>
              |signature| == 64
              && crypto.verify(signature, DigestOf(crypto, receiver, nonce, sessionId, amount), sender)
      ensures r == Trap <==> |signature| != 64
      ensures r.Err? ==> r.error == BadSignature
    {
      if |signature| != SIGNATURE_LENGTH {
        return Trap;
      }
      var digest := ConstructByteArrayAndHash(receiver, nonce, sessionId, amount);
      if crypto.verify(signature, digest, sender) {
        return Ok;
      }
      return Err(BadSignature);
    }

    method ConstructByteArrayAndHash(address: AccountId, nonce: U64, sessionId: U32, amount: U128)
      returns (digest: Digest)
      ensures var m := Message(address, nonce, sessionId, amount);
              digest == crypto.hash(Layout(m)) && Parse(Layout(m)) == Some(m)
    {
      var data: seq<Byte> := [];
      data := data + address;
      data := data + BigEndian(nonce, 8);
      data := data + BigEndian(sessionId, 4);
      data := data + LittleEndian(amount, 16);
      assert data == Layout(Message(address, nonce, sessionId, amount));
      ParseLayout(Message(address, nonce, sessionId, amount));
      digest := crypto.hash(data);
    }

    /** One call of the runtime reaches its dispatchable. */
    method Dispatch(call: Call) returns (r: Outcome)
      modifies this
      ensures Result(View(), r) == Step(crypto, old(View()), call)
    {
      match call
      case OpenCall(sender, receiver, duration, now) => r := OpenChannel(sender, receiver, duration, now);
      case CloseCall(sender, receiver, now) => r := CloseChannel(receiver, sender, now);
      case ClaimCall(sender, receiver, session, amount, signature, now, transferOk) =>
        r := ClaimPayment(receiver, sender, session, amount, signature, now, transferOk);
    }
  }

  /** A whole run on a new pallet object: it ends in the state, and returns the outcomes, of the modelled run. */
  method Run(crypto: Crypto, calls: seq<Call>) returns (p: Pallet, outs: seq<Outcome>)
    ensures fresh(p) && p.View() == Exec(crypto, calls) && outs == Outcomes(crypto, calls)
  {
    p := new Pallet(crypto);
    outs := [];
    for i := 0 to |calls|
      invariant fresh(p) && p.crypto == crypto
      invariant p.View() == Exec(crypto, calls[..i]) && outs == Outcomes(crypto, calls[..i])
    {
      var r := p.Dispatch(calls[i]);
      outs := outs + [r];
      ExecSnoc(crypto, calls[..i], calls[i]);
      assert calls[..i + 1] == calls[..i] + [calls[i]];
    }
    assert calls[..|calls|] == calls;
  }
}
