/** One-way payment channels: the storage, what each call does to it, and runs of calls. */
module MicropaymentModel {
  import opened Bytes
  import opened SignedMessage

  type Digest = seq<Byte>

  const SIGNATURE_LENGTH: nat := 64

  /** The two primitives taken from outside: a hash, and a check of (signature, digest, public key). */
  datatype Crypto = Crypto(hash: seq<Byte> -> Digest, verify: (seq<Byte>, Digest, AccountId) -> bool)

  datatype Pair = Pair(sender: AccountId, receiver: AccountId)

  datatype Chan = Chan(sender: AccountId, receiver: AccountId, nonce: U64, openedAt: U64, expiration: U64)

  datatype SessionKey = SessionKey(pair: Pair, session: U32)

  datatype Event =
    | ChannelOpened(sender: AccountId, receiver: AccountId, nonce: U64, openedAt: U64, expiration: U64)
    | ChannelClosed(sender: AccountId, receiver: AccountId, at: U64)
    | ClaimPayment(sender: AccountId, receiver: AccountId, amount: U128)

  datatype Error = AlreadyOpened | SameAccount | NoChannel | SessionConsumed | BadSignature | TransferFailed

  /** A dispatch returns Ok or an error; Trap is the panic on a signature that is not 64 bytes long. */
  datatype Outcome = Ok | Err(error: Error) | Trap

  /** One executed currency transfer. The `epoch` counts the openings of the pair before the current one. */
  datatype Payment = Payment(pair: Pair, epoch: int, nonce: U64, session: U32, amount: U128,
                             signature: seq<Byte>, at: U64)

  /** The three storage maps and the event log, with the trail of executed transfers. */
  datatype State = State(channel: map<Pair, Chan>, nonce: map<Pair, U64>, session: map<SessionKey, bool>,
                         events: seq<Event>, paid: seq<Payment>)

  datatype Result = Result(state: State, outcome: Outcome)

  const GENESIS: State := State(map[], map[], map[], [], [])

  function NonceOf(s: State, pair: Pair): U64 {
    if pair in s.nonce then s.nonce[pair] else 0
  }

  function PairOf(e: Event): Pair {
    Pair(e.sender, e.receiver)
  }

  /** How often the log says the pair's channel was opened. */
  function Opens(events: seq<Event>, pair: Pair): nat {
    if events == [] then 0
    else
      var e := events[|events| - 1];
      Opens(events[..|events| - 1], pair) + if e.ChannelOpened? && PairOf(e) == pair then 1 else 0
  }

  /** Seconds become milliseconds in a wrapping u32 product; the sum saturates at the largest moment. */
  function Expiration(now: U64, duration: U32): U64 {
    var millis := Wrap(duration * 1000, TWO_32);
    if now + millis < TWO_64 then now + millis else TWO_64 - 1
  }

  function WithoutSessions(session: map<SessionKey, bool>, pair: Pair): map<SessionKey, bool> {
    map k | k in session && k.pair != pair :: session[k]
  }

  function Open(s: State, sender: AccountId, receiver: AccountId, duration: U32, now: U64): Result {
    var pair := Pair(sender, receiver);
    if pair in s.channel then Result(s, Err(AlreadyOpened))
    else if sender == receiver then Result(s, Err(SameAccount))
    else
      var nonce := NonceOf(s, pair);
      var expiration := Expiration(now, duration);
      Result(s.(channel := s.channel[pair := Chan(sender, receiver, nonce, now, expiration)],
                nonce := s.nonce[pair := Wrap(nonce + 1, TWO_64)],
                events := s.events + [ChannelOpened(sender, receiver, nonce, now, expiration)]),
             Ok)
  }

  /** Closing forgets the consumed sessions along with the channel. */
  function Closed(s: State, pair: Pair, now: U64): State {
    s.(channel := s.channel - {pair},
       session := WithoutSessions(s.session, pair),
       events := s.events + [ChannelClosed(pair.sender, pair.receiver, now)])
  }

  function Close(s: State, receiver: AccountId, sender: AccountId, now: U64): Result {
    var pair := Pair(sender, receiver);
    if pair !in s.channel then Result(s, Err(NoChannel))
    else Result(Closed(s, pair, now), Ok)
  }

  function DigestOf(c: Crypto, receiver: AccountId, nonce: U64, session: U32, amount: U128): Digest {
    c.hash(Layout(Message(receiver, nonce, session, amount)))
  }

  /** The checks a claim on an open, unexpired channel goes through, in order; Ok means it is paid. */
  function Verdict(c: Crypto, chan: Chan, consumed: bool, receiver: AccountId, sender: AccountId, session: U32,
                   amount: U128, signature: seq<Byte>, transferOk: bool): Outcome
  {
    if consumed then Err(SessionConsumed)
    else if |signature| != SIGNATURE_LENGTH then Trap
    else if !c.verify(signature, DigestOf(c, receiver, chan.nonce, session, amount), sender) then Err(BadSignature)
    else if !transferOk then Err(TransferFailed)
    else Ok
  }

  /** The sender's currency went to the receiver, and the session is used up. */
  function Paid(s: State, p: Payment): State {
    s.(session := s.session[SessionKey(p.pair, p.session) := true],
       events := s.events + [ClaimPayment(p.pair.sender, p.pair.receiver, p.amount)],
       paid := s.paid + [p])
  }

  function Claim(c: Crypto, s: State, receiver: AccountId, sender: AccountId, session: U32, amount: U128,
                 signature: seq<Byte>, now: U64, transferOk: bool): Result
  {
    var pair := Pair(sender, receiver);
    if pair !in s.channel then Result(s, Err(NoChannel))
    else
      var chan := s.channel[pair];
      if chan.expiration < now then Result(Closed(s, pair, now), Ok)
      else
        var consumed := SessionKey(pair, session) in s.session;
        var verdict := Verdict(c, chan, consumed, receiver, sender, session, amount, signature, transferOk);
        if verdict != Ok then Result(s, verdict)
        else
          var epoch := Opens(s.events, pair) - 1;
          Result(Paid(s, Payment(pair, epoch, chan.nonce, session, amount, signature, now)), Ok)
  }

  /** A signed extrinsic with the clock value it sees and, for a claim, the currency's verdict. */
  datatype Call =
    | OpenCall(sender: AccountId, receiver: AccountId, duration: U32, now: U64)
    | CloseCall(sender: AccountId, receiver: AccountId, now: U64)
    | ClaimCall(sender: AccountId, receiver: AccountId, session: U32, amount: U128, signature: seq<Byte>,
                now: U64, transferOk: bool)

  function Step(c: Crypto, s: State, call: Call): Result {
    match call
    case OpenCall(sender, receiver, duration, now) => Open(s, sender, receiver, duration, now)
    case CloseCall(sender, receiver, now) => Close(s, receiver, sender, now)
    case ClaimCall(sender, receiver, session, amount, signature, now, transferOk) =>
      Claim(c, s, receiver, sender, session, amount, signature, now, transferOk)
  }

  /** The state after a run from genesis. */
  function Exec(c: Crypto, calls: seq<Call>): State {
    if calls == [] then GENESIS
    else Step(c, Exec(c, calls[..|calls| - 1]), calls[|calls| - 1]).state
  }

  /** What each call of a run returned. */
  function Outcomes(c: Crypto, calls: seq<Call>): (outs: seq<Outcome>)
    ensures |outs| == |calls|
  {
    if calls == [] then []
    else
      var before := calls[..|calls| - 1];
      Outcomes(c, before) + [Step(c, Exec(c, before), calls[|calls| - 1]).outcome]
  }

  lemma ExecSnoc(c: Crypto, calls: seq<Call>, call: Call)
    ensures Exec(c, calls + [call]) == Step(c, Exec(c, calls), call).state
    ensures Outcomes(c, calls + [call]) == Outcomes(c, calls) + [Step(c, Exec(c, calls), call).outcome]
  {
    assert (calls + [call])[..|calls|] == calls;
  }

  lemma OpensSnoc(events: seq<Event>, e: Event)
    ensures forall pair: Pair :: Opens(events + [e], pair)
                           == Opens(events, pair) + if e.ChannelOpened? && PairOf(e) == pair then 1 else 0
  {
    assert (events + [e])[..|events|] == events;
  }

  /** For every clock and duration: the product keeps its remainder by 2^32, however often it wraps, and the
      sum stops at the last moment. */
  lemma ExpirationExact(now: U64, duration: U32)
    ensures var m := 1000 * duration % TWO_32;
            Expiration(now, duration) == if now + m < TWO_64 then now + m else TWO_64 - 1
  {
    WrapIsRemainder(duration * 1000, TWO_32);
  }

  /** An opening lasts for at most the requested time: exactly that long when neither the product nor the
      sum leaves its width, and up to the last moment when only the sum does. */
  lemma ExpirationWindow(now: U64, duration: U32)
    ensures now <= Expiration(now, duration) <= now + 1000 * duration
    ensures Expiration(now, duration) == now + 1000 * duration
       <==> 1000 * duration < TWO_32 && now + 1000 * duration < TWO_64
    ensures 1000 * duration < TWO_32 && now + 1000 * duration >= TWO_64 ==> Expiration(now, duration) == TWO_64 - 1
  {
    var product := duration * 1000;
    if product >= TWO_32 {
      assert Wrap(product, TWO_32) == Wrap(product - TWO_32, TWO_32);
    }
  }

  /** Durations from 4294968 seconds on leave the u32 product: the shortest of them lasts 0.7 seconds, while
      every shorter duration lasts as long as asked. */
  lemma LongDurationWraps(now: U64, duration: U32)
    ensures Expiration(0, 4294968) == 704
    ensures duration < 4294968 && now + 1000 * duration < TWO_64 ==> Expiration(now, duration) == now + 1000 * duration
  {
    assert Wrap(4294968 * 1000, TWO_32) == Wrap(4294968 * 1000 - TWO_32, TWO_32);
    ExpirationWindow(now, duration);
  }
}
